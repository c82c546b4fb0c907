/**
 * The JSON-RPC request side of the aria2 client: the `Param` union and its
 * JSON form, the conversion of a caller's argument list into parameters,
 * the request envelope with the secret token in front, and the fixed
 * method-name/parameter table of the convenience calls. The network round
 * trip is not modelled; a request is the value that would be POSTed.
 */
module Aria2RPC {
  import opened Wrappers
  import opened Json
  import opened SwiftText

  // ---------------------------------------------------------------------------
  // Records the daemon reports (decoded field by field, all as strings)
  // ---------------------------------------------------------------------------

  datatype Uri = Uri(status: string, uri: string)

  datatype File = File(
    completedLength: string,
    index: string,
    length: string,
    path: string,
    selected: string,
    uris: seq<Uri>)

  datatype TaskObject = TaskObject(
    bitfield: Option<string>,
    completedLength: string,
    connections: string,
    downloadSpeed: string,
    files: Option<seq<File>>,
    gid: string,
    status: string,
    totalLength: string,
    uploadSpeed: string)

  datatype GlobalStat = GlobalStat(
    downloadSpeed: string,
    uploadSpeed: string,
    numActive: string,
    numWaiting: string,
    numStopped: string,
    numStoppedTotal: string)

  // ---------------------------------------------------------------------------
  // Param: a positional JSON-RPC parameter
  // ---------------------------------------------------------------------------

  datatype Param = Str(s: string) | Int(i: Int64) | Arr(a: seq<string>)

  /** Encoding writes the bare value: the case tag never reaches the wire. */
  function EncodeParam(p: Param): (j: Json)
    ensures !j.JObject?
    ensures j.JArray? <==> p.Arr?
    ensures p.Arr? ==> |j.items| == |p.a| && forall k :: 0 <= k < |p.a| ==> j.items[k] == JString(p.a[k])
  {
    match p
    case Str(s) => JString(s)
    case Int(i) => JInt(i)
    case Arr(a) => JArray(seq(|a|, k requires 0 <= k < |a| => JString(a[k])))
  }

  /**
   * Decoding tries a 64-bit integer first, then a string, and fails on
   * anything else; in particular it never yields `Arr`.
   */
  function DecodeParam(j: Json): (r: Option<Param>)
    ensures r.Some? <==> j.JString? || (j.JInt? && InInt64(j.n))
    ensures j.JInt? && InInt64(j.n) ==> r == Some(Int(j.n))
    ensures j.JString? ==> r == Some(Str(j.s))
    ensures r.Some? ==> !r.value.Arr?
  {
    if j.JInt? && InInt64(j.n) then Some(Int(j.n))
    else if j.JString? then Some(Str(j.s))
    else None
  }

  /** Scalars survive an encode/decode round trip with their case and value. */
  lemma ScalarRoundTrip(p: Param)
    requires !p.Arr?
    ensures DecodeParam(EncodeParam(p)) == Some(p)
  {
  }

  /** An encoded list parameter cannot be read back by `DecodeParam`. */
  lemma ArrayParamDoesNotRoundTrip(a: seq<string>)
    ensures DecodeParam(EncodeParam(Arr(a))) == None
  {
  }

  /** Reads a JSON array whose elements are all strings. */
  function DecodeStrings(items: seq<Json>): (r: Option<seq<string>>)
    ensures r.Some? <==> forall k :: 0 <= k < |items| ==> items[k].JString?
    ensures r.Some? ==> |r.value| == |items| && forall k :: 0 <= k < |items| ==> items[k] == JString(r.value[k])
    decreases |items|
  {
    if items == [] then Some([])
    else if !items[0].JString? then None
    else
      match DecodeStrings(items[1..])
      case None => None
      case Some(rest) => Some([items[0].s] + rest)
  }

  /** The decoder with the list case that `DecodeParam` lacks. */
  function DecodeParamWithArrays(j: Json): (r: Option<Param>)
    ensures j.JInt? && InInt64(j.n) ==> r == Some(Int(j.n))
    ensures r.Some? && r.value.Arr? ==> j.JArray?
  {
    if j.JInt? && InInt64(j.n) then Some(Int(j.n))
    else if j.JString? then Some(Str(j.s))
    else if j.JArray? then
      match DecodeStrings(j.items)
      case Some(a) => Some(Arr(a))
      case None => None
    else None
  }

  /** With the list case in place every parameter round-trips. */
  lemma ParamRoundTripWithArrays(p: Param)
    ensures DecodeParamWithArrays(EncodeParam(p)) == Some(p)
  {
    if p.Arr? {
      var j := EncodeParam(p);
      var r := DecodeStrings(j.items);
      assert r.Some?;
      assert r.value == p.a;
    }
  }

  // ---------------------------------------------------------------------------
  // Caller arguments and their conversion
  // ---------------------------------------------------------------------------

  /** A caller-supplied argument of Swift type `Any`. */
  datatype Arg =
    | IntArg(i: Int64)
    | StringArg(s: string)
    | StringArrayArg(a: seq<string>)
    | UnsupportedArg

  function ConvertArg(x: Arg): Option<Param> {
    match x
    case IntArg(i) => Some(Int(i))
    case StringArg(s) => Some(Str(s))
    case StringArrayArg(a) => Some(Arr(a))
    case UnsupportedArg => None
  }

  /**
   * Maps each argument to its parameter, one for one and in order; an
   * argument of any other type aborts the whole call.
   */
  function ConvertParams(args: seq<Arg>): (r: Option<seq<Param>>)
    ensures r.Some? <==> forall k :: 0 <= k < |args| ==> !args[k].UnsupportedArg?
    ensures r.Some? ==> |r.value| == |args|
    ensures r.Some? ==> forall k :: 0 <= k < |args| ==> ConvertArg(args[k]) == Some(r.value[k])
    decreases |args|
  {
    if args == [] then Some([])
    else
      match (ConvertArg(args[0]), ConvertParams(args[1..]))
      case (Some(p), Some(ps)) => Some([p] + ps)
      case _ => None
  }

  // ---------------------------------------------------------------------------
  // The request envelope
  // ---------------------------------------------------------------------------

  datatype RPCRequest = RPCRequest(jsonrpc: string, id: string, methodName: string, params: seq<Param>)

  function TokenParam(token: string): Param {
    Str("token:" + token)
  }

  /**
   * The request `callRPCMethod` sends: version "2.0", id "1", the method
   * unchanged, and the token parameter ahead of the converted arguments.
   */
  function BuildRequest(token: string, methodName: string, args: seq<Arg>): (r: Option<RPCRequest>)
    ensures r.Some? <==> ConvertParams(args).Some?
    ensures r.Some? ==> r.value.jsonrpc == "2.0" && r.value.id == "1" && r.value.methodName == methodName
    ensures r.Some? ==> |r.value.params| == 1 + |args| && r.value.params[0] == Str("token:" + token)
    ensures r.Some? ==> forall k :: 0 <= k < |args| ==> ConvertArg(args[k]) == Some(r.value.params[k + 1])
  {
    match ConvertParams(args)
    case None => None
    case Some(ps) => Some(RPCRequest("2.0", "1", methodName, [TokenParam(token)] + ps))
  }

  /** The positional parameters on the wire: one JSON value per parameter, in order. */
  function EncodeParams(ps: seq<Param>): (items: seq<Json>)
    ensures |items| == |ps|
    ensures forall k :: 0 <= k < |ps| ==> items[k] == EncodeParam(ps[k])
  {
    seq(|ps|, k requires 0 <= k < |ps| => EncodeParam(ps[k]))
  }

  /** The JSON body of the POST: exactly the four envelope members. */
  function EncodeRequest(r: RPCRequest): (j: Json)
    ensures j.JObject? && j.members.Keys == {"jsonrpc", "id", "method", "params"}
    ensures j.members["jsonrpc"] == JString(r.jsonrpc) && j.members["id"] == JString(r.id)
    ensures j.members["method"] == JString(r.methodName)
    ensures j.members["params"] == JArray(EncodeParams(r.params))
    ensures |j.members["params"].items| == |r.params|
    ensures forall k :: 0 <= k < |r.params| ==> j.members["params"].items[k] == EncodeParam(r.params[k])
  {
    JObject(map[
      "jsonrpc" := JString(r.jsonrpc),
      "id" := JString(r.id),
      "method" := JString(r.methodName),
      "params" := JArray(EncodeParams(r.params))])
  }

  /**
   * On the wire, every request built by `callRPCMethod` carries
   * `"token:<token>"` as its first positional parameter, whatever the
   * arguments.
   */
  lemma {:induction false} WireTokenFirst(token: string, methodName: string, args: seq<Arg>)
    requires BuildRequest(token, methodName, args).Some?
    ensures var body := EncodeRequest(BuildRequest(token, methodName, args).value);
            var items := body.members["params"].items;
            && |items| == 1 + |args|
            && items[0] == JString("token:" + token)
            && DecodeParam(items[0]) == Some(TokenParam(token))
            && body.members["jsonrpc"] == JString("2.0")
  {
  }

  /**
   * After the token, argument k sits at wire position k + 1 and reads back
   * as the parameter it was converted to: scalars even with the decoder as
   * written, lists with the corrected one.
   */
  lemma {:induction false} WireArgReadsBack(token: string, methodName: string, args: seq<Arg>, k: nat)
    requires BuildRequest(token, methodName, args).Some?
    requires k < |args|
    ensures var items := EncodeParams(BuildRequest(token, methodName, args).value.params);
            && DecodeParamWithArrays(items[k + 1]) == ConvertArg(args[k])
            && (!args[k].StringArrayArg? ==> DecodeParam(items[k + 1]) == ConvertArg(args[k]))
  {
    var r := BuildRequest(token, methodName, args).value;
    ArgReadsBack(args[k], r.params[k + 1]);
  }

  /** One converted argument, written out and read back. */
  lemma ArgReadsBack(x: Arg, p: Param)
    requires ConvertArg(x) == Some(p)
    ensures DecodeParamWithArrays(EncodeParam(p)) == ConvertArg(x)
    ensures !x.StringArrayArg? ==> DecodeParam(EncodeParam(p)) == ConvertArg(x)
  {
    ParamRoundTripWithArrays(p);
  }

  // ---------------------------------------------------------------------------
  // Convenience calls: fixed method names and argument lists
  // ---------------------------------------------------------------------------

  /** `addUri(urls:)`: the whole URL list as ONE list parameter. */
  function AddUri(token: string, urls: seq<string>): (r: RPCRequest)
    ensures r.jsonrpc == "2.0" && r.id == "1"
    ensures r.methodName == "aria2.addUri" && r.params == [TokenParam(token), Arr(urls)]
  {
    BuildRequest(token, "aria2.addUri", [StringArrayArg(urls)]).value
  }

  function GetGlobalStat(token: string): (r: RPCRequest)
    ensures r.jsonrpc == "2.0" && r.id == "1"
    ensures r.methodName == "aria2.getGlobalStat" && r.params == [TokenParam(token)]
  {
    BuildRequest(token, "aria2.getGlobalStat", []).value
  }

  function TellActive(token: string): (r: RPCRequest)
    ensures r.jsonrpc == "2.0" && r.id == "1"
    ensures r.methodName == "aria2.tellActive" && r.params == [TokenParam(token)]
  {
    BuildRequest(token, "aria2.tellActive", []).value
  }

  /** Offset -1 and limit 1000: the whole waiting queue. */
  function TellWaiting(token: string): (r: RPCRequest)
    ensures r.jsonrpc == "2.0" && r.id == "1"
    ensures r.methodName == "aria2.tellWaiting" && r.params == [TokenParam(token), Int(-1), Int(1000)]
  {
    BuildRequest(token, "aria2.tellWaiting", [IntArg(-1), IntArg(1000)]).value
  }

  function TellStopped(token: string): (r: RPCRequest)
    ensures r.jsonrpc == "2.0" && r.id == "1"
    ensures r.methodName == "aria2.tellStopped" && r.params == [TokenParam(token), Int(-1), Int(1000)]
  {
    BuildRequest(token, "aria2.tellStopped", [IntArg(-1), IntArg(1000)]).value
  }

  function TellStatus(token: string, gid: string): (r: RPCRequest)
    ensures r.jsonrpc == "2.0" && r.id == "1"
    ensures r.methodName == "aria2.tellStatus" && r.params == [TokenParam(token), Str(gid)]
  {
    BuildRequest(token, "aria2.tellStatus", [StringArg(gid)]).value
  }

  function Pause(token: string, gid: string): (r: RPCRequest)
    ensures r.jsonrpc == "2.0" && r.id == "1"
    ensures r.methodName == "aria2.pause" && r.params == [TokenParam(token), Str(gid)]
  {
    BuildRequest(token, "aria2.pause", [StringArg(gid)]).value
  }

  function PauseAll(token: string): (r: RPCRequest)
    ensures r.jsonrpc == "2.0" && r.id == "1"
    ensures r.methodName == "aria2.pauseAll" && r.params == [TokenParam(token)]
  {
    BuildRequest(token, "aria2.pauseAll", []).value
  }

  /** `resume(gid:)` is the daemon's `aria2.unpause`. */
  function Resume(token: string, gid: string): (r: RPCRequest)
    ensures r.jsonrpc == "2.0" && r.id == "1"
    ensures r.methodName == "aria2.unpause" && r.params == [TokenParam(token), Str(gid)]
  {
    BuildRequest(token, "aria2.unpause", [StringArg(gid)]).value
  }
}
