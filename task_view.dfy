/**
 * The logic behind the task list screens: the displayed title of a task,
 * the status badge, the pause/resume toggle, the add-task confirmation,
 * and the periodic reconciliation that rebuilds the task list from the
 * global counters and the three task subsets. RPC replies are inputs:
 * `None` stands for a call that threw.
 */
module TaskView {
  import opened Wrappers
  import opened SwiftText
  import opened Aria2RPC

  // ---------------------------------------------------------------------------
  // getTitle
  // ---------------------------------------------------------------------------

  /** `task.files?.first?.path ?? ""`. */
  function FirstPath(task: TaskObject): string {
    if task.files.Some? && |task.files.value| > 0 then task.files.value[0].path else ""
  }

  /** `task.files?.first?.uris.first?.uri ?? ""`. */
  function FirstLink(task: TaskObject): string {
    if task.files.Some? && |task.files.value| > 0 && |task.files.value[0].uris| > 0
    then task.files.value[0].uris[0].uri
    else ""
  }

  /** The path of the first file, or its first URI when that path is empty. */
  function TitleSource(task: TaskObject): string {
    var path := FirstPath(task);
    if path == "" then FirstLink(task) else path
  }

  /** The last non-empty '/'-separated component of the title source. */
  function GetTitle(task: TaskObject): (title: string)
    ensures '/' !in title
    ensures FirstPath(task) == "" && FirstLink(task) == "" ==> title == ""
  {
    LastOrEmpty(Split(TitleSource(task), '/'))
  }

  /**
   * The title is empty exactly when the source is made of slashes only;
   * otherwise it is the final component of the source once trailing
   * slashes are dropped, preceded by a slash or by nothing.
   */
  lemma {:induction false} GetTitleIsFinalComponent(task: TaskObject)
    ensures GetTitle(task) == "" <==> AllSeparators(TitleSource(task), '/')
    ensures GetTitle(task) != "" ==> IsFinalComponent(GetTitle(task), TitleSource(task), '/')
  {
    var src := TitleSource(task);
    SplitEmptyIffAllSeparators(src, '/');
    if Split(src, '/') != [] {
      var pieces := Split(src, '/');
      assert pieces[|pieces| - 1] in pieces;
      LastPieceIsFinalComponent(src, '/');
    }
  }

  // ---------------------------------------------------------------------------
  // TaskView: status badge and the pause/resume toggle
  // ---------------------------------------------------------------------------

  datatype Color = White | Purple | Orange | Red | Green

  predicate IsKnownStatus(status: string) {
    status == "active" || status == "paused" || status == "error" || status == "complete"
  }

  /** The badge icon and colour for a task status; unknown statuses get no icon. */
  method GetIconAndColor(status: string) returns (icon: string, color: Color)
    ensures status == "active" ==> icon == "play.circle.fill" && color == Purple
    ensures status == "paused" ==> icon == "pause.circle.fill" && color == Orange
    ensures status == "error" ==> icon == "xmark.circle.fill" && color == Red
    ensures status == "complete" ==> icon == "checkmark.circle.fill" && color == Green
    ensures icon == "" <==> !IsKnownStatus(status)
    ensures icon == "" ==> color == White
  {
    icon := "";
    color := White;
    if status == "active" {
      icon := "play.circle.fill";
      color := Purple;
    }
    if status == "paused" {
      icon := "pause.circle.fill";
      color := Orange;
    }
    if status == "error" {
      icon := "xmark.circle.fill";
      color := Red;
    }
    if status == "complete" {
      icon := "checkmark.circle.fill";
      color := Green;
    }
  }

  /** The row button pauses an active task and resumes (unpauses) any other. */
  function ToggleRequest(token: string, task: TaskObject): (r: RPCRequest)
    ensures r.methodName == "aria2.pause" <==> task.status == "active"
    ensures r.methodName == "aria2.unpause" <==> task.status != "active"
    ensures r.params == [TokenParam(token), Str(task.gid)]
  {
    if task.status == "active" then Pause(token, task.gid) else Resume(token, task.gid)
  }

  /** The symbol drawn on the row button. */
  function ToggleSymbol(status: string): string {
    if status == "active" then "pause.fill" else "play.fill"
  }

  /** The button shows the pause symbol exactly when pressing it pauses. */
  lemma ToggleSymbolMatchesAction(token: string, task: TaskObject)
    ensures ToggleSymbol(task.status) == "pause.fill" <==> ToggleRequest(token, task).methodName == "aria2.pause"
  {
  }

  // ---------------------------------------------------------------------------
  // AddTaskView: confirm
  // ---------------------------------------------------------------------------

  /**
   * Confirming the text box: nothing is sent for an empty box; otherwise
   * one `aria2.addUri` call whose URL list is the non-empty lines, in order.
   */
  function Confirm(token: string, text: string): (r: Option<RPCRequest>)
    ensures r.None? <==> text == ""
    ensures r.Some? ==> r.value.methodName == "aria2.addUri" && |r.value.params| == 2
    ensures r.Some? ==> r.value.params[0] == TokenParam(token)
    ensures r.Some? ==> r.value.params[1].Arr? &&
                        forall url :: url in r.value.params[1].a ==> url != "" && '\n' !in url
  {
    if text == "" then None else Some(AddUri(token, Split(text, '\n')))
  }

  /** Typing URLs one per line sends exactly those URLs. */
  lemma {:induction false} ConfirmSendsLines(token: string, urls: seq<string>)
    requires |urls| > 0
    requires forall url :: url in urls ==> url != "" && '\n' !in url
    ensures Confirm(token, Join(urls, '\n')) == Some(AddUri(token, urls))
  {
    SplitJoin(urls, '\n');
    assert Join(urls, '\n') != "";
  }

  /** A box holding only line breaks is not empty, so it sends an empty URL list. */
  lemma {:induction false} ConfirmBlankLinesSendsNoUrls(token: string, text: string)
    requires text != "" && AllSeparators(text, '\n')
    ensures Confirm(token, text) == Some(AddUri(token, []))
  {
    SplitEmptyIffAllSeparators(text, '\n');
  }

  // ---------------------------------------------------------------------------
  // TaskListView.loadData: one reconciliation cycle
  // ---------------------------------------------------------------------------

  /** `if let n = Int(count), n > 0`. */
  predicate CountPositive(count: string)
    ensures CountPositive(count) ==> IsDecimalText(count) && count[0] != '-'
  {
    var n := ParseInt(count);
    n.Some? && n.value > 0
  }

  /** What one subset contributes: its reply when requested, nothing otherwise. */
  function Fetched(count: string, reply: Option<seq<TaskObject>>): Option<seq<TaskObject>> {
    if CountPositive(count) then reply else Some([])
  }

  /** The cycle reaches `tasks = arr` when no call it makes throws. */
  predicate CycleSucceeds(
    stat: Option<GlobalStat>,
    active: Option<seq<TaskObject>>,
    waiting: Option<seq<TaskObject>>,
    stopped: Option<seq<TaskObject>>)
  {
    && stat.Some?
    && Fetched(stat.value.numActive, active).Some?
    && Fetched(stat.value.numWaiting, waiting).Some?
    && Fetched(stat.value.numStopped, stopped).Some?
  }

  /** The published list: active, then waiting, then stopped, each as returned. */
  function Merged(
    stat: GlobalStat,
    active: Option<seq<TaskObject>>,
    waiting: Option<seq<TaskObject>>,
    stopped: Option<seq<TaskObject>>): seq<TaskObject>
    requires CycleSucceeds(Some(stat), active, waiting, stopped)
  {
    Fetched(stat.numActive, active).value
      + Fetched(stat.numWaiting, waiting).value
      + Fetched(stat.numStopped, stopped).value
  }

  /** The state `loadData` builds up: requests sent so far, the accumulator, and whether every call so far returned. */
  datatype Cycle = Cycle(calls: seq<RPCRequest>, arr: seq<TaskObject>, ok: bool)

  /**
   * One `if let n = Int(count), n > 0 { ... }` block: nothing happens once a
   * call has thrown or when the counter is not positive; otherwise the
   * request is sent and, if it returns, its tasks are appended in order.
   */
  function Step(c: Cycle, count: string, request: RPCRequest, reply: Option<seq<TaskObject>>): Cycle {
    if !c.ok || !CountPositive(count) then c
    else
      match reply
      case None => Cycle(c.calls + [request], c.arr, false)
      case Some(results) => Cycle(c.calls + [request], c.arr + results, true)
  }

  /** A whole cycle, step by step: the stat request, then active, waiting and stopped. */
  function Reconcile(
    token: string,
    stat: Option<GlobalStat>,
    active: Option<seq<TaskObject>>,
    waiting: Option<seq<TaskObject>>,
    stopped: Option<seq<TaskObject>>): Cycle
  {
    var start := Cycle([GetGlobalStat(token)], [], stat.Some?);
    if stat.None? then start
    else
      var st := stat.value;
      var afterActive := Step(start, st.numActive, TellActive(token), active);
      var afterWaiting := Step(afterActive, st.numWaiting, TellWaiting(token), waiting);
      Step(afterWaiting, st.numStopped, TellStopped(token), stopped)
  }

  /** A step keeps going exactly when the subset's reply (if requested) arrived, and appends it. */
  lemma StepAppendsFetched(c: Cycle, count: string, request: RPCRequest, reply: Option<seq<TaskObject>>)
    ensures Step(c, count, request, reply).ok <==> c.ok && Fetched(count, reply).Some?
    ensures Step(c, count, request, reply).ok ==> Step(c, count, request, reply).arr == c.arr + Fetched(count, reply).value
  {
    if c.ok && !CountPositive(count) {
      assert c.arr + [] == c.arr;
    }
  }

  /** A step sends its request exactly when the cycle is still going and the counter is positive. */
  lemma StepSends(c: Cycle, count: string, request: RPCRequest, reply: Option<seq<TaskObject>>)
    ensures Step(c, count, request, reply).calls == c.calls + (if c.ok && CountPositive(count) then [request] else [])
  {
  }

  /**
   * Which requests a cycle sends: `aria2.getGlobalStat` first, and each
   * subset request exactly when the stat reply arrived, every earlier subset
   * request that was sent returned, and that subset's counter is a positive
   * integer.
   */
  lemma ReconcileRequestsPositiveCounters(
    token: string,
    stat: Option<GlobalStat>,
    active: Option<seq<TaskObject>>,
    waiting: Option<seq<TaskObject>>,
    stopped: Option<seq<TaskObject>>)
    ensures var calls := Reconcile(token, stat, active, waiting, stopped).calls;
            && |calls| > 0 && calls[0] == GetGlobalStat(token)
            && (TellActive(token) in calls <==> stat.Some? && CountPositive(stat.value.numActive))
            && (TellWaiting(token) in calls <==>
                  stat.Some? && Fetched(stat.value.numActive, active).Some? && CountPositive(stat.value.numWaiting))
            && (TellStopped(token) in calls <==>
                  && stat.Some? && Fetched(stat.value.numActive, active).Some?
                  && Fetched(stat.value.numWaiting, waiting).Some? && CountPositive(stat.value.numStopped))
  {
    var g, a, w, s := GetGlobalStat(token), TellActive(token), TellWaiting(token), TellStopped(token);
    assert g != a && g != w && g != s && a != w && a != s && w != s by {
      assert g.methodName == "aria2.getGlobalStat" && a.methodName == "aria2.tellActive";
      assert w.methodName == "aria2.tellWaiting" && s.methodName == "aria2.tellStopped";
    }
    if stat.Some? {
      var st := stat.value;
      var start := Cycle([g], [], true);
      var c1 := Step(start, st.numActive, a, active);
      var c2 := Step(c1, st.numWaiting, w, waiting);
      StepSends(start, st.numActive, a, active);
      StepSends(c1, st.numWaiting, w, waiting);
      StepSends(c2, st.numStopped, s, stopped);
      StepAppendsFetched(start, st.numActive, a, active);
      StepAppendsFetched(c1, st.numWaiting, w, waiting);
    }
  }

  /**
   * The step-by-step cycle publishes exactly when no call it makes throws,
   * and then publishes the closed-form merge of the requested subsets.
   */
  lemma ReconcileIsMerged(
    token: string,
    stat: Option<GlobalStat>,
    active: Option<seq<TaskObject>>,
    waiting: Option<seq<TaskObject>>,
    stopped: Option<seq<TaskObject>>)
    ensures Reconcile(token, stat, active, waiting, stopped).ok <==> CycleSucceeds(stat, active, waiting, stopped)
    ensures CycleSucceeds(stat, active, waiting, stopped) ==>
              Reconcile(token, stat, active, waiting, stopped).arr == Merged(stat.value, active, waiting, stopped)
  {
    if stat.Some? {
      var st := stat.value;
      var start := Cycle([GetGlobalStat(token)], [], true);
      var c1 := Step(start, st.numActive, TellActive(token), active);
      var c2 := Step(c1, st.numWaiting, TellWaiting(token), waiting);
      StepAppendsFetched(start, st.numActive, TellActive(token), active);
      StepAppendsFetched(c1, st.numWaiting, TellWaiting(token), waiting);
      StepAppendsFetched(c2, st.numStopped, TellStopped(token), stopped);
    }
  }

  /**
   * The body of one such block: send the subset request when the counter is
   * positive and append every task of the reply, in order.
   */
  method FetchSubset(
    calls: seq<RPCRequest>,
    arr: seq<TaskObject>,
    count: string,
    request: RPCRequest,
    reply: Option<seq<TaskObject>>)
    returns (calls': seq<RPCRequest>, arr': seq<TaskObject>, ok: bool)
    ensures Cycle(calls', arr', ok) == Step(Cycle(calls, arr, true), count, request, reply)
  {
    calls', arr', ok := calls, arr, true;
    var n := ParseInt(count);
    if n.Some? && n.value > 0 {
      calls' := calls' + [request];
      if reply.None? {
        ok := false;
        return;
      }
      var results := reply.value;
      for i := 0 to |results|
        invariant arr' == arr + results[..i]
      {
        arr' := arr' + [results[i]];
      }
    }
  }

  class TaskListView {
    var tasks: seq<TaskObject>

    constructor ()
      ensures tasks == []
    {
      tasks := [];
    }

    /**
     * One reconciliation cycle. A subset is requested only when its counter
     * parses as a positive integer; the replies are appended active, then
     * waiting, then stopped, and the accumulated list replaces `tasks`
     * wholesale. If any call throws, `tasks` is left as it was.
     */
    method LoadData(
      token: string,
      stat: Option<GlobalStat>,
      active: Option<seq<TaskObject>>,
      waiting: Option<seq<TaskObject>>,
      stopped: Option<seq<TaskObject>>)
      returns (calls: seq<RPCRequest>, published: bool)
      modifies this
      ensures calls == Reconcile(token, stat, active, waiting, stopped).calls
      ensures published == Reconcile(token, stat, active, waiting, stopped).ok
      ensures published ==> tasks == Reconcile(token, stat, active, waiting, stopped).arr
      ensures !published ==> tasks == old(tasks)
    {
      calls := [GetGlobalStat(token)];
      published := false;
      if stat.None? {
        return;
      }
      var stats := stat.value;
      var arr: seq<TaskObject> := [];
      var ok: bool;

      calls, arr, ok := FetchSubset(calls, arr, stats.numActive, TellActive(token), active);
      if !ok {
        return;
      }
      calls, arr, ok := FetchSubset(calls, arr, stats.numWaiting, TellWaiting(token), waiting);
      if !ok {
        return;
      }
      calls, arr, ok := FetchSubset(calls, arr, stats.numStopped, TellStopped(token), stopped);
      if !ok {
        return;
      }

      tasks := arr;
      published := true;
    }
  }

  /**
   * A subset whose counter is not a positive integer is neither requested
   * nor read: its reply does not affect the calls or the published list.
   */
  lemma UnrequestedWaitingIgnored(
    token: string,
    stat: GlobalStat,
    active: Option<seq<TaskObject>>,
    waiting: Option<seq<TaskObject>>,
    waiting': Option<seq<TaskObject>>,
    stopped: Option<seq<TaskObject>>)
    requires !CountPositive(stat.numWaiting)
    ensures TellWaiting(token) !in Reconcile(token, Some(stat), active, waiting, stopped).calls
    ensures Reconcile(token, Some(stat), active, waiting, stopped).calls
         == Reconcile(token, Some(stat), active, waiting', stopped).calls
    ensures CycleSucceeds(Some(stat), active, waiting, stopped) ==>
              && CycleSucceeds(Some(stat), active, waiting', stopped)
              && Merged(stat, active, waiting, stopped) == Merged(stat, active, waiting', stopped)
  {
    var calls := Reconcile(token, Some(stat), active, waiting, stopped).calls;
    forall r | r in calls ensures r != TellWaiting(token) {
      assert r.methodName != "aria2.tellWaiting";
    }
  }

  /**
   * The published list is exactly the requested subsets laid end to end:
   * its length is the sum of theirs and each element keeps its position.
   */
  lemma MergedLayout(
    stat: GlobalStat,
    active: Option<seq<TaskObject>>,
    waiting: Option<seq<TaskObject>>,
    stopped: Option<seq<TaskObject>>)
    requires CycleSucceeds(Some(stat), active, waiting, stopped)
    ensures var a := Fetched(stat.numActive, active).value;
            var w := Fetched(stat.numWaiting, waiting).value;
            var s := Fetched(stat.numStopped, stopped).value;
            var merged := Merged(stat, active, waiting, stopped);
            && |merged| == |a| + |w| + |s|
            && (forall i :: 0 <= i < |a| ==> merged[i] == a[i])
            && (forall i :: 0 <= i < |w| ==> merged[|a| + i] == w[i])
            && (forall i :: 0 <= i < |s| ==> merged[|a| + |w| + i] == s[i])
  {
  }

  /**
   * Counters "2", "0" and "3": the list is the two replies active then
   * stopped, and `aria2.tellWaiting` is never called.
   */
  lemma ReconcileSkipsEmptyWaiting(
    token: string,
    speeds: string,
    active: seq<TaskObject>,
    waiting: Option<seq<TaskObject>>,
    stopped: seq<TaskObject>)
    ensures var stat := GlobalStat(speeds, speeds, "2", "0", "3", "3");
            && CycleSucceeds(Some(stat), Some(active), waiting, Some(stopped))
            && Merged(stat, Some(active), waiting, Some(stopped)) == active + stopped
            && Reconcile(token, Some(stat), Some(active), waiting, Some(stopped)).calls
               == [GetGlobalStat(token), TellActive(token), TellStopped(token)]
  {
    assert "2"[..0] == [] && "0"[..0] == [] && "3"[..0] == [];
    assert ParseInt("2") == Some(2);
    assert ParseInt("0") == Some(0);
    assert ParseInt("3") == Some(3);
  }

  /** Counters that are not decimal integers, zero or negative request nothing. */
  lemma NonPositiveCountsRequestNothing(token: string, stat: GlobalStat)
    requires !CountPositive(stat.numActive) && !CountPositive(stat.numWaiting) && !CountPositive(stat.numStopped)
    ensures forall active, waiting, stopped ::
              && Reconcile(token, Some(stat), active, waiting, stopped).calls == [GetGlobalStat(token)]
              && CycleSucceeds(Some(stat), active, waiting, stopped)
              && Merged(stat, active, waiting, stopped) == []
  {
  }
}
