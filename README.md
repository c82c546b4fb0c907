# aria2 iOS client: request building and task-list reconciliation

This project is a Dafny model of the core of an iOS client for the aria2
download daemon. The client talks to the daemon over JSON-RPC. Two parts are
modelled.

- **The RPC request builder** (`Services/Aria2RPC.swift`, module `Aria2RPC`).
  - `Param` is a string, a 64-bit integer or a list of strings. It is written
    to JSON as a bare value and read back by trying an integer, then a string.
  - `callRPCMethod` converts the caller's arguments one for one. It puts
    `"token:" + token` in front and wraps everything in
    `{jsonrpc: "2.0", id: "1", method, params}`.
  - Nine convenience calls each fix a method name and an argument list.
  - JSON is an abstract value (module `Json`), not bytes.
- **The task-list screens** (`Views/TaskView.swift`, module `TaskView`).
  - `getTitle` gives the last non-empty `/` component of the first file's
    path, or of its first URI when the path is empty.
  - `getIconAndColor` gives the status badge.
  - The row button pauses an active task and resumes any other.
  - The add-task confirmation splits the text box into URLs, one per line.
  - `TaskListView.loadData` is one reconciliation cycle. It reads the three
    counters of the global stat. It requests each subset whose counter parses
    as a positive integer. It appends the replies in the order active,
    waiting, stopped, and replaces `tasks` with the result.

The Swift standard-library behaviour these rely on is modelled in module
`SwiftText`:
- `split(separator:)`, which drops empty pieces;
- the failable `Int(String)` initializer, which accepts an optional sign and
  decimal digits and fails when the value does not fit in 64 bits.

The server address and token are `@AppStorage` settings. `Aria2API` only reads
them, and the settings screen edits them (Views/SettingsView.swift:15-25). The
token is therefore a parameter. Every RPC reply that `loadData` consumes is an input. An input of
`None` stands for a call that threw.

## Model

| member | source | states |
|---|---|---|
| `Aria2RPC.EncodeParam` | Services/Aria2RPC.swift:20-30 | The encoding is the bare value, never an object wrapper. It is an array exactly for `.arr`, and then it holds the strings in order. |
| `Aria2RPC.DecodeParam` | Services/Aria2RPC.swift:8-18 | Decoding succeeds exactly on a JSON string or a JSON integer that fits in 64 bits. An integer always becomes `.int`, never `.string`. A string becomes `.string`. `.arr` is never produced. |
| `Aria2RPC.ScalarRoundTrip` | Services/Aria2RPC.swift:8-30 | Encoding then decoding returns `.int(n)` and `.string(s)` unchanged. |
| `Aria2RPC.ArrayParamDoesNotRoundTrip` | Services/Aria2RPC.swift:8-30 | As written, an encoded `.arr` fails to decode (see Findings). |
| `Aria2RPC.DecodeParamWithArrays` | Services/Aria2RPC.swift:8-18 | The corrected decoder keeps the integer-first tie-break. It yields `.arr` only from a JSON array. |
| `Aria2RPC.ParamRoundTripWithArrays` | Services/Aria2RPC.swift:8-30 | With the list case added, every `Param` round-trips, lists included. |
| `Aria2RPC.ConvertParams` | Services/Aria2RPC.swift:105-115 | Conversion succeeds exactly when every argument is an Int, a String or a [String]. The result has the same length. Element k is the converted argument k (Int to `.int`, String to `.string`, [String] to `.arr`). |
| `Aria2RPC.BuildRequest` | Services/Aria2RPC.swift:116 | The request has `jsonrpc` "2.0", `id` "1" and the method name unchanged. It has 1 + n params, and `"token:"+token` is at index 0 even for zero arguments. Param k+1 is the conversion of argument k. |
| `Aria2RPC.EncodeParams` | Services/Aria2RPC.swift:123-128 | The wire params hold one JSON value per parameter. Element k is the encoding of parameter k, in order. |
| `Aria2RPC.EncodeRequest` | Services/Aria2RPC.swift:123-128 | The POST body is an object with exactly the members jsonrpc, id, method and params. The jsonrpc, id and method members carry the request's values. Params is a JSON array whose element k is the encoding of parameter k. |
| `Aria2RPC.WireTokenFirst` | Services/Aria2RPC.swift:116-128 | In the encoded body of any request, the first params element is the JSON string `"token:"+token`, and it decodes back to the token parameter. |
| `Aria2RPC.WireArgReadsBack` | Services/Aria2RPC.swift:105-128 | Wire params element k+1 reads back as the conversion of argument k. This holds with the decoder as written for Int and String arguments, and with the corrected decoder for every argument. |
| `Aria2RPC.AddUri` | Services/Aria2RPC.swift:134-136 | Sends method `aria2.addUri` with params `[token, .arr(urls)]`: the whole list is one parameter, not spread out. |
| `Aria2RPC.GetGlobalStat` | Services/Aria2RPC.swift:137-142 | Sends method `aria2.getGlobalStat` with the token only. |
| `Aria2RPC.TellActive` | Services/Aria2RPC.swift:143-148 | Sends method `aria2.tellActive` with the token only. |
| `Aria2RPC.TellWaiting` | Services/Aria2RPC.swift:150-155 | Sends method `aria2.tellWaiting` with `[token, -1, 1000]`. |
| `Aria2RPC.TellStopped` | Services/Aria2RPC.swift:156-161 | Sends method `aria2.tellStopped` with `[token, -1, 1000]`. |
| `Aria2RPC.TellStatus` | Services/Aria2RPC.swift:162-167 | Sends method `aria2.tellStatus` with `[token, gid]`. |
| `Aria2RPC.Pause` | Services/Aria2RPC.swift:168-170 | Sends method `aria2.pause` with `[token, gid]`. |
| `Aria2RPC.PauseAll` | Services/Aria2RPC.swift:171-173 | Sends method `aria2.pauseAll` with the token only. |
| `Aria2RPC.Resume` | Services/Aria2RPC.swift:174-176 | Sends method `aria2.unpause`, not "resume", with `[token, gid]`. |
| `SwiftText.Split` | Views/TaskView.swift:233 | Every piece is non-empty and holds no separator. |
| `SwiftText.SplitEmptyIffAllSeparators` | Views/TaskView.swift:13 | A split yields no pieces exactly when the string is made only of separators. |
| `SwiftText.SplitAroundSeparator` | Views/TaskView.swift:233 | Splitting `a + [sep] + b` gives the pieces of `a` followed by the pieces of `b`. |
| `SwiftText.SplitJoin` | Views/TaskView.swift:233 | Joining non-empty, separator-free pieces with the separator and splitting again gives the same pieces. |
| `SwiftText.LastPieceIsFinalComponent` | Views/TaskView.swift:13 | The last piece is the maximal separator-free suffix of the string once its trailing separators are dropped. |
| `SwiftText.ParseInt` | Views/TaskView.swift:80-92 | Text that is not an optional sign followed by at least one digit gives no value. Any value fits in 64 bits. Text without a leading '-' gives a non-negative value. |
| `SwiftText.ParseDescription` | Views/TaskView.swift:80-92 | Parsing the decimal text of any 64-bit integer returns that integer. |
| `SwiftText.ParseSignedDigits` | Views/TaskView.swift:80-92 | For any sign (none, '+' or '-'), any run of leading zeros and any magnitude m, parsing gives the signed m when it fits in 64 bits and no value when it does not. So "+5" gives 5 and "007" gives 7. |
| `SwiftText.CanonicalDigitsRoundTrip` | Views/TaskView.swift:80-92 | Digits without a leading zero are exactly the decimal digits of their value. |
| `SwiftText.DigitsAreZerosThenCanonical` | Views/TaskView.swift:80-92 | Every digit string is a run of zeros followed by the decimal digits of its value, so every decimal text has the shape that `ParseSignedDigits` covers. |
| `TaskView.GetTitle` | Views/TaskView.swift:10-15 | The title never contains '/'. It is "" when there is no first file, or when that file has neither a path nor a URI. |
| `TaskView.GetTitleIsFinalComponent` | Views/TaskView.swift:10-15 | The title is "" exactly when the path (or, for an empty path, the URI) is only slashes. Otherwise it is that string's last non-empty component: a suffix of the string with its trailing slashes removed, preceded by '/' or by nothing. |
| `TaskView.GetIconAndColor` | Views/TaskView.swift:151-171 | active gives play.circle.fill/purple, paused gives pause.circle.fill/orange, error gives xmark.circle.fill/red, complete gives checkmark.circle.fill/green. Any other status gives the "" icon and white. The icon is "" exactly for the other statuses. |
| `TaskView.ToggleRequest` | Views/TaskView.swift:136-143 | The button sends `aria2.pause` exactly when the status is "active". Otherwise it sends `aria2.unpause`. Either way the params are `[token, gid]`. |
| `TaskView.ToggleSymbolMatchesAction` | Views/TaskView.swift:136-146 | The button shows "pause.fill" exactly when pressing it pauses. |
| `TaskView.Confirm` | Views/TaskView.swift:230-238 | An empty text box sends nothing. Otherwise it sends one `aria2.addUri` with the token and one URL list, and every URL in it is non-empty and has no newline. |
| `TaskView.ConfirmSendsLines` | Views/TaskView.swift:230-238 | A box holding non-empty URLs, one per line, sends exactly those URLs in order. |
| `TaskView.ConfirmBlankLinesSendsNoUrls` | Views/TaskView.swift:231-236 | A box holding only line breaks is not empty, so it sends `aria2.addUri` with an empty URL list. |
| `TaskView.CountPositive` | Views/TaskView.swift:80 | A counter counts as positive only if it is decimal text, with no leading '-'. |
| `TaskView.ReconcileRequestsPositiveCounters` | Views/TaskView.swift:77-98 | getGlobalStat is sent first. Each of tellActive, tellWaiting and tellStopped is sent exactly when the stat reply arrived, every earlier subset request returned, and that subset's counter is a positive integer. |
| `TaskView.StepAppendsFetched` | Views/TaskView.swift:80-96 | One subset block continues exactly when the subset was not requested or its reply arrived. It then appends that reply, or nothing, to the accumulator. |
| `TaskView.ReconcileIsMerged` | Views/TaskView.swift:77-98 | The cycle publishes exactly when no call it makes throws. It then publishes active ++ waiting ++ stopped, counting only the requested subsets. |
| `TaskView.FetchSubset` | Views/TaskView.swift:80-96 | The loop appends every returned task exactly once, in order. The request is sent only for a positive counter. The method's result is one `Step`. |
| `TaskView.TaskListView.constructor` | Views/TaskView.swift:20 | The list starts empty. |
| `TaskView.TaskListView.LoadData` | Views/TaskView.swift:77-99 | The calls sent are the stepwise cycle's calls, starting with getGlobalStat. On success `tasks` is the fresh accumulator and nothing of the old list is kept. If a call throws, `tasks` is unchanged. |
| `TaskView.UnrequestedWaitingIgnored` | Views/TaskView.swift:86-91 | When the waiting counter is not a positive integer, `aria2.tellWaiting` is never sent. Its reply changes neither the calls nor the published list. |
| `TaskView.MergedLayout` | Views/TaskView.swift:78-98 | The published length is the sum of the requested subsets' lengths. Each element sits at its subset's offset plus its index in that subset's reply. |
| `TaskView.ReconcileSkipsEmptyWaiting` | Views/TaskView.swift:77-98 | With counters "2", "0" and "3", the list is the active reply followed by the stopped reply. The calls are exactly getGlobalStat, tellActive and tellStopped. |
| `TaskView.NonPositiveCountsRequestNothing` | Views/TaskView.swift:80-96 | When no counter is a positive integer, only getGlobalStat is sent and the published list is empty. |

## Left out

- Network I/O is not modelled: `URLSession`, `URL(string:)`, the HTTP method and headers, and the byte-level `JSONEncoder`/`JSONDecoder`. JSON is an abstract value. Object key order and non-integral numbers are not represented.
- Decoding of the replies (`GlobalStatResponse`, `Aria2Response`, `TellStatusResponse`, `TaskObject`, `File`) is library field mapping. The decoded records are plain datatypes, and the replies are inputs.
- The SwiftUI bodies are not modelled, including `Views/MainView.swift`, `Views/SettingsView.swift` and `Views/AboutView.swift`. The same goes for `@AppStorage` persistence, `UUID()` ids and `print` logging.
- `TaskView.TaskListView.LoadData` takes one token per cycle. The source reads the current token each time it builds a request (Services/Aria2RPC.swift:116), and the four requests of one cycle are built one after another across `await`s (Views/TaskView.swift:79-93). A token edited between the calls of one cycle, so that one cycle sends different tokens, is not modelled. The same holds for `Reconcile`.
- Polling is not modelled: the `Timer.publish` schedule, `onAppear`/`onDisappear`, and the `Task { }` launches (so overlapping cycles are not modelled either). The model covers one `loadData` cycle.
- The `try!` trap is modelled only by its effect on state. A throwing call ends the cycle before `tasks = arr`, so nothing is published. The process crash itself is not modelled.
- The `fatalError` for an unsupported argument type becomes a failed conversion (`None`).
- Size, speed and percent formatting and the `ProgressBar` width are not modelled, because they are `Double` arithmetic (Views/TaskView.swift:128-134, 256).
- `TaskDetailView.loadData` is not modelled. It replaces the shown task with the `tellStatus` reply; the request itself is `Aria2RPC.TellStatus`.
- The inline title at Views/TaskView.swift:125-127 repeats `getTitle` and is covered by `TaskView.GetTitle`.
- Strings are sequences of `char`, not Swift grapheme clusters. A Swift `"\r\n"` is one `Character`, so `split(separator: "\n")` does not split it. The model would split it.
- Badge colours are named constants (`Color`), not SwiftUI colours.

## Notes

- The request `id` is always "1" (Services/Aria2RPC.swift:116).
- A list parameter is never decoded back (Services/Aria2RPC.swift:8-18; see Findings).
- A throwing fetch traps through `try!` rather than surfacing an error (Views/TaskView.swift:79-93).

## Findings

| source | as written | input that shows it | evidently intended | confidence | as-written member | corrected member |
|---|---|---|---|---|---|---|
| Services/Aria2RPC.swift:8-18 | `Param.init(from:)` tries `Int`, then `String`, then throws. It has no case for the `.arr` that `encode(to:)` writes. | `.arr(["http://x"])` encodes to `["http://x"]`, and decoding that throws. | A `Codable` `Param` reads its own encoding back, so a JSON array of strings decodes to `.arr`. | medium; not executed | `Aria2RPC.ArrayParamDoesNotRoundTrip` | `Aria2RPC.ParamRoundTripWithArrays` |

The client only encodes requests and never decodes a `Param`, so no other part of the model depends on the decoder. `DecodeParam` models the code as written. `DecodeParamWithArrays` is the corrected decoder.
