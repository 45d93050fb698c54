# PDU-SW-0816 power-switch proxy, modelled in Dafny

This project models the core of `power-switch`, a command-line tool and HTTP proxy for an
eight-outlet PDU-SW-0816 power switch. It covers the following parts:

- **Types and registry.**
  - `pdu_types.h`: channels ch1..ch8 as the outlet indices 0..7, operations on=0 and off=1, and a scene as an off-set and an on-set.
  - `case_insensitive.h`: the `iequals` test and the `case_insensitive` map comparator.
  - `config-template.h`: the channel-name and scene tables.
  - `power-switch.cpp`: the lookups built on them, `all_channels`, `invert_map`, and the rendering of channels, channel sets and operations.
- **Builders.**
  - `swith_request` and `status_request`, which build the targets sent to the switch.
  - `base64_encode`, which builds the `Authorization: Basic` value.
- **The command-line side.** `parse_channel_list`, `parse_channels` and `set_scene`, which applies scenes one after the other.
- **Status parsing.** `parse_status_response`, over a status document reduced to its `outletStat<i>` elements.
- **The proxy.**
  - `strip_path_element`, and the routing of `process_request` and `set_channels(channels, query)`.
  - The callback chains of `proxy_server::session`: `root_document`, `show`, `set_channels`, `power_cycle`, `set_scene`, `bad_request`, `not_found`, `internal_server_error` and `send_response`.
  - The proxy is modelled twice:
    - as a pure state machine (`Protocol`), with lemmas over any sequence of events;
    - as the `Proxy.Session` class, whose methods update the session's fields and are proved to follow the state machine.

A session asks the outside world for two kinds of activity:

- upstream requests, recorded as `Upstream.Call` values. `Upstream.Target` gives each one's URL, and `Upstream.TargetInjective` proves that distinct calls send distinct URLs.
- timer waits.

The outside world answers with events:

- a transaction result: a transport error with its message, or the device's status, the status's error message and the parsed body;
- the expiry of the timer.

`Protocol.Semantics` chooses how `async_http_transaction` reports a status other than 200:

- `AsWritten`: the callback is called with the error and then again without it, as the code does (see Findings).
- `Corrected`: the callback is called once, with the error.

## Model

| member | source | states |
|---|---|---|
| PduTypes.OpCode | pdu_types.h:26 | on encodes as 0 and off as 1, and the code is below 2 |
| PduTypes.OpCodeRoundTrip | pdu_types.h:26 | the operation is recovered from its wire code |
| CaseInsensitive.IEqualsLength | case_insensitive.h:29-36 | strings of different lengths are never `iequals` |
| CaseInsensitive.IEqualsExample | case_insensitive.h:29-36 | "SHOW" equals "show", "Cycle" equals "cYCLE", "show" differs from "shows" |
| CaseInsensitive.IEqualsEquivalence | case_insensitive.h:29-36 | `iequals` is reflexive, symmetric and transitive |
| CaseInsensitive.Compare | case_insensitive.h:41-55 | the comparator's `for (;;)` loop returns `Less(lhs, rhs)` |
| CaseInsensitive.LessStrictOrder | case_insensitive.h:41-55 | the comparator is irreflexive, asymmetric and transitive |
| CaseInsensitive.EquivalentIffIEquals | case_insensitive.h:41-55 | for NUL-free strings, "neither is less" holds exactly when `iequals` holds |
| CaseInsensitive.LessTrichotomy | case_insensitive.h:41-55 | for NUL-free strings one is less or they are `iequals` |
| CaseInsensitive.PrefixOrder | case_insensitive.h:45-48 | a string that ends first is less, and strings ending together are not less than each other |
| CaseInsensitive.FirstDifference | case_insensitive.h:50-53 | the order is decided by the first position whose lower-cased characters differ |
| Registry.FindSpec | power-switch.cpp:739-741 | a lookup fails exactly when no key is equivalent under the comparator, and otherwise yields an equivalent key's value |
| Registry.FindOwnKey | config-template.h:35-55 | in a map ordered by the comparator, every key finds its own entry |
| Registry.FindIgnoresCase | config-template.h:35-55 | keys that agree case-insensitively find the same entry |
| Registry.AllChannels | power-switch.cpp:59-65 | the loop returns exactly the set of channels that have a name |
| Registry.InvertMap | power-switch.cpp:103-110 | the loop builds the map from each named channel to the name of its last entry |
| Registry.InvertedAt | power-switch.cpp:103-110 | the inverted map holds exactly the named channels, each with the name of its last entry |
| Registry.InvertedInjective | power-switch.cpp:103-110 | when no channel has two names, inverting recovers every entry's name |
| Registry.ChannelNameSpec | power-switch.cpp:112-120 | a channel renders as its registered name, and an unnamed one as "" |
| Registry.NameRoundTrip | power-switch.cpp:112-120 | looking up a channel's rendered name finds that channel again |
| Registry.AscendingSpec | pdu_types.h:30-31 | a channel set iterates each element once, strictly ascending |
| Registry.RenderSet | power-switch.cpp:122-148 | the loop with its `first` flag yields the names in ascending channel order joined by ", " |
| Registry.OpName | power-switch.cpp:150-158 | `to_string(op)` is "on" exactly for on and "off" exactly for off |
| Config.TemplateOrdered | config-template.h:35-55 | both tables are in the comparator's order |
| Config.TemplateInjective | config-template.h:35-43 | no channel has two names |
| Config.TemplateNamesEveryChannel | config-template.h:35-43 | `all_channels()` over the template is {ch1, ..., ch8} |
| Config.TemplateNames | config-template.h:35-43 | channel i is named "ch" followed by the digit i+1, and that name finds it |
| Config.TemplateLookupIgnoresCase | config-template.h:35-55 | "CH3" finds ch3 and "Scene1" finds scene1 |
| Config.TemplateScenes | config-template.h:52-55 | scene0 only switches off; scene1 and scene2 have disjoint off- and on-sets |
| Requests.SwitchRequest | power-switch.cpp:340-348 | the loop over the set yields `SwitchTarget(channels, op)` |
| Requests.SwitchTargetRoundTrip | power-switch.cpp:340-348 | parsing the target gives back the channel set and the operation |
| Requests.SwitchTargetInjective | power-switch.cpp:340-348 | distinct channel sets or operations never share a target |
| Requests.SwitchTargetExample | power-switch.cpp:340-348 | off for {ch1, ch3} is "/control_outlet.htm?outlet0=1&outlet2=1&op=1" |
| Requests.SwitchTargetEmpty | power-switch.cpp:340-348 | an empty set yields the prefix followed by "op=" and the code only |
| Upstream.TargetInjective | power-switch.cpp:340-354 | the status request and switch requests all have distinct targets |
| Upstream.SceneCalls | power-switch.cpp:683-709 | a scene's requests are its off request, then its on request, each only when that set is non-empty |
| Base64.Base64EncodeLength | power-switch.cpp:160-172 | the result has ceil(4n/3)+1 characters |
| Base64.Base64EncodeIsStandardIff | power-switch.cpp:160-172 | the result equals the RFC 4648 section 4 encoding exactly when n mod 3 is 2 |
| Base64.Base64EncodeCounterexample | power-switch.cpp:160-172 | "a" is sent as "YQ=" (standard "YQ==") and "abc" as "YWJj=" (standard "YWJj") |
| Base64.Base64EncodeRoundTrip | power-switch.cpp:160-172 | with its one '=' stripped, the result decodes back to the input |
| Base64.UnpaddedRoundTrip | power-switch.cpp:163-169 | decoding undoes the unpadded encoding |
| Base64.StandardRoundTrip | power-switch.cpp:160-172 | the standard encoding is a whole number of 4-character groups and decodes back to its input |
| Cli.DigitChannel | power-switch.cpp:75-76 | the digit d selects the channel of index d-1 |
| Cli.ParseChannelList | power-switch.cpp:71-81 | success exactly when every character is '1'..'8'; the set gains the channels of the digits before the first bad one, even on failure |
| Cli.ParseChannels | power-switch.cpp:83-98 | the loop returns `Channels(names, args)` and reports exactly `UnknownArgs(names, args)` |
| Cli.NamedArgumentsIncluded | power-switch.cpp:83-98 | a channel found by name stays in the result, whatever follows it |
| Cli.AllResets | power-switch.cpp:92-93 | a final "all" that is not a channel name makes the result exactly the named channels |
| Cli.DigitListExample | power-switch.cpp:68-81 | "153" gives {ch1, ch3, ch5} with nothing reported |
| Cli.PartialListExample | power-switch.cpp:71-95 | "2x4" keeps ch2 and is reported as unknown |
| Cli.RunScenesBounds | power-switch.cpp:843-861 | the result is 0 or -1, with at most two requests per scene |
| Cli.RunScenesFollowsPlan | power-switch.cpp:843-861 | the requests issued are a prefix of the planned ones, and all of them when the result is 0 |
| Cli.RunScenesStopsAtFailure | power-switch.cpp:843-861 | a request followed by another one in the run was accepted: every issued request but the last succeeded, so nothing is issued after a failure |
| Cli.RunScenesSucceedsIff | power-switch.cpp:843-861 | 0 exactly when every scene is known and every request succeeded |
| Cli.SceneOffBeforeOn | power-switch.cpp:855-858 | the off request precedes the on request, and a failed off request leaves the on request out |
| Cli.UnknownSceneStops | power-switch.cpp:843-861 | when the scenes before the k-th are known and all their requests succeed, an unknown k-th scene gives -1 after exactly the requests of the scenes before it |
| Cli.CliSetScene | power-switch.cpp:843-861 | the loop returns the result and the requests of `SetScenes` |
| Cli.ApplyScene | power-switch.cpp:855-858 | one scene succeeds exactly when all its requests do, and otherwise stops after the first failing one |
| Status.ElementName | power-switch.cpp:376 | the element is "outletStat" followed by the zero-based channel digit |
| Status.ElementNameInjective | power-switch.cpp:376 | distinct channels read distinct elements |
| Status.ParseStatusResponse | power-switch.cpp:364-388 | the loop with its two `continue`s returns `ParseStatus(names, doc)` |
| Status.EntrySpec | power-switch.cpp:370-386 | one channel yields at most one record, and one exactly when it is named and its element is present |
| Status.StatusesReportable | power-switch.cpp:368-387 | a channel is reported exactly when it is named and its element is present |
| Status.ParseStatusSpec | power-switch.cpp:364-388 | the records ascend by channel, each carries the channel's name and is on iff its text `iequals` "on", and there is a record exactly for each named channel whose element is present |
| Router.IndexOf | power-switch.cpp:395 | the position of the first occurrence, or none when the character is absent |
| Router.StripPathElement | power-switch.cpp:390-412 | the two `while` loops return the segment and the rest given by `StripSpec` |
| Router.StripSpecProperties | power-switch.cpp:390-412 | the segment holds no '/', the rest does not start with '/', and without a further '/' the whole stripped path is returned with an empty rest |
| Router.StripSpecReassembles | power-switch.cpp:390-412 | the path is leading slashes, the segment, at least one slash when the rest is non-empty, and the rest |
| Router.SplitTarget | power-switch.cpp:720-723 | the path holds no '?', and path + "?" + query is the target when it has a '?' |
| Router.Dispatch | power-switch.cpp:671-681 | "on", "off" and "cycle" in any case select their action, and anything else is illegal |
| Router.DispatchIgnoresCase | power-switch.cpp:671-681 | queries that agree case-insensitively select the same action |
| Router.DispatchOpName | power-switch.cpp:671-681 | the rendered operation names dispatch back to their operation |
| Router.RouteTarget | power-switch.cpp:720-723 | a GET is routed by the path before the first '?', with the rest as the query |
| Router.RoutePathChecks | power-switch.cpp:725-730 | a bad request exactly for an empty or relative path, with the message for each |
| Router.StripSpecIgnoresCase | power-switch.cpp:390-412 | paths that agree case-insensitively are split into a segment and a rest that agree case-insensitively |
| Router.RouteNameIgnoresCase | power-switch.cpp:732-747 | paths that agree case-insensitively take the same route: "show", "all", a channel name and "set/<scene>" are all matched without regard to case |
| Router.RouteRequestIgnoresCase | power-switch.cpp:711-747 | targets that agree case-insensitively, such as "/ch3?on" and "/CH3?On", are routed alike |
| Router.ShowShadowsChannel | power-switch.cpp:734-741 | a channel registered as "show" cannot be switched through the proxy |
| Pages.SceneListSnoc | power-switch.cpp:580-581 | each further scene adds its button at the end of the scene list |
| Pages.ChannelTableSnoc | power-switch.cpp:589-599 | each further record adds its row at the end of the channel table |
| Pages.RootBodyScene | power-switch.cpp:575-582 | the root page holds every scene's button, in table order, between the buttons of the scenes before and after it and ahead of the channel table |
| Pages.RootBodyRow | power-switch.cpp:583-600 | the root page holds every record's row, in order, between the rows of the records before and after it |
| Pages.ErrorBodyShape | power-switch.cpp:495-505 | the 500 page holds the operation, then " failed: " and the message only when an error code is set |
| Pages.ErrorBodiesDistinct | power-switch.cpp:638-659 | the three failing steps of a power cycle give different pages |
| Pages.ShowBodySnoc | power-switch.cpp:626-627 | each record adds its own "name: on|off" line at the end |
| Pages.ShowBodyLines | power-switch.cpp:626-627 | the `show` answer has one line per record |
| Protocol.OtherVerbsIgnored | power-switch.cpp:713-718 | whatever events follow, a session is left untouched exactly when the request is not a GET: a GET always asks the device for something or answers |
| Protocol.ImmediateAnswers | power-switch.cpp:671-747 | 400 for a bad path or an illegal query, 404 for an unknown name or scene, and 200 "Ok" for a scene with nothing to switch, all without asking the device; any other route asks for exactly one activity and awaits it |
| Protocol.StartAlike | power-switch.cpp:671-709 | routes alike start alike: the query and the scene name are looked up without regard to case |
| Protocol.RequestIgnoresCase | power-switch.cpp:711-748 | under either semantics and whatever events follow, targets that agree case-insensitively are handled identically |
| Protocol.Completions | power-switch.cpp:316-326 | the first call succeeds exactly when the answer has status 200; as written a refused answer is followed by a second, succeeding call |
| Protocol.StartOnPlan | power-switch.cpp:711-748 | every route starts on its plan, and a route that answers at once answers exactly once |
| Protocol.StepOnPlan | power-switch.cpp:638-709 | every event keeps the session on its plan |
| Protocol.RunOnPlan | power-switch.cpp:638-709 | under both semantics the activities asked for are a prefix of the route's plan: off, wait 5 s, on for a cycle; off-set before on-set for a scene |
| Protocol.StepAnswersOnce | power-switch.cpp:495-709 | corrected, each event keeps "unanswered while awaiting, answered once when done", and keeps a dropped request unanswered |
| Protocol.RunAnswersOnce | power-switch.cpp:495-748 | corrected, a session sends nothing while it awaits a step and exactly one response once done; a non-GET request gets no response and awaits nothing |
| Protocol.FailureAnswersError | power-switch.cpp:510-706 | corrected, a failed transaction answers 500 naming the step and the error's message, and asks for nothing more |
| Protocol.TimerFailureAnswersError | power-switch.cpp:646-648 | a timer error answers 500 "wait" and never switches on |
| Protocol.SemanticsAgree | power-switch.cpp:316-326 | both semantics agree on transport errors and accepted answers |
| Protocol.SuccessProceeds | power-switch.cpp:316-326 | an accepted answer runs the callback's success path once |
| Protocol.UnparsableStatus | power-switch.cpp:609-612 | an unparsable status answers 500 "xml parsing failed: " with the message and no error part |
| Protocol.SwitchAnswer | power-switch.cpp:661-669 | an accepted switch answers 200 "<set>: <op>" after exactly one request |
| Protocol.AsWrittenAnswersTwice | power-switch.cpp:316-326 | as written, a refused switch is answered with a 500 page and then a 200 |
| Protocol.CorrectedAnswersOnce | power-switch.cpp:661-669 | corrected, the refused switch is answered only with the 500 page |
| Protocol.DispatchCycle | power-switch.cpp:676-677 | the query "cycle" selects the power cycle |
| Protocol.AsWrittenCycleContinues | power-switch.cpp:638-659 | as written, a refused switch-off still waits, switches on and answers a second time |
| Protocol.CorrectedCycleStops | power-switch.cpp:638-659 | corrected, a refused switch-off answers 500 once and switches nothing on |
| Scenarios.ChannelRoute | power-switch.cpp:739-741 | with the template, "/ch1?on" switches ch1 on |
| Scenarios.SceneRoute | power-switch.cpp:743-745 | with the template, "/set/scene1" applies scene1 |
| Scenarios.ScenePlan | config-template.h:54 | scene1 asks for ch2 off, then ch1 on |
| Scenarios.UpperCaseRequest | power-switch.cpp:732-741 | with the template, "/CH3?On" is handled exactly as "/ch3?on" |
| Scenarios.RefusedSwitch | power-switch.cpp:316-326 | with the template, "/ch1?on" refused with 401 gets two responses as written and one corrected |
| Proxy.Session.constructor | power-switch.cpp:420-424 | a new session awaits nothing, has asked for nothing and has sent nothing |
| Proxy.Session.SendResponse | power-switch.cpp:465-483 | the response is appended and nothing is awaited any more |
| Proxy.Session.InternalServerError | power-switch.cpp:495-505 | sends the 500 page for the operation and error |
| Proxy.Session.AsyncHttpTransaction | power-switch.cpp:230-335 | logs the request and awaits its callback |
| Proxy.Session.SetChannels | power-switch.cpp:671-681 | the new state is the protocol's start for that route |
| Proxy.Session.TurnOn | power-switch.cpp:690-698 | the new state is the protocol's `TurnOn` |
| Proxy.Session.SetScene | power-switch.cpp:683-709 | the new state is the protocol's start for the scene route |
| Proxy.Session.ProcessRequest | power-switch.cpp:711-748 | the new state is `Begin(cfg, verb, target)` |
| Proxy.Session.RouteStripped | power-switch.cpp:732-747 | the new state is the protocol's start for the route of the stripped path |
| Proxy.Session.StatusDone | power-switch.cpp:509-636 | the status callback's new state is the protocol's `Complete` |
| Proxy.Session.Callback | power-switch.cpp:509-708 | each callback's new state is the protocol's `Complete` |
| Proxy.Session.OnUpstreamReply | power-switch.cpp:316-326 | calling the callback once per completion gives the protocol's `Step` |
| Proxy.Session.OnTimer | power-switch.cpp:646-648 | the timer callback gives the protocol's `Step` |

## Left out

- Sockets, name resolution and the HTTP codec are left out. This covers the synchronous and asynchronous `http_transaction`, the session's read and write, and `proxy_server` accept, start and stop. Each transaction is an abstract result. Only its decision is kept: success iff no transport error and status 200.
- The dereference of an unresolved endpoint, when no IPv4 address resolves, is not modelled. Its behaviour is undefined.
- The XML parser is not modelled. The status document is a map from element name to text, or an `Unparsable` message.
- Real time is not modelled. The 5-second `deadline_timer` is an event, and the model records only the requested 5000 ms wait.
- The HTML, CSS and script boilerplate of `root_document` is abbreviated to short constants. The per-scene `<li>` and per-channel `<tr>` parts are modelled in full.
- The HTTP headers of responses and requests are not modelled. Responses keep their status, content type and body. The `Authorization` header uses `base64_encode`, which is modelled on its own.
- The message of a refused status is a parameter of the reply. `http_status_error_category.h` is not part of this model.
- Lifetime management through `shared_ptr` is not modelled. Neither is socket closing after a write, or a second response racing the first on the same socket: responses are a list.
- `main`, `usage`, `show_channels`, `show_scenes`, the console output and the Windows service wrappers are not modelled. They are I/O only.
- The CLI's `set_switch` is not modelled separately. Each of its transactions is a reply in the sequence given to `Cli.RunScenes`.
- Cli.RunScenes: the replies are given up front, two per scene, rather than produced by network calls.
- `config-tempalte.h` is a stale duplicate that the program does not use. It is not part of this model.
- The scene table follows the off-then-on reading of the `/*off*/` and `/*on*/` comments in `config-template.h:53-55`. This assumes that the `scene` type the template names declares its off-set first. That type is declared in none of the files modelled here. This reading gives the same scenes as the stale `config-tempalte.h:44-46`. C++ brace initialisation is positional, though, so initialising `pdu_types.h:28-32`'s `szene { on; off; }` from `config-template.h` would swap the two sets: scene0 would switch ch1 and ch2 on.
- The `case_insensitive` comparator is modelled on NUL-terminated strings: reading at or past the end yields '\0'. The comparator in `case_insensitive.h` takes `const char*`, which the maps' `std::string_view` keys would not give it directly. Lookups are proved case-insensitive only for keys and names without an embedded NUL.
- `std::tolower` is modelled for the "C" locale, which the program never changes: only 'A'..'Z' fold. Characters compare as Unicode scalar values, whereas the source compares possibly signed `char`s. The two orders agree on ASCII names, which are all the template holds.

## Findings

| source | as written | input that shows it | evidently intended | confidence | as-written member | corrected member |
|---|---|---|---|---|---|---|
| power-switch.cpp:316-326 | after a status other than 200 the callback is called with the error and, with no `return`, called again without it, so the session answers 500 and then 200 | GET "/ch1?on" answered 401 by the switch | one call with the error: a single 500 response | high; not executed | Scenarios.RefusedSwitch | Protocol.RunAnswersOnce |
| power-switch.cpp:316-326, 638-659 | a power cycle whose switch-off is refused answers 500, then still waits, switches the channels on and answers 200 | GET "/ch1?cycle" with the switch-off answered 401 | the refused switch-off ends the cycle: one 500 and no on request | high; not executed | Protocol.AsWrittenCycleContinues | Protocol.CorrectedCycleStops |
