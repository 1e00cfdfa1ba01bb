# Stylish for Maxthon: common utilities, modelled in Dafny

This project models the shared utility module of the Stylish for Maxthon browser
extension, `src/common/index.js`. The module has these parts:

- a hook registry (`initHooks`): an ordered subscriber list with `hook`, an unsubscribe closure, and `fire`;
- `debounce` and `throttle` wrappers, each with a one-slot pending timer;
- the reply mapping of `sendMessage`, the cross-context messenger;
- the decision rules of `request`, the XMLHttpRequest wrapper: request preparation, status, and response data;
- `buffer2string`, which converts bytes to text in 8192-byte chunks;
- the string helpers `normalizeKeys`, `zfill`, `isRemote` and `getLocaleString`.

Code that changes state is modelled as imperative Dafny:

- the registry is a class whose `hooks` sequence is updated by `Hook`, `Unsubscribe` and `Fire`;
- the two wrappers are classes holding the pending slot;
- `zfill` and `buffer2string` are methods with their loops.

The rest is modelled as functions and lemmas. Each file holds one module:

| file | module | models |
|---|---|---|
| wrappers.dfy | Wrappers | Option and Result (a settled promise) |
| js_value.dfy | JsValue | JavaScript values, truthiness, property reads |
| keys.dfy | Keys | `normalizeKeys` |
| hooks.dfy | Hooks | `initHooks` |
| scheduling.dfy | Scheduling | `debounce`, `throttle` |
| messaging.dfy | Messaging | `sendMessage` |
| request.dfy | Request | `request`, `getResponse` |
| binary_text.dfy | BinaryText | `buffer2string` |
| strings.dfy | Strings | `zfill`, `isRemote` |
| locale.dfy | Locale | `getLocaleString` |

Host collaborators are passed in as parameters:

- A subscriber's own calls into the registry, and whether it throws, come from a `react` function.
- The timer is abstract. `Call` is an invocation of the wrapper. `Elapse` is the pending timer going off.
- The XHR outcome is an event value together with the transport's status, response and text.
- `JSON.parse` is a parameter `string -> Option<Value>`, where None means it threw.
- `JSON.stringify` is a parameter `Value -> string`.
- The browser's language list is a parameter of `getLocaleString`.

Three behaviours of the code are worth stating plainly:

- The error, abort and timeout handlers reject with status -1, so a request rejects iff its status is -1 or above 300 (`Request.RejectsOutsideSuccessRange`).
- The unsubscribe closure removes the first occurrence of its callback (`indexOf`), not its own subscription. When one callback is hooked twice, the closure of the second `hook` removes the first subscription, and running a closure again removes the remaining one. `Hooks.HookThenUnsubscribe` states this. `Hooks.UnsubscribeTwice` states that a repeated run changes nothing for a callback subscribed at most once.
- A subscriber that throws stops the `forEach` of `fire`, and the exception reaches the caller. `Registry.Fire` reports this as `thrown`, and later subscribers are not called.

## Model

| member | source | states |
|---|---|---|
| Keys.NormalizeKeys | src/common/index.js:6-10 | null or undefined gives []; an array is returned unchanged; any other key gives segments that are all non-empty and free of '.' |
| Keys.NormalizeKeysKeepsCharacters | src/common/index.js:9 | the segments, concatenated, are exactly the key text with its dots removed, in order |
| Keys.NormalizeKeysOfJoin | src/common/index.js:9 | round trip: a path joined from non-empty, dot-free segments normalises back to exactly those segments |
| Keys.NormalizeKeysExample | src/common/index.js:6-10 | ".a..bc." gives ["a", "bc"]; "" and null give [] |
| Keys.Split | src/common/index.js:9 | `split('.')` gives one more part than there are dots, and no part contains a dot |
| Keys.JoinSplit | src/common/index.js:9 | joining the parts of a split with the separator gives back the string |
| Keys.SplitJoin | src/common/index.js:9 | splitting a join of separator-free parts gives back the parts |
| Keys.DropEmpty | src/common/index.js:9 | `filter(Boolean)` keeps only non-empty parts, all taken from the input, and is the identity when none is empty |
| Keys.DropEmptyAppend | src/common/index.js:9 | filtering a concatenation is concatenating the filtered pieces, so parts keep their order |
| Keys.DropEmptySingle | src/common/index.js:9 | a single part is kept exactly when it is non-empty |
| Keys.DropEmptyKeeps | src/common/index.js:9 | every non-empty part survives the filter at its place among the filtered parts before and after it |
| Keys.ConcatDropEmpty | src/common/index.js:9 | dropping empty parts does not change their concatenation |
| Keys.ConcatSplit | src/common/index.js:9 | the parts of a split, concatenated, are the string without separators |
| Hooks.IndexOf | src/common/index.js:24 | `indexOf` is -1 exactly when the callback is absent, and otherwise the position of its first occurrence |
| Hooks.RemoveFirstSpec | src/common/index.js:23-26 | unsubscribing removes the first occurrence of the callback, or nothing when it is absent; the other callbacks keep their order and counts |
| Hooks.HookThenUnsubscribe | src/common/index.js:21-27 | hook then unsubscribe restores the list when the callback was new; otherwise the earlier subscription is removed and the new one stays last |
| Hooks.UnsubscribeTwice | src/common/index.js:23-26 | for a callback hooked at most once, running its closure a second time changes nothing |
| Hooks.ApplyAllAppend | src/common/index.js:15-27 | registry calls made during a fire compose in order |
| Hooks.Registry.constructor | src/common/index.js:13 | a new registry has no subscribers |
| Hooks.Registry.Hook | src/common/index.js:21-23 | appends the callback at the end, changes nothing else, and returns a closure for that callback |
| Hooks.Registry.Unsubscribe | src/common/index.js:23-26 | the new list is the old list with the first occurrence of the callback removed |
| Hooks.Registry.Fire | src/common/index.js:15-19 | calls exactly the callbacks listed when the fire began, in order, whatever the subscribers hook or unsubscribe meanwhile; a throw ends the fire; the final list is the old list after all subscriber registry calls |
| Scheduling.DebouncePendingIsLast | src/common/index.js:51-54 | for any call history, debounce holds the last call made since the timer last fired, or nothing |
| Scheduling.ThrottlePendingIsFirst | src/common/index.js:63-67 | for any call history, throttle holds the first call made since the timer last fired, or nothing |
| Scheduling.AtMostOneDeliveryPerElapse | src/common/index.js:45-68 | each timer expiry delivers at most one invocation, for both wrappers |
| Scheduling.DeliveriesWereCalled | src/common/index.js:45-68 | every delivered or pending invocation is one that was actually called |
| Scheduling.DebounceBurst | src/common/index.js:51-54 | each call of a burst replaces whatever is pending, so the last call is pending and nothing is delivered |
| Scheduling.ThrottleDropsWhilePending | src/common/index.js:63-67 | calls made while a delivery is pending are dropped |
| Scheduling.DebounceBurstThenElapse | src/common/index.js:45-54 | a burst followed by the timer delivers exactly once, with the last call's receiver and arguments, and leaves the slot clear |
| Scheduling.ThrottleBurstThenElapse | src/common/index.js:57-67 | a burst on an idle wrapper followed by the timer delivers exactly once, with the first call's receiver and arguments, and leaves the slot clear |
| Scheduling.RunAppend | src/common/index.js:45-68 | running two histories back to back is running their concatenation |
| Scheduling.Debounced.constructor | src/common/index.js:46 | a new debounced wrapper has no pending timer |
| Scheduling.Debounced.Call | src/common/index.js:51-54 | the call's receiver and arguments become the pending invocation, replacing any earlier one |
| Scheduling.Debounced.Elapse | src/common/index.js:47-50 | the slot is cleared and the pending invocation, if any, is delivered |
| Scheduling.Throttled.constructor | src/common/index.js:58 | a new throttled wrapper has no pending timer |
| Scheduling.Throttled.Call | src/common/index.js:63-67 | the call becomes pending only when nothing is pending; otherwise the slot is unchanged |
| Scheduling.Throttled.Elapse | src/common/index.js:59-62 | the slot is cleared and the pending invocation, if any, is delivered |
| Messaging.NormalizeReply | src/common/index.js:34-38 | rejects iff the reply is an object with a truthy `error`, carrying exactly that value; otherwise resolves with `data`, or undefined |
| Messaging.SendMessage | src/common/index.js:32-43 | a transport rejection passes through unchanged; a reply rejects exactly when its `error` is truthy, and settles as NormalizeReply of that reply |
| Messaging.FalsyReplyResolvesUndefined | src/common/index.js:35 | a null, undefined or other falsy reply resolves with undefined |
| Messaging.FalsyErrorResolves | src/common/index.js:36-37 | a falsy `error` does not reject; the reply resolves with its `data` |
| Messaging.ReplyExamples | src/common/index.js:32-38 | `{data: 5}` resolves to 5; `{error: 'E'}` rejects with 'E', also when data is present; null resolves with undefined |
| Request.SetHeaderLookup | src/common/index.js:128 | after setting a header, its name reads the new value and every other name reads as before |
| Request.SetHeaderNames | src/common/index.js:125-133 | setting a header keeps the header names and their order, and appends the name when it is new |
| Request.SetHeaderUnique | src/common/index.js:125-128 | header names stay distinct |
| Request.Prepare | src/common/index.js:119-133 | method defaults to GET; binary response types are set on the XHR; a plain-object body is serialised and Content-Type becomes application/json over the caller's; other caller headers and their order pass through unchanged |
| Request.ResponseData | src/common/index.js:150-164 | binary types give the raw response; other types give the text; json gives the parsed value, or the raw text when parsing fails |
| Request.JsonFallsBackToText | src/common/index.js:158-164 | a json request whose body does not parse yields the same data as a text request |
| Request.DataIndependence | src/common/index.js:150-164 | only json consults the parser, and binary types depend only on the raw response |
| Request.Settle | src/common/index.js:134-169 | load uses `xhr.status`, or 200 for 0, and rejects iff status > 300; error, abort and timeout reject with status -1; the response always carries the url, the handle and the data |
| Request.RejectsOutsideSuccessRange | src/common/index.js:134-147 | for every outcome, rejection iff status is -1 or above 300, and resolution iff status is in 1..300 |
| Request.JsonBodyExample | src/common/index.js:125-130 | a POST of `{a: 1}` sends the serialised body with Content-Type application/json overriding the caller's, keeping the other headers |
| Request.StatusExamples | src/common/index.js:134-147 | 404 rejects with status 404; a 0 status resolves with 200; a timeout rejects with status -1 |
| Request.LenientJsonExample | src/common/index.js:158-164 | with responseType json, an unparsable body resolves with the raw text |
| BinaryText.CharCodes | src/common/index.js:178 | the one-pass conversion has one char per byte, whose code is that byte |
| BinaryText.CharCodesAppend | src/common/index.js:177-179 | converting consecutive chunks and concatenating equals converting the whole |
| BinaryText.Buffer2String | src/common/index.js:173-181 | the chunked loop returns the one-pass conversion: length equals byte count and char i has code byte i, for every buffer size |
| Strings.Zfill | src/common/index.js:72-76 | the result is the input with exactly max(0, length - input length) leading '0's, and its length is max(length, input length) |
| Strings.ZeroPaddedShape | src/common/index.js:72-76 | the padded string ends with the input and is all '0' before it |
| Strings.ZeroPadIdempotent | src/common/index.js:72-76 | padding an already padded string to the same length changes nothing |
| Strings.IsRemote | src/common/index.js:190-192 | the empty string is never remote |
| Strings.LocalIsPrefixClosed | src/common/index.js:191 | whether a URL is local depends only on its start: extending a non-remote URL keeps it non-remote |
| Strings.IsRemoteExamples | src/common/index.js:190-192 | `http://localhost:` / `http://localhost/`, `file:` and `data:` are local; `http://localhost`, `http://localhost.example.com/`, `https://localhost/` and `FILE:` are remote; "" is not remote |
| Locale.IndexOfChar | src/common/index.js:88 | `indexOf('-')` is -1 iff there is no '-', else the first position of '-' |
| Locale.FirstFoundSpec | src/common/index.js:91-93 | the map/find scan gives the lookup of the first language that has a non-empty one, and "" only when none has |
| Locale.GetLocaleString | src/common/index.js:85-95 | gives the attribute of the first language that has one, trying exact then lower-case tags, else the plain attribute, else "" |
| Locale.LanguagesExample | src/common/index.js:86-90 | a single `zh-CN` is also tried as `zh`; a tag starting with '-' or a list of two is not extended |
| Locale.BaseLanguageExample | src/common/index.js:85-95 | with only `name:zh`, the language `zh-CN` finds it through its base language |
| Locale.LowerCaseExample | src/common/index.js:92 | an upper-case region tag also finds a lower-case attribute |
| Locale.DefaultExample | src/common/index.js:94 | without a localised attribute the plain one is returned, and "" when it is missing |

## Left out

- Hooks.Registry.Fire: a subscriber's registry calls are a fixed function of its callback and the fired data. Two things the source allows are not covered: registry calls that depend on state, such as the current list or what an earlier subscriber changed; and a subscriber that calls `fire` on the same registry during a fire. The final-list postcondition would not describe a nested fire.
- Strings.Zfill: lengths are counted in Unicode code points, while JavaScript's `length` counts UTF-16 code units, so an input with characters outside the Basic Multilingual Plane gets more zeros in the model. `length` is an integer; a fractional length (2.5 pads to 3) is not modelled. The function is meant for numbers, whose string forms are ASCII.
- `i18n`, `injectContent`, `getUniqId`, `noop`, `getFullUrl` and `defaultImage`: host call-throughs, clock and randomness, or trivial identities with nothing to state.
- The `console.warn` logging of rejected messages under the DEBUG flag: a side observation that does not change the promise.
- Timer durations (`time`) and real `setTimeout`/`clearTimeout` timing: the timer is the abstract `Elapse` event, so claims like "no earlier than t+18" are not stated.
- Promise asynchrony and the XMLHttpRequest transport itself: the outcome event and the transport fields are inputs.
- `JSON.parse` and `JSON.stringify` internals: they are function parameters.
- `Object.keys` ordering of integer-like header names (they would come first): header names are kept in insertion order. Header values are strings.
- What `setRequestHeader` does with two names that differ only in case: this is transport behaviour.
- `toString()` in `zfill` and `${key}` in `normalizeKeys`: the input is given already converted to a string. Array keys are taken as arrays of strings.
- Strings.IsRemote: modelled as a truth value. The source returns the falsy input itself ("", null, undefined) rather than `false`. Non-string arguments are not modelled.
- Locale.ToLower: ASCII letters only; the Unicode case mapping of `toLowerCase` is not modelled.
- Reading `navigator.languages`, and the `push` onto that host array: the list is passed in, and the extension is a new sequence.
- Messaging.NormalizeReply: a reply that is a host object or an array is read as having no `data` or `error` property.
- Numbers are reals plus NaN: floating-point rounding is not modelled.
