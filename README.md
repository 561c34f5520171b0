# Device: a Dafny model of the browser print client's printer handle

This project models the `Device` class of a browser-side client for a local
print service (`src/Device.ts`). A `Device` is a handle on one label or
receipt printer. It is built from the discovery service's JSON description.
It sends data to the printer and reads responses back through the service's
`write` and `read` endpoints.

The HTTP transport is not part of this model. Every operation is given, as a
sequence of `Reply` values (`Done(response)` or `Failed(error)`), what the
service answers to the requests it issues, in order. It returns the trace of
what it does: the requests it posts (as envelope records, not JSON text), the
callbacks it invokes and with what, the hand-off to the external converter.
Callbacks are identities (`NoOp`, the library's default success callback, or
an application `Handler(id)`). Continuations run sequentially, in place of
the callback that would have fired them.

Files:

- `device_types.dfy` (module `DeviceTypes`): the device description, which is
  also the public projection sent in envelopes; envelopes, replies, callbacks
  and trace events; callback fallback; action defaulting; the retry default.
- `read_loop.dfy` (module `ReadLoop`): the accumulation loop of
  `readUntilStringReceived` as a function `RunLoop` over the replies, with its
  properties proved as lemmas.
- `device.dfy` (module `Devices`): the `Device` class (private fields as
  `const`, public fields and the four callback slots as `var`). Its methods
  return traces. `ReadUntilStringReceived` is a `while` loop proved equal to
  `RunLoop`.

Points where the code behaves differently from what its names suggest; the
model follows the code:

- `readUntilStringReceived` without a finished callback falls back to the
  library's default success callback, not to the device's `readFinishedCallback`
  slot. Its error callback does fall back to `readErrorCallback`, through `read`.
- The `device` member of `send`, `read` and `sendUrl` envelopes has all seven
  discovery keys (name, uid, connection, deviceType, version, provider,
  manufacturer).
- The `sendThenRead*` methods hand their own error callback to `send`. The
  send error slot is used only when that callback is omitted.
- `sendUrl` never posts anything; see Findings.

## Model

| member | source | states |
|---|---|---|
| `Devices.Device.constructor` | src/Device.ts:83-94 | the public projection equals the discovery description, `readRetries` is 1 for a bluetooth connection and 0 otherwise, and every callback slot starts as the empty callback; uid and the other private fields are `const` |
| `DeviceTypes.DefaultReadRetries` | src/Device.ts:93 | the derived retry budget is 1 exactly when the connection is "bluetooth", 0 exactly when it is not |
| `DeviceTypes.Resolve` | src/Device.ts:128-133 | a given callback is used; an omitted one is replaced by the device's slot |
| `DeviceTypes.Completion` | src/Device.ts:134 | a completed request fires exactly one callback: the success one with the response or the error one with the error; none while no reply has arrived |
| `Devices.Device.Send` | src/Device.ts:126-147 | one `write` request whose body is the public projection plus `data`, then the success callback (or send-finished slot) with the response, or the error callback (or send-error slot) with the error; no read is issued |
| `Devices.Device.Read` | src/Device.ts:189-209 | one `read` request whose body is the public projection alone, then the finished callback (or read-finished slot) with what was read, or the error callback (or read-error slot) |
| `Devices.Device.Public` | src/Device.ts:136-144 | the `device` member of an envelope has exactly the seven keys name, uid, connection, deviceType, version, provider and manufacturer, taken from the device's current fields |
| `Devices.Device.WriteRequest` | src/Device.ts:134-146 | a `write` request's body is the public projection together with the data, and nothing else |
| `Devices.Device.ReadRequest` | src/Device.ts:197-208 | a `read` request's body is the public projection alone |
| `Devices.Device.StartBudget` | src/Device.ts:226-228 | a loop's retry budget is the `retries` given, or the device's `readRetries` when it is omitted |
| `ReadLoop.Final` | src/Device.ts:234-245 | a loop that ends fires exactly one callback: the finished one with the delivered text or the error one with the read error; a waiting loop fires none |
| `ReadLoop.LoopTrace` | src/Device.ts:229-245 | a loop's events are one `read` request per read issued, each carrying the public projection, followed by the single closing callback and no further request |
| `ReadLoop.IndexOf` | src/Device.ts:238 | the index of the first occurrence of the terminator in the accumulation, or -1 exactly when it does not occur |
| `ReadLoop.Step` | src/Device.ts:229-243 | one reply to a loop's read: an error ends the loop with that error; an empty chunk with the budget spent delivers the accumulation unchanged; otherwise the chunk is appended and the loop delivers exactly when a non-empty terminator occurs in the result, or continues with budget -1 after data and one less after an empty chunk |
| `ReadLoop.RunLoop` | src/Device.ts:229-245 | the loop issues at least one read and at most one more than the replies it was given; it is still waiting exactly when every reply was consumed without ending it |
| `Devices.Device.ReadUntilStringReceived` | src/Device.ts:222-246 | the loop run with `retries` defaulting to `readRetries` and the prefix to ""; the trace is one `read` request per iteration followed by exactly one callback: the finished callback (or the library default) with the delivered text, or the error callback (or read-error slot) with the read error |
| `Devices.Device.ReadAllAvailable` | src/Device.ts:257-259 | the loop with an empty terminator; when it delivers, the last reply was empty |
| `ReadLoop.DeliveredAccumulates` | src/Device.ts:237-241 | what is delivered is the starting prefix followed by every chunk read, in order, and every reply consumed carried data |
| `ReadLoop.AwaitingAccumulates` | src/Device.ts:237-241 | a loop still waiting has accumulated the prefix followed by every chunk read, in order |
| `ReadLoop.ErroredAtFailedRead` | src/Device.ts:245 | a read error ends the loop at the failed read, handing on that error, with no retry |
| `ReadLoop.NoEarlierMatch` | src/Device.ts:238-239 | with a non-empty terminator, the accumulation after every reply before the last one read does not contain it: the loop stops as soon as it does |
| `ReadLoop.DeliveredByRule` | src/Device.ts:233-239 | the loop delivers only on an empty reply, handing over the accumulation before it unchanged, or when a non-empty terminator occurs in what it delivers |
| `ReadLoop.EmptyTerminatorEndsOnEmptyRead` | src/Device.ts:257-259 | an empty terminator never matches: the loop delivers only on an empty read |
| `ReadLoop.OnlyEmptyReads` | src/Device.ts:226-241 | when the prefix does not already contain a non-empty terminator and every reply is empty, a budget r issues max(r, 0) + 1 reads and delivers the prefix unchanged; with fewer replies it is still waiting, with r minus the replies as budget |
| `ReadLoop.NoRetryAfterData` | src/Device.ts:219-241 | once a non-empty chunk has arrived, the next empty reply ends the loop: no retries after data |
| `ReadLoop.SpentBudgetStaysSpent` | src/Device.ts:231-241 | from a spent budget, a loop still waiting after a reply waits with budget -1 |
| `ReadLoop.DataSpendsBudget` | src/Device.ts:231-241 | after any non-empty chunk, a loop still waiting waits with budget -1 (reset to 0, then decremented) |
| `ReadLoop.EndlessDataNeverDelivers` | src/Device.ts:238-241 | with an empty terminator and only non-empty replies the loop never delivers; it waits with everything accumulated |
| `ReadLoop.TerminatorExample` | src/Device.ts:238-239 | replies "ab", "cX", "" with terminator "X" and budget 2 deliver "abcX" after two reads |
| `ReadLoop.ReadAllExample` | src/Device.ts:257-259 | replies "data1", "data2", "" with an empty terminator and budget 0 deliver "data1data2" after three reads |
| `ReadLoop.EmptyRepliesExample` | src/Device.ts:226-235 | three empty replies with budget 2 deliver "" after three reads |
| `Devices.Device.SendThenRead` | src/Device.ts:270-276 | the `write` comes first; the `read` is issued only after the send succeeded; a failed send invokes the error callback exactly once and never reads |
| `Devices.Device.SendThenReadUntilStringReceived` | src/Device.ts:289-295 | the `write` comes first; only a successful send starts the read loop, with no prefix; a failed send invokes the error callback (or send-error slot) once and never reads |
| `Devices.Device.SendThenReadAllAvailable` | src/Device.ts:306-312 | as above, with the loop's terminator empty |
| `DeviceTypes.DefaultAction` | src/Device.ts:325-330 | the action handed on is never empty; a non-empty action is kept; anything other than "print" was the caller's own |
| `Devices.ConvertOptions.constructor` | src/Device.ts:325-327 | a missing options bag is replaced by an empty one |
| `Devices.Device.ConvertAndSendFile` | src/Device.ts:324-333 | the caller's options bag, when given, is the one handed to the converter and is updated in place; otherwise a fresh one is; its action is defaulted to "print"; the converter is called once with it |
| `Devices.SendUrlAsWritten` | src/Device.ts:346-372 | as written, `sendUrl` throws "Function not implemented." and posts nothing |
| `Devices.SendUrlIntended` | src/Device.ts:351-366 | one `write` whose envelope carries the given device projection, the URL, and the options exactly when given |
| `Devices.SendUrlNeverWrites` | src/Device.ts:349 | for every input, the code as written posts no request at all and so differs from the intended single `write` |
| `Devices.Device.SendUrl` | src/Device.ts:346-367 | the intended `sendUrl`: one `write` whose device is the public projection |

## Left out

- HTTP transport (`getRequest`, `getApiLocation`, `attachOnDoneCallbacks`): not part of this model. Each request is an event and each reply the next element of the `replies` input.
- Asynchrony and concurrency: callbacks are sequential continuations. Independent loops running at the same time on one device are not modelled.
- `sendFile`: it uses browser URL loading, `FormData` and `Blob`. Its blob branch calls the same throwing helper as `sendUrl`.
- `BrowserPrint.convert`, `BrowserPrint.defaultSuccessCallback` and `BrowserPrint.loadFileFromUrl`: not part of this model. Only the call to `convert` is recorded, and the default success callback is the identity `LibraryDefault`.
- `Devices.ConvertOptions`: only the `action` setting is modelled. The other settings of the options bag are defined in `BrowserPrint`, which is not part of this model.
- `Devices.Device.SendUrl`: its success and error callbacks are not modelled, because the helper that would attach them is not part of this model.
- Chunks that are `null` or `undefined`: JavaScript would append the text "null" or "undefined". Chunks are strings here.
- `retries` values that are not integers (fractions, `NaN`, `null`): the budget is an `int`. Only an omitted value takes the default.
- A prefix given as `null`: treated like an omitted one, which matches the source only because both start the loop at "".
- `version` is an `int`, although JSON numbers may be fractional.
- The JSON text of envelopes, including key order: envelopes are records.
- `uid` getter: the uid is a `const` field of the class, readable and never written after construction.
- The test file `test/devices.spec.ts` holds one construction check. It is mirrored by `DiscoveryExample` in `device.dfy`, which has no contract.

## Findings

| source | as written | input that shows it | evidently intended | confidence | as-written member | corrected member |
|---|---|---|---|---|---|---|
| src/Device.ts:349 | `sendUrl` calls `setupOnDoneCallbacks` (src/Device.ts:370-372), a stub that always throws, before building or posting the envelope | any call, e.g. `sendUrl("http://host/label.png")` | post one `write` with `{device, url, options?}`, as the method's documentation and the envelope code after the call describe | medium, not executed | `Devices.SendUrlAsWritten` (with `Devices.SendUrlNeverWrites`) | `Devices.SendUrlIntended`, used by `Devices.Device.SendUrl` |
