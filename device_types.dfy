/**
 * Values exchanged between a printer `Device` handle, the application that
 * holds it, and the local print service: the device description, the request
 * envelopes, the transport's replies, callbacks and the trace of what a
 * device operation does.
 */
module DeviceTypes {

  datatype Option<+T> = None | Some(value: T)

  /** What the local service answers to one request: its response text, or a transport error. */
  datatype Reply = Done(response: string) | Failed(error: string)

  /**
   * The seven keys the discovery service reports for a device. The same seven
   * keys, and no others, make up the `device` member of every `write`/`read`
   * envelope, so one record serves as both the discovery description and the
   * public projection. `connection` is kept as the text the service reported
   * (`bluetooth`, `usb`, `network` or `driver`); nothing validates it.
   */
  datatype DeviceFields = DeviceFields(
    name: string,
    uid: string,
    connection: string,
    deviceType: string,
    version: int,
    provider: string,
    manufacturer: string)

  /** The optional conversion settings the legacy `sendUrl` forwards to the service. */
  datatype UrlOptions = UrlOptions(featureKey: Option<string>, toFormat: Option<string>, fromFormat: Option<string>)

  /** A file handed to `convertAndSendFile`: a URL to load, or already loaded bytes. */
  datatype Resource = Url(url: string) | Blob(bytes: seq<bv8>)

  /**
   * A response callback, by identity: the empty function every callback slot
   * starts with, the library's own default success callback, or a function
   * the application supplied.
   */
  datatype Callback = NoOp | LibraryDefault | Handler(id: nat)

  datatype Endpoint = WriteEndpoint | ReadEndpoint

  /** Request bodies sent to the service, as records rather than JSON text. */
  datatype Envelope =
    | DataEnvelope(device: DeviceFields, data: string)
    | DeviceEnvelope(device: DeviceFields)
    | UrlEnvelope(device: DeviceFields, url: string, options: Option<UrlOptions>)

  /**
   * One observable step of a device operation: a request posted to the
   * service, a callback invoked with its argument, a hand-off to the external
   * converter, or an exception thrown to the caller.
   */
  datatype Event =
    | Posted(endpoint: Endpoint, body: Envelope)
    | Called(callback: Callback, argument: string)
    | Converted(resource: Resource, action: string, onFinished: Callback, onError: Option<Callback>)
    | Threw(message: string)

  /** True when some request in `events` went to the `read` endpoint. */
  ghost predicate ReadIssued(events: seq<Event>)
  {
    exists k :: 0 <= k < |events| && events[k].Posted? && events[k].endpoint == ReadEndpoint
  }

  /** The read retry budget a device derives once, at construction, from its connection type. */
  function DefaultReadRetries(connection: string): (n: nat)
    ensures n == 1 <==> connection == "bluetooth"
    ensures n == 0 <==> connection != "bluetooth"
  {
    if "bluetooth" == connection then 1 else 0
  }

  /** An omitted callback falls back to the device's slot for it. */
  function Resolve(given: Option<Callback>, slot: Callback): (c: Callback)
    ensures given.Some? ==> c == given.value
    ensures given.None? ==> c == slot
  {
    if given.None? then slot else given.value
  }

  /**
   * What the transport does once a request completes: it invokes `onDone`
   * with the response or `onFail` with the error, exactly once; nothing
   * happens while the reply has not arrived.
   */
  function Completion(replies: seq<Reply>, onDone: Callback, onFail: Callback): (es: seq<Event>)
    ensures |es| == if replies == [] then 0 else 1
    ensures replies != [] && replies[0].Done? ==> es == [Called(onDone, replies[0].response)]
    ensures replies != [] && replies[0].Failed? ==> es == [Called(onFail, replies[0].error)]
  {
    if replies == [] then []
    else match replies[0]
      case Done(r) => [Called(onDone, r)]
      case Failed(e) => [Called(onFail, e)]
  }

  /** The conversion action `convertAndSendFile` passes on: an absent or empty one becomes "print". */
  function DefaultAction(action: Option<string>): (a: string)
    ensures a != ""
    ensures action.Some? && action.value != "" ==> a == action.value
    ensures a != "print" ==> action == Some(a)
  {
    if action.None? || action.value == "" then "print" else action.value
  }
}
