/**
 * The `Device` handle: one printer reachable through the local print
 * service. Requests go through a transport that is not part of this model;
 * every operation here is given, as `replies`, what the service answers to
 * the requests the operation issues, in the order it issues them, and
 * returns the trace of what it does: requests posted, callbacks invoked.
 * Callbacks are sequential continuations: a callback fires only after the
 * reply it waits for, and a continuation runs in place of the callback.
 */
module Devices {
  import opened DeviceTypes
  import opened ReadLoop

  /** The message of the exception the unimplemented callback helper throws. */
  const NotImplemented: string := "Function not implemented."

  class Device {
    // Private in the source: assigned by the constructor and never again.
    const uid: string
    const deviceType: string
    const provider: string
    const manufacturer: string

    // Public in the source: the application may reassign these.
    var name: string
    var connection: string
    var version: int
    var readRetries: int

    // Fallback callbacks for operations called without their own.
    var sendErrorCallback: Callback
    var sendFinishedCallback: Callback
    var readErrorCallback: Callback
    var readFinishedCallback: Callback

    /**
     * Copies the discovery description into the fields and derives the read
     * retry budget from the connection type, once: reassigning `connection`
     * later does not change `readRetries`.
     */
    constructor (json: DeviceFields)
      ensures Public() == json
      ensures readRetries == DefaultReadRetries(json.connection)
      ensures sendErrorCallback == NoOp && sendFinishedCallback == NoOp
      ensures readErrorCallback == NoOp && readFinishedCallback == NoOp
    {
      uid := json.uid;
      name := json.name;
      connection := json.connection;
      deviceType := json.deviceType;
      provider := json.provider;
      manufacturer := json.manufacturer;
      version := json.version;
      readRetries := DefaultReadRetries(json.connection);
      sendErrorCallback := NoOp;
      sendFinishedCallback := NoOp;
      readErrorCallback := NoOp;
      readFinishedCallback := NoOp;
    }

    /** The public projection sent as `device` in every `write` and `read` envelope. */
    function Public(): (p: DeviceFields)
      reads this
      ensures p.name == name && p.uid == uid && p.connection == connection
      ensures p.deviceType == deviceType && p.version == version
      ensures p.provider == provider && p.manufacturer == manufacturer
    {
      DeviceFields(name, uid, connection, deviceType, version, provider, manufacturer)
    }

    /** The `write` request for `data`: the public projection and the data, nothing else. */
    function WriteRequest(data: string): (e: Event)
      reads this
      ensures e.Posted? && e.endpoint == WriteEndpoint
      ensures e.body.DataEnvelope? && e.body.device == Public() && e.body.data == data
    {
      Posted(WriteEndpoint, DataEnvelope(Public(), data))
    }

    /** The `read` request: the public projection alone. */
    function ReadRequest(): (e: Event)
      reads this
      ensures e.Posted? && e.endpoint == ReadEndpoint
      ensures e.body.DeviceEnvelope? && e.body.device == Public()
    {
      Posted(ReadEndpoint, DeviceEnvelope(Public()))
    }

    /**
     * Posts `data` to the `write` endpoint with the public projection, then
     * invokes the success callback with the response or the error callback
     * with the error; an omitted one falls back to the send slot.
     */
    method Send(data: string, onSuccess: Option<Callback>, onError: Option<Callback>, replies: seq<Reply>)
      returns (events: seq<Event>)
      ensures |events| == if replies == [] then 1 else 2
      ensures events[0] == Posted(WriteEndpoint, DataEnvelope(Public(), data))
      ensures !ReadIssued(events)
      ensures replies != [] && replies[0].Done? ==>
        events[1] == Called(Resolve(onSuccess, sendFinishedCallback), replies[0].response)
      ensures replies != [] && replies[0].Failed? ==>
        events[1] == Called(Resolve(onError, sendErrorCallback), replies[0].error)
    {
      var success := if onSuccess.None? then sendFinishedCallback else onSuccess.value;
      var failure := if onError.None? then sendErrorCallback else onError.value;
      events := [WriteRequest(data)] + Completion(replies, success, failure);
    }

    /**
     * Posts the public projection, and nothing else, to the `read` endpoint,
     * then invokes the finished callback with whatever was read (possibly
     * nothing) or the error callback; an omitted one falls back to the read slot.
     */
    method Read(onFinished: Option<Callback>, onError: Option<Callback>, replies: seq<Reply>)
      returns (events: seq<Event>)
      ensures |events| == if replies == [] then 1 else 2
      ensures events[0] == Posted(ReadEndpoint, DeviceEnvelope(Public()))
      ensures replies != [] && replies[0].Done? ==>
        events[1] == Called(Resolve(onFinished, readFinishedCallback), replies[0].response)
      ensures replies != [] && replies[0].Failed? ==>
        events[1] == Called(Resolve(onError, readErrorCallback), replies[0].error)
    {
      var finished := if onFinished.None? then readFinishedCallback else onFinished.value;
      var failure := if onError.None? then readErrorCallback else onError.value;
      events := [ReadRequest()] + Completion(replies, finished, failure);
    }

    /** The retry budget a read loop starts with: the one given, or the device's default. */
    function StartBudget(retries: Option<int>): (b: int)
      reads this
      ensures retries.Some? ==> b == retries.value
      ensures retries.None? ==> b == readRetries
    {
      if retries.None? then readRetries else retries.value
    }

    /**
     * Reads until the accumulated text contains `term` (when non-empty), or
     * until an empty read finds the retry budget spent. Omitted `retries`
     * starts at `readRetries`, an omitted prefix at "". An omitted finished
     * callback falls back to the library's default success callback, an
     * omitted error callback to the read error slot; a read error goes to it
     * at once, without retry.
     */
    method ReadUntilStringReceived(term: string, onFinished: Option<Callback>, onError: Option<Callback>,
                                   retries: Option<int>, prefix: Option<string>, replies: seq<Reply>)
      returns (events: seq<Event>, outcome: LoopOutcome)
      ensures outcome == RunLoop(term, StartBudget(retries), if prefix.None? then "" else prefix.value, replies)
      ensures events == LoopTrace(Public(), outcome,
                                  if onFinished.None? then LibraryDefault else onFinished.value,
                                  Resolve(onError, readErrorCallback))
    {
      var acc := if prefix.None? then "" else prefix.value;
      var budget := StartBudget(retries);
      var finished := if onFinished.None? then LibraryDefault else onFinished.value;
      var failure := if onError.None? then readErrorCallback else onError.value;
      ghost var spec := RunLoop(term, budget, acc, replies);
      events := [ReadRequest()];
      assert events == Reads(Public(), 1);
      outcome := Awaiting(budget, acc, 1);
      var i, done := 0, false;
      while !done && i < |replies|
        invariant 0 <= i <= |replies|
        invariant !done ==> events == Reads(Public(), i + 1)
        invariant !done ==> spec == AddReads(RunLoop(term, budget, acc, replies[i..]), i)
        invariant done ==> outcome == spec && events == Reads(Public(), outcome.issued)
        decreases |replies| - i
      {
        var st := Step(term, budget, acc, replies[i]);
        match st {
          case Finish(o) =>
            outcome, done := AddReads(o, i), true;
          case Next(b, a) =>
            ContinueStep(term, budget, acc, replies, i);
            AddReadsTwice(RunLoop(term, b, a, replies[i + 1..]), 1, i);
            ReadsSnoc(Public(), i + 1);
            budget, acc := b, a;
            events := events + [ReadRequest()];
        }
        i := i + 1;
      }
      if !done {
        outcome := Awaiting(budget, acc, i + 1);
      }
      events := events + Final(outcome, finished, failure);
    }

    /** Reads until a read comes back empty with the budget spent: the loop with an empty terminator. */
    method ReadAllAvailable(onFinished: Option<Callback>, onError: Option<Callback>, retries: Option<int>,
                            replies: seq<Reply>)
      returns (events: seq<Event>, outcome: LoopOutcome)
      ensures outcome == RunLoop("", StartBudget(retries), "", replies)
      ensures outcome.Delivered? ==> replies[outcome.issued - 1] == Done("")
      ensures events == LoopTrace(Public(), outcome,
                                  if onFinished.None? then LibraryDefault else onFinished.value,
                                  Resolve(onError, readErrorCallback))
    {
      events, outcome := ReadUntilStringReceived("", onFinished, onError, retries, None, replies);
      EmptyTerminatorEndsOnEmptyRead(StartBudget(retries), "", replies);
    }

    /**
     * Sends `data`, and only from the send's success continuation reads the
     * response back; a failed send invokes `onError` once and never reads.
     */
    method SendThenRead(data: string, onFinished: Callback, onError: Callback, replies: seq<Reply>)
      returns (events: seq<Event>)
      ensures events != [] && events[0] == WriteRequest(data)
      ensures replies == [] ==> events == [WriteRequest(data)]
      ensures replies != [] && replies[0].Failed? ==>
        events == [WriteRequest(data), Called(onError, replies[0].error)]
      ensures replies != [] && replies[0].Done? ==>
        events == [WriteRequest(data), ReadRequest()] + Completion(replies[1..], onFinished, onError)
      ensures ReadIssued(events) ==> replies != [] && replies[0].Done?
    {
      events := [WriteRequest(data)];
      if replies != [] {
        match replies[0] {
          case Failed(e) =>
            events := events + [Called(onError, e)];
          case Done(_) =>
            var read := Read(Some(onFinished), Some(onError), replies[1..]);
            events := events + read;
        }
      }
    }

    /**
     * Sends `data`, and only from the send's success continuation runs the
     * read loop for `term`. A failed send invokes the error callback (or the
     * send error slot) once and never reads; errors of the loop's reads go to
     * the error callback (or the read error slot).
     */
    method SendThenReadUntilStringReceived(data: string, term: string, onFinished: Callback,
                                           onError: Option<Callback>, retries: Option<int>, replies: seq<Reply>)
      returns (events: seq<Event>)
      ensures events != [] && events[0] == WriteRequest(data)
      ensures replies == [] ==> events == [WriteRequest(data)]
      ensures replies != [] && replies[0].Failed? ==>
        events == [WriteRequest(data), Called(Resolve(onError, sendErrorCallback), replies[0].error)]
      ensures replies != [] && replies[0].Done? ==>
        events == [WriteRequest(data)] +
                  LoopTrace(Public(), RunLoop(term, StartBudget(retries), "", replies[1..]),
                            onFinished, Resolve(onError, readErrorCallback))
      ensures ReadIssued(events) ==> replies != [] && replies[0].Done?
    {
      events := [WriteRequest(data)];
      if replies != [] {
        match replies[0] {
          case Failed(e) =>
            events := events + [Called(Resolve(onError, sendErrorCallback), e)];
          case Done(_) =>
            var loop, _ := ReadUntilStringReceived(term, Some(onFinished), onError, retries, None, replies[1..]);
            events := events + loop;
        }
      }
    }

    /** `SendThenReadUntilStringReceived` with an empty terminator: reads everything available. */
    method SendThenReadAllAvailable(data: string, onFinished: Callback, onError: Option<Callback>,
                                    retries: Option<int>, replies: seq<Reply>)
      returns (events: seq<Event>)
      ensures events != [] && events[0] == WriteRequest(data)
      ensures replies == [] ==> events == [WriteRequest(data)]
      ensures replies != [] && replies[0].Failed? ==>
        events == [WriteRequest(data), Called(Resolve(onError, sendErrorCallback), replies[0].error)]
      ensures replies != [] && replies[0].Done? ==>
        events == [WriteRequest(data)] +
                  LoopTrace(Public(), RunLoop("", StartBudget(retries), "", replies[1..]),
                            onFinished, Resolve(onError, readErrorCallback))
      ensures ReadIssued(events) ==> replies != [] && replies[0].Done?
    {
      events := [WriteRequest(data)];
      if replies != [] {
        match replies[0] {
          case Failed(e) =>
            events := events + [Called(Resolve(onError, sendErrorCallback), e)];
          case Done(_) =>
            var loop, _ := ReadUntilStringReceived("", Some(onFinished), onError, retries, None, replies[1..]);
            events := events + loop;
        }
      }
    }

    /**
     * Hands `resource` to the external converter with an options bag whose
     * action defaults to "print". The caller's bag, when given, is the one
     * handed on, and it is updated in place; otherwise a new one is made.
     */
    method ConvertAndSendFile(resource: Resource, onFinished: Callback, onError: Option<Callback>,
                              options: ConvertOptions?)
      returns (passed: ConvertOptions, events: seq<Event>)
      modifies options
      ensures options != null ==> passed == options
      ensures options == null ==> fresh(passed)
      ensures passed.action == Some(DefaultAction(if options == null then None else old(options.action)))
      ensures events == [Converted(resource, passed.action.value, onFinished, onError)]
    {
      if options == null {
        passed := new ConvertOptions();
      } else {
        passed := options;
      }
      if passed.action.None? || passed.action.value == "" {
        passed.action := Some("print");
      }
      events := [Converted(resource, passed.action.value, onFinished, onError)];
    }

    /**
     * The legacy `write` of a URL for the service to convert, as evidently
     * intended: the public projection, the URL, and the options only when
     * given. `SendUrlAsWritten` is the code as written.
     */
    method SendUrl(url: string, options: Option<UrlOptions>) returns (events: seq<Event>)
      ensures events == SendUrlIntended(Public(), url, options)
      ensures events[0].body.device == Public()
    {
      events := [Posted(WriteEndpoint, UrlEnvelope(Public(), url, options))];
    }
  }

  /**
   * The options bag of `convertAndSendFile`, modelled by its `action`; its
   * other settings pass through unchanged.
   */
  class ConvertOptions {
    var action: Option<string>

    constructor ()
      ensures action == None
    {
      action := None;
    }
  }

  /**
   * `sendUrl` as written: before posting anything it calls a helper that is
   * a stub throwing "Function not implemented.", so no request is ever sent.
   */
  function SendUrlAsWritten(device: DeviceFields, url: string, options: Option<UrlOptions>): (es: seq<Event>)
    ensures es == [Threw(NotImplemented)]
    ensures forall k :: 0 <= k < |es| ==> !es[k].Posted?
  {
    [Threw(NotImplemented)]
  }

  /** `sendUrl` as intended: one `write` carrying the projection, the URL and the given options. */
  function SendUrlIntended(device: DeviceFields, url: string, options: Option<UrlOptions>): (es: seq<Event>)
    ensures |es| == 1 && es[0].Posted? && es[0].endpoint == WriteEndpoint
    ensures es[0].body.UrlEnvelope? && es[0].body.url == url && es[0].body.options == options
    ensures es[0].body.device == device
  {
    [Posted(WriteEndpoint, UrlEnvelope(device, url, options))]
  }

  /** For every input, the code as written posts nothing where one `write` is intended. */
  lemma SendUrlNeverWrites(device: DeviceFields, url: string, options: Option<UrlOptions>)
    ensures forall k :: 0 <= k < |SendUrlAsWritten(device, url, options)| ==>
      !SendUrlAsWritten(device, url, options)[k].Posted?
    ensures SendUrlAsWritten(device, url, options) != SendUrlIntended(device, url, options)
  {
  }

  /** The construction check of the repository's test, on its discovery record. */
  method DiscoveryExample()
  {
    var json := DeviceFields("Zebra ZP 500 (ZPL)", "Zebra ZP 500 (ZPL)", "driver", "printer", 3,
                             "com.zebra.ds.webdriver.desktop.provider.DefaultDeviceProvider",
                             "Zebra Technologies");
    var device := new Device(json);
    assert device.name == "Zebra ZP 500 (ZPL)";
    assert device.readRetries == 0;
  }
}
