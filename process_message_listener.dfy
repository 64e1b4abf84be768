/** The NServiceBus diagnostic listener that opens a consumer span when a
    message starts processing, tags it with messaging metadata and with the
    message's framework headers, and ends the current span when processing
    stops. */
module NServiceBusDiagnostics {
  import opened Wrappers
  import opened Text
  import opened Tracing

  /** What the listener reads from `payload.Context`: the endpoint's logical
      address (resolved from its settings), the message id and the incoming
      headers, which the listener only reads. */
  datatype IncomingContext = IncomingContext(
    logicalAddress: string,
    messageId: string,
    headers: map<string, string>)

  /** The object that arrives with a diagnostic event. */
  datatype Payload =
    | Null
    | BeforeProcessMessage(context: IncomingContext)
    | AfterProcessMessage(context: IncomingContext)
    | OtherPayload

  /** `payload as BeforeProcessMessage`: null unless the payload has that type. */
  function AsBeforeProcessMessage(payload: Payload): (r: Option<IncomingContext>)
    ensures r.Some? <==> payload.BeforeProcessMessage?
    ensures r.Some? ==> r.value == payload.context
  {
    if payload.BeforeProcessMessage? then Some(payload.context) else None
  }

  const MessageIdKey: string := "messaging.message_id"
  const OperationKey: string := "messaging.operation"
  const ProcessOperation: string := "process"
  const NullPayloadHandler: string := "ProcessMessageListener.OnStartActivity"

  /** The entries of `m` whose keys are in `keys` and satisfy `keep`. */
  function Filtered(m: map<string, string>, keys: set<string>, keep: string -> bool): (r: map<string, string>)
  {
    map k | k in keys && k in m && keep(k) :: m[k]
  }

  /** Looking at one more key adds its entry exactly when it passes `keep`. */
  lemma FilteredStep(base: map<string, string>, m: map<string, string>, done: set<string>,
                     key: string, keep: string -> bool)
    requires key in m
    ensures keep(key) ==> base + Filtered(m, done + {key}, keep) == (base + Filtered(m, done, keep))[key := m[key]]
    ensures !keep(key) ==> base + Filtered(m, done + {key}, keep) == base + Filtered(m, done, keep)
  {
    var before, after := Filtered(m, done, keep), Filtered(m, done + {key}, keep);
    if keep(key) {
      assert after.Keys == before.Keys + {key};
      assert after == before[key := m[key]];
    } else {
      assert after.Keys == before.Keys;
      assert after == before;
    }
  }

  /** The `Where` filter on header keys. */
  predicate IsFrameworkHeader(key: string)
    ensures IsFrameworkHeader(key) <==>
              |NServiceBusPrefix| <= |key| &&
              forall i :: 0 <= i < |NServiceBusPrefix| ==> FoldAscii(key[i]) == FoldAscii(NServiceBusPrefix[i])
  {
    StartsWithIgnoreCase(key, NServiceBusPrefix)
  }

  /** All headers the `Where` filter lets through. */
  function FrameworkHeaders(headers: map<string, string>): (r: map<string, string>)
    ensures forall k :: k in r <==> k in headers && IsFrameworkHeader(k)
    ensures forall k :: k in r ==> r[k] == headers[k]
  {
    Filtered(headers, headers.Keys, IsFrameworkHeader)
  }

  /** The attributes of a recording span once the start hook is done: the two
      messaging attributes, then whatever `ApplyContext` wrote (`applied`),
      then every framework header, each write overwriting earlier ones. */
  function StartAttributes(messageId: string, headers: map<string, string>, applied: map<string, string>)
    : (r: map<string, string>)
    ensures forall k :: k in FrameworkHeaders(headers) ==> k in r && r[k] == headers[k]
    ensures forall k :: k in applied && k !in FrameworkHeaders(headers) ==> k in r && r[k] == applied[k]
  {
    (map[MessageIdKey := messageId, OperationKey := ProcessOperation] + applied) + FrameworkHeaders(headers)
  }

  /** The two messaging keys are not framework headers, so the header copy
      never overwrites them. */
  lemma MessagingKeysAreNotFrameworkHeaders()
    ensures !IsFrameworkHeader(MessageIdKey)
    ensures !IsFrameworkHeader(OperationKey)
  {
  }

  /** A recording span carries the message id and the "process" operation,
      unless the trace context itself supplies that key. */
  lemma MessagingAttributes(messageId: string, headers: map<string, string>, applied: map<string, string>)
    ensures MessageIdKey !in applied ==>
      MessageIdKey in StartAttributes(messageId, headers, applied) &&
      StartAttributes(messageId, headers, applied)[MessageIdKey] == messageId
    ensures OperationKey !in applied ==>
      OperationKey in StartAttributes(messageId, headers, applied) &&
      StartAttributes(messageId, headers, applied)[OperationKey] == ProcessOperation
  {
  }

  /** Every framework header becomes an attribute with the same key and
      value; as it is written last, it also wins over `ApplyContext`. */
  lemma FrameworkHeaderCopiedVerbatim(messageId: string, headers: map<string, string>,
                                      applied: map<string, string>, key: string)
    requires key in headers && IsFrameworkHeader(key)
    ensures key in StartAttributes(messageId, headers, applied)
    ensures StartAttributes(messageId, headers, applied)[key] == headers[key]
  {
  }

  /** Apart from the messaging keys and the trace context, a key is an
      attribute exactly when it is a framework header. */
  lemma OnlyFrameworkHeadersCopied(messageId: string, headers: map<string, string>,
                                   applied: map<string, string>, key: string)
    requires key !in applied && key != MessageIdKey && key != OperationKey
    ensures key in StartAttributes(messageId, headers, applied) <==>
            key in headers && IsFrameworkHeader(key)
  {
  }

  /** A trace-context field survives unless a framework header has its key. */
  lemma AppliedContextKept(messageId: string, headers: map<string, string>,
                           applied: map<string, string>, key: string)
    requires key in applied
    requires key !in headers || !IsFrameworkHeader(key)
    ensures key in StartAttributes(messageId, headers, applied)
    ensures StartAttributes(messageId, headers, applied)[key] == applied[key]
  {
  }

  /** The key set of a recording span after the start hook. */
  lemma StartAttributeKeys(messageId: string, headers: map<string, string>, applied: map<string, string>)
    ensures StartAttributes(messageId, headers, applied).Keys ==
      {MessageIdKey, OperationKey} + applied.Keys +
      (set k | k in headers && IsFrameworkHeader(k))
  {
  }

  /** The header copy at work on two headers: the lower-case framework
      header is copied, the transport header is not. */
  lemma HeaderCopyExample(messageId: string)
    ensures var r := StartAttributes(messageId, map["nservicebus.x" := "v", "Content-Type" := "json"], map[]);
      "nservicebus.x" in r && r["nservicebus.x"] == "v" && "Content-Type" !in r
  {
    var headers := map["nservicebus.x" := "v", "Content-Type" := "json"];
    LowerCaseKeyMatches();
    assert !IsFrameworkHeader("Content-Type") by {
      assert FoldAscii("Content-Type"[0]) != FoldAscii(NServiceBusPrefix[0]);
    }
    FrameworkHeaderCopiedVerbatim(messageId, headers, map[], "nservicebus.x");
    OnlyFrameworkHeadersCopied(messageId, headers, map[], "Content-Type");
  }

  /** The `foreach` over the filtered headers: each framework header is set
      on the span in turn, in the map's enumeration order, which the result
      does not depend on. */
  method CopyFrameworkHeaders(span: Span, headers: map<string, string>)
    modifies span
    ensures span.attributes ==
      if span.recording then old(span.attributes) + FrameworkHeaders(headers) else old(span.attributes)
    ensures span.ended == old(span.ended)
  {
    var remaining := headers.Keys;
    while remaining != {}
      invariant remaining <= headers.Keys
      invariant span.attributes ==
        if span.recording then old(span.attributes) + Filtered(headers, headers.Keys - remaining, IsFrameworkHeader)
        else old(span.attributes)
      invariant span.ended == old(span.ended)
      decreases remaining
    {
      var key :| key in remaining;
      FilteredStep(old(span.attributes), headers, headers.Keys - remaining, key, IsFrameworkHeader);
      assert headers.Keys - (remaining - {key}) == (headers.Keys - remaining) + {key};
      if IsFrameworkHeader(key) {
        span.SetAttribute(key, headers[key]);
      }
      remaining := remaining - {key};
    }
    assert headers.Keys - remaining == headers.Keys;
  }

  class ProcessMessageListener {
    const sourceName: string
    const tracer: Tracer
    const log: CollectorEventSource

    constructor (sourceName: string, tracer: Tracer, log: CollectorEventSource)
      ensures this.sourceName == sourceName && this.tracer == tracer && this.log == log
    {
      this.sourceName := sourceName;
      this.tracer := tracer;
      this.log := log;
    }

    /** The start hook. A payload that is null or not a `BeforeProcessMessage`
        is logged and nothing else happens. Otherwise one consumer span named
        after the endpoint's logical address is started from `activity` and
        made current; `recording` is the sampler's verdict on it and
        `applied` what `ApplyContext` writes. Only a recording span gets
        attributes. Spans that were already started are not touched. */
    method OnStartActivity(activity: ActivityId, payload: Payload, recording: bool, applied: map<string, string>)
      modifies tracer, log
      ensures AsBeforeProcessMessage(payload).None? ==>
        log.events == old(log.events) + [NullPayloadEvent(NullPayloadHandler)] &&
        tracer.current == old(tracer.current) && tracer.started == old(tracer.started)
      ensures AsBeforeProcessMessage(payload).Some? ==>
        var context := AsBeforeProcessMessage(payload).value;
        log.events == old(log.events) &&
        |tracer.started| == |old(tracer.started)| + 1 &&
        var span := tracer.started[|tracer.started| - 1];
        fresh(span) &&
        tracer.started == old(tracer.started) + [span] &&
        tracer.current == old(tracer.current) + [span] &&
        span.name == context.logicalAddress && span.kind == Consumer && span.parent == activity &&
        span.recording == recording && !span.ended &&
        span.attributes == if recording then StartAttributes(context.messageId, context.headers, applied) else map[]
    {
      var before := AsBeforeProcessMessage(payload);
      if before.None? {
        log.NullPayload(NullPayloadHandler);
        return;
      }
      var context := before.value;
      var span := tracer.StartActiveSpanFromActivity(context.logicalAddress, activity, Consumer, recording);
      if span.recording {
        span.SetAttribute(MessageIdKey, context.messageId);
        span.SetAttribute(OperationKey, ProcessOperation);
        span.ApplyContext(applied);
        CopyFrameworkHeaders(span, context.headers);
      }
    }

    /** The stop hook: ends whatever span is current, without looking at the
        payload and without checking that a start preceded it. */
    method OnStopActivity(activity: ActivityId, payload: Payload)
      modifies tracer, tracer.CurrentFrame()
      ensures tracer.started == old(tracer.started) && log.events == old(log.events)
      ensures old(tracer.current) == [] ==> tracer.current == []
      ensures old(tracer.current) != [] ==>
        var top := old(tracer.current)[|old(tracer.current)| - 1];
        tracer.current == old(tracer.current)[..|old(tracer.current)| - 1] && top.ended &&
        top.attributes == old(top.attributes)
    {
      ProcessAfterEvent(activity, payload);
    }

    /** The `ProcessEvent` overload for `AfterProcessMessage`:
        `Tracer.CurrentSpan.End()`, with the payload unused. */
    method ProcessAfterEvent(activity: ActivityId, payload: Payload)
      modifies tracer, tracer.CurrentFrame()
      ensures tracer.started == old(tracer.started) && log.events == old(log.events)
      ensures old(tracer.current) == [] ==> tracer.current == []
      ensures old(tracer.current) != [] ==>
        var top := old(tracer.current)[|old(tracer.current)| - 1];
        tracer.current == old(tracer.current)[..|old(tracer.current)| - 1] && top.ended &&
        top.attributes == old(top.attributes)
    {
      tracer.EndCurrentSpan();
    }
  }

  /** One message as this scenario assumes the diagnostics package drives
      the hooks: a start event, the handler, and a stop event whatever the
      handler's outcome. That ordering is an assumption here; the code that
      raises the events is not part of this model. The handler touches
      neither the tracer nor the log, so it does not appear here. Exactly one span is started, it is
      the one that is ended, and the current span is what it was before. */
  method ProcessOneMessage(listener: ProcessMessageListener, activity: ActivityId, context: IncomingContext,
                           recording: bool, applied: map<string, string>)
    modifies listener.tracer, listener.log
    ensures |listener.tracer.started| == |old(listener.tracer.started)| + 1
    ensures listener.tracer.started[|old(listener.tracer.started)|].ended
    ensures listener.tracer.current == old(listener.tracer.current)
    ensures listener.log.events == old(listener.log.events)
  {
    listener.OnStartActivity(activity, BeforeProcessMessage(context), recording, applied);
    listener.OnStopActivity(activity, AfterProcessMessage(context));
  }

  /** There is no start/stop balance check: when a start event is rejected
      for its payload, the matching stop event still ends whatever the
      tracer holds as current. Under this model's reading of the current
      span as a stack that is the span that was current before the start. */
  method RejectedStartEndsEnclosingSpan(listener: ProcessMessageListener, activity: ActivityId)
    requires listener.tracer.current != []
    modifies listener.tracer, listener.log, listener.tracer.CurrentFrame()
    ensures var enclosing := old(listener.tracer.current)[|old(listener.tracer.current)| - 1];
      enclosing.ended &&
      listener.tracer.current == old(listener.tracer.current)[..|old(listener.tracer.current)| - 1]
    ensures listener.tracer.started == old(listener.tracer.started)
    ensures listener.log.events == old(listener.log.events) + [NullPayloadEvent(NullPayloadHandler)]
  {
    listener.OnStartActivity(activity, Null, false, map[]);
    listener.OnStopActivity(activity, Null);
  }
}
