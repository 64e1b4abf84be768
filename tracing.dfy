/** The parts of the OpenTelemetry collector API that the process-message
    listener drives: spans, a tracer that keeps the current span, and the
    collector's diagnostic event source. The sampling decision and the
    trace-context fields written by `ApplyContext` come from outside the
    model and are passed in as values. */
module Tracing {
  import opened Wrappers

  datatype SpanKind = Internal | Server | Client | Producer | Consumer

  /** Identifies the ambient `Activity` a span is started from. */
  type ActivityId = string

  /** One unit of traced work. A span that is not recording (sampled out)
      ignores attribute writes. */
  class Span {
    const name: string
    const kind: SpanKind
    const parent: ActivityId
    const recording: bool
    var attributes: map<string, string>
    var ended: bool

    constructor (name: string, kind: SpanKind, parent: ActivityId, recording: bool)
      ensures this.name == name && this.kind == kind && this.parent == parent
      ensures this.recording == recording
      ensures attributes == map[] && !ended
    {
      this.name := name;
      this.kind := kind;
      this.parent := parent;
      this.recording := recording;
      attributes := map[];
      ended := false;
    }

    /** Sets (or overwrites) one attribute; a no-op when not recording. */
    method SetAttribute(key: string, value: string)
      modifies this
      ensures attributes == if recording then old(attributes)[key := value] else old(attributes)
      ensures ended == old(ended)
    {
      if recording {
        attributes := attributes[key := value];
      }
    }

    /** Writes the trace-context fields that the endpoint settings and the
        headers determine. Which fields those are is outside the model: the
        caller supplies them as `applied`, and they overwrite any attribute
        with the same key. */
    method ApplyContext(applied: map<string, string>)
      modifies this
      ensures attributes == if recording then old(attributes) + applied else old(attributes)
      ensures ended == old(ended)
    {
      if recording {
        attributes := attributes + applied;
      }
    }

    method End()
      modifies this
      ensures ended && attributes == old(attributes)
    {
      ended := true;
    }
  }

  /** A tracer whose current spans form a stack, innermost last. `started`
      records every span the tracer has handed out. */
  class Tracer {
    var current: seq<Span>
    ghost var started: seq<Span>

    constructor ()
      ensures current == [] && started == []
    {
      current := [];
      started := [];
    }

    /** `Tracer.CurrentSpan`; `None` stands for the blank span the library
        returns when nothing is current. */
    function CurrentSpan(): (s: Option<Span>)
      reads this
      ensures s.Some? <==> current != []
      ensures s.Some? ==> s.value == current[|current| - 1]
    {
      if current == [] then None else Some(current[|current| - 1])
    }

    /** The spans `EndCurrentSpan` may change: the current one, if any. */
    function CurrentFrame(): (frame: set<Span>)
      reads this
    {
      if current == [] then {} else {current[|current| - 1]}
    }

    /** Starts a span from an activity and makes it the current one. */
    method StartActiveSpanFromActivity(name: string, activity: ActivityId, kind: SpanKind, recording: bool)
      returns (span: Span)
      modifies this
      ensures fresh(span)
      ensures span.name == name && span.kind == kind && span.parent == activity
      ensures span.recording == recording && span.attributes == map[] && !span.ended
      ensures current == old(current) + [span] && started == old(started) + [span]
    {
      span := new Span(name, kind, activity, recording);
      current := current + [span];
      started := started + [span];
    }

    /** `Tracer.CurrentSpan.End()`: ends the current span, and the span that
        was current before it was started becomes current again. With no
        current span this ends the blank span, which does nothing. */
    method EndCurrentSpan()
      modifies this, CurrentFrame()
      ensures started == old(started)
      ensures old(current) == [] ==> current == []
      ensures old(current) != [] ==>
        var top := old(current)[|old(current)| - 1];
        current == old(current)[..|old(current)| - 1] && top.ended &&
        top.attributes == old(top.attributes)
    {
      var span := CurrentSpan();
      if span.Some? {
        span.value.End();
        current := current[..|current| - 1];
      }
    }
  }

  datatype CollectorEvent = NullPayloadEvent(handlerName: string)

  /** `CollectorEventSource.Log`: the collector's diagnostic event log. */
  class CollectorEventSource {
    var events: seq<CollectorEvent>

    constructor ()
      ensures events == []
    {
      events := [];
    }

    method NullPayload(handlerName: string)
      modifies this
      ensures events == old(events) + [NullPayloadEvent(handlerName)]
    {
      events := events + [NullPayloadEvent(handlerName)];
    }
  }
}
