# NServiceBus diagnostics proof of concept: tracing core in Dafny

This project models the three pieces of sequential logic in the
`nsb-diagnostics-poc` repository that carry tracing behaviour, and proves
what each one sets and what it leaves alone.

- **The process-message listener** (`ProcessMessageListener`). On a start
  event whose payload is a `BeforeProcessMessage`, it starts one consumer
  span named after the endpoint's logical address and makes it current. If
  that span is recording, the listener writes `messaging.message_id` and
  `messaging.operation = "process"`, applies the trace context, and then
  copies every header whose key starts with `NServiceBus.` (ordinal, ignoring
  case) onto the span verbatim. Any other payload is logged as a null payload
  and nothing else happens. On a stop event it ends the tracer's current
  span, whatever the payload.
- **Baggage-to-tag promotion.** Both worker services register the same
  `ActivityListener` at start-up. It listens to every activity source. When
  an activity stops, it appends each baggage entry to the activity's tags.
  `ChildWorkerService/Program.cs:23-34` and `WorkerService/Program.cs:23-34`
  are identical, so the listener is modelled once, in module
  `BaggagePromotion`, and the rows below cite both files.
- **The `MakeItYell` handler.** It logs the incoming value. It then throws
  when the coin shows 0. Otherwise it replies once with the value in upper
  case, unless the value is null. A null value makes the upper-casing throw
  `NullReferenceException` before any reply is sent; the model represents a
  null value as `None`.

Files:

- `text.dfy` (module `Text`): the case-insensitive prefix test.
- `tracing.dfy` (module `Tracing`): the OpenTelemetry pieces the listener
  drives, written as classes. These are a span, a tracer whose current spans
  form a stack, and the collector's event log.
- `process_message_listener.dfy` (module `NServiceBusDiagnostics`): the
  listener class. It also holds the function `StartAttributes`, which gives
  the attributes a recording span ends up with, and the lemmas about it.
- `baggage_promotion.dfy`, `make_it_yell_handler.dfy`, and `wrappers.dfy`
  (an `Option` type).

State the source changes in place is a class. That covers the span, the
tracer, the event log, the activity, the logger and the handler context;
their methods state their whole new state. Values the source only reads are
datatypes: the payload, the incoming context with its read-only header map,
and the message. Those cannot change, by construction.

Modelling decisions:

- `Tracer.CurrentSpan.End()` ends the innermost current span and pops it, so
  the span that was current before becomes current again. With no current
  span, it ends the library's blank span, which does nothing.
- `Span.SetAttribute` does nothing on a span that is not recording. The
  listener checks `IsRecording` itself anyway.
- `ApplyContext` is modelled as overlaying a caller-supplied map `applied`.
  Its real content is decided by code outside this model.
- The sampler's verdict `IsRecording` and the coin `Random.Next(2)` are
  inputs.
- The invariant-culture upper-case mapping is an input function
  `upper: char -> char`, applied to each character in turn.
- Case-insensitive matching folds ASCII letters only.

The stop hook makes no start/stop balance check. One might expect a stop
event without a matching start to do nothing, but the code ends whatever
`Tracer.CurrentSpan` returns, and the model follows the code. Which span
that is after a rejected start is decided by the tracing library, not by
this code. Under this model's stack reading of the current span,
`RejectedStartEndsEnclosingSpan` shows what follows: a start rejected for its
payload, followed by its stop, ends the span that was current before it.

## Model

| member | source | states |
|---|---|---|
| `Text.StartsWithIgnoreCase` | NServiceBus.Diagnostics.OpenTelemetry/Implementation/ProcessMessageListener.cs:45 | A key carries the prefix exactly when it is at least as long as the prefix and agrees with it on every position once ASCII letters are case-folded. |
| `Text.StartsWithIgnoreCaseIgnoresCase` | NServiceBus.Diagnostics.OpenTelemetry/Implementation/ProcessMessageListener.cs:45 | Two keys differing only in letter case both match the prefix or both do not. |
| `Text.StartsWithIgnoreCaseExtends` | NServiceBus.Diagnostics.OpenTelemetry/Implementation/ProcessMessageListener.cs:45 | The match is a prefix test: appending text to a matching key keeps it matching. |
| `Text.LowerCaseKeyMatches` | NServiceBus.Diagnostics.OpenTelemetry/Implementation/ProcessMessageListener.cs:45 | `nservicebus.x` matches `NServiceBus.`: case is ignored. |
| `Text.BareWordDoesNotMatch` | NServiceBus.Diagnostics.OpenTelemetry/Implementation/ProcessMessageListener.cs:45 | `NServiceBus` without the dot does not match: the dot is part of the prefix. |
| `Tracing.Tracer.StartActiveSpanFromActivity` | NServiceBus.Diagnostics.OpenTelemetry/Implementation/ProcessMessageListener.cs:36 | A fresh, unended span with the given name, kind, parent activity and recording flag and no attributes is pushed as current and recorded as started. |
| `Tracing.Tracer.EndCurrentSpan` | NServiceBus.Diagnostics.OpenTelemetry/Implementation/ProcessMessageListener.cs:54 | The innermost current span is ended with its attributes kept and is popped; with no current span nothing changes. |
| `Tracing.Span.ApplyContext` | NServiceBus.Diagnostics.OpenTelemetry/Implementation/ProcessMessageListener.cs:43 | A recording span's attributes are overlaid with the applied trace-context fields. A span that is not recording is unchanged, and the ended flag is kept either way. |
| `Tracing.Span.End` | NServiceBus.Diagnostics.OpenTelemetry/Implementation/ProcessMessageListener.cs:54 | The span is marked ended and its attributes are kept. |
| `Tracing.Tracer.CurrentSpan` | NServiceBus.Diagnostics.OpenTelemetry/Implementation/ProcessMessageListener.cs:54 | Defined as the top of the stack: there is a current span exactly when the stack is non-empty, and then it is the innermost one. |
| `Tracing.CollectorEventSource.NullPayload` | NServiceBus.Diagnostics.OpenTelemetry/Implementation/ProcessMessageListener.cs:30 | Exactly one `NullPayload` event naming the handler is appended to the log. |
| `NServiceBusDiagnostics.AsBeforeProcessMessage` | NServiceBus.Diagnostics.OpenTelemetry/Implementation/ProcessMessageListener.cs:18 | Defined as the type test `payload as BeforeProcessMessage`: it gives the context exactly when the payload is a `BeforeProcessMessage`, and null for anything else, null included. |
| `NServiceBusDiagnostics.IsFrameworkHeader` | NServiceBus.Diagnostics.OpenTelemetry/Implementation/ProcessMessageListener.cs:45 | The `Where` filter accepts a key exactly when it begins with `NServiceBus.`, comparing ASCII letters case-insensitively. |
| `NServiceBusDiagnostics.FrameworkHeaders` | NServiceBus.Diagnostics.OpenTelemetry/Implementation/ProcessMessageListener.cs:45 | Defined as the `Where` filter: the result is exactly the headers that pass the filter, each with its own value. |
| `NServiceBusDiagnostics.StartAttributes` | NServiceBus.Diagnostics.OpenTelemetry/Implementation/ProcessMessageListener.cs:40-47 | Every framework header ends up with its header value. Every applied field that no framework header shadows keeps its applied value. |
| `Tracing.Span.SetAttribute` | NServiceBus.Diagnostics.OpenTelemetry/Implementation/ProcessMessageListener.cs:40-41 | A recording span gets the key set to the value. A span that is not recording is unchanged. |
| `NServiceBusDiagnostics.MessagingKeysAreNotFrameworkHeaders` | NServiceBus.Diagnostics.OpenTelemetry/Implementation/ProcessMessageListener.cs:40-45 | Neither `messaging.message_id` nor `messaging.operation` passes the header filter. |
| `NServiceBusDiagnostics.FilteredStep` | NServiceBus.Diagnostics.OpenTelemetry/Implementation/ProcessMessageListener.cs:45-47 | Visiting one more header adds that header to the filtered map exactly when it passes the filter, and changes nothing otherwise. |
| `NServiceBusDiagnostics.MessagingAttributes` | NServiceBus.Diagnostics.OpenTelemetry/Implementation/ProcessMessageListener.cs:40-41 | A recording span ends the start hook with `messaging.message_id` equal to the message id and `messaging.operation` equal to `process`, unless the applied trace context has that key. |
| `NServiceBusDiagnostics.FrameworkHeaderCopiedVerbatim` | NServiceBus.Diagnostics.OpenTelemetry/Implementation/ProcessMessageListener.cs:43-47 | Every framework header becomes an attribute with the same key and value. It is written after `ApplyContext`, so its value wins on a shared key. |
| `NServiceBusDiagnostics.OnlyFrameworkHeadersCopied` | NServiceBus.Diagnostics.OpenTelemetry/Implementation/ProcessMessageListener.cs:45-47 | Outside the messaging keys and the applied context, a key is an attribute if and only if it is a header that passes the filter. |
| `NServiceBusDiagnostics.AppliedContextKept` | NServiceBus.Diagnostics.OpenTelemetry/Implementation/ProcessMessageListener.cs:43-47 | A field written by `ApplyContext` keeps its value unless a framework header has the same key. |
| `NServiceBusDiagnostics.StartAttributeKeys` | NServiceBus.Diagnostics.OpenTelemetry/Implementation/ProcessMessageListener.cs:40-47 | A recording span's attribute keys are the two messaging keys, the applied keys and the framework header keys, and nothing else. |
| `NServiceBusDiagnostics.HeaderCopyExample` | NServiceBus.Diagnostics.OpenTelemetry/Implementation/ProcessMessageListener.cs:45-47 | With headers `nservicebus.x` and `Content-Type`, the first is copied with its value and the second is not. |
| `NServiceBusDiagnostics.CopyFrameworkHeaders` | NServiceBus.Diagnostics.OpenTelemetry/Implementation/ProcessMessageListener.cs:45-48 | After the loop, the span's attributes are its earlier attributes overlaid with exactly the framework headers, whatever the enumeration order. The span's ended flag is unchanged. |
| `NServiceBusDiagnostics.ProcessMessageListener.constructor` | NServiceBus.Diagnostics.OpenTelemetry/Implementation/ProcessMessageListener.cs:12-14 | The listener keeps the source name and the tracer it is given, which the source hands to its base class. The event log passed beside them stands for the static `CollectorEventSource.Log`. |
| `NServiceBusDiagnostics.ProcessMessageListener.OnStartActivity` | NServiceBus.Diagnostics.OpenTelemetry/Implementation/ProcessMessageListener.cs:16-50 | A null or wrong-typed payload logs `NullPayload` and leaves the tracer as it was. Otherwise exactly one fresh, unended consumer span is started from the activity and made current, named after the logical address. Its attributes are `StartAttributes` when recording and empty otherwise. |
| `NServiceBusDiagnostics.ProcessMessageListener.OnStopActivity` | NServiceBus.Diagnostics.OpenTelemetry/Implementation/ProcessMessageListener.cs:21-24 | Whatever the payload, the current span, if any, is ended and popped. Nothing is logged and no span is started. |
| `NServiceBusDiagnostics.ProcessMessageListener.ProcessAfterEvent` | NServiceBus.Diagnostics.OpenTelemetry/Implementation/ProcessMessageListener.cs:52-55 | `Tracer.CurrentSpan.End()` ignores the payload. It ends and pops the current span if there is one, and changes nothing otherwise. |
| `NServiceBusDiagnostics.ProcessOneMessage` | NServiceBus.Diagnostics.OpenTelemetry/Implementation/ProcessMessageListener.cs:16-55 | A start followed by a stop for one message starts exactly one span and ends that same span. The current span is restored. |
| `NServiceBusDiagnostics.RejectedStartEndsEnclosingSpan` | NServiceBus.Diagnostics.OpenTelemetry/Implementation/ProcessMessageListener.cs:52-55 | Since no start/stop balance check is made, a rejected start followed by a stop ends whatever the tracer holds as current. Under the model's stack reading, that is the span that was current before. |
| `BaggagePromotion.ShouldListenTo` | ChildWorkerService/Program.cs:25 | Defined as the constant `true`: every activity source is listened to. |
| `BaggagePromotion.Activity.AddTag` | ChildWorkerService/Program.cs:30 | The pair is appended to the tags and the baggage is unchanged. |
| `BaggagePromotion.Promote` | ChildWorkerService/Program.cs:28-31 | Adding the baggage one entry at a time gives as many tags as the old tags and the baggage entries together. |
| `BaggagePromotion.OnActivityStopped` | ChildWorkerService/Program.cs:26-32 | The activity's tags become `Promote` of the old tags and the baggage. The tag count grows by exactly the baggage size, empty baggage leaves the tags unchanged, and the baggage itself is unchanged. |
| `BaggagePromotion.PromoteAppendsBaggage` | ChildWorkerService/Program.cs:28-31 | Promotion appends the baggage to the tags, in order and unchanged. |
| `BaggagePromotion.PromotionKeepsExistingTags` | WorkerService/Program.cs:28-31 | Existing tags stay in front, and the tag count grows by exactly the number of baggage entries. |
| `BaggagePromotion.PromotedTagsAreVerbatim` | WorkerService/Program.cs:26-31 | Baggage entry i sits at position i after the old tags, with the same key and value, so every `(k, v)` in the baggage is a tag. |
| `BaggagePromotion.PromotionAddsOnlyBaggage` | WorkerService/Program.cs:28-31 | Every tag after promotion was already a tag or is a baggage entry. |
| `ChildWorkerHandlers.ToUpperInvariant` | ChildWorkerService/MakeItYellHandler.cs:29 | The reply value has the message value's length, and each character is the upper-case mapping of the character at the same position. |
| `ChildWorkerHandlers.ToUpperInvariantConcat` | ChildWorkerService/MakeItYellHandler.cs:29 | Upper-casing splits over concatenation. |
| `ChildWorkerHandlers.ToUpperInvariantIdempotent` | ChildWorkerService/MakeItYellHandler.cs:29 | If the character mapping is idempotent, upper-casing an upper-cased value changes nothing. |
| `ChildWorkerHandlers.Logger.LogInformation` | ChildWorkerService/MakeItYellHandler.cs:20 | Exactly one entry, holding the template and the argument (null included), is appended to the log. |
| `ChildWorkerHandlers.MessageHandlerContext.Reply` | ChildWorkerService/MakeItYellHandler.cs:27-30 | Exactly one reply is appended to the replies sent. |
| `ChildWorkerHandlers.MakeItYellHandler.Handle` | ChildWorkerService/MakeItYellHandler.cs:18-30 | The value, null or not, is logged on every outcome. A coin of 0 throws "Something went wrong!" and sends no reply. A nonzero coin with a null value throws `NullReferenceException` from the upper-casing and sends no reply. Otherwise `Handle` completes normally after sending exactly one `MakeItYellResponse` reply carrying the upper-cased value. |
| `ChildWorkerHandlers.MakeItYellHandler.constructor` | ChildWorkerService/MakeItYellHandler.cs:15-16 | The handler keeps the logger it is given. |

## Left out

- Host and endpoint set-up does not belong to the core. That is both
  `CreateHostBuilder` methods: transport, serializer, persistence,
  installers, MongoDB, the exporters and environment variables. It is
  configuration and I/O.
- Recoverability is not modelled. The code only sets configuration values
  (one immediate retry, no delayed retries). The retry policy itself lives in
  NServiceBus, which is not part of this model. Auditing of processed
  messages to `audit` is configuration too.
- `WebApplication/Controllers/SaySomethingController.cs` is HTTP and bus
  plumbing. The baggage keys it sets (`cart.operation.id`, `operation.id`)
  are just possible inputs to `OnActivityStopped`.
- OpenTelemetry internals are stand-ins, not models. This covers how
  `StartActiveSpanFromActivity` links a span to its activity (the model only
  records the parent activity), the sampling decision behind `IsRecording`,
  the fields `ApplyContext` writes, and how an `Activity` gathers its
  baggage from its parents. `EndCurrentSpan` takes one reading of what
  ending the current span does to the current-span state.
- The current span is not tied to the `activity` passed to the hooks. The
  model keeps the current span on one stack, and records the activity only
  as the span's parent id. If the library keys the current span to the
  ambient `Activity`, a stop after a rejected start may end no span at all.
  The model does not capture that.
- The listener base class and its subscription to the diagnostic source are
  not modelled. Nor is the settings lookup `payload.Context.Builder.Build`:
  the logical address it yields is a field of the incoming context.
- Concurrency is not modelled. That covers the async-local current span and
  parallel message processing; the tracer here is one sequential stack.
- A null `MakeItYell` message itself is not modelled. The handler is only
  invoked with a deserialized message, and only its `Value` may be null.
- The shared static `Random` is not modelled: each call gets its coin as an
  input.
- Full Unicode case mapping is not modelled. The handler takes the mapping
  as a function, and the header filter folds ASCII letters only.
- `Text.StartsWithIgnoreCase`: `OrdinalIgnoreCase` also folds non-ASCII
  letters, which this predicate does not. The prefix `NServiceBus.` is pure
  ASCII, but a key with a non-ASCII letter that folds to an ASCII one may
  match in .NET and does not match here.
