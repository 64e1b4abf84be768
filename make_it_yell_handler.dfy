/** The child worker's `MakeItYell` handler: it logs the incoming value, then
    fails on one face of a coin and otherwise replies with the value in upper
    case (upper-casing a null value throws instead). The coin and the character-level upper-case mapping come from
    outside the model and are passed in. */
module ChildWorkerHandlers {
  import opened Wrappers

  /** The incoming command; its `Value` is a reference and may be null (`None`). */
  datatype MakeItYell = MakeItYell(value: Option<string>)

  datatype MakeItYellResponse = MakeItYellResponse(value: string)

  /** What `Random.Next(2)` returns. */
  type CoinFace = x: int | 0 <= x < 2

  /** A structured log entry; the argument is recorded as given, null included. */
  datatype LogEntry = LogEntry(template: string, argument: Option<string>)

  /** The exceptions `Handle` can throw: the one it raises itself, and the
      one the runtime raises when a null `Value` is upper-cased. */
  datatype Exception = GeneralException(message: string) | NullReferenceException

  /** How `Handle` finishes: its returned `Task` completes, or it throws. */
  datatype HandleResult = Completed | Threw(exception: Exception)

  const YellingTemplate: string := "Yelling out {message}"
  const FailureMessage: string := "Something went wrong!"

  /** `value.ToUpperInvariant()`, with the invariant culture's per-character
      mapping given as `upper`. */
  function ToUpperInvariant(value: string, upper: char -> char): (r: string)
    ensures |r| == |value|
    ensures forall i :: 0 <= i < |value| ==> r[i] == upper(value[i])
  {
    if value == [] then [] else [upper(value[0])] + ToUpperInvariant(value[1..], upper)
  }

  /** Upper-casing works character by character, so it splits over
      concatenation. */
  lemma ToUpperInvariantConcat(a: string, b: string, upper: char -> char)
    ensures ToUpperInvariant(a + b, upper) == ToUpperInvariant(a, upper) + ToUpperInvariant(b, upper)
  {
  }

  /** Yelling an already yelled value changes nothing, when the character
      mapping is itself idempotent. */
  lemma ToUpperInvariantIdempotent(value: string, upper: char -> char)
    requires forall c :: upper(upper(c)) == upper(c)
    ensures ToUpperInvariant(ToUpperInvariant(value, upper), upper) == ToUpperInvariant(value, upper)
  {
  }

  class Logger {
    var entries: seq<LogEntry>

    constructor ()
      ensures entries == []
    {
      entries := [];
    }

    method LogInformation(template: string, argument: Option<string>)
      modifies this
      ensures entries == old(entries) + [LogEntry(template, argument)]
    {
      entries := entries + [LogEntry(template, argument)];
    }
  }

  /** The part of `IMessageHandlerContext` the handler uses: the replies it
      has sent. */
  class MessageHandlerContext {
    var replies: seq<MakeItYellResponse>

    constructor ()
      ensures replies == []
    {
      replies := [];
    }

    method Reply(response: MakeItYellResponse)
      modifies this
      ensures replies == old(replies) + [response]
    {
      replies := replies + [response];
    }
  }

  class MakeItYellHandler {
    const logger: Logger

    constructor (logger: Logger)
      ensures this.logger == logger
    {
      this.logger := logger;
    }

    /** Logs the value on every outcome. When the coin shows 0 it throws and
        sends nothing. Otherwise a null value makes the upper-casing throw
        `NullReferenceException`, again with nothing sent, and any other
        value gets exactly one reply holding that value upper-cased. The
        message is a value and is not changed. */
    method Handle(message: MakeItYell, context: MessageHandlerContext, coin: CoinFace, upper: char -> char)
      returns (result: HandleResult)
      modifies logger, context
      ensures logger.entries == old(logger.entries) + [LogEntry(YellingTemplate, message.value)]
      ensures coin == 0 ==>
        result == Threw(GeneralException(FailureMessage)) && context.replies == old(context.replies)
      ensures coin != 0 && message.value.None? ==>
        result == Threw(NullReferenceException) && context.replies == old(context.replies)
      ensures coin != 0 && message.value.Some? ==>
        result == Completed &&
        context.replies == old(context.replies) + [MakeItYellResponse(ToUpperInvariant(message.value.value, upper))]
    {
      logger.LogInformation(YellingTemplate, message.value);
      if coin == 0 {
        return Threw(GeneralException(FailureMessage));
      }
      if message.value.None? {
        return Threw(NullReferenceException);
      }
      context.Reply(MakeItYellResponse(ToUpperInvariant(message.value.value, upper)));
      result := Completed;
    }
  }
}
