/**
 The outbound half of the applet command bridge: the `JSCallThread` that
 evaluates one command in the browser's JavaScript engine, its result
 accessors, and the synchronous call that waits for it. The engine is an
 abstract function from command text to an evaluation outcome; whether the
 thread finished within `MAX_JS_WAIT_TIME` is a parameter.
 */
module JsCall {
  import opened JavaLang

  /**
   What calling `toString` on a returned object does: produce its text, throw
   an `Exception` (which `run`'s catch clauses handle), or throw an `Error`
   (which escapes them and ends the thread).
   */
  datatype Conversion = Converts(text: Str) | ConversionThrew(e: JavaException) | ConversionDied(error: JavaException)

  /** What the engine's `eval` hands back: `null`, a `String`, or another object. */
  datatype JsValue = JsNull | JsString(s: Str) | JsObject(conversion: Conversion)

  /**
   Reaching the engine and evaluating: a returned value, an `Exception`
   (reflection failures and `InvocationTargetException` included), or an
   `Error` that no catch clause of `run` handles.
   */
  datatype Evaluation = Returned(value: JsValue) | Threw(e: JavaException) | Died(error: JavaException)

  /**
   The thread's `result` field: `null`, a `String`, a non-string object that
   `run` has not replaced by its `toString`, or the exception that was caught.
   */
  datatype CallResult = NoResult | Text(s: Str) | Unconverted(conversion: Conversion) | Caught(e: JavaException)

  /**
   How far `run` has got: `eval` has not returned yet; its value has been
   stored in `result` but not yet converted to a string; or `run` has ended.
   */
  datatype Progress = NotReturned | Stored | Finished

  /** The evaluation ends in one of `run`'s catch clauses: `eval` threw, or the conversion of its object did. */
  predicate ReportsException(ev: Evaluation)
  {
    ev.Threw? || (ev.Returned? && ev.value.JsObject? && ev.value.conversion.ConversionThrew?)
  }

  /** An `Error` escapes `run`: from `eval`, or from the conversion of its object. */
  predicate Dies(ev: Evaluation)
  {
    ev.Died? || (ev.Returned? && ev.value.JsObject? && ev.value.conversion.ConversionDied?)
  }

  /** The state of one `JSCallThread`: its command and its `result` and `success` fields. */
  datatype CallThread = CallThread(command: Str, result: CallResult, success: bool)

  /** `command.replaceAll("\n", " ")`: every line feed becomes a space. */
  function ReplaceNewlines(s: Str): (r: Str)
    ensures |r| == |s|
    ensures forall i :: 0 <= i < |r| ==> r[i] != LF
    ensures forall i :: 0 <= i < |s| ==> r[i] == (if s[i] == LF then SPACE else s[i])
    decreases |s|
  {
    if |s| == 0 then []
    else [if s[0] == LF then SPACE else s[0]] + ReplaceNewlines(s[1..])
  }

  /** Replacing newlines a second time changes nothing. */
  lemma ReplaceNewlinesIdempotent(s: Str)
    ensures ReplaceNewlines(ReplaceNewlines(s)) == ReplaceNewlines(s)
  {
  }

  /** A command without line feeds is evaluated exactly as written. */
  lemma ReplaceNewlinesKeepsLineFreeText(s: Str)
    requires forall i :: 0 <= i < |s| ==> s[i] != LF
    ensures ReplaceNewlines(s) == s
  {
  }

  const NullPointer: JavaException := JavaException(Utf16("java.lang.NullPointerException"), None)

  /**
   The `JSCallThread` constructor: `result` starts `null` and `success` false;
   a `null` command throws from `replaceAll`.
   */
  function NewCallThread(command: Option<Str>): (r: Result<CallThread>)
    ensures command.None? <==> r.Failure?
    ensures r.Success? ==>
              r.value.command == ReplaceNewlines(command.value) &&
              r.value.result == NoResult && !r.value.success
  {
    match command
    case None => Failure(NullPointer)
    case Some(c) => Success(CallThread(ReplaceNewlines(c), NoResult, false))
  }

  /** The value `eval` hands back, as first assigned to `result`, before any conversion. */
  function StoredValue(v: JsValue): (r: CallResult)
    ensures r.NoResult? <==> v.JsNull?
    ensures v.JsString? ==> r == Text(v.s)
    ensures v.JsObject? ==> r == Unconverted(v.conversion)
  {
    match v
    case JsNull => NoResult
    case JsString(s) => Text(s)
    case JsObject(c) => Unconverted(c)
  }

  /** `result.toString()` on a non-string result: its text, or the exception a catch clause stores. */
  function Convert(r: CallResult): CallResult
  {
    match r
    case Unconverted(Converts(text)) => Text(text)
    case Unconverted(ConversionThrew(e)) => Caught(e)
    case _ => r
  }

  /**
   `run`: evaluates the stored command; a non-string result is replaced by its
   `toString`, and an `Exception` from either step is stored as the result.
   `success` is set on the normal path and in both catch clauses; an `Error`
   ends the thread with `success` still false and `result` as it was left.
   */
  function Run(t: CallThread, eval: Str -> Evaluation): (r: CallThread)
    ensures r.command == t.command
    ensures !Dies(eval(t.command)) ==> r.success
    ensures Dies(eval(t.command)) ==> r.success == t.success
    ensures r.result.Caught? <==> ReportsException(eval(t.command)) || (eval(t.command).Died? && t.result.Caught?)
    ensures r.result.Unconverted? ==> Dies(eval(t.command))
    ensures eval(t.command).Died? ==> r.result == t.result
    ensures eval(t.command) == Returned(JsNull) ==> r.result == NoResult
    ensures eval(t.command).Returned? && eval(t.command).value.JsString? ==>
              r.result == Text(eval(t.command).value.s)
    ensures eval(t.command).Returned? && eval(t.command).value.JsObject? ==>
              match eval(t.command).value.conversion
              case Converts(text) => r.result == Text(text)
              case ConversionThrew(e) => r.result == Caught(e)
              case ConversionDied(_) => r.result == Unconverted(eval(t.command).value.conversion)
  {
    match eval(t.command)
    case Threw(e) => t.(result := Caught(e), success := true)
    case Died(_) => t
    case Returned(v) =>
      var stored := StoredValue(v);
      if v.JsObject? && v.conversion.ConversionDied? then t.(result := stored)
      else t.(result := Convert(stored), success := true)
  }

  /**
   The thread as the caller finds it when its wait ends, `run` having reached
   `progress`. A thrown evaluation stores nothing until the catch block, so for
   it only `Finished` differs from the fresh thread.
   */
  function RunTo(t: CallThread, eval: Str -> Evaluation, progress: Progress): (r: CallThread)
    ensures r.command == t.command
    ensures progress.NotReturned? ==> r == t
    ensures progress.Finished? ==> r == Run(t, eval)
  {
    match progress
    case NotReturned => t
    case Stored =>
      if eval(t.command).Returned? then t.(result := StoredValue(eval(t.command).value)) else t
    case Finished => Run(t, eval)
  }

  /** When `run` ends normally or in a catch clause, its result is the stored value converted, or the caught exception. */
  lemma RunConvertsStored(t: CallThread, eval: Str -> Evaluation)
    ensures eval(t.command).Returned? && !Dies(eval(t.command)) ==>
              Run(t, eval).result == Convert(StoredValue(eval(t.command).value))
    ensures eval(t.command).Threw? ==> Run(t, eval).result == Caught(eval(t.command).e)
  {
  }

  /**
   `getResult`: the raw field, which may still hold an unconverted object.
   It agrees with `getResultAsString` wherever that returns, and holds an
   exception exactly when `getException` is non-null.
   */
  function GetResult(t: CallThread): (r: CallResult)
    ensures r.NoResult? <==> GetResultAsString(t) == Success(None)
    ensures r.Text? ==> GetResultAsString(t) == Success(Some(r.s))
    ensures r.Unconverted? && r.conversion.Converts? ==> GetResultAsString(t) == Success(Some(r.conversion.text))
    ensures r.Caught? <==> GetException(t).Some?
  {
    t.result
  }

  /**
   `getResultAsString`: `null` exactly when the result is `null`; an object
   or an exception prints via `toString`, which for an unconverted object may
   throw again.
   */
  function GetResultAsString(t: CallThread): (r: Result<Option<Str>>)
    ensures r == Success(None) <==> t.result.NoResult?
    ensures r.Failure? <==> t.result.Unconverted? && !t.result.conversion.Converts?
    ensures t.result.Text? ==> r == Success(Some(t.result.s))
    ensures t.result.Caught? ==> r == Success(Some(ExceptionText(t.result.e)))
  {
    match t.result
    case NoResult => Success(None)
    case Text(s) => Success(Some(s))
    case Unconverted(Converts(text)) => Success(Some(text))
    case Unconverted(ConversionThrew(e)) => Failure(e)
    case Unconverted(ConversionDied(e)) => Failure(e)
    case Caught(e) => Success(Some(ExceptionText(e)))
  }

  /** `getException`: non-null exactly when the result is a caught exception. */
  function GetException(t: CallThread): (r: Option<JavaException>)
    ensures r.Some? <==> t.result.Caught?
    ensures r.Some? ==> r.value == t.result.e
  {
    if t.result.Caught? then Some(t.result.e) else None
  }

  /** `isSuccess`. */
  function IsSuccess(t: CallThread): bool
  {
    t.success
  }

  /**
   `isSuccess` reports that the call finished, not that it succeeded: after a
   thrown evaluation it is true while `getException` holds the exception.
   */
  lemma SuccessDespiteException(t: CallThread, eval: Str -> Evaluation)
    requires eval(t.command).Threw?
    ensures IsSuccess(Run(t, eval))
    ensures GetException(Run(t, eval)) == Some(eval(t.command).e)
    ensures GetResultAsString(Run(t, eval)) == Success(Some(ExceptionText(eval(t.command).e)))
  {
  }

  /** Before `run` has finished, nothing is observable: no result, no exception, no success. */
  lemma FreshThreadObservesNothing(command: Str)
    ensures GetResultAsString(NewCallThread(Some(command)).value) == Success(None)
    ensures GetException(NewCallThread(Some(command)).value).None?
    ensures !IsSuccess(NewCallThread(Some(command)).value)
  {
  }

  /**
   On a thread started from a command, `isSuccess` turns true exactly when
   `run` has ended without an `Error`: a value stored but not yet converted
   does not count, and neither does a thread an `Error` ended.
   */
  lemma SuccessMeansFinished(command: Str, eval: Str -> Evaluation, progress: Progress)
    ensures IsSuccess(RunTo(NewCallThread(Some(command)).value, eval, progress))
        <==> progress.Finished? && !Dies(eval(ReplaceNewlines(command)))
  {
  }

  /**
   `jsCallSync`: constructs the thread on the caller's side (so a `null`
   command throws there), starts it and waits at most `MAX_JS_WAIT_TIME`;
   what it returns is whatever the thread has stored in `result` by then.
   */
  function JsCallSync(command: Option<Str>, eval: Str -> Evaluation, progress: Progress): (r: Result<CallResult>)
    ensures command.None? <==> r.Failure?
    ensures command.Some? && progress.NotReturned? ==> r == Success(NoResult)
    ensures command.Some? && progress.Finished? ==>
              r.Success? && (r.value.Caught? <==> ReportsException(eval(ReplaceNewlines(command.value))))
    ensures r.Success? ==>
              var e := eval(ReplaceNewlines(command.value));
              r.value.NoResult? || r.value == Run(NewCallThread(command).value, eval).result ||
              (e.Returned? && r.value == StoredValue(e.value))
  {
    match NewCallThread(command)
    case Failure(e) => Failure(e)
    case Success(t) => Success(GetResult(RunTo(t, eval, progress)))
  }

  /**
   A call whose wait ends after `eval` has returned an object but before
   `run` has converted it hands back that raw object, not `null` and not its
   string.
   */
  lemma LateCallSeesUnconvertedObject(command: Str, eval: Str -> Evaluation, text: Str)
    requires eval(ReplaceNewlines(command)) == Returned(JsObject(Converts(text)))
    ensures JsCallSync(Some(command), eval, Stored) == Success(Unconverted(Converts(text)))
    ensures JsCallSync(Some(command), eval, Finished) == Success(Text(text))
  {
  }

  /**
   An object whose `toString` throws an `Exception` is reported as that
   exception, although `eval` itself returned.
   */
  lemma ConversionFailureIsReported(command: Str, eval: Str -> Evaluation, e: JavaException)
    requires eval(ReplaceNewlines(command)) == Returned(JsObject(ConversionThrew(e)))
    ensures JsCallSync(Some(command), eval, Finished) == Success(Caught(e))
    ensures IsSuccess(Run(NewCallThread(Some(command)).value, eval))
  {
  }

  /**
   An `Error` from `eval` ends the thread before anything is stored: the
   call yields `null` and `isSuccess` stays false.
   */
  lemma EscapingErrorLeavesNothing(command: Str, eval: Str -> Evaluation)
    requires eval(ReplaceNewlines(command)).Died?
    ensures JsCallSync(Some(command), eval, Finished) == Success(NoResult)
    ensures !IsSuccess(Run(NewCallThread(Some(command)).value, eval))
  {
  }
}
