/**
 The JavaScript commands the applet sends to update a server-side variable
 (`vaadinUpdateVariable` for `boolean`, `int` and `String` values), what the
 JavaScript engine reads back out of them, and how they travel through the
 synchronous call.
 */
module VariableUpdate {
  import opened JavaLang
  import opened JsEscape
  import JsCall

  /** `vaadin.<hostFunction>('<paintable id>','<variable name>',`: the part every update command shares. */
  function CallHead(hostFunction: Str, paintableId: Option<Str>, variableName: Option<Str>): Str
  {
    Utf16("vaadin.") + hostFunction + Utf16("('") + Show(paintableId) + Utf16("','") + Show(variableName) + Utf16("',")
  }

  /** `,<immediate>)`: the part every update command ends with. */
  function CallTail(immediate: bool): Str
  {
    [COMMA] + BoolText(immediate) + [RPAREN]
  }

  /** Cutting a concatenation at the end of its first part gives back both parts. */
  lemma SplitAt(head: Str, tail: Str)
    ensures |head| <= |head + tail| && (head + tail)[..|head|] == head && (head + tail)[|head|..] == tail
  {
  }

  /** `true` and `false` hold no single quote. */
  lemma BoolTextUnquoted(b: bool)
    ensures QUOTE !in BoolText(b)
  {
    assert BoolText(b) == Utf16("true") || BoolText(b) == Utf16("false");
  }

  /**
   The `boolean` update: after the shared head the value and the flag follow
   as bare `true`/`false` words, unquoted.
   */
  function BooleanCommand(paintableId: Option<Str>, variableName: Option<Str>, value: bool, immediate: bool): (r: Str)
    ensures var head := CallHead(Utf16("appletUpdateBooleanVariable"), paintableId, variableName);
            |head| <= |r| && r[..|head|] == head &&
            r[|head|..] == BoolText(value) + [COMMA] + BoolText(immediate) + [RPAREN] &&
            QUOTE !in r[|head|..]
  {
    var head := CallHead(Utf16("appletUpdateBooleanVariable"), paintableId, variableName);
    var tail := BoolText(value) + CallTail(immediate);
    SplitAt(head, tail);
    BoolTextUnquoted(value);
    BoolTextUnquoted(immediate);
    assert tail == BoolText(value) + [COMMA] + BoolText(immediate) + [RPAREN];
    head + tail
  }

  /**
   The `int` update: after the shared head come the value's decimal digits,
   which read back as the same number, and then `,<immediate>)`.
   */
  function IntCommand(paintableId: Option<Str>, variableName: Option<Str>, value: Int32, immediate: bool): (r: Str)
    ensures var head := CallHead(Utf16("appletUpdateIntVariable"), paintableId, variableName);
            var end := |head| + |IntText(value)|;
            end < |r| && r[..|head|] == head &&
            ParseInt(r[|head|..end]) == Some(value as int) && r[end..] == CallTail(immediate)
  {
    var head := CallHead(Utf16("appletUpdateIntVariable"), paintableId, variableName);
    var cmd := head + IntText(value) + CallTail(immediate);
    var end := |head| + |IntText(value)|;
    assert cmd[|head|..end] == IntText(value);
    assert cmd[end..] == CallTail(immediate);
    IntTextRoundTrip(value);
    cmd
  }

  /** `escapeJavaScript` on a possibly `null` string. */
  function EscapeOrNull(value: Option<Str>): (r: Option<Str>)
    ensures value.None? <==> r.None?
  {
    match value
    case None => None
    case Some(v) => Some(Escape(v))
  }

  /**
   The `String` update: the escaped value between single quotes. The
   JavaScript engine reads the quoted argument back as exactly the original
   value, and the call goes on with `,<immediate>)`: no value can close the
   literal early and smuggle in code. A `null` value escapes to `null`, which
   the concatenation prints as the bare text "null". This is the command
   built when the escaper accepts the value (see `UpdateStringVariable`).
   */
  function StringCommand(paintableId: Option<Str>, variableName: Option<Str>, value: Option<Str>, immediate: bool)
    : (r: Str)
    ensures var head := CallHead(Utf16("appletUpdateStringVariable"), paintableId, variableName) + [QUOTE];
            |head| <= |r| && r[..|head|] == head &&
            (value.Some? ==> Lex(r[|head|..]) == Some((value.value, CallTail(immediate)))) &&
            (value.None? ==> r[|head|..] == Utf16("null") + [QUOTE] + CallTail(immediate))
  {
    var head := CallHead(Utf16("appletUpdateStringVariable"), paintableId, variableName) + [QUOTE];
    var rest := Show(EscapeOrNull(value)) + [QUOTE] + CallTail(immediate);
    SplitAt(head, rest);
    match value
    case None => head + rest
    case Some(v) => LexEscaped(v, CallTail(immediate)); head + rest
  }

  /**
   The value is too long for the escaper: its buffer's capacity wraps
   negative, or its escaped text would not fit in a buffer.
   */
  predicate TooLongToEscape(value: Option<Str>)
  {
    value.Some? && EscapeFails(value.value)
  }

  /**
   The loop-based escaper computes the same argument text as `EscapeOrNull`,
   unless the value is too long for its buffer.
   */
  method EscapedArgument(value: Option<Str>) returns (r: Result<Str>)
    ensures r.Failure? <==> TooLongToEscape(value)
    ensures r.Failure? ==> value.Some? && r.error == EscapeError(value.value)
    ensures r.Success? ==> r.value == Show(EscapeOrNull(value))
  {
    var escaped := EscapeJavaScript(value);
    if escaped.Failure? {
      return Failure(escaped.error);
    }
    r := Success(Show(escaped.value));
  }

  /** A `null` String value reaches the server as the text "null", indistinguishable from the string "null". */
  lemma NullStringValueIsTextNull(paintableId: Option<Str>, variableName: Option<Str>, immediate: bool)
    ensures StringCommand(paintableId, variableName, None, immediate)
         == StringCommand(paintableId, variableName, Some(Utf16("null")), immediate)
  {
    EscapeVerbatim(Utf16("null"));
  }

  // ---------------------------------------------------------------------------
  // Sending an update through the synchronous call
  // ---------------------------------------------------------------------------

  /** The text holds no line feed. */
  predicate LineFree(s: Str)
  {
    LF !in s
  }

  /** Every piece of a `String` update other than the id and the name is free of line feeds. */
  lemma StringCommandLineFree(paintableId: Option<Str>, variableName: Option<Str>, value: Option<Str>, immediate: bool)
    requires LineFree(Show(paintableId)) && LineFree(Show(variableName))
    ensures LineFree(StringCommand(paintableId, variableName, value, immediate))
  {
    var arg := Show(EscapeOrNull(value));
    assert LineFree(arg);
    assert LineFree(CallHead(Utf16("appletUpdateStringVariable"), paintableId, variableName)) by {
      assert LF !in Utf16("vaadin.") && LF !in Utf16("appletUpdateStringVariable");
      assert LF !in Utf16("('") && LF !in Utf16("','") && LF !in Utf16("',");
    }
    assert LineFree(CallTail(immediate));
  }

  /** The text fits in a Java `String`: building a longer one throws `OutOfMemoryError`. */
  predicate FitsInString(text: Str)
  {
    |text| <= MaxLength
  }

  /**
   `vaadinUpdateVariable(String, String, boolean)`: escaping the value throws
   when it is too long for the escaper (see `TooLongToEscape`), and building
   the command throws when it would not fit in a `String`; otherwise the
   command goes through `jsCall`, which does not throw either.
   */
  function UpdateStringVariable(paintableId: Option<Str>, variableName: Option<Str>, value: Option<Str>,
                                immediate: bool, eval: Str -> JsCall.Evaluation, progress: JsCall.Progress)
    : (r: Result<JsCall.CallResult>)
    ensures r.Failure? <==>
              TooLongToEscape(value) || !FitsInString(StringCommand(paintableId, variableName, value, immediate))
    ensures r.Failure? && TooLongToEscape(value) ==> r.error == EscapeError(value.value)
    ensures r.Failure? && !TooLongToEscape(value) ==> r.error == OutOfMemory
  {
    if TooLongToEscape(value) then Failure(EscapeError(value.value))
    else
      var cmd := StringCommand(paintableId, variableName, value, immediate);
      if !FitsInString(cmd) then Failure(OutOfMemory)
      else JsCall.JsCallSync(Some(cmd), eval, progress)
  }

  /**
   When the paintable id and variable name hold no line feed, the value can
   be escaped and the command fits in a `String`, the engine evaluates the
   update command exactly as built: the newline replacement of the call
   thread cannot touch the escaped value.
   */
  lemma UpdateEvaluatesCommandAsBuilt(paintableId: Option<Str>, variableName: Option<Str>, value: Option<Str>,
                                      immediate: bool, eval: Str -> JsCall.Evaluation)
    requires LineFree(Show(paintableId)) && LineFree(Show(variableName))
    ensures var cmd := StringCommand(paintableId, variableName, value, immediate);
            var r := UpdateStringVariable(paintableId, variableName, value, immediate, eval, JsCall.Finished);
            !TooLongToEscape(value) && FitsInString(cmd) ==>
              r.Success? && (r.value.Caught? <==> JsCall.ReportsException(eval(cmd)))
  {
    StringCommandLineFree(paintableId, variableName, value, immediate);
    LineFreeCommandAsBuilt(StringCommand(paintableId, variableName, value, immediate), eval);
  }

  /** A finished synchronous call of a command without line feeds evaluates that very command. */
  lemma LineFreeCommandAsBuilt(cmd: Str, eval: Str -> JsCall.Evaluation)
    requires LineFree(cmd)
    ensures JsCall.JsCallSync(Some(cmd), eval, JsCall.Finished).value.Caught? <==> JsCall.ReportsException(eval(cmd))
  {
    assert forall i :: 0 <= i < |cmd| ==> cmd[i] != LF;
    JsCall.ReplaceNewlinesKeepsLineFreeText(cmd);
  }
}
