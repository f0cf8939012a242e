# Applet integration for Vaadin, modelled in Dafny

This project models the logic at the core of the Vaadin applet integration add-on. The add-on lets a Vaadin
application embed a Java applet and exchange commands with it. There are three parts.

- **The applet base class** (`AbstractVaadinApplet`) has two halves.
  - Inbound: a single-slot mailbox that the browser's JavaScript fills through `execute` and a poller drains.
    Modelled as sequential transitions plus traces of submissions and poller turns.
  - Outbound: a call thread (`JSCallThread`) that evaluates one JavaScript command and records the outcome,
    and the `vaadinUpdateVariable` commands that report variable changes to the server.
  - Strings sent in those commands go through `escapeJavaScript`. Its partner is a reader for ECMAScript
    single-quoted string literals. The proofs show that the reader recovers exactly the original string from
    the escaped text, and stops at the closing quote.
- **The client widget** (`VAppletIntegration`):
  - builds the `<applet>` markup once, from the first UIDL update that has all required attributes;
  - merges the default applet parameters with the user's;
  - turns each `cmd` attribute into one of the two native `execute` calls.

  The markup serialiser is proved equal to a small reference HTML serialiser. The archive attribute is proved
  to split back into the archive list.
- **The server component** (`AppletIntegration`):
  - adds its attributes to the UIDL message only when the applet class is set;
  - clears its command once the command has been painted;
  - keeps the applet parameter map.

A final module follows a command from the component through the widget into the applet's mailbox.

Java strings are sequences of UTF-16 code units (`JavaLang.Str`). `null` is `None`. Where Java concatenates a
reference into a string, `JavaLang.Show` prints `null` as "null". Java exceptions become `Result.Failure`.

Two comments in the source promise more than the code does. The model follows the code:

- **Synchronous call.** The javadoc of `jsCall` (`AbstractVaadinApplet.java:265-268`) says a timeout surfaces as a
  `RuntimeException`, and the message of that exception reads "Synchronous JavaScript call timed out."
  (`:274-275`). But the exception is raised only on an `InterruptedException`. `jsCallSync` calls
  `join(MAX_JS_WAIT_TIME)`, which returns normally when the time is up, and then hands back the thread's
  `result` field. That field holds whatever the thread has stored so far: `null` if evaluation has not
  returned, and the raw returned object if `run` has not yet replaced it by its `toString`. `JsCall.JsCallSync`
  takes how far `run` has got as a parameter (`JsCall.Progress`).
- **Applet name.** The javadoc of `setName` (`AppletIntegration.java:228-238`) says the name can override the
  generated id, and `paintContent` sends it as an attribute. The widget never reads that attribute. It always
  writes the generated applet id as both `id` and `name` (`Widget.NameAttributeIgnored`). The constant for
  the attribute is not declared in `VAppletIntegration.java`. The attribute is modelled as the field
  `appletName` of the UIDL attributes.

## Model

| member | source | states |
|---|---|---|
| `JavaLang.IntText` | src/org/vaadin/applet/AbstractVaadinApplet.java:223-225 | the decimal text of an `int` is non-empty and starts with a minus sign exactly when the value is negative |
| `JavaLang.IntTextRoundTrip` | src/org/vaadin/applet/AbstractVaadinApplet.java:223-225 | reading the decimal text of any `int` back gives the same number |
| `JsEscape.ToHexString` | src/org/vaadin/applet/AbstractVaadinApplet.java:657 | `Integer.toHexString` writes lower-case digits, one digit below 0x10, up to two below 0x100, up to three below 0x1000 and up to four below 0x10000 |
| `JsEscape.ToUpper` | src/org/vaadin/applet/AbstractVaadinApplet.java:657 | upper-casing keeps the length and maps each unit on its own |
| `JsEscape.Hex` | src/org/vaadin/applet/AbstractVaadinApplet.java:656-658 | `hex(ch)` is one to four upper-case hexadecimal digits |
| `JsEscape.HexPadding` | src/org/vaadin/applet/AbstractVaadinApplet.java:579-617 | the padding of each branch ("", "0", "00", "000") completes `hex(ch)` to exactly the four digits of `ch` |
| `JsEscape.EscapeUnit` | src/org/vaadin/applet/AbstractVaadinApplet.java:576-640 | the image of one unit is 1 to 6 units long, every unit in 32..0x7F |
| `JsEscape.Escape` | src/org/vaadin/applet/AbstractVaadinApplet.java:575-643 | the escaped text is at least as long as the input and holds no unit below 32 or above 0x7F |
| `JsEscape.EscapeUnitCases` | src/org/vaadin/applet/AbstractVaadinApplet.java:579-639 | above 0x7F: `\u` and four upper-case digits; b, n, t, f, r for the five named controls; other controls `\u00XX`; quotes and backslash get a backslash; all else is copied |
| `JsEscape.EscapeAppend` | src/org/vaadin/applet/AbstractVaadinApplet.java:575-641 | the escaped text is the concatenation of the per-unit images, so escaping distributes over concatenation |
| `JsEscape.BufferCapacity` | src/org/vaadin/applet/AbstractVaadinApplet.java:572 | `str.length() * 2` is computed in 32-bit arithmetic, wrapping modulo 2^32 into the signed `int` range |
| `JsEscape.BufferCapacityNegative` | src/org/vaadin/applet/AbstractVaadinApplet.java:572 | for every length a Java `String` can have, the buffer's capacity is negative exactly from 2^30 code units on, and otherwise twice the length |
| `JsEscape.EscapeError` | src/org/vaadin/applet/AbstractVaadinApplet.java:572 | the escaper throws `NegativeArraySizeException` exactly when the constructor's capacity is negative, and an `OutOfMemoryError` otherwise |
| `JsEscape.AppendImages` | src/org/vaadin/applet/AbstractVaadinApplet.java:574-641 | the append loop throws `OutOfMemoryError` exactly when the escaped text would pass `Integer.MAX_VALUE` units, and otherwise yields the concatenated per-unit images |
| `JsEscape.EscapeJavaScript` | src/org/vaadin/applet/AbstractVaadinApplet.java:567-644 | `null` in gives `null` out; a string whose buffer capacity wraps negative gives a `NegativeArraySizeException`; otherwise a string whose escaped text would pass `Integer.MAX_VALUE` units gives an `OutOfMemoryError`; it fails for no other string, and otherwise returns the concatenated per-unit images |
| `JsEscape.Hex4RoundTrip` | src/org/vaadin/applet/AbstractVaadinApplet.java:579-587 | the four digits of a `\uXXXX` escape denote the escaped unit |
| `JsEscape.LexEscapeUnit` | src/org/vaadin/applet/AbstractVaadinApplet.java:576-640 | a literal reader consumes exactly one unit's image and yields that unit |
| `JsEscape.LexEscaped` | src/org/vaadin/applet/AbstractVaadinApplet.java:567-644 | escaped text followed by a quote reads back as the original string, and reading stops at that quote |
| `JsEscape.EscapeInjective` | src/org/vaadin/applet/AbstractVaadinApplet.java:575-643 | two strings with the same escaped form are equal |
| `JsEscape.EscapeVerbatim` | src/org/vaadin/applet/AbstractVaadinApplet.java:636-638 | a string of units in 32..0x7F without quotes or backslash is its own escaped form |
| `JsEscape.DocumentedExample` | src/org/vaadin/applet/AbstractVaadinApplet.java:553-558 | `He didn't say, "Stop!"` escapes to `He didn\'t say, \"Stop!\"` |
| `JsEscape.TabExample` | src/org/vaadin/applet/AbstractVaadinApplet.java:598-601 | a tab escapes to `\t` |
| `JsEscape.NonAsciiExample` | src/org/vaadin/applet/AbstractVaadinApplet.java:585-587 | U+00E9 escapes to the six characters backslash, `u00E9` |
| `JsEscape.ControlExample` | src/org/vaadin/applet/AbstractVaadinApplet.java:614-616 | U+0001 escapes to `\u0001` |
| `Poller.Created` | src/org/vaadin/applet/AbstractVaadinApplet.java:40-44 | a new applet has no poller thread and its run flag is up |
| `Poller.Init` | src/org/vaadin/applet/AbstractVaadinApplet.java:65-67 | `init` installs a poller thread with an empty slot and leaves the run flag alone |
| `Poller.Execute` | src/org/vaadin/applet/AbstractVaadinApplet.java:505-513 | without a poller thread the call changes nothing; with one, the slot holds exactly the new command and parameters; the run flag and whether a poller exists never change |
| `Poller.ExecuteCommand` | src/org/vaadin/applet/AbstractVaadinApplet.java:493-495 | the one-argument `execute` stores a `null` parameter array |
| `Poller.Drain` | src/org/vaadin/applet/AbstractVaadinApplet.java:328-336 | a command is taken out exactly when one is pending; the taken pair is the stored one and both fields are cleared; otherwise nothing changes |
| `Poller.PollIteration` | src/org/vaadin/applet/AbstractVaadinApplet.java:323-340 | once the run flag is down, a turn takes nothing out |
| `Poller.Destroy` | src/org/vaadin/applet/AbstractVaadinApplet.java:184-187 | `destroy` lowers the run flag and keeps the poller and its slot |
| `Poller.ExecuteOverwrites` | src/org/vaadin/applet/AbstractVaadinApplet.java:509-512 | a second `execute` before a drain replaces the first one entirely |
| `Poller.DrainReturnsLatest` | src/org/vaadin/applet/AbstractVaadinApplet.java:328-336 | a drain after `execute` yields the submitted command and parameters and empties the slot |
| `Poller.DrainTwiceYieldsNothing` | src/org/vaadin/applet/AbstractVaadinApplet.java:328-336 | a second drain with no `execute` in between yields nothing |
| `Poller.ExecuteWithoutPoller` | src/org/vaadin/applet/AbstractVaadinApplet.java:506-508 | before `init` an `execute` has no effect |
| `Poller.DestroyKeepsMailboxOpen` | src/org/vaadin/applet/AbstractVaadinApplet.java:184-187 | after `destroy` the slot still accepts a command, but the loop no longer takes it out |
| `Poller.AtMostOnceDispatch` | src/org/vaadin/applet/AbstractVaadinApplet.java:328-340 | over any trace, commands dispatched plus the one pending never outnumber those submitted plus the one pending at the start |
| `Poller.DispatchedWereSubmitted` | src/org/vaadin/applet/AbstractVaadinApplet.java:328-340 | every command handed to `doExecute` was submitted in the trace or pending at its start |
| `Poller.Coalescing` | src/org/vaadin/applet/AbstractVaadinApplet.java:505-513 | of two submissions before one poller turn, only the second is dispatched |
| `JsCall.ReplaceNewlines` | src/org/vaadin/applet/AbstractVaadinApplet.java:374 | the stored command keeps its length, has no line feed, and differs from the input only where it had a line feed, now a space |
| `JsCall.ReplaceNewlinesIdempotent` | src/org/vaadin/applet/AbstractVaadinApplet.java:374 | replacing line feeds twice is the same as once |
| `JsCall.ReplaceNewlinesKeepsLineFreeText` | src/org/vaadin/applet/AbstractVaadinApplet.java:374 | a command without line feeds is stored as written |
| `JsCall.NewCallThread` | src/org/vaadin/applet/AbstractVaadinApplet.java:361-375 | a `null` command throws and only then; otherwise the thread starts with no result, not successful, holding the normalised command |
| `JsCall.Run` | src/org/vaadin/applet/AbstractVaadinApplet.java:378-422 | `success` ends true unless an `Error` escapes the catch clauses, which leaves the thread as far as it got; the result is an exception exactly when `eval` threw or the `toString` of its object did; a returned `null` stays `null`, a string or a converted object gives its text, and an unconverted object remains only after an `Error` |
| `JsCall.GetResultAsString` | src/org/vaadin/applet/AbstractVaadinApplet.java:438-444 | `null` exactly when the result is `null`; the text itself for a string, the `toString` of an object or of an exception; it throws exactly when the result is an object whose `toString` throws |
| `JsCall.GetException` | src/org/vaadin/applet/AbstractVaadinApplet.java:451-453 | non-null exactly when the result is an exception, and then that exception |
| `JsCall.SuccessDespiteException` | src/org/vaadin/applet/AbstractVaadinApplet.java:413-421 | after a thrown evaluation, `isSuccess` is true while `getException` holds the exception |
| `JsCall.FreshThreadObservesNothing` | src/org/vaadin/applet/AbstractVaadinApplet.java:361-363 | before `run`, no result, no exception and no success are observable |
| `JsCall.StoredValue` | src/org/vaadin/applet/AbstractVaadinApplet.java:403-404 | what `eval` returns is first stored as is: `null` as `null`, a string as its text, any other object unconverted |
| `JsCall.RunTo` | src/org/vaadin/applet/AbstractVaadinApplet.java:378-422 | before `eval` returns the thread is unchanged; once `run` is done it is the finished thread; the command never changes |
| `JsCall.RunConvertsStored` | src/org/vaadin/applet/AbstractVaadinApplet.java:404-420 | when no `Error` escapes, the result is the stored value with an object replaced by its `toString` or by the exception that `toString` threw; a thrown evaluation gives the caught exception |
| `JsCall.GetResult` | src/org/vaadin/applet/AbstractVaadinApplet.java:429-431 | the raw field is `null` exactly when `getResultAsString` is, agrees with it on strings and unconverted objects, and is an exception exactly when `getException` is non-null |
| `JsCall.SuccessMeansFinished` | src/org/vaadin/applet/AbstractVaadinApplet.java:404-420 | on a thread built from a command, `isSuccess` is true exactly when `run` has ended without an escaping `Error`; a stored but unconverted value does not count |
| `JsCall.ConversionFailureIsReported` | src/org/vaadin/applet/AbstractVaadinApplet.java:404-420 | an object whose `toString` throws is reported as that exception, with `isSuccess` true, although `eval` returned |
| `JsCall.EscapingErrorLeavesNothing` | src/org/vaadin/applet/AbstractVaadinApplet.java:378-422 | an `Error` from `eval` ends the thread with nothing stored: the call yields `null` and `isSuccess` stays false |
| `JsCall.JsCallSync` | src/org/vaadin/applet/AbstractVaadinApplet.java:297-302 | a `null` command fails and only then; a call whose thread has not seen `eval` return yields `null`; a finished one succeeds and yields an exception exactly when evaluating the normalised command or converting its object threw; any call yields `null`, the finished result or the unconverted returned value |
| `JsCall.LateCallSeesUnconvertedObject` | src/org/vaadin/applet/AbstractVaadinApplet.java:297-302 | when the wait ends between storing a returned object and converting it, the call hands back the raw object, not `null`; after the conversion it hands back the object's text |
| `VariableUpdate.EscapeOrNull` | src/org/vaadin/applet/AbstractVaadinApplet.java:253 | the escaped value is `null` exactly when the value is |
| `VariableUpdate.BooleanCommand` | src/org/vaadin/applet/AbstractVaadinApplet.java:206-212 | after `vaadin.appletUpdateBooleanVariable('<pid>','<name>',` the command is the value and the flag as bare `true`/`false` words, a comma between and `)` after, with no quote |
| `VariableUpdate.IntCommand` | src/org/vaadin/applet/AbstractVaadinApplet.java:221-227 | after `vaadin.appletUpdateIntVariable('<pid>','<name>',` come the value's digits, read back as the same number, then `,<immediate>)` |
| `VariableUpdate.StringCommand` | src/org/vaadin/applet/AbstractVaadinApplet.java:251-258 | after `vaadin.appletUpdateStringVariable('<pid>','<name>','`, the engine reads exactly the original value and then `,<immediate>)`; a `null` value leaves the bare text `null'` there |
| `VariableUpdate.EscapedArgument` | src/org/vaadin/applet/AbstractVaadinApplet.java:253-255 | the loop-based escaper fails exactly for a value too long for it (negative capacity, or escaped text past `Integer.MAX_VALUE` units), with the escaper's exception, and otherwise produces the argument text of the String command |
| `VariableUpdate.NullStringValueIsTextNull` | src/org/vaadin/applet/AbstractVaadinApplet.java:253-256 | a `null` value produces the same command as the string "null" |
| `VariableUpdate.StringCommandLineFree` | src/org/vaadin/applet/AbstractVaadinApplet.java:254-256 | when the paintable id and name have no line feed, neither does the String command |
| `VariableUpdate.UpdateStringVariable` | src/org/vaadin/applet/AbstractVaadinApplet.java:251-258 | sending a String update throws exactly when the value is too long for the escaper (negative capacity, or escaped text past `Integer.MAX_VALUE` units), with the escaper's exception, or else when the built command would pass `Integer.MAX_VALUE` units, with an `OutOfMemoryError` |
| `VariableUpdate.UpdateEvaluatesCommandAsBuilt` | src/org/vaadin/applet/AbstractVaadinApplet.java:371-375 | for a value the escaper accepts and a command that fits in a `String`, the call thread evaluates the String command unchanged, so it reports an exception exactly when evaluating the built command (or converting its result) throws |
| `VariableUpdate.LineFreeCommandAsBuilt` | src/org/vaadin/applet/AbstractVaadinApplet.java:371-375 | a finished synchronous call of a command without line feeds reports an exception exactly when evaluating that very command (or converting its result) throws |
| `Widget.NewWidget` | src/org/vaadin/applet/client/ui/VAppletIntegration.java:55-81 | a new widget is uninitialised, shows no HTML, has the id `v-applet`, no archives and size "0" |
| `Widget.GetArchives` | src/org/vaadin/applet/client/ui/VAppletIntegration.java:333-339 | the list has the array's length and elements, in order |
| `Widget.ArchiveAttribute` | src/org/vaadin/applet/client/ui/VAppletIntegration.java:249-261 | the `first`-flag loop yields the comma join of the list, and "" for `null` |
| `Widget.AppletArchiveText` | src/org/vaadin/applet/client/ui/VAppletIntegration.java:249-261 | the archive attribute composed from the list `getArchives` copies out of the widget's array equals the `Join` the initialisation builds its markup from |
| `Widget.JoinSplitRoundTrip` | src/org/vaadin/applet/client/ui/VAppletIntegration.java:249-261 | cutting the archive attribute at its commas gives back the list in order, when no name holds a comma |
| `Widget.JoinEnds` | src/org/vaadin/applet/client/ui/VAppletIntegration.java:252-260 | the attribute starts with the first archive name and ends with the last |
| `Widget.JoinNoEdgeComma` | src/org/vaadin/applet/client/ui/VAppletIntegration.java:252-260 | when the first and last names are non-empty and comma-free, the attribute has no leading or trailing comma |
| `Widget.JoinShort` | src/org/vaadin/applet/client/ui/VAppletIntegration.java:249-261 | an empty list gives "" and a single name gives itself |
| `Widget.ParamTagIsEmptyTag` | src/org/vaadin/applet/client/ui/VAppletIntegration.java:268-269 | each parameter tag is the empty `param` element with `name` and `value` attributes |
| `Widget.ParamTags` | src/org/vaadin/applet/client/ui/VAppletIntegration.java:266-270 | when every listed key is in the map, the text is the tags of the listed keys one after the other |
| `Widget.ParamText` | src/org/vaadin/applet/client/ui/VAppletIntegration.java:263-271 | a `null` map gives no text; otherwise one tag per listed key |
| `Widget.ParamTagsOnePerEntry` | src/org/vaadin/applet/client/ui/VAppletIntegration.java:264-271 | iterating the key set yields one tag per map entry, in iteration order, and nothing else |
| `Widget.Codebase` | src/org/vaadin/applet/client/ui/VAppletIntegration.java:286-288 | the explicit codebase when set, otherwise the module base URL |
| `Widget.AppletHtml` | src/org/vaadin/applet/client/ui/VAppletIntegration.java:273-278 | the markup is the `applet` element with mayscript, code, codebase, width, height, id, name and archive in order, both id and name carrying the applet id, around the parameter tags |
| `Widget.AppletHtmlFrame` | src/org/vaadin/applet/client/ui/VAppletIntegration.java:273-278 | the markup starts with `<applet mayscript="true" code="` and ends with `</applet>` |
| `Widget.SessionId` | src/org/vaadin/applet/client/ui/VAppletIntegration.java:362-365 | the widget's session when it has one, otherwise the `JSESSIONID` cookie; `null` only when both are |
| `Widget.DefaultParameters` | src/org/vaadin/applet/client/ui/VAppletIntegration.java:355-372 | exactly five defaults: applet id, paintable id, `JSESSIONID=` and the session (the cookie when the widget has none), the debug flag, and the host page URL followed by the application URI |
| `Widget.UserParamsOverride` | src/org/vaadin/applet/client/ui/VAppletIntegration.java:151-158 | after the merge a user parameter wins, every other default survives, and no other name appears |
| `Widget.MergeParameters` | src/org/vaadin/applet/client/ui/VAppletIntegration.java:152-158 | the `put` loop over the user's key set yields the defaults overridden by the user's map |
| `Widget.Dispatch` | src/org/vaadin/applet/client/ui/VAppletIntegration.java:187-196 | the call with parameters is chosen exactly for a non-null, non-empty array, and it passes that array |
| `Widget.RunCommand` | src/org/vaadin/applet/client/ui/VAppletIntegration.java:165-176 | the applet is called exactly when the update has a `cmd`, with the call `Dispatch` chooses for that command and its parameters, and the widget is not changed |
| `Widget.OrDefault` | src/org/vaadin/applet/client/ui/VAppletIntegration.java:136-146 | width and height take the attribute when present, else the default |
| `Widget.Initialise` | src/org/vaadin/applet/client/ui/VAppletIntegration.java:130-162 | the initialisation block leaves the widget initialised |
| `Widget.UpdateFromUidl` | src/org/vaadin/applet/client/ui/VAppletIntegration.java:86-102 | an update the framework reports as unchanged does nothing; any other update takes over the paintable id and sets the applet id to `v-applet` followed by it |
| `Widget.InitialisedIff` | src/org/vaadin/applet/client/ui/VAppletIntegration.java:105-176 | after an update the widget is initialised exactly when it was before or all three required attributes came; a command runs exactly when there is one and the widget is initialised |
| `Widget.MissingAttributeNoInit` | src/org/vaadin/applet/client/ui/VAppletIntegration.java:107-128 | a missing class, session or archives attribute leaves the widget uninitialised, its HTML unchanged and no command run |
| `Widget.FirstCompleteUpdate` | src/org/vaadin/applet/client/ui/VAppletIntegration.java:130-162 | the first complete update sets class, archives, size defaulting to "0", user parameters over the defaults of the new ids and session, and the applet element as HTML |
| `Widget.NameAttributeIgnored` | src/org/vaadin/applet/client/ui/VAppletIntegration.java:273-278 | the applet name attribute has no effect on any update |
| `Widget.InitialiseOnce` | src/org/vaadin/applet/client/ui/VAppletIntegration.java:105-163 | once initialised, no sequence of updates rebuilds the HTML or changes its class, archives, session, codebase, size or parameters |
| `Widget.IdDriftsAfterInitialisation` | src/org/vaadin/applet/client/ui/VAppletIntegration.java:99-101 | after initialisation, an update recomputes the applet id from its paintable id, and commands go to that id, while the HTML keeps the id it was built with |
| `Component.Paint` | src/org/vaadin/applet/AppletIntegration.java:32-81 | no applet class: nothing is added and nothing changes; otherwise each optional attribute is added exactly when its field or session id is non-null, and command and parameters are cleared |
| `Component.ExecuteCommand` | src/org/vaadin/applet/AppletIntegration.java:100-104 | sets the command, clears the parameters, and changes nothing else |
| `Component.ExecuteCommandWithParams` | src/org/vaadin/applet/AppletIntegration.java:112-116 | sets command and parameters and changes nothing else |
| `Component.SetAppletParam` | src/org/vaadin/applet/AppletIntegration.java:186-191 | afterwards the parameter map exists; no other field changes |
| `Component.GetAppletParam` | src/org/vaadin/applet/AppletIntegration.java:170-175 | non-null exactly when the map exists and holds the name, and then the value stored under it |
| `Component.GetAppletParams` | src/org/vaadin/applet/AppletIntegration.java:199-201 | fails with a `NullPointerException` exactly when no parameter was ever set, and otherwise returns the map; it never returns `null` |
| `Component.PaintWithoutClass` | src/org/vaadin/applet/AppletIntegration.java:35-38 | without a class a paint adds nothing and a pending command stays pending |
| `Component.PaintIsOneShot` | src/org/vaadin/applet/AppletIntegration.java:71-80 | a painted command and its parameters are absent from the very next paint |
| `Component.ExecuteCommandOverwrites` | src/org/vaadin/applet/AppletIntegration.java:100-116 | of two commands before a paint only the later one is painted, and the one-argument form leaves no parameters |
| `Component.SetThenGet` | src/org/vaadin/applet/AppletIntegration.java:170-191 | a parameter reads back as set; every other name reads as before |
| `Component.NoParamsYet` | src/org/vaadin/applet/AppletIntegration.java:170-201 | before any parameter is set, every name reads `null` and the whole map cannot be read |
| `Component.ParamsAfterSet` | src/org/vaadin/applet/AppletIntegration.java:186-201 | after one parameter is set the whole map is readable and holds it |
| `EndToEnd.Deliver` | src/org/vaadin/applet/client/ui/VAppletIntegration.java:205-227 | the native call reaches only the applet with that id and leaves the others and the set of applets alone; the target keeps its run flag, and if it has a poller its slot holds the command with the parameter array for the three-argument call and `null` for the two-argument one |
| `EndToEnd.CommandReachesApplet` | src/org/vaadin/applet/client/ui/VAppletIntegration.java:165-196 | a command painted by the component is, after the widget's update, the one the next turn of the applet's running poller loop takes out, with its parameters; an empty array arrives as `null` |
| `EndToEnd.FirstPaintInitialisesWidget` | src/org/vaadin/applet/client/ui/VAppletIntegration.java:105-162 | the first paint of a component with class and archives, in a session, initialises a fresh widget with that class, those archives and that codebase |
| `EndToEnd.CommandLostBeforeInitialisation` | src/org/vaadin/applet/AppletIntegration.java:71-74 | a command painted while the widget cannot initialise (no archives or no session) is cleared on the server and never run |

## Left out

- Threads and timing: thread start and `join(MAX_JS_WAIT_TIME)`, the `while (runPoller)` loop with its `Thread.sleep`, and the poller lock. The mailbox and the poller are sequential transitions. How far a call thread got within the wait is a parameter of `JsCall.JsCallSync`.
- `jsCallAsync` and `vaadinSync`: they start a call thread and do not wait for it. The thread itself is modelled as `JsCall.NewCallThread` and `JsCall.Run`.
- The reflective lookup of `netscape.javascript.JSObject` and its `eval`: evaluation is an abstract function from command text to a returned value or a thrown exception.
- `doExecute`: an abstract hook; the model records which commands reach it.
- The `double` overload of `vaadinUpdateVariable`: its text depends on Java's floating-point `toString`.
- `init`'s reading of applet parameters and all debug printing and console logging: these are I/O. `init` is modelled only as starting the poller.
- The interrupt path of `jsCall`, which rethrows an `InterruptedException` as a `RuntimeException`. No interrupt is modelled, so `VariableUpdate.UpdateStringVariable` fails only when escaping the value or building the command runs out of room.
- `Component.GetAppletParams`: returns the map's value at the time of the call. The source returns `Collections.unmodifiableMap`, a read-only view of the live map: a later `setAppletParam` shows through it, and writing to it throws `UnsupportedOperationException`. The model has no object identity and no mutation through the view.
- Java's bound of 2^31 - 1 code units on a `String` is not imposed on `JavaLang.Str`. `JsEscape.BufferCapacityNegative` states the buffer overflow for the lengths a Java `String` can have. The bound is imposed where the String update builds text: in the escaper's buffer and in the command. The boolean and int commands, the widget's markup and the call thread's copy of the command are not bounded.
- JsEscape.EscapeJavaScript, VariableUpdate.EscapedArgument, VariableUpdate.UpdateStringVariable: the model throws `OutOfMemoryError` exactly when the text passes `Integer.MAX_VALUE` units. A JVM may refuse an array a few units shorter than that, and it runs out of heap long before on most configurations. Heap size is not modelled. The error's message depends on the JDK and is modelled as `null`.
- Framework calls are parameters of `Widget.Env`: JSNI natives, `GWT.getModuleBaseURL`, `GWT.getHostPageBaseURL`, `Cookies.getCookie`, `client.updateComponent`, `client.getAppUri`, `ApplicationConnection.isDebugMode`, and on the server `VaadinSession` lookup of the session id.
- The iteration order of the `HashMap`s is a parameter: `Widget.Env.paramOrder` for the merged applet parameters, and an argument of `Widget.MergeParameters` for the user's map. The lemmas assume it lists every key once. The merge does not depend on that order, so `Widget.Initialise` uses the merged map directly.
- The `$doc.applets[id]` check is modelled only as a lookup in `EndToEnd.Deliver`'s map of applets.
- `AppletIntegrationConnector` and the sample UIs: delegation, logging and sample layout, with no logic of their own.
- The plain setters and getters of the component (class, archives, codebase, name) and `requestRepaint`: the model updates the record fields directly.
- `changeVariables`: empty in the source.
- `null` values inside the parameter map and inside archive or command-parameter arrays: values are modelled as non-null strings.
- `Component.Paint`'s `width` and `height`: these attributes come from the framework, not from `paintContent`, so a paint leaves them absent.
- `JsEscape.ToUpper`: upper-cases only ASCII letters, which are the only letters a hexadecimal string holds.
- `JavaLang.Utf16`: writes a character outside the Basic Multilingual Plane as U+FFFD instead of a surrogate pair. Every string literal the source uses is ASCII, so no literal is affected.
- Values are not escaped in the widget's HTML or in the paintable id and variable name of the update commands, as in the source. The model proves nothing about markup or commands when those values contain quotes.
