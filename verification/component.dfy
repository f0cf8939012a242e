/**
 The server-side component `AppletIntegration`: its fields, what
 `paintContent` adds to the UIDL message, the one-shot command slot and the
 applet parameter map. The HTTP session id, which the source looks up in
 the current Vaadin session, is a parameter of the paint.
 */
module Component {
  import opened JavaLang
  import Uidl

  /** The component's fields. */
  datatype Component = Component(
    appletClass: Option<Str>,
    codebase: Option<Str>,
    name: Option<Str>,
    appletArchives: Option<seq<Str>>,
    appletParams: Option<map<Str, Str>>,
    command: Option<Str>,
    commandParams: Option<seq<Str>>)

  /** A new component: every field `null`. */
  const Fresh := Component(None, None, None, None, None, None, None)

  /** The attributes a paint added, and the component afterwards. */
  datatype Painted = Painted(attributes: Uidl.Attributes, component: Component)

  /**
   `paintContent`. Without an applet class nothing is added and nothing
   changes. Otherwise the class is added, each optional attribute is added
   exactly when its field (or the session id) is non-null, and the command
   and its parameters are added once and then cleared.
   */
  function Paint(c: Component, httpSessionId: Option<Str>): (r: Painted)
    ensures c.appletClass.None? ==> r == Painted(Uidl.NoAttributes, c)
    ensures c.appletClass.Some? ==>
              var a := r.attributes;
              a.appletClass == c.appletClass && a.appletSession == httpSessionId &&
              a.appletArchives == c.appletArchives && a.appletCodebase == c.codebase &&
              a.appletName == c.name && a.appletParamNames == c.appletParams &&
              a.cmd == c.command && a.cmdParams == c.commandParams &&
              a.width.None? && a.height.None?
    ensures c.appletClass.Some? ==> r.component == c.(command := None, commandParams := None)
  {
    if c.appletClass.None? then Painted(Uidl.NoAttributes, c)
    else
      var a := Uidl.Attributes(
        appletClass := c.appletClass,
        appletSession := httpSessionId,
        appletArchives := c.appletArchives,
        appletCodebase := c.codebase,
        appletName := c.name,
        appletParamNames := c.appletParams,
        width := None,
        height := None,
        cmd := c.command,
        cmdParams := c.commandParams);
      Painted(a, c.(command := None, commandParams := None))
  }

  /** `executeCommand(command)`: sets the command and clears the parameters. */
  function ExecuteCommand(c: Component, command: Option<Str>): (r: Component)
    ensures r.command == command && r.commandParams.None?
    ensures r.(command := c.command, commandParams := c.commandParams) == c
  {
    c.(command := command, commandParams := None)
  }

  /** `executeCommand(command, params)`: sets both. */
  function ExecuteCommandWithParams(c: Component, command: Option<Str>, params: Option<seq<Str>>): (r: Component)
    ensures r.command == command && r.commandParams == params
    ensures r.(command := c.command, commandParams := c.commandParams) == c
  {
    c.(command := command, commandParams := params)
  }

  /** `setAppletParams(name, value)`: creates the map on first use, then puts the pair. */
  function SetAppletParam(c: Component, name: Str, value: Str): (r: Component)
    ensures r.appletParams.Some?
    ensures r.(appletParams := c.appletParams) == c
  {
    var m := if c.appletParams.None? then map[] else c.appletParams.value;
    c.(appletParams := Some(m[name := value]))
  }

  /** `getAppletParams(name)`: `null` without a map or without the key. */
  function GetAppletParam(c: Component, name: Str): (r: Option<Str>)
    ensures r.Some? <==> c.appletParams.Some? && name in c.appletParams.value
    ensures r.Some? ==> r.value == c.appletParams.value[name]
  {
    if c.appletParams.None? then None
    else if name in c.appletParams.value then Some(c.appletParams.value[name])
    else None
  }

  /** `getAppletParams()`: a read-only view, and a `NullPointerException` from `unmodifiableMap(null)`. */
  function GetAppletParams(c: Component): (r: Result<map<Str, Str>>)
    ensures r.Failure? <==> c.appletParams.None?
    ensures r.Success? ==> r.value == c.appletParams.value
    ensures r.Failure? ==> r.error.className == Utf16("java.lang.NullPointerException")
  {
    if c.appletParams.None? then Failure(JavaException(Utf16("java.lang.NullPointerException"), None))
    else Success(c.appletParams.value)
  }

  // ---------------------------------------------------------------------------
  // Properties
  // ---------------------------------------------------------------------------

  /** Without an applet class a paint is invisible, and a pending command stays pending. */
  lemma PaintWithoutClass(c: Component, sid: Option<Str>, command: Str)
    requires c.appletClass.None?
    ensures var p := Paint(ExecuteCommand(c, Some(command)), sid);
            p.attributes == Uidl.NoAttributes && p.component.command == Some(command)
  {
  }

  /** A command is painted once: the paint right after carries neither `cmd` nor `cmdParams`. */
  lemma PaintIsOneShot(c: Component, sid1: Option<Str>, sid2: Option<Str>)
    requires c.appletClass.Some?
    ensures Paint(c, sid1).attributes.cmd == c.command
    ensures Paint(Paint(c, sid1).component, sid2).attributes.cmd.None?
    ensures Paint(Paint(c, sid1).component, sid2).attributes.cmdParams.None?
  {
  }

  /** Only the last of several commands issued between two paints is painted. */
  lemma ExecuteCommandOverwrites(c: Component, c1: Option<Str>, p1: Option<seq<Str>>, c2: Option<Str>, sid: Option<Str>)
    requires c.appletClass.Some?
    ensures Paint(ExecuteCommand(ExecuteCommandWithParams(c, c1, p1), c2), sid).attributes
         == Paint(ExecuteCommand(c, c2), sid).attributes
    ensures Paint(ExecuteCommand(ExecuteCommandWithParams(c, c1, p1), c2), sid).attributes.cmdParams.None?
  {
  }

  /** A parameter reads back as set; every other name reads as before. */
  lemma SetThenGet(c: Component, name: Str, value: Str, other: Str)
    requires other != name
    ensures GetAppletParam(SetAppletParam(c, name, value), name) == Some(value)
    ensures GetAppletParam(SetAppletParam(c, name, value), other) == GetAppletParam(c, other)
  {
  }

  /** Before any parameter is set, every name reads as `null` and the whole map cannot be read. */
  lemma NoParamsYet(c: Component, name: Str)
    requires c.appletParams.None?
    ensures GetAppletParam(c, name).None?
    ensures GetAppletParams(c).Failure?
  {
  }

  /** After one parameter is set, the whole map is readable and holds it. */
  lemma ParamsAfterSet(c: Component, name: Str, value: Str)
    ensures var r := GetAppletParams(SetAppletParam(c, name, value));
            r.Success? && name in r.value && r.value[name] == value
  {
  }
}
