/**
 The attributes the server component paints into a UIDL message and the
 client widget reads back: one optional field per attribute name, absent
 when the attribute was not added.
 */
module Uidl {
  import opened JavaLang

  /**
   `appletClass`, `appletSession`, `appletArchives`, `appletCodebase`, the
   applet name, `appletParamNames` (the parameter map), `width`, `height`,
   `cmd` and `cmdParams`.
   */
  datatype Attributes = Attributes(
    appletClass: Option<Str>,
    appletSession: Option<Str>,
    appletArchives: Option<seq<Str>>,
    appletCodebase: Option<Str>,
    appletName: Option<Str>,
    appletParamNames: Option<map<Str, Str>>,
    width: Option<Str>,
    height: Option<Str>,
    cmd: Option<Str>,
    cmdParams: Option<seq<Str>>)

  /** A message that carries no attribute at all. */
  const NoAttributes := Attributes(None, None, None, None, None, None, None, None, None, None)

  /** One UIDL update for a widget: the paintable id and the attributes. */
  datatype Message = Message(id: Str, attributes: Attributes)
}
