/**
 The path of a command from the server component through the UIDL message
 and the widget into the applet's mailbox. The document's applets are a map
 from element id to applet; a call to an id the document does not hold does
 nothing, as the native methods check `$doc.applets[id]` first.
 */
module EndToEnd {
  import opened JavaLang
  import Uidl
  import Widget
  import Component
  import Poller

  /** The native `execute` call reaching the applet with the given id, if the document has one. */
  function Deliver(applets: map<Str, Poller.Applet<Str>>, inv: Widget.Invocation): (r: map<Str, Poller.Applet<Str>>)
    ensures r.Keys == applets.Keys
    ensures forall id :: id in applets && id != inv.appletId ==> r[id] == applets[id]
    ensures inv.appletId in applets ==> r[inv.appletId].runPoller == applets[inv.appletId].runPoller
    ensures inv.appletId in applets && applets[inv.appletId].poller.Some? ==>
              r[inv.appletId].poller
                == Some(Poller.Slot(Some(inv.cmd), if inv.ExecuteWithParams? then Some(inv.params) else None))
    ensures inv.appletId in applets && applets[inv.appletId].poller.None? ==> r == applets
  {
    if inv.appletId !in applets then applets
    else
      var a := applets[inv.appletId];
      match inv
      case ExecuteCommand(_, cmd) => applets[inv.appletId := Poller.ExecuteCommand(a, Some(cmd))]
      case ExecuteWithParams(_, cmd, params) => applets[inv.appletId := Poller.Execute(a, Some(cmd), Some(params))]
  }

  /** The parameters the applet sees for the painted `cmdParams`: an empty array arrives as `null`. */
  function Arrived(params: Option<seq<Str>>): Option<seq<Str>>
  {
    if params.Some? && |params.value| > 0 then params else None
  }

  /**
   A command issued on the server, painted and received by an initialised
   widget, is the one the next turn of the applet's running poller loop takes
   out, with its parameters, except that an empty parameter array arrives as
   `null`.
   */
  lemma CommandReachesApplet(c: Component.Component, sid: Option<Str>, w: Widget.Widget, id: Str,
                             env: Widget.Env, applets: map<Str, Poller.Applet<Str>>)
    requires c.appletClass.Some? && c.command.Some?
    requires w.initialized && !env.noChanges
    requires Widget.CLASSNAME + id in applets
    requires applets[Widget.CLASSNAME + id].poller.Some? && applets[Widget.CLASSNAME + id].runPoller
    ensures var painted := Component.Paint(c, sid);
            var u := Widget.UpdateFromUidl(w, Uidl.Message(id, painted.attributes), env);
            u.invoked.Some? &&
            var after := Deliver(applets, u.invoked.value);
            Poller.PollIteration(after[Widget.CLASSNAME + id]).dispatched
              == Some(Poller.Command(c.command.value, Arrived(c.commandParams)))
  {
  }

  /**
   The first paint of a component with class and archives, in a session,
   initialises a fresh widget with that class and archives and with the
   component's codebase when it has one.
   */
  lemma FirstPaintInitialisesWidget(c: Component.Component, sid: Str, id: Str, env: Widget.Env)
    requires c.appletClass.Some? && c.appletArchives.Some? && !env.noChanges
    ensures var painted := Component.Paint(c, Some(sid));
            var w := Widget.UpdateFromUidl(Widget.NewWidget(), Uidl.Message(id, painted.attributes), env).widget;
            w.initialized && w.appletClass == c.appletClass && w.archives == c.appletArchives.value &&
            Widget.Codebase(w.codebase, env.moduleBaseUrl) == Widget.Codebase(c.codebase, env.moduleBaseUrl)
  {
  }

  /**
   A component painted without archives (or outside a session) still clears
   its command, but the widget it paints into cannot initialise and runs
   nothing: the command is lost.
   */
  lemma CommandLostBeforeInitialisation(c: Component.Component, sid: Option<Str>, env: Widget.Env, id: Str)
    requires c.appletClass.Some? && c.command.Some?
    requires c.appletArchives.None? || sid.None?
    ensures var painted := Component.Paint(c, sid);
            var u := Widget.UpdateFromUidl(Widget.NewWidget(), Uidl.Message(id, painted.attributes), env);
            painted.component.command.None? && u.invoked.None? && !u.widget.initialized
  {
  }
}
