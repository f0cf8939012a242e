/**
 The inbound half of the applet command bridge, as sequential transitions:
 `execute` writes the poller thread's single command slot under the poller
 lock, one iteration of the poller loop snapshots and clears it and hands the
 command to `doExecute`, and `destroy` lowers the run flag. The type `P`
 stands for the elements of the `Object[]` parameter array.
 */
module Poller {
  import opened JavaLang

  /** The poller thread's `jsCommand` and `jsParams` fields. */
  datatype Slot<P> = Slot(command: Option<Str>, params: Option<seq<P>>)

  /** The applet as the bridge sees it: its poller thread (`null` before `init`) and `runPoller`. */
  datatype Applet<P> = Applet(poller: Option<Slot<P>>, runPoller: bool)

  /** A command handed to `doExecute`. */
  datatype Command<P> = Command(name: Str, params: Option<seq<P>>)

  /** The state after a drain, with the command it took out of the slot, if any. */
  datatype Drained<P> = Drained(applet: Applet<P>, dispatched: Option<Command<P>>)

  /** A freshly constructed applet: no poller thread yet, `runPoller` initialised to true. */
  function Created<P>(): (r: Applet<P>)
    ensures r.poller.None? && r.runPoller
  {
    Applet(None, true)
  }

  /** `init`: starts a new poller thread, whose slot is empty. */
  function Init<P>(a: Applet<P>): (r: Applet<P>)
    ensures r.poller == Some(Slot(None, None))
    ensures r.runPoller == a.runPoller
  {
    a.(poller := Some(Slot(None, None)))
  }

  /**
   `execute(command, params)`: without a poller thread the call is dropped;
   otherwise the pair overwrites whatever the slot held.
   */
  function Execute<P>(a: Applet<P>, command: Option<Str>, params: Option<seq<P>>): (r: Applet<P>)
    ensures r.runPoller == a.runPoller
    ensures r.poller.Some? <==> a.poller.Some?
    ensures a.poller.None? ==> r == a
    ensures a.poller.Some? ==> r.poller == Some(Slot(command, params))
  {
    if a.poller.None? then a else a.(poller := Some(Slot(command, params)))
  }

  /** `execute(command)`: the same as passing a `null` parameter array. */
  function ExecuteCommand<P>(a: Applet<P>, command: Option<Str>): (r: Applet<P>)
    ensures a.poller.Some? ==> r.poller == Some(Slot(command, None))
  {
    Execute(a, command, None)
  }

  /**
   The locked block of the poller loop: when a command is pending, take it and
   its parameters and clear both fields; otherwise leave the slot as it is.
   */
  function Drain<P>(a: Applet<P>): (r: Drained<P>)
    ensures r.applet.runPoller == a.runPoller
    ensures r.dispatched.Some? <==> a.poller.Some? && a.poller.value.command.Some?
    ensures r.dispatched.None? ==> r.applet == a
    ensures r.dispatched.Some? ==>
              r.applet.poller == Some(Slot(None, None)) &&
              r.dispatched.value == Command(a.poller.value.command.value, a.poller.value.params)
  {
    match a.poller
    case None => Drained(a, None)
    case Some(slot) =>
      match slot.command
      case None => Drained(a, None)
      case Some(cmd) => Drained(a.(poller := Some(Slot(None, None))), Some(Command(cmd, slot.params)))
  }

  /** One turn of the `while (runPoller)` loop; once the flag is down the loop has exited. */
  function PollIteration<P>(a: Applet<P>): (r: Drained<P>)
    ensures !a.runPoller ==> r == Drained(a, None)
  {
    if a.runPoller then Drain(a) else Drained(a, None)
  }

  /** `destroy`: lowers the run flag and nothing else. */
  function Destroy<P>(a: Applet<P>): (r: Applet<P>)
    ensures !r.runPoller && r.poller == a.poller
  {
    a.(runPoller := false)
  }

  // ---------------------------------------------------------------------------
  // Properties of the single-slot mailbox
  // ---------------------------------------------------------------------------

  /** A later `execute` replaces an earlier one that has not been drained yet. */
  lemma ExecuteOverwrites<P>(a: Applet<P>, c1: Option<Str>, p1: Option<seq<P>>, c2: Option<Str>, p2: Option<seq<P>>)
    ensures Execute(Execute(a, c1, p1), c2, p2) == Execute(a, c2, p2)
  {
  }

  /** A drain after `execute` returns exactly the submitted pair and leaves the slot empty. */
  lemma DrainReturnsLatest<P>(a: Applet<P>, c: Str, p: Option<seq<P>>)
    requires a.poller.Some?
    ensures Drain(Execute(a, Some(c), p)).dispatched == Some(Command(c, p))
    ensures Drain(Execute(a, Some(c), p)).applet.poller == Some(Slot(None, None))
  {
  }

  /** Draining twice with no `execute` in between yields nothing the second time. */
  lemma DrainTwiceYieldsNothing<P>(a: Applet<P>)
    ensures Drain(Drain(a).applet).dispatched.None?
  {
  }

  /** Without a poller thread `execute` has no effect. */
  lemma ExecuteWithoutPoller<P>(a: Applet<P>, c: Option<Str>, p: Option<seq<P>>)
    requires a.poller.None?
    ensures Execute(a, c, p) == a
  {
  }

  /**
   `destroy` does not close the mailbox: the slot still accepts a command
   afterwards, but the loop no longer takes it out.
   */
  lemma DestroyKeepsMailboxOpen<P>(a: Applet<P>, c: Str, p: Option<seq<P>>)
    requires a.poller.Some?
    ensures Execute(Destroy(a), Some(c), p).poller == Some(Slot(Some(c), p))
    ensures PollIteration(Execute(Destroy(a), Some(c), p)).dispatched.None?
  {
  }

  // ---------------------------------------------------------------------------
  // Traces of submissions and poller turns
  // ---------------------------------------------------------------------------

  /** What can happen to the bridge: a call of `execute`, or one turn of the poller loop. */
  datatype Event<P> = Submit(command: Option<Str>, params: Option<seq<P>>) | Poll

  /** The state after a trace, with the commands handed to `doExecute` in order. */
  datatype Trace<P> = Trace(applet: Applet<P>, dispatched: seq<Command<P>>)

  function Step<P>(a: Applet<P>, e: Event<P>): Drained<P>
  {
    match e
    case Submit(c, p) => Drained(Execute(a, c, p), None)
    case Poll => PollIteration(a)
  }

  function Run<P>(a: Applet<P>, events: seq<Event<P>>): Trace<P>
    decreases |events|
  {
    if |events| == 0 then Trace(a, [])
    else
      var d := Step(a, events[0]);
      var t := Run(d.applet, events[1..]);
      var first := if d.dispatched.Some? then [d.dispatched.value] else [];
      Trace(t.applet, first + t.dispatched)
  }

  /** 1 when a command is waiting in the slot. */
  function Pending<P>(a: Applet<P>): nat
  {
    if a.poller.Some? && a.poller.value.command.Some? then 1 else 0
  }

  /** The number of `execute` calls with a non-null command. */
  function Submissions<P>(events: seq<Event<P>>): nat
    decreases |events|
  {
    if |events| == 0 then 0
    else (if events[0].Submit? && events[0].command.Some? then 1 else 0) + Submissions(events[1..])
  }

  /** Whether `cmd` was submitted by some `execute` of the trace. */
  ghost predicate SubmittedIn<P>(cmd: Command<P>, events: seq<Event<P>>)
  {
    exists i :: 0 <= i < |events| && events[i] == Submit(Some(cmd.name), cmd.params)
  }

  /**
   Every submission is dispatched at most once: dispatched commands plus the
   one still waiting never outnumber the commands submitted (counting one that
   was waiting at the start).
   */
  lemma {:induction false} AtMostOnceDispatch<P>(a: Applet<P>, events: seq<Event<P>>)
    ensures |Run(a, events).dispatched| + Pending(Run(a, events).applet) <= Pending(a) + Submissions(events)
    decreases |events|
  {
    if |events| > 0 {
      var d := Step(a, events[0]);
      AtMostOnceDispatch(d.applet, events[1..]);
    }
  }

  /** The poller never invents a command: each one dispatched was waiting at the start or submitted. */
  lemma {:induction false} DispatchedWereSubmitted<P>(a: Applet<P>, events: seq<Event<P>>, k: nat)
    requires k < |Run(a, events).dispatched|
    ensures var cmd := Run(a, events).dispatched[k];
            SubmittedIn(cmd, events) || Drain(a).dispatched == Some(cmd)
    decreases |events|
  {
    var cmd := Run(a, events).dispatched[k];
    var d := Step(a, events[0]);
    var t := Run(d.applet, events[1..]);
    var first := if d.dispatched.Some? then [d.dispatched.value] else [];
    assert Run(a, events).dispatched == first + t.dispatched;
    if k < |first| {
      assert cmd == d.dispatched.value;
    } else {
      DispatchedWereSubmitted(d.applet, events[1..], k - |first|);
      assert cmd == t.dispatched[k - |first|];
      if SubmittedIn(cmd, events[1..]) {
        var i :| 0 <= i < |events[1..]| && events[1..][i] == Submit(Some(cmd.name), cmd.params);
        assert events[i + 1] == Submit(Some(cmd.name), cmd.params);
      } else {
        assert Drain(d.applet).dispatched == Some(cmd);
        match events[0]
        case Submit(c, p) =>
          assert d.applet.poller.value == Slot(c, p);
          assert events[0] == Submit(Some(cmd.name), cmd.params);
        case Poll =>
          assert d.applet == a;
      }
    }
  }

  /** Two submissions before a turn of the poller: only the second reaches `doExecute`. */
  lemma Coalescing<P>(a: Applet<P>, c1: Str, p1: Option<seq<P>>, c2: Str, p2: Option<seq<P>>)
    requires a.poller.Some? && a.runPoller
    ensures Run(a, [Submit(Some(c1), p1), Submit(Some(c2), p2), Poll]).dispatched == [Command(c2, p2)]
  {
    var e: seq<Event<P>> := [Submit(Some(c1), p1), Submit(Some(c2), p2), Poll];
    var a1 := Execute(a, Some(c1), p1);
    var a2 := Execute(a1, Some(c2), p2);
    assert e[1..] == [Submit(Some(c2), p2), Poll];
    assert e[1..][1..] == [Poll];
    assert e[1..][1..][1..] == [];
    assert Run(Drain(a2).applet, []).dispatched == [];
    assert Run(a2, [Poll]).dispatched == [Command(c2, p2)];
    assert Run(a1, e[1..]).dispatched == [Command(c2, p2)];
  }
}
