/**
 Each list of a Deferred is a callback list in the sense of CallbackRuns: a run of the Deferred shows
 each list a run of list actions, so everything proved there holds inside a Deferred.
 */
module DeferredLists {
  import opened Wrappers
  import opened CallbackLists
  import opened Deferreds
  import DeferredTheorems
  import CallbackRuns

  function FlagsOf(side: Side): Flags {
    if side == Progress then MEMORY else ONCE_MEMORY
  }

  /** Every pass below the innermost one waits inside one of its callbacks. */
  predicate Suspended(d: Deferred) {
    forall i :: 1 <= i < |d.stack| ==> On(d, d.stack[i]).pass.Running?
  }

  /** What a closure does to the list of a side. */
  function ClosureOn(fn: Callback, side: Side): seq<CallbackRuns.Action> {
    match fn
    case DisableDone => if side == Done then [CallbackRuns.DisableList] else []
    case DisableFail => if side == Fail then [CallbackRuns.DisableList] else []
    case LockProgress => if side == Progress then [CallbackRuns.LockList] else []
    case _ => []
  }

  /** The list actions one action of the Deferred makes the list of a side take. */
  function Seen(d: Deferred, a: Action, side: Side): seq<CallbackRuns.Action>
    requires Wf(d) && Enabled(d, a)
  {
    match a
    case Register(s, args) => if s == side then [CallbackRuns.AddCallbacks(args)] else []
    case Fire(s, call) => if s == side then [CallbackRuns.FireList(call)] else []
    case Comeback(isFalse) => if d.stack[0] == side then [CallbackRuns.Comeback(isFalse)] else []
    case Step =>
      assert d.stack[0] in d.stack;
      var top := On(d, d.stack[0]).pass;
      if top.AtLoop? then
        if d.stack[0] == side then [CallbackRuns.StepLoop] else []
      else
        ClosureOn(top.entry.fn, side) + if d.stack[0] == side then [CallbackRuns.Comeback(false)] else []
  }

  function ListActions(actions: seq<Action>, side: Side): seq<CallbackRuns.Action>
    decreases |actions|
  {
    if actions == [] then [CallbackRuns.AddCallbacks(ClosureArgs(side))]
    else
      var before, a := actions[..|actions| - 1], actions[|actions| - 1];
      ListActions(before, side) + if Enabled(Run(before), a) then Seen(Run(before), a, side) else []
  }

  // ---------------------------------------------------------------- one step

  lemma StoreSuspended(d: Deferred, side: Side, c: CallbackList)
    requires Wf(d) && Suspended(d)
    requires !On(d, side).firing && c.firing ==> d.stack != [] ==> On(d, d.stack[0]).pass.Running?
    requires On(d, side).firing ==> (d.stack != [] && d.stack[0] == side) || c.pass == On(d, side).pass
    requires c.firing <==> !c.pass.NoPass?
    ensures Suspended(Store(d, side, c))
  {
    var d' := Store(d, side, c);
    forall i | 1 <= i < |d'.stack| ensures On(d', d'.stack[i]).pass.Running? {
      if !On(d, side).firing && c.firing {
        assert d'.stack[i] == d.stack[i - 1] && d.stack[i - 1] in d.stack;
      } else if On(d, side).firing && !c.firing {
        assert d'.stack[i] == d.stack[i + 1];
        if d.stack[0] == side { assert d.stack[i + 1] != d.stack[0]; }
      } else if d.stack[0] == side {
        assert d.stack[i] != d.stack[0];
      }
    }
  }

  lemma EffectSuspended(d: Deferred, fn: Callback)
    requires Suspended(d)
    ensures Suspended(Effect(d, fn))
  {
    var d' := Effect(d, fn);
    forall i | 1 <= i < |d'.stack| ensures On(d', d'.stack[i]).pass.Running? {
      EffectKeepsPass(d, fn, d.stack[i]);
    }
  }

  lemma PassSuspended(d: Deferred)
    requires Wf(d) && Suspended(d) && !UserControl(d)
    ensures Suspended(Next(d, Step))
  {
    var side := d.stack[0];
    assert side in d.stack;
    if On(d, side).pass.AtLoop? {
      CallbackRuns.StepKeepsValid(On(d, side), CallbackRuns.StepLoop);
      StoreSuspended(d, side, Invoke(On(d, side)));
    } else {
      var fn := On(d, side).pass.entry.fn;
      var d1 := Effect(d, fn);
      EffectKeepsWf(d, fn);
      EffectKeepsPass(d, fn, side);
      EffectSuspended(d, fn);
      CallbackRuns.StepKeepsValid(On(d1, side), CallbackRuns.Comeback(false));
      StoreSuspended(d1, side, Return(On(d1, side), false));
    }
  }

  lemma ComebackSuspended(d: Deferred, isFalse: bool)
    requires Wf(d) && Suspended(d) && d.stack != [] && On(d, d.stack[0]).pass.Running?
    ensures Suspended(ComeBack(d, isFalse))
  {
    var side := d.stack[0];
    CallbackRuns.StepKeepsValid(On(d, side), CallbackRuns.Comeback(isFalse));
    StoreSuspended(d, side, Return(On(d, side), isFalse));
  }

  lemma RegisterSuspended(d: Deferred, side: Side, args: seq<Arg>)
    requires Wf(d) && Suspended(d) && UserControl(d)
    ensures Suspended(RegisterOn(d, side, args))
  {
    CallbackRuns.AddKeepsValid(On(d, side), args);
    StoreSuspended(d, side, Add(On(d, side), args));
    var d1 := Store(d, side, Add(On(d, side), args));
    forall i | 1 <= i < |d1.stack| ensures On(RegisterOn(d, side, args), d1.stack[i]) == On(d1, d1.stack[i]) {}
  }

  lemma StepSuspended(d: Deferred, a: Action)
    requires Wf(d) && Suspended(d) && Enabled(d, a)
    ensures Suspended(Next(d, a))
  {
    match a
    case Register(side, args) => RegisterSuspended(d, side, args);
    case Fire(side, call) => StoreSuspended(d, side, FireWith(On(d, side), call));
    case Step => PassSuspended(d);
    case Comeback(isFalse) => ComebackSuspended(d, isFalse);
  }

  lemma {:induction false} RunSuspended(actions: seq<Action>)
    ensures Suspended(Run(actions))
    decreases |actions|
  {
    if actions == [] {
    } else {
      RunSuspended(actions[..|actions| - 1]);
      if Enabled(Run(actions[..|actions| - 1]), actions[|actions| - 1]) {
        StepSuspended(Run(actions[..|actions| - 1]), actions[|actions| - 1]);
      }
    }
  }

  // ---------------------------------------------------------------- the projection

  function StepAll(m: CallbackRuns.Machine, actions: seq<CallbackRuns.Action>): CallbackRuns.Machine
    requires Valid(m.c)
    decreases |actions|
  {
    if actions == [] then m else StepAll(CallbackRuns.Step(m, actions[0]), actions[1..])
  }

  lemma {:induction false} RunAppend(flags: Flags, a: seq<CallbackRuns.Action>, b: seq<CallbackRuns.Action>)
    ensures CallbackRuns.Run(flags, a + b) == StepAll(CallbackRuns.Run(flags, a), b)
    decreases |b|
  {
    if b == [] {
      assert a + b == a;
    } else {
      assert a + b == (a + [b[0]]) + b[1..];
      assert (a + [b[0]])[..|a + [b[0]]| - 1] == a;
      RunAppend(flags, a + [b[0]], b[1..]);
    }
  }

  /** Lists other than the innermost are idle or inside a callback, so they can be acted on. */
  lemma Reachable(d: Deferred, side: Side)
    requires Wf(d) && Suspended(d) && d.stack != [] && d.stack[0] != side
    ensures CallbackRuns.ForeignCode(On(d, side))
  {
    if On(d, side).firing {
      assert side in d.stack;
      var i :| 0 <= i < |d.stack| && d.stack[i] == side;
    }
  }

  lemma UserReaches(d: Deferred, side: Side)
    requires Wf(d) && Suspended(d) && UserControl(d)
    ensures CallbackRuns.ForeignCode(On(d, side))
  {
    if d.stack != [] && d.stack[0] != side { Reachable(d, side); }
  }

  lemma StepAllShort(m: CallbackRuns.Machine, a: CallbackRuns.Action, b: CallbackRuns.Action)
    requires Valid(m.c)
    ensures StepAll(m, [a]) == CallbackRuns.Step(m, a)
    ensures StepAll(m, [a, b]) == CallbackRuns.Step(CallbackRuns.Step(m, a), b)
  {
    assert [a, b][1..] == [b];
    var m1 := CallbackRuns.Step(m, a);
    assert StepAll(m, [a, b]) == StepAll(m1, [b]);
    assert StepAll(m1, [b]) == StepAll(CallbackRuns.Step(m1, b), []);
  }

  /** The closure's own effect, as seen by the list of a side. */
  lemma EffectSeen(d: Deferred, fn: Callback, side: Side, m: CallbackRuns.Machine)
    requires Wf(d) && m.c == On(d, side) && CallbackRuns.ForeignCode(m.c)
    ensures StepAll(m, ClosureOn(fn, side)).c == On(Effect(d, fn), side)
  {
    StepAllShort(m, CallbackRuns.DisableList, CallbackRuns.DisableList);
    StepAllShort(m, CallbackRuns.LockList, CallbackRuns.LockList);
  }

  lemma ClosureSeen(d: Deferred, side: Side, m: CallbackRuns.Machine)
    requires Wf(d) && Suspended(d) && !UserControl(d) && On(d, d.stack[0]).pass.Running? && m.c == On(d, side)
    ensures StepAll(m, Seen(d, Step, side)).c == On(Next(d, Step), side)
  {
    var top := d.stack[0];
    var fn := On(d, top).pass.entry.fn;
    EffectKeepsPass(d, fn, side);
    if top != side { Reachable(d, side); }
    EffectSeen(d, fn, side, m);
    var first := ClosureOn(fn, side);
    if top == side {
      EffectKeepsWf(d, fn);
      var back := CallbackRuns.Comeback(false);
      StepAllShort(m, back, back);
      if first != [] {
        assert first == [first[0]] && first + [back] == [first[0], back];
        StepAllShort(m, first[0], back);
      } else {
        assert first + [back] == [back];
      }
    } else {
      assert first + [] == first;
    }
  }

  lemma LoopSeen(d: Deferred, side: Side, m: CallbackRuns.Machine)
    requires Wf(d) && d.stack != [] && On(d, d.stack[0]).pass.AtLoop? && m.c == On(d, side)
    ensures StepAll(m, Seen(d, Step, side)).c == On(Next(d, Step), side)
  {
    StepAllShort(m, CallbackRuns.StepLoop, CallbackRuns.StepLoop);
  }

  lemma RegisterSeen(d: Deferred, s: Side, args: seq<Arg>, side: Side, m: CallbackRuns.Machine)
    requires Wf(d) && Suspended(d) && Enabled(d, Register(s, args)) && m.c == On(d, side)
    ensures StepAll(m, Seen(d, Register(s, args), side)).c == On(Next(d, Register(s, args)), side)
  {
    UserReaches(d, side);
    StepAllShort(m, CallbackRuns.AddCallbacks(args), CallbackRuns.StepLoop);
  }

  lemma FireSeen(d: Deferred, s: Side, call: Call, side: Side, m: CallbackRuns.Machine)
    requires Wf(d) && Suspended(d) && UserControl(d) && m.c == On(d, side)
    ensures StepAll(m, Seen(d, Fire(s, call), side)).c == On(Next(d, Fire(s, call)), side)
  {
    UserReaches(d, side);
    StepAllShort(m, CallbackRuns.FireList(call), CallbackRuns.StepLoop);
  }

  lemma ComebackSeen(d: Deferred, isFalse: bool, side: Side, m: CallbackRuns.Machine)
    requires Wf(d) && Enabled(d, Comeback(isFalse)) && m.c == On(d, side)
    ensures StepAll(m, Seen(d, Comeback(isFalse), side)).c == On(Next(d, Comeback(isFalse)), side)
  {
    StepAllShort(m, CallbackRuns.Comeback(isFalse), CallbackRuns.StepLoop);
  }

  lemma ActionSeen(d: Deferred, a: Action, side: Side, m: CallbackRuns.Machine)
    requires Wf(d) && Suspended(d) && Enabled(d, a) && m.c == On(d, side)
    ensures StepAll(m, Seen(d, a, side)).c == On(Next(d, a), side)
  {
    match a
    case Register(s, args) => RegisterSeen(d, s, args, side, m);
    case Fire(s, call) => FireSeen(d, s, call, side, m);
    case Step =>
      assert d.stack[0] in d.stack;
      if On(d, d.stack[0]).pass.Running? { ClosureSeen(d, side, m); } else { LoopSeen(d, side, m); }
    case Comeback(isFalse) => ComebackSeen(d, isFalse, side, m);
  }

  lemma ListAtStart(side: Side)
    ensures CallbackRuns.Run(FlagsOf(side), ListActions([], side)).c == On(Create(), side)
  {
    var first := [CallbackRuns.AddCallbacks(ClosureArgs(side))];
    assert first[..|first| - 1] == [];
    if side == Progress { assert ClosureArgs(side) == []; }
  }

  lemma ListAfter(before: seq<Action>, a: Action, side: Side)
    requires CallbackRuns.Run(FlagsOf(side), ListActions(before, side)).c == On(Run(before), side)
    requires Enabled(Run(before), a)
    ensures CallbackRuns.Run(FlagsOf(side), ListActions(before, side) + Seen(Run(before), a, side)).c
         == On(Apply(Run(before), a), side)
  {
    RunSuspended(before);
    RunAppend(FlagsOf(side), ListActions(before, side), Seen(Run(before), a, side));
    ActionSeen(Run(before), a, side, CallbackRuns.Run(FlagsOf(side), ListActions(before, side)));
  }

  /** In every run, the list of each side is where its own list actions bring a fresh callback list. */
  lemma {:induction false} ListsAreCallbackLists(actions: seq<Action>, side: Side)
    ensures CallbackRuns.Run(FlagsOf(side), ListActions(actions, side)).c == On(Run(actions), side)
    decreases |actions|
  {
    if actions == [] {
      ListAtStart(side);
    } else {
      var before, a := actions[..|actions| - 1], actions[|actions| - 1];
      assert actions == before + [a];
      ListsAreCallbackLists(before, side);
      DeferredTheorems.RunSnoc(before, a);
      if Enabled(Run(before), a) {
        ListAfter(before, a, side);
      } else {
        assert ListActions(before, side) + [] == ListActions(before, side);
      }
    }
  }

  // ---------------------------------------------------------------- notifications

  /** The calls of every notify that user code really issued. */
  function Notifications(actions: seq<Action>): seq<Call>
    decreases |actions|
  {
    if actions == [] then []
    else
      var before, a := actions[..|actions| - 1], actions[|actions| - 1];
      Notifications(before)
      + if a.Fire? && a.side == Progress && Enabled(Run(before), a) then [a.call] else []
  }

  function ProgressHistory(actions: seq<Action>): CallbackRuns.History {
    CallbackRuns.Run(MEMORY, ListActions(actions, Progress)).h
  }

  /** Only a fire request adds to the requests a list has seen. */
  lemma OnlyFiresRequest(m: CallbackRuns.Machine, a: CallbackRuns.Action)
    requires Valid(m.c)
    ensures CallbackRuns.Step(m, a).h.requested ==
      if a.FireList? && CallbackRuns.ForeignCode(m.c) && m.c.stack.Some? then m.h.requested + [a.call]
      else m.h.requested
  {
  }

  lemma {:induction false} RequestsAdded(m: CallbackRuns.Machine, actions: seq<CallbackRuns.Action>)
    requires Valid(m.c) && forall i :: 0 <= i < |actions| ==> !actions[i].FireList?
    ensures StepAll(m, actions).h.requested == m.h.requested
    decreases |actions|
  {
    if actions == [] {
    } else {
      OnlyFiresRequest(m, actions[0]);
      RequestsAdded(CallbackRuns.Step(m, actions[0]), actions[1..]);
    }
  }

  predicate StillPending(actions: seq<Action>) {
    Run(actions).settlement.None?
  }

  lemma RequestSeen(d: Deferred, a: Action, m: CallbackRuns.Machine)
    requires Wf(d) && Suspended(d) && Enabled(d, a) && m.c == d.progress && d.progress.stack.Some?
    ensures StepAll(m, Seen(d, a, Progress)).h.requested ==
      if a.Fire? && a.side == Progress then m.h.requested + [a.call] else m.h.requested
  {
    if a.Fire? && a.side == Progress {
      UserReaches(d, Progress);
      StepAllShort(m, CallbackRuns.FireList(a.call), CallbackRuns.StepLoop);
    } else {
      RequestsAdded(m, Seen(d, a, Progress));
    }
  }

  lemma PendingIsUnlocked(actions: seq<Action>)
    requires StillPending(actions)
    ensures Run(actions).progress.stack.Some?
  {
    DeferredTheorems.RunInvariant(actions);
  }

  lemma RequestAfter(before: seq<Action>, a: Action)
    requires StillPending(before) && Enabled(Run(before), a)
    ensures CallbackRuns.Run(MEMORY, ListActions(before, Progress) + Seen(Run(before), a, Progress)).h.requested ==
      ProgressHistory(before).requested + if a.Fire? && a.side == Progress then [a.call] else []
  {
    RunAppend(MEMORY, ListActions(before, Progress), Seen(Run(before), a, Progress));
    ListsAreCallbackLists(before, Progress);
    RunSuspended(before);
    PendingIsUnlocked(before);
    RequestSeen(Run(before), a, CallbackRuns.Run(MEMORY, ListActions(before, Progress)));
  }

  lemma {:induction false} NotificationsRequested(actions: seq<Action>)
    requires StillPending(actions)
    ensures ProgressHistory(actions).requested == Notifications(actions)
    decreases |actions|
  {
    if actions == [] {
      assert ProgressHistory(actions).requested == [];
    } else {
      var before, a := actions[..|actions| - 1], actions[|actions| - 1];
      DeferredTheorems.SettlementStays(Run(before), a);
      NotificationsRequested(before);
      if Enabled(Run(before), a) {
        RequestAfter(before, a);
      } else {
        assert ListActions(before, Progress) + [] == ListActions(before, Progress);
      }
    }
  }

  /**
   Notifications are served in the order they were issued, and until the Deferred settles none is lost:
   those begun, then those queued behind a running pass; all of them once no progress pass runs.
   */
  lemma NotificationsServedInOrder(actions: seq<Action>)
    ensures var d, h := Run(actions), ProgressHistory(actions);
      && h.started <= h.requested
      && (d.settlement.None? ==> d.progress.stack.Some? && Notifications(actions) == h.started + d.progress.stack.value)
      && (d.settlement.None? && !d.progress.firing ==> h.started == Notifications(actions))
  {
    ListsAreCallbackLists(actions, Progress);
    CallbackRuns.FiresServedInOrder(MEMORY, ListActions(actions, Progress));
    if StillPending(actions) {
      PendingIsUnlocked(actions);
      NotificationsRequested(actions);
    }
  }
}
