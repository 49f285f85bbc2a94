/**
 Progress callbacks of a Deferred: each notification served calls every one of them registered by then,
 once, in order and with its call; one registered later receives the last notification at once.
 */
module DeferredNotices {
  import opened Wrappers
  import opened CallbackLists
  import opened CallbackLemmas
  import opened Deferreds
  import opened DeferredLists
  import DeferredTheorems
  import CallbackRuns
  import CallbackContents
  import PlainLists

  // ---------------------------------------------------------------- nothing is removed or disabled

  predicate Grows(x: CallbackRuns.Action) {
    !x.RemoveCallbacks? && !x.EmptyList? && !x.DisableList?
  }

  predicate AllGrow(actions: seq<CallbackRuns.Action>) {
    forall i :: 0 <= i < |actions| ==> Grows(actions[i])
  }

  /** What a step makes the progress list do: it never removes, empties or disables, and tests the loop only in turn. */
  lemma SeenGrows(d: Deferred, a: Action)
    requires Wf(d) && Enabled(d, a)
    ensures AllGrow(Seen(d, a, Progress))
    ensures !TestsLoop(d, a) ==> NoLoopTest(Seen(d, a, Progress))
  {
  }

  predicate TestsLoop(d: Deferred, a: Action) {
    a == Step && d.stack != [] && On(d, d.stack[0]).pass.AtLoop?
  }

  predicate NoLoopTest(actions: seq<CallbackRuns.Action>) {
    forall i :: 0 <= i < |actions| ==> !actions[i].StepLoop? && !actions[i].EmptyList?
  }

  lemma {:induction false} ListActionsGrow(actions: seq<Action>)
    ensures AllGrow(ListActions(actions, Progress))
    decreases |actions|
  {
    if actions == [] {
    } else {
      var before, a := actions[..|actions| - 1], actions[|actions| - 1];
      ListActionsGrow(before);
      if Enabled(Run(before), a) { SeenGrows(Run(before), a); }
    }
  }

  lemma ProgressOnlyGrows(actions: seq<Action>)
    ensures CallbackContents.OnlyGrows(ListActions(actions, Progress))
    ensures CallbackContents.NeverDisabled(ListActions(actions, Progress))
  {
    ListActionsGrow(actions);
    forall i | 0 <= i < |ListActions(actions, Progress)| ensures Grows(ListActions(actions, Progress)[i]) {}
  }

  predicate HoldsRegistered(d: Deferred) {
    d.progress.list.Some? ==> Fns(d.progress.list.value) == d.progressRecord.registered
  }

  /** Testing the loop, returning to it and firing leave the functions of a list without `once` as they are. */
  lemma ListStays(c: CallbackList, a: CallbackRuns.Action)
    requires Valid(c) && CallbackRuns.Enabled(c, a) && c.flags == MEMORY
    requires a.StepLoop? || a.Comeback? || a.FireList? || a.LockList?
    ensures CallbackRuns.Next(c, a).list == c.list || CallbackRuns.Next(c, a).list.None?
  {
  }

  lemma RegisterHolds(d: Deferred, args: seq<Arg>)
    requires Wf(d) && HoldsRegistered(d)
    ensures HoldsRegistered(RegisterOn(d, Progress, args))
  {
    if d.progress.list.Some? {
      var L := d.progress.list.value;
      PushAppends(L, d.progress.nextTag, Flatten(args), false);
      var L' := Push(L, d.progress.nextTag, Flatten(args), false).0;
      assert L'[..|L|] == L;
      assert Fns(L') == Fns(L) + Fns(L'[|L|..]);
    }
  }

  lemma PassHolds(d: Deferred)
    requires Wf(d) && HoldsRegistered(d) && !UserControl(d)
    ensures HoldsRegistered(Next(d, Step))
  {
    assert d.stack[0] in d.stack;
    if d.stack[0] == Progress && d.progress.pass.AtLoop? {
      ListStays(d.progress, CallbackRuns.StepLoop);
    } else if On(d, d.stack[0]).pass.Running? {
      ClosureHolds(d);
    }
  }

  lemma ClosureHolds(d: Deferred)
    requires Wf(d) && HoldsRegistered(d) && d.stack != [] && On(d, d.stack[0]).pass.Running?
    ensures HoldsRegistered(RunClosure(d))
  {
    var fn := On(d, d.stack[0]).pass.entry.fn;
    EffectKeepsPass(d, fn, d.stack[0]);
    EffectKeepsWf(d, fn);
    if d.stack[0] == Progress { ListStays(Effect(d, fn).progress, CallbackRuns.Comeback(false)); }
  }

  lemma StepHolds(d: Deferred, a: Action)
    requires Wf(d) && Suspended(d) && HoldsRegistered(d) && Enabled(d, a)
    ensures HoldsRegistered(Next(d, a))
  {
    match a
    case Register(side, args) => if side == Progress { RegisterHolds(d, args); }
    case Fire(side, call) =>
      UserReaches(d, Progress);
      ListStays(d.progress, CallbackRuns.FireList(call));
    case Step => PassHolds(d);
    case Comeback(isFalse) =>
      if d.stack[0] == Progress { ListStays(d.progress, CallbackRuns.Comeback(isFalse)); }
  }

  lemma {:induction false} RunHolds(actions: seq<Action>)
    ensures HoldsRegistered(Run(actions))
    decreases |actions|
  {
    if actions == [] {
      assert Fns([]) == [];
    } else {
      RunHolds(actions[..|actions| - 1]);
      RunSuspended(actions[..|actions| - 1]);
      if Enabled(Run(actions[..|actions| - 1]), actions[|actions| - 1]) {
        StepHolds(Run(actions[..|actions| - 1]), actions[|actions| - 1]);
      }
    }
  }

  // ---------------------------------------------------------------- what the log holds of a pass

  function RanAll(fns: seq<Callback>, call: Call): seq<Ran> {
    seq(|fns|, i requires 0 <= i < |fns| => Ran(fns[i], call))
  }

  /** The log ends with the callbacks the running pass has entered, each with the call of the pass. */
  predicate LogShows(m: CallbackRuns.Machine, log: seq<Ran>) {
    m.c.firing && !m.c.pass.NoPass? && m.c.list.Some? ==>
      var n := |m.h.called|;
      n <= |log| && log[|log| - n..] == RanAll(Fns(m.h.called), m.c.pass.call)
  }

  predicate Enters(m: CallbackRuns.Machine, a: CallbackRuns.Action) {
    a.StepLoop? && m.c.pass.AtLoop? && HasNext(m.c)
  }

  /** An action that enters no callback leaves the running pass as it is, ends it, or begins one. */
  lemma QuietStepCalls(m: CallbackRuns.Machine, a: CallbackRuns.Action)
    requires Valid(m.c) && !Enters(m, a) && !a.EmptyList?
    ensures var m' := CallbackRuns.Step(m, a);
      m'.c.firing && m'.c.list.Some? ==>
        || m'.h.called == []
        || (m'.h.called == m.h.called && m.c.firing && m.c.list.Some? && m'.c.pass.call == m.c.pass.call)
  {
  }

  lemma NothingRan(log: seq<Ran>, call: Call)
    ensures log[|log|..] == RanAll(Fns([]), call)
  {
  }

  lemma QuietStepShows(m: CallbackRuns.Machine, a: CallbackRuns.Action, log: seq<Ran>)
    requires Valid(m.c) && LogShows(m, log) && !Enters(m, a) && !a.EmptyList?
    ensures LogShows(CallbackRuns.Step(m, a), log)
  {
    QuietStepCalls(m, a);
    var c' := CallbackRuns.Step(m, a).c;
    if !c'.pass.NoPass? { NothingRan(log, c'.pass.call); }
  }

  lemma EnteringStepShows(m: CallbackRuns.Machine, log: seq<Ran>)
    requires Valid(m.c) && LogShows(m, log) && Enters(m, CallbackRuns.StepLoop)
    ensures LogShows(CallbackRuns.Step(m, CallbackRuns.StepLoop),
                     log + [Ran(m.c.list.value[m.c.firingIndex].fn, m.c.pass.call)])
  {
    var n, called, e := |m.h.called|, m.h.called, m.c.list.value[m.c.firingIndex];
    var log' := log + [Ran(e.fn, m.c.pass.call)];
    assert log'[|log'| - n - 1..] == log[|log| - n..] + [Ran(e.fn, m.c.pass.call)];
    assert RanAll(Fns(called + [e]), m.c.pass.call) == RanAll(Fns(called), m.c.pass.call) + [Ran(e.fn, m.c.pass.call)];
  }

  lemma {:induction false} QuietStepsShow(m: CallbackRuns.Machine, actions: seq<CallbackRuns.Action>, log: seq<Ran>)
    requires Valid(m.c) && LogShows(m, log)
    requires NoLoopTest(actions)
    ensures LogShows(StepAll(m, actions), log)
    decreases |actions|
  {
    if actions == [] {
    } else {
      QuietStepShows(m, actions[0], log);
      QuietStepsShow(CallbackRuns.Step(m, actions[0]), actions[1..], log);
    }
  }

  lemma LoopShows(d: Deferred, m: CallbackRuns.Machine)
    requires Wf(d) && d.stack != [] && On(d, d.stack[0]).pass.AtLoop? && m.c == d.progress
    requires LogShows(m, d.progressRecord.log)
    ensures LogShows(StepAll(m, Seen(d, Step, Progress)), Next(d, Step).progressRecord.log)
  {
    if d.stack[0] == Progress {
      StepAllShort(m, CallbackRuns.StepLoop, CallbackRuns.StepLoop);
      if HasNext(m.c) {
        EnteringStepShows(m, d.progressRecord.log);
      } else {
        QuietStepShows(m, CallbackRuns.StepLoop, d.progressRecord.log);
      }
    }
  }

  lemma ActionShows(d: Deferred, a: Action, m: CallbackRuns.Machine)
    requires Wf(d) && Enabled(d, a) && m.c == d.progress && LogShows(m, d.progressRecord.log)
    ensures LogShows(StepAll(m, Seen(d, a, Progress)), Next(d, a).progressRecord.log)
  {
    if TestsLoop(d, a) {
      LoopShows(d, m);
    } else {
      QuietLog(d, a);
      SeenGrows(d, a);
      QuietStepsShow(m, Seen(d, a, Progress), d.progressRecord.log);
    }
  }

  lemma QuietLog(d: Deferred, a: Action)
    requires Wf(d) && Enabled(d, a) && !TestsLoop(d, a)
    ensures Next(d, a).progressRecord.log == d.progressRecord.log
  {
    if a == Step { assert d.stack[0] in d.stack; }
  }

  function ProgressMachine(actions: seq<Action>): CallbackRuns.Machine {
    CallbackRuns.Run(MEMORY, ListActions(actions, Progress))
  }

  lemma {:induction false} RunShows(actions: seq<Action>)
    ensures LogShows(ProgressMachine(actions), Run(actions).progressRecord.log)
    decreases |actions|
  {
    if actions == [] {
      ListsAreCallbackLists(actions, Progress);
    } else {
      var before, a := actions[..|actions| - 1], actions[|actions| - 1];
      assert actions == before + [a];
      RunShows(before);
      ListsAreCallbackLists(before, Progress);
      if Enabled(Run(before), a) {
        RunAppend(MEMORY, ListActions(before, Progress), Seen(Run(before), a, Progress));
        ActionShows(Run(before), a, ProgressMachine(before));
      } else {
        assert ListActions(before, Progress) + [] == ListActions(before, Progress);
      }
    }
  }

  // ---------------------------------------------------------------- the theorems

  /**
   At the end of every progress pass: the pass has called, once and in order, every progress callback
   registered by then behind those it started behind, each with the notification served last; a pass
   begun by a notification starts behind none.
   */
  lemma NotificationReachesAll(actions: seq<Action>)
    ensures var d, h := Run(actions), ProgressHistory(actions);
      d.progress.pass.AtLoop? && !HasNext(d.progress) ==>
        && d.progress.list.Some? && h.started != []
        && var told, log := Fns(h.called), d.progressRecord.log;
           && Fns(h.before) + told == DeferredTheorems.Registrations(actions, Progress)
           && |told| <= |log|
           && log[|log| - |told|..] == RanAll(told, h.started[|h.started| - 1])
  {
    ProgressFacts(actions);
    RunShows(actions);
    RunHolds(actions);
    DeferredTheorems.RegistrationsRecorded(actions, Progress);
    if Run(actions).progress.pass.AtLoop? && !HasNext(Run(actions).progress) {
      PassOver(ProgressMachine(actions));
    }
  }

  lemma PassOver(m: CallbackRuns.Machine)
    requires Valid(m.c) && CallbackContents.CalledInOrder(m) && CallbackContents.Remembers(m)
    requires m.h.started != [] && m.c.pass.AtLoop? && !HasNext(m.c)
    ensures m.c.list.Some? && Fns(m.h.before) + Fns(m.h.called) == Fns(m.c.list.value)
  {
    assert m.c.list.value[..Entered(m.c)] == m.c.list.value;
    assert Fns(m.h.before + m.h.called) == Fns(m.h.before) + Fns(m.h.called);
  }

  /** What the results on callback lists say of the progress list. */
  lemma ProgressFacts(actions: seq<Action>)
    ensures var m := ProgressMachine(actions);
      && m.c == Run(actions).progress && m.h == ProgressHistory(actions)
      && CallbackContents.CalledInOrder(m) && CallbackContents.Remembers(m)
      && (m.c.firing ==> m.h.started != [] && m.c.pass.call == m.h.started[|m.h.started| - 1])
  {
    ListsAreCallbackLists(actions, Progress);
    ProgressOnlyGrows(actions);
    CallbackContents.RunRemembers(MEMORY, ListActions(actions, Progress));
    CallbackContents.RunCallsInOrder(MEMORY, ListActions(actions, Progress));
    CallbackRuns.RunKeepsFires(MEMORY, ListActions(actions, Progress));
  }

  /** A pass begun by a notification starts with nothing called and nothing skipped. */
  lemma NotificationStartsAfresh(m: CallbackRuns.Machine, a: CallbackRuns.Action)
    requires Valid(m.c) && |CallbackRuns.Step(m, a).h.started| > |m.h.started|
    ensures var m' := CallbackRuns.Step(m, a);
      && m'.h.before == [] && m'.h.called == [] && m'.h.started == m.h.started + [m'.c.pass.call]
      && m'.c.pass == AtLoop(m'.c.pass.call) && m'.c.firingIndex == 0
  {
  }

  /**
   A progress callback registered while no progress pass runs, before or after settlement, receives the
   last notification at once, and the callbacks registered before it do not receive it again; before the
   first notification it waits.
   */
  lemma LateProgressReplays(actions: seq<Action>, args: seq<Arg>)
    requires Enabled(Run(actions), Register(Progress, args)) && !Run(actions).progress.firing
    ensures var c', h := Run(actions + [Register(Progress, args)]).progress, ProgressHistory(actions);
      if h.started == [] then c'.pass.NoPass?
      else
        && c'.pass == AtLoop(h.started[|h.started| - 1]) && c'.list.Some?
        && 0 <= c'.firingIndex <= |c'.list.value|
        && Fns(c'.list.value[..c'.firingIndex]) == DeferredTheorems.Registrations(actions, Progress)
        && Fns(c'.list.value[c'.firingIndex..]) == Flatten(args)
  {
    DeferredTheorems.RunSnoc(actions, Register(Progress, args));
    ProgressFacts(actions);
    RunHolds(actions);
    DeferredTheorems.RegistrationsRecorded(actions, Progress);
    AddedAtRest(ProgressMachine(actions).c, args);
  }

  lemma AddedAtRest(c: CallbackList, args: seq<Arg>)
    requires Valid(c) && c.flags == MEMORY && !c.firing
    ensures c.memory == Unset ==> Add(c, args).pass.NoPass?
    ensures c.list.Some? && c.memory.Remembered? ==>
      var c' := Add(c, args);
      && c'.pass == AtLoop(c.memory.call) && c'.list.Some?
      && c'.firingIndex == |c.list.value| <= |c'.list.value|
      && c'.list.value[..c'.firingIndex] == c.list.value && Fns(c'.list.value[c'.firingIndex..]) == Flatten(args)
  {
    if c.list.Some? { PushAppends(c.list.value, c.nextTag, Flatten(args), false); }
  }
}
