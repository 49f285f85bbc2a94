/**
 Whom a list calls: which functions it holds after a run, that every pass reaches all of them, and what
 a callback added late still receives.
 */
module CallbackContents {
  import opened Wrappers
  import opened CallbackLists
  import opened CallbackLemmas
  import opened CallbackRuns
  import opened PlainLists

  // ---------------------------------------------------------------- which functions a list holds

  /** One action on the functions held: only adding, removing and emptying change them, and the end of a `once` pass. */
  function Updated(held: seq<Callback>, c: CallbackList, a: Action): seq<Callback> {
    match a
    case AddCallbacks(args) => held + NewOnes(held, Flatten(args), c.flags.unique)
    case RemoveCallbacks(fns) => Minus(held, fns)
    case EmptyList => []
    case _ => if c.flags.once && EndsPass(c, a) then [] else held
  }

  /** The functions held after a run, by the actions alone. */
  function Contents(flags: Flags, actions: seq<Action>): seq<Callback>
    decreases |actions|
  {
    if actions == [] then []
    else
      var before, a := actions[..|actions| - 1], actions[|actions| - 1];
      var c := Run(flags, before).c;
      if Enabled(c, a) then Updated(Contents(flags, before), c, a) else Contents(flags, before)
  }

  lemma {:induction false} MinusConcat(s: seq<Callback>, t: seq<Callback>, fns: seq<Callback>)
    ensures Minus(s + t, fns) == Minus(s, fns) + Minus(t, fns)
  {
    if s == [] {
      assert s + t == t;
    } else {
      assert (s + t)[1..] == s[1..] + t;
      MinusConcat(s[1..], t, fns);
    }
  }

  function Listed(parts: Parts): seq<Callback> {
    parts.past + parts.ahead
  }

  lemma ToldListed(c: CallbackList)
    requires Valid(c) && c.list.Some?
    ensures Told(c).parts.Some? && Listed(Told(c).parts.value) == Fns(c.list.value)
    ensures !c.firing ==> Told(c).parts.value.ahead == []
  {
    if c.firing { FnsSplit(c.list.value, Entered(c)); }
  }

  lemma AddedListed(p: Plain, flags: Flags, fns: seq<Callback>)
    requires p.parts.Some? && (p.control.Idle? ==> p.parts.value.ahead == [])
    ensures Added(p, flags, fns).parts.Some?
    ensures var held := Listed(p.parts.value);
      Listed(Added(p, flags, fns).parts.value) == held + NewOnes(held, fns, flags.unique)
  {
    var Parts(past, ahead) := p.parts.value;
    var more := NewOnes(past + ahead, fns, flags.unique);
    assert (past + ahead) + more == past + (ahead + more);
    if ahead == [] { assert past + ahead == past && past + more + [] == past + more; }
  }

  lemma EndedListed(p: Plain, flags: Flags)
    requires p.parts.Some? && Ended(p, flags).parts.Some?
    ensures Listed(Ended(p, flags).parts.value) == if flags.once then [] else Listed(p.parts.value)
  {
    var held := Listed(p.parts.value);
    assert held + [] == held && [] + held == held;
  }

  lemma EnteredListed(past: seq<Callback>, ahead: seq<Callback>)
    requires ahead != []
    ensures (past + [ahead[0]]) + ahead[1..] == past + ahead
  {
  }

  /** Whether an action ends a pass, told without positions. */
  predicate PlainEnds(p: Plain, flags: Flags, a: Action) {
    || (a.StepLoop? && (p.parts.None? || p.parts.value.ahead == []))
    || (a.Comeback? && a.isFalse && flags.stopOnFalse)
  }

  lemma DoListed(p: Plain, flags: Flags, a: Action)
    requires CanDo(p, a) && p.parts.Some? && (p.control.Idle? ==> p.parts.value.ahead == [])
    requires Do(p, flags, a).parts.Some? && !a.EmptyList?
    ensures Listed(Do(p, flags, a).parts.value) ==
      match a
      case AddCallbacks(args) => Listed(p.parts.value) + NewOnes(Listed(p.parts.value), Flatten(args), flags.unique)
      case RemoveCallbacks(fns) => Minus(Listed(p.parts.value), fns)
      case _ => if flags.once && PlainEnds(p, flags, a) then [] else Listed(p.parts.value)
  {
    match a
    case AddCallbacks(args) => AddedListed(p, flags, Flatten(args));
    case RemoveCallbacks(fns) => MinusConcat(p.parts.value.past, p.parts.value.ahead, fns);
    case StepLoop =>
      if p.parts.value.ahead != [] {
        EnteredListed(p.parts.value.past, p.parts.value.ahead);
      } else {
        EndedListed(p, flags);
      }
    case Comeback(isFalse) =>
      if isFalse && flags.stopOnFalse { EndedListed(p.(spent := true, replay := None), flags); }
    case FireList(call) => assert [] + p.parts.value.past == p.parts.value.past + [];
    case _ =>
  }

  lemma StepContents(c: CallbackList, a: Action)
    requires Valid(c) && Lit(c) && Enabled(c, a)
    ensures Valid(Next(c, a))
    ensures Next(c, a).list.Some? && !a.EmptyList? ==> c.list.Some?
    ensures c.list.Some? && Next(c, a).list.Some? ==> Fns(Next(c, a).list.value) == Updated(Fns(c.list.value), c, a)
    ensures a.EmptyList? ==> Next(c, a).list == Some([])
  {
    StepTold(c, a);
    if c.list.Some? && Next(c, a).list.Some? {
      ToldListed(c);
      ToldListed(Next(c, a));
      if a.EmptyList? {
        assert Fns([]) == [];
      } else {
        DoListed(Told(c), c.flags, a);
        assert EndsPass(c, a) <==> PlainEnds(Told(c), c.flags, a);
      }
    }
  }

  /**
   In every run: the functions of the list are those added and not removed since, in order, on a `unique`
   list without repeats; and a list without `once` is given up only when it is disabled or locked.
   */
  lemma {:induction false} ContentsFollowActions(flags: Flags, actions: seq<Action>)
    ensures var c := Run(flags, actions).c;
      && (c.list.Some? ==> Fns(c.list.value) == Contents(flags, actions))
      && (c.list.None? && !flags.once ==>
            exists i :: 0 <= i < |actions| && (actions[i].DisableList? || actions[i].LockList?))
    decreases |actions|
  {
    if actions == [] {
      assert Fns([]) == [];
    } else {
      var before, a := actions[..|actions| - 1], actions[|actions| - 1];
      ContentsFollowActions(flags, before);
      var c := Run(flags, before).c;
      RunIsPlain(flags, before);
      if Enabled(c, a) { StepContents(c, a); }
      if c.list.None? && !flags.once {
        var i :| 0 <= i < |before| && (before[i].DisableList? || before[i].LockList?);
        assert actions[i] == before[i];
      } else if Run(flags, actions).c.list.None? && !flags.once {
        KeptUnlessDisabled(c, a);
        assert actions[|actions| - 1] == a;
      }
    }
  }

  lemma KeptUnlessDisabled(c: CallbackList, a: Action)
    requires Valid(c) && Enabled(c, a) && !c.flags.once && c.list.Some? && Next(c, a).list.None?
    ensures a.DisableList? || a.LockList?
  {
  }

  /** A pass that runs to its end has reached every function then held, those skipped at its start apart. */
  lemma FinishedPassReachedAll(flags: Flags, actions: seq<Action>)
    ensures var m := Run(flags, actions);
      m.c.pass.AtLoop? && m.c.list.Some? && !HasNext(m.c) ==>
        Fns(Surviving(m.h.before + m.h.called, m.c.list.value)) == Contents(flags, actions)
  {
    FinishedPassCalledEverySurvivor(flags, actions);
    ContentsFollowActions(flags, actions);
  }

  // ---------------------------------------------------------------- lists from which nothing is removed

  predicate OnlyGrows(actions: seq<Action>) {
    forall i :: 0 <= i < |actions| ==> !actions[i].RemoveCallbacks? && !actions[i].EmptyList?
  }

  /** What the pass has skipped or called is exactly the list up to the cursor. */
  predicate CalledInOrder(m: Machine)
    requires Valid(m.c)
  {
    m.c.firing && m.c.list.Some? ==> m.h.before + m.h.called == m.c.list.value[..Entered(m.c)]
  }

  lemma StepCallsInOrder(m: Machine, a: Action)
    requires Valid(m.c) && CalledInOrder(m) && !a.RemoveCallbacks? && !a.EmptyList?
    ensures CalledInOrder(Step(m, a))
  {
    var m' := Step(m, a);
    if Enabled(m.c, a) && m'.c.firing && m'.c.list.Some? {
      if a.AddCallbacks? {
        PushAppends(m.c.list.value, m.c.nextTag, Flatten(a.args), m.c.flags.unique);
        assert m'.c.list.value[..|m.c.list.value|] == m.c.list.value;
        assert m.c.list.value + [] == m.c.list.value;
      } else if a.StepLoop? && HasNext(m.c) {
        var L, n := m.c.list.value, m.c.firingIndex;
        assert m.h.before + (m.h.called + [L[n]]) == (m.h.before + m.h.called) + [L[n]] == L[..n + 1];
      }
    }
  }

  lemma {:induction false} RunCallsInOrder(flags: Flags, actions: seq<Action>)
    requires OnlyGrows(actions)
    ensures CalledInOrder(Run(flags, actions))
    decreases |actions|
  {
    if actions == [] {
    } else {
      RunCallsInOrder(flags, actions[..|actions| - 1]);
      StepCallsInOrder(Run(flags, actions[..|actions| - 1]), actions[|actions| - 1]);
    }
  }

  // ---------------------------------------------------------------- what a late callback receives

  predicate NeverDisabled(actions: seq<Action>) {
    forall i :: 0 <= i < |actions| ==> !actions[i].DisableList?
  }

  /** The last call begun is remembered, and the list with it. */
  predicate Remembers(m: Machine) {
    if m.h.started == [] then m.c.memory == Unset
    else m.c.list.Some? && m.c.memory == Remembered(m.h.started[|m.h.started| - 1])
  }

  lemma StepRemembers(m: Machine, a: Action)
    requires Valid(m.c) && Remembers(m) && m.c.flags.memory && !m.c.flags.stopOnFalse && !a.DisableList?
    requires m.c.firing ==> m.h.started != []
    ensures Remembers(Step(m, a))
    ensures Step(m, a).c.firing ==> Step(m, a).h.started != []
  {
  }

  lemma {:induction false} RunRemembers(flags: Flags, actions: seq<Action>)
    requires flags.memory && !flags.stopOnFalse && NeverDisabled(actions)
    ensures Remembers(Run(flags, actions))
    ensures Run(flags, actions).c.firing ==> Run(flags, actions).h.started != []
    decreases |actions|
  {
    if actions == [] {
    } else {
      RunRemembers(flags, actions[..|actions| - 1]);
      StepRemembers(Run(flags, actions[..|actions| - 1]), actions[|actions| - 1]);
    }
  }

  /**
   A list with `memory`, locked or not: once a call has begun, callbacks added while nothing runs are called
   with the last call begun, they alone and at once; before the first call they wait.  Callbacks added
   during a pass are called by that pass.
   */
  lemma AddReplays(flags: Flags, actions: seq<Action>, args: seq<Arg>)
    requires flags.memory && !flags.stopOnFalse && NeverDisabled(actions)
    ensures var m := Run(flags, actions);
      var p := PlainRun(flags, actions + [AddCallbacks(args)]);
      var more := NewOnes(Contents(flags, actions), Flatten(args), flags.unique);
      && p == Told(Run(flags, actions + [AddCallbacks(args)]).c)
      && (m.c.pass.NoPass? && m.h.started != [] ==>
            && p.control == Between(m.h.started[|m.h.started| - 1])
            && p.parts == Some(Parts(Contents(flags, actions), more)))
      && (m.c.pass.NoPass? && m.h.started == [] ==> p.control == Idle)
      && (m.c.pass.Running? ==>
            && p.parts.Some? && m.h.started != []
            && p.control == Inside(m.h.started[|m.h.started| - 1], m.c.pass.entry.fn)
            && PlainRun(flags, actions).parts.Some?
            && p.parts.value.ahead == PlainRun(flags, actions).parts.value.ahead + more)
  {
    var a := AddCallbacks(args);
    assert (actions + [a])[..|actions + [a]| - 1] == actions;
    var m := Run(flags, actions);
    RunRemembers(flags, actions);
    RunIsPlain(flags, actions);
    RunIsPlain(flags, actions + [a]);
    ContentsFollowActions(flags, actions);
    RunKeepsFires(flags, actions);
    if m.c.list.Some? { ToldListed(m.c); }
  }
}
