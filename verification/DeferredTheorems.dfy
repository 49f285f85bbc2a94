/**
 A Deferred settles at most once, in every run and under every re-entrant use; the winning side's
 callbacks each run exactly once, in registration order, with the winning call; the losing side is silent.
 */
module DeferredTheorems {
  import opened Wrappers
  import opened CallbackLists
  import opened CallbackLemmas
  import opened Deferreds
  import CallbackRuns

  function LogFns(log: seq<Ran>): seq<Callback> {
    seq(|log|, i requires 0 <= i < |log| => log[i].fn)
  }

  /** The functions the running pass has yet to enter. */
  function Ahead(c: CallbackList): seq<Callback>
    requires Valid(c) && c.list.Some?
  {
    if c.firing then Fns(c.list.value[Entered(c)..]) else []
  }

  // ---------------------------------------------------------------- one settling list

  predicate Untouched(c: CallbackList, r: Record) {
    && Valid(c) && c.flags == ONCE_MEMORY
    && c.list.Some? && c.stack == Some([]) && c.memory == Unset && !c.firing
    && Fns(c.list.value) == r.registered && r.log == []
  }

  predicate Dead(c: CallbackList, r: Record) {
    && Valid(c)
    && c.list.None? && c.stack.None? && c.memory == Unset && !c.firing
    && r.log == []
  }

  /** Fired with `call`: what has run plus what is ahead is what was registered. */
  predicate Spent(c: CallbackList, r: Record, call: Call) {
    && Valid(c) && c.flags == ONCE_MEMORY
    && c.list.Some? && c.stack == Some([]) && c.memory == Remembered(call)
    && (forall i :: 0 <= i < |r.log| ==> r.log[i].call == call)
    && LogFns(r.log) + Ahead(c) == r.registered
    && (!c.firing ==> c.list.value == [])
    && (c.firing ==> c.pass.call == call)
    && (c.pass.Running? ==> r.log != [] && r.log[|r.log| - 1].fn == c.pass.entry.fn)
  }

  function Registered(r: Record, args: seq<Arg>): Record {
    r.(registered := r.registered + Flatten(args))
  }

  lemma AddUntouched(c: CallbackList, r: Record, args: seq<Arg>)
    requires Untouched(c, r)
    ensures Untouched(Add(c, args), Registered(r, args))
  {
    CallbackRuns.AddKeepsValid(c, args);
    PushAppends(c.list.value, c.nextTag, Flatten(args), false);
    var list := Push(c.list.value, c.nextTag, Flatten(args), false).0;
    assert Fns(list) == Fns(list[..|c.list.value|]) + Fns(list[|c.list.value|..]);
    assert list[..|c.list.value|] == c.list.value;
  }

  lemma AddDead(c: CallbackList, r: Record, args: seq<Arg>)
    requires Dead(c, r)
    ensures Dead(Add(c, args), Registered(r, args))
  {
  }

  /** Appending to a list appends the new functions to what is ahead from any position. */
  lemma PushAhead(L: seq<Entry>, tag: nat, fns: seq<Callback>, n: nat)
    requires Ordered(L) && TagsBelow(L, tag) && n <= |L|
    ensures var L' := Push(L, tag, fns, false).0; |L'| >= |L| && Fns(L'[n..]) == Fns(L[n..]) + fns
  {
    PushAppends(L, tag, fns, false);
    var L' := Push(L, tag, fns, false).0;
    assert L'[..|L|] == L;
    assert L'[n..] == L[n..] + L'[|L|..];
  }

  lemma SpentRegistered(log: seq<Callback>, ahead: seq<Callback>, more: seq<Callback>, registered: seq<Callback>)
    requires log + ahead == registered
    ensures log + (ahead + more) == registered + more
  {
    assert log + (ahead + more) == (log + ahead) + more;
  }

  /** Adding during a pass, or to an emptied list that remembers a call, adds to what is ahead. */
  lemma AddAhead(c: CallbackList, args: seq<Arg>)
    requires Valid(c) && c.list.Some? && !c.flags.unique
    requires !c.firing ==> c.memory.Remembered? && c.list.value == []
    ensures var c' := Add(c, args); Valid(c') && c'.list.Some? && Ahead(c') == Ahead(c) + Flatten(args)
  {
    CallbackRuns.AddKeepsValid(c, args);
    var n := if c.firing then Entered(c) else 0;
    PushAhead(c.list.value, c.nextTag, Flatten(args), n);
    var L' := Push(c.list.value, c.nextTag, Flatten(args), false).0;
    assert Ahead(Add(c, args)) == Fns(L'[n..]);
    if !c.firing { assert Fns(c.list.value[n..]) == []; }
  }

  lemma AddSpent(c: CallbackList, r: Record, call: Call, args: seq<Arg>)
    requires Spent(c, r, call)
    ensures Spent(Add(c, args), Registered(r, args), call)
    ensures c.firing ==> Add(c, args).pass == c.pass
    ensures !c.firing ==> Add(c, args).pass == AtLoop(call)
  {
    AddAhead(c, args);
    SpentRegistered(LogFns(r.log), Ahead(c), Flatten(args), r.registered);
  }

  lemma FireUntouched(c: CallbackList, r: Record, call: Call)
    requires Untouched(c, r)
    ensures Spent(FireWith(c, call), r, call) && FireWith(c, call).pass == AtLoop(call)
  {
    assert c.list.value[0..] == c.list.value;
    assert LogFns(r.log) == [];
  }

  lemma EnterSpent(c: CallbackList, r: Record, call: Call)
    requires Spent(c, r, call) && c.pass.AtLoop? && HasNext(c)
    ensures Spent(Invoke(c), r.(log := r.log + [Ran(c.list.value[c.firingIndex].fn, call)]), call)
  {
    var L, n := c.list.value, c.firingIndex;
    var log' := r.log + [Ran(L[n].fn, call)];
    assert L[n..] == [L[n]] + L[n + 1..];
    assert Fns(L[n..]) == [L[n].fn] + Fns(L[n + 1..]);
    assert LogFns(log') == LogFns(r.log) + [L[n].fn];
    assert LogFns(log') + Fns(L[n + 1..]) == LogFns(r.log) + Fns(L[n..]);
  }

  lemma EndSpent(c: CallbackList, r: Record, call: Call)
    requires Spent(c, r, call) && c.pass.AtLoop? && !HasNext(c)
    ensures Spent(Invoke(c), r, call)
  {
    assert Ahead(c) == [];
  }

  lemma ReturnSpent(c: CallbackList, r: Record, call: Call, isFalse: bool)
    requires Spent(c, r, call) && c.pass.Running?
    ensures Spent(Return(c, isFalse), r, call) && Return(c, isFalse).pass == AtLoop(call)
  {
  }

  // ---------------------------------------------------------------- the invariant

  predicate ClosuresFirst(side: Side, fns: seq<Callback>) {
    && Closures(side) <= fns
    && (forall i :: |Closures(side)| <= i < |fns| ==> fns[i].User?)
  }

  /** How many callbacks of a side have come back. */
  function CameBack(c: CallbackList, r: Record): int {
    if c.pass.Running? then |r.log| - 1 else |r.log|
  }

  /** A resolve or reject has reached side k, and its first n callbacks are done. */
  predicate Won(d: Deferred, k: Side, call: Call, n: int)
    requires k != Progress
  {
    var o := Opposite(k);
    && Spent(On(d, k), RecordOf(d, k), call)
    && n == CameBack(On(d, k), RecordOf(d, k))
    && d.state == (if n >= 1 then SettledAs(k) else Pending)
    && (if n >= 2 then Dead(On(d, o), RecordOf(d, o)) else Untouched(On(d, o), RecordOf(d, o)))
    && (n >= 3 ==> d.progress.stack.None?)
    && (n < 3 ==> d.stack != [] && d.stack[0] == k)
  }

  /** The progress list holds and runs registered functions only, and those are the user's. */
  predicate Known(c: CallbackList, registered: seq<Callback>) {
    && UserFunctions(registered)
    && (c.list.Some? ==> forall i :: 0 <= i < |c.list.value| ==> c.list.value[i].fn in registered)
    && (c.pass.Running? ==> c.pass.entry.fn in registered)
  }

  predicate Invariant(d: Deferred) {
    && Wf(d)
    && Known(d.progress, d.progressRecord.registered)
    && ClosuresFirst(Done, d.doneRecord.registered)
    && ClosuresFirst(Fail, d.failRecord.registered)
    && match d.settlement
       case None =>
         && d.state == Pending && d.progress.stack.Some?
         && Untouched(d.done, d.doneRecord) && Untouched(d.fail, d.failRecord)
       case Some(s) => s.side != Progress && Won(d, s.side, s.call, CameBack(On(d, s.side), RecordOf(d, s.side)))
  }

  /** A closure of Deferred's own is entered exactly while fewer than three callbacks have come back. */
  lemma EnteredClosure(d: Deferred, k: Side, call: Call)
    requires k != Progress && Invariant(d) && d.settlement == Some(Settlement(k, call)) && On(d, k).pass.Running?
    ensures var n := CameBack(On(d, k), RecordOf(d, k));
      && (n < 3 ==> On(d, k).pass.entry.fn == Closures(k)[n])
      && (n >= 3 ==> On(d, k).pass.entry.fn.User?)
  {
    var c, r := On(d, k), RecordOf(d, k);
    var n := CameBack(c, r);
    assert LogFns(r.log)[n] == c.pass.entry.fn;
    assert r.registered[n] == LogFns(r.log)[n];
  }

  /** User code in control of a settled Deferred only ever sees the final state. */
  lemma UserSeesSettled(d: Deferred)
    requires Invariant(d) && UserControl(d) && d.settlement.Some?
    ensures CameBack(On(d, d.settlement.value.side), RecordOf(d, d.settlement.value.side)) >= 3
  {
    var s := d.settlement.value;
    if CameBack(On(d, s.side), RecordOf(d, s.side)) < 3 {
      EnteredClosure(d, s.side, s.call);
    }
  }

  // ---------------------------------------------------------------- every action keeps it

  lemma ClosuresFirstExtend(side: Side, fns: seq<Callback>, more: seq<Callback>)
    requires ClosuresFirst(side, fns) && UserFunctions(more)
    ensures ClosuresFirst(side, fns + more)
  {
  }

  /** Operations on the progress list leave the settling sides as they are. */
  lemma ProgressFrame(d: Deferred, d': Deferred)
    requires Invariant(d) && Wf(d') && Known(d'.progress, d'.progressRecord.registered)
    requires d'.state == d.state && d'.settlement == d.settlement
    requires d'.done == d.done && d'.doneRecord == d.doneRecord
    requires d'.fail == d.fail && d'.failRecord == d.failRecord
    requires d.progress.stack.None? <==> d'.progress.stack.None?
    requires UserControl(d) || (d.stack != [] && d.stack[0] == Progress)
    ensures Invariant(d')
  {
    if d.settlement.Some? && UserControl(d) {
      UserSeesSettled(d);
    }
  }

  lemma AddKnown(c: CallbackList, registered: seq<Callback>, args: seq<Arg>)
    requires Valid(c) && !c.flags.unique && Known(c, registered) && UserFunctions(Flatten(args))
    ensures Known(Add(c, args), registered + Flatten(args))
  {
    if c.list.Some? {
      var L := c.list.value;
      PushAppends(L, c.nextTag, Flatten(args), false);
      var L' := Push(L, c.nextTag, Flatten(args), false).0;
      forall i | 0 <= i < |L'| ensures L'[i].fn in registered + Flatten(args) {
        if i < |L| {
          assert L'[..|L|][i] == L[i];
        } else {
          assert Fns(L'[|L|..])[i - |L|] == L'[i].fn;
        }
      }
    }
  }

  lemma RegisterUnsettled(d: Deferred, side: Side, args: seq<Arg>)
    requires Invariant(d) && UserFunctions(Flatten(args)) && d.settlement.None? && side != Progress
    ensures Invariant(RegisterOn(d, side, args))
  {
    RegisterKeepsWf(d, side, args);
    ClosuresFirstExtend(side, RecordOf(d, side).registered, Flatten(args));
    AddUntouched(On(d, side), RecordOf(d, side), args);
  }

  lemma RegisterWinner(d: Deferred, k: Side, args: seq<Arg>)
    requires Invariant(d) && UserControl(d) && UserFunctions(Flatten(args))
    requires d.settlement.Some? && k == d.settlement.value.side
    ensures Invariant(RegisterOn(d, k, args))
  {
    RegisterKeepsWf(d, k, args);
    ClosuresFirstExtend(k, RecordOf(d, k).registered, Flatten(args));
    UserSeesSettled(d);
    AddSpent(On(d, k), RecordOf(d, k), d.settlement.value.call, args);
  }

  lemma RegisterLoser(d: Deferred, k: Side, args: seq<Arg>)
    requires Invariant(d) && UserControl(d) && UserFunctions(Flatten(args))
    requires d.settlement.Some? && k != Progress && k == Opposite(d.settlement.value.side)
    ensures Invariant(RegisterOn(d, k, args))
  {
    RegisterKeepsWf(d, k, args);
    ClosuresFirstExtend(k, RecordOf(d, k).registered, Flatten(args));
    UserSeesSettled(d);
    AddDead(On(d, k), RecordOf(d, k), args);
  }

  lemma RegisterKeeps(d: Deferred, side: Side, args: seq<Arg>)
    requires Invariant(d) && UserControl(d) && UserFunctions(Flatten(args))
    ensures Invariant(RegisterOn(d, side, args))
  {
    if side == Progress {
      RegisterKeepsWf(d, side, args);
      AddKnown(d.progress, d.progressRecord.registered, args);
      ProgressFrame(d, RegisterOn(d, side, args));
    } else if d.settlement.None? {
      RegisterUnsettled(d, side, args);
    } else if d.settlement.value.side == side {
      RegisterWinner(d, side, args);
    } else {
      RegisterLoser(d, side, args);
    }
  }

  lemma FireSettled(d: Deferred, side: Side, call: Call)
    requires Invariant(d) && UserControl(d) && d.settlement.Some?
    ensures FireOn(d, side, call) == d
  {
    UserSeesSettled(d);
  }

  lemma FireUnsettled(d: Deferred, side: Side, call: Call)
    requires Invariant(d) && UserControl(d) && d.settlement.None? && side != Progress
    ensures Invariant(FireOn(d, side, call))
  {
    FireKeepsWf(d, side, call);
    FireUntouched(On(d, side), RecordOf(d, side), call);
  }

  lemma FireKeeps(d: Deferred, side: Side, call: Call)
    requires Invariant(d) && UserControl(d)
    ensures Invariant(FireOn(d, side, call))
    ensures d.settlement.Some? ==> FireOn(d, side, call) == d
  {
    if d.settlement.Some? {
      FireSettled(d, side, call);
    } else if side == Progress {
      FireKeepsWf(d, side, call);
      ProgressFrame(d, FireOn(d, side, call));
    } else {
      FireUnsettled(d, side, call);
    }
  }

  /** The innermost pass, when not on the progress list, is the winner's. */
  lemma InnermostWins(d: Deferred)
    requires Invariant(d) && d.stack != [] && d.stack[0] != Progress
    ensures d.settlement.Some? && d.settlement.value.side == d.stack[0]
  {
    assert d.stack[0] in d.stack;
  }

  lemma TestLoopKeeps(d: Deferred)
    requires Invariant(d) && d.stack != [] && On(d, d.stack[0]).pass.AtLoop?
    ensures Invariant(TestLoop(d))
  {
    TestLoopKeepsWf(d);
    if d.stack[0] == Progress {
      ProgressFrame(d, TestLoop(d));
    } else {
      InnermostWins(d);
      if HasNext(On(d, d.stack[0])) { EnterKeeps(d); } else { EndKeeps(d); }
    }
  }

  lemma EnterKeeps(d: Deferred)
    requires Invariant(d) && d.stack != [] && On(d, d.stack[0]).pass.AtLoop? && Wf(TestLoop(d))
    requires d.settlement.Some? && d.settlement.value.side == d.stack[0] && HasNext(On(d, d.stack[0]))
    ensures Invariant(TestLoop(d))
  {
    var k, call := d.stack[0], d.settlement.value.call;
    EnterSpent(On(d, k), RecordOf(d, k), call);
  }

  lemma EndKeeps(d: Deferred)
    requires Invariant(d) && d.stack != [] && On(d, d.stack[0]).pass.AtLoop? && Wf(TestLoop(d))
    requires d.settlement.Some? && d.settlement.value.side == d.stack[0] && !HasNext(On(d, d.stack[0]))
    ensures Invariant(TestLoop(d))
  {
    var k, call := d.stack[0], d.settlement.value.call;
    EndSpent(On(d, k), RecordOf(d, k), call);
    EndedLate(d);
  }

  /** The first pass of the winner does not end before the three closures have run. */
  lemma EndedLate(d: Deferred)
    requires Invariant(d) && d.stack != [] && d.stack[0] != Progress
    requires On(d, d.stack[0]).pass.AtLoop? && !HasNext(On(d, d.stack[0]))
    ensures CameBack(On(d, d.stack[0]), RecordOf(d, d.stack[0])) >= 3
  {
    InnermostWins(d);
    var c, r := On(d, d.stack[0]), RecordOf(d, d.stack[0]);
    assert Ahead(c) == [];
    assert |r.registered| == |r.log|;
  }

  /** The winner's list returns from its callback: one more has come back, and control stays where it was. */
  lemma WinnerReturns(d: Deferred, k: Side, call: Call)
    requires Wf(d) && k != Progress && d.stack != [] && d.stack[0] == k && On(d, k).pass.Running?
    requires Spent(On(d, k), RecordOf(d, k), call)
    ensures var d' := ComeBack(d, false);
      && d'.stack == d.stack && d'.progress == d.progress && On(d', Opposite(k)) == On(d, Opposite(k))
      && Spent(On(d', k), RecordOf(d', k), call)
      && CameBack(On(d', k), RecordOf(d', k)) == CameBack(On(d, k), RecordOf(d, k)) + 1
  {
    ReturnSpent(On(d, k), RecordOf(d, k), call, false);
  }

  lemma MarkKeeps(d: Deferred, k: Side, call: Call)
    requires Invariant(d) && k != Progress && d.settlement == Some(Settlement(k, call)) && On(d, k).pass.Running?
    requires d.stack != [] && d.stack[0] == k && CameBack(On(d, k), RecordOf(d, k)) == 0
    ensures Invariant(RunClosure(d))
  {
    RunClosureKeepsWf(d);
    EnteredClosure(d, k, call);
    WinnerReturns(Effect(d, On(d, k).pass.entry.fn), k, call);
  }

  lemma DisableKeeps(d: Deferred, k: Side, call: Call)
    requires Invariant(d) && k != Progress && d.settlement == Some(Settlement(k, call)) && On(d, k).pass.Running?
    requires d.stack != [] && d.stack[0] == k && CameBack(On(d, k), RecordOf(d, k)) == 1
    ensures Invariant(RunClosure(d))
  {
    RunClosureKeepsWf(d);
    EnteredClosure(d, k, call);
    EffectKeepsWf(d, On(d, k).pass.entry.fn);
    WinnerReturns(Effect(d, On(d, k).pass.entry.fn), k, call);
  }

  lemma LockKeeps(d: Deferred, k: Side, call: Call)
    requires Invariant(d) && k != Progress && d.settlement == Some(Settlement(k, call)) && On(d, k).pass.Running?
    requires d.stack != [] && d.stack[0] == k && CameBack(On(d, k), RecordOf(d, k)) == 2
    ensures Invariant(RunClosure(d))
  {
    RunClosureKeepsWf(d);
    EnteredClosure(d, k, call);
    EffectKeepsWf(d, On(d, k).pass.entry.fn);
    WinnerReturns(Effect(d, On(d, k).pass.entry.fn), k, call);
  }

  lemma RunClosureKeeps(d: Deferred)
    requires Invariant(d) && !UserControl(d) && On(d, d.stack[0]).pass.Running?
    ensures Invariant(RunClosure(d))
  {
    InnermostWins(d);
    var k, call := d.stack[0], d.settlement.value.call;
    EnteredClosure(d, k, call);
    var n := CameBack(On(d, k), RecordOf(d, k));
    if n == 0 { MarkKeeps(d, k, call); } else if n == 1 { DisableKeeps(d, k, call); } else { LockKeeps(d, k, call); }
  }

  lemma ComebackKeeps(d: Deferred, isFalse: bool)
    requires Invariant(d) && UserControl(d) && d.stack != []
    ensures Invariant(ComeBack(d, isFalse))
  {
    ComebackKeepsWf(d, isFalse);
    var side := d.stack[0];
    if side != Progress {
      assert side in d.stack;
      var s := d.settlement.value;
      UserSeesSettled(d);
      ReturnSpent(On(d, side), RecordOf(d, side), s.call, isFalse);
    }
  }

  lemma PassKeeps(d: Deferred)
    requires Invariant(d) && !UserControl(d)
    ensures Invariant(Next(d, Step))
  {
    assert d.stack[0] in d.stack;
    if On(d, d.stack[0]).pass.AtLoop? {
      assert Next(d, Step) == TestLoop(d);
      TestLoopKeeps(d);
    } else {
      assert Next(d, Step) == RunClosure(d);
      RunClosureKeeps(d);
    }
  }

  lemma StepKeeps(d: Deferred, a: Action)
    requires Invariant(d)
    ensures Invariant(Apply(d, a))
  {
    if Enabled(d, a) {
      match a
      case Register(side, args) => RegisterKeeps(d, side, args);
      case Fire(side, call) => FireKeeps(d, side, call);
      case Step => PassKeeps(d);
      case Comeback(isFalse) => ComebackKeeps(d, isFalse);
    }
  }

  /** The recorded settlement is the first resolve or reject of the run: nothing replaces it. */
  lemma SettlementStays(d: Deferred, a: Action)
    requires Wf(d)
    ensures d.settlement.Some? ==> Apply(d, a).settlement == d.settlement
    ensures d.settlement.None? && Apply(d, a).settlement.Some? ==>
      Enabled(d, a) && a.Fire? && a.side != Progress
      && Apply(d, a).settlement == Some(Settlement(a.side, a.call))
    ensures d.settlement.None? && Enabled(d, a) && a.Fire? && a.side != Progress ==>
      Apply(d, a).settlement.Some?
  {
  }

  lemma {:induction false} FlattenFunctions(fns: seq<Callback>)
    ensures Flatten(FunctionArgs(fns)) == fns
    decreases |fns|
  {
    if fns == [] {
    } else {
      assert FunctionArgs(fns)[1..] == FunctionArgs(fns[1..]);
      FlattenFunctions(fns[1..]);
    }
  }

  lemma CreateUntouched(side: Side)
    ensures Untouched(Add(Fresh(ONCE_MEMORY), ClosureArgs(side)), Record(Closures(side), []))
  {
    var none := Record([], []);
    assert Fns([]) == [];
    FlattenFunctions(Closures(side));
    assert Registered(none, ClosureArgs(side)) == Record(Closures(side), []);
    AddUntouched(Fresh(ONCE_MEMORY), none, ClosureArgs(side));
  }

  lemma CreateInvariant()
    ensures Invariant(Create())
  {
    CreateIsWf();
    CreateUntouched(Done);
    CreateUntouched(Fail);
  }

  lemma {:induction false} RunKeeps(d: Deferred, actions: seq<Action>)
    requires Invariant(d)
    ensures Invariant(RunFrom(d, actions))
    ensures d.settlement.Some? ==> RunFrom(d, actions).settlement == d.settlement
    decreases |actions|
  {
    if actions == [] {
    } else {
      RunKeeps(d, actions[..|actions| - 1]);
      StepKeeps(RunFrom(d, actions[..|actions| - 1]), actions[|actions| - 1]);
      SettlementStays(RunFrom(d, actions[..|actions| - 1]), actions[|actions| - 1]);
    }
  }

  lemma {:induction false} RunConcat(d: Deferred, a: seq<Action>, b: seq<Action>)
    requires Wf(d)
    ensures RunFrom(d, a + b) == RunFrom(RunFrom(d, a), b)
    decreases |b|
  {
    if b == [] {
      assert a + b == a;
    } else {
      assert (a + b)[..|a + b| - 1] == a + b[..|b| - 1];
      RunConcat(d, a, b[..|b| - 1]);
    }
  }

  // ---------------------------------------------------------------- the theorems

  /** Only the two marking closures write the state. */
  lemma OnlyMarksWriteState(d: Deferred, a: Action)
    requires Wf(d) && Apply(d, a).state != d.state
    ensures a == Step && d.stack != [] && On(d, d.stack[0]).pass.Running?
    ensures On(d, d.stack[0]).pass.entry.fn in {MarkResolved, MarkRejected}
  {
    if a == Step && d.stack != [] { assert d.stack[0] in d.stack; }
  }

  lemma StateStays(d: Deferred, a: Action)
    requires Invariant(d) && d.state != Pending
    ensures Apply(d, a).state == d.state
  {
    if Apply(d, a).state != d.state {
      OnlyMarksWriteState(d, a);
      InnermostWins(d);
      EnteredClosure(d, d.stack[0], d.settlement.value.call);
    }
  }

  lemma {:induction false} StateStaysFrom(d: Deferred, actions: seq<Action>)
    requires Invariant(d) && d.state != Pending
    ensures RunFrom(d, actions).state == d.state
    decreases |actions|
  {
    if actions == [] {
    } else {
      RunKeeps(d, actions[..|actions| - 1]);
      StateStaysFrom(d, actions[..|actions| - 1]);
      StateStays(RunFrom(d, actions[..|actions| - 1]), actions[|actions| - 1]);
    }
  }

  /** Once the state has left "pending", no continuation of the run changes it. */
  lemma SettlesAtMostOnce(a: seq<Action>, b: seq<Action>)
    ensures Run(a).state != Pending ==> Run(a + b).state == Run(a).state
  {
    CreateIsWf();
    CreateInvariant();
    RunConcat(Create(), a, b);
    RunKeeps(Create(), a);
    if Run(a).state != Pending { StateStaysFrom(Run(a), b); }
  }

  /** The first resolve or reject of the run that user code really issued. */
  function FirstRequest(actions: seq<Action>): Option<Settlement>
    decreases |actions|
  {
    if actions == [] then None
    else
      var before, a := actions[..|actions| - 1], actions[|actions| - 1];
      if FirstRequest(before).Some? then FirstRequest(before)
      else if a.Fire? && a.side != Progress && Enabled(Run(before), a) then Some(Settlement(a.side, a.call))
      else None
  }

  lemma {:induction false} FirstRequestSettles(actions: seq<Action>)
    ensures Run(actions).settlement == FirstRequest(actions)
    decreases |actions|
  {
    if actions == [] {
    } else {
      var before := actions[..|actions| - 1];
      FirstRequestSettles(before);
      SettlementStays(Run(before), actions[|actions| - 1]);
    }
  }

  /** Everything the run registered on a side, in order, after Deferred's own closures. */
  function Registrations(actions: seq<Action>, side: Side): seq<Callback>
    decreases |actions|
  {
    if actions == [] then Closures(side)
    else
      var before, a := actions[..|actions| - 1], actions[|actions| - 1];
      if a.Register? && a.side == side && Enabled(Run(before), a)
      then Registrations(before, side) + Flatten(a.args)
      else Registrations(before, side)
  }

  lemma PassRegistersNothing(d: Deferred, side: Side)
    requires Wf(d) && !UserControl(d)
    ensures RecordOf(Next(d, Step), side).registered == RecordOf(d, side).registered
  {
    assert d.stack[0] in d.stack;
  }

  lemma RegisteredGrows(d: Deferred, a: Action, side: Side)
    requires Wf(d) && Enabled(d, a)
    ensures RecordOf(Next(d, a), side).registered
         == if a.Register? && a.side == side then RecordOf(d, side).registered + Flatten(a.args)
            else RecordOf(d, side).registered
  {
    match a
    case Register(s, args) =>
    case Fire(s, call) =>
    case Step => PassRegistersNothing(d, side);
    case Comeback(isFalse) =>
  }

  lemma {:induction false} RegistrationsRecorded(actions: seq<Action>, side: Side)
    ensures RecordOf(Run(actions), side).registered == Registrations(actions, side)
    decreases |actions|
  {
    if actions == [] {
    } else {
      RegistrationsRecorded(actions[..|actions| - 1], side);
      if Enabled(Run(actions[..|actions| - 1]), actions[|actions| - 1]) {
        RegisteredGrows(Run(actions[..|actions| - 1]), actions[|actions| - 1], side);
      }
    }
  }

  lemma RunInvariant(actions: seq<Action>)
    ensures Invariant(Run(actions))
  {
    CreateIsWf();
    CreateInvariant();
    RunKeeps(Create(), actions);
  }

  /** What the invariant says of a settled Deferred. */
  lemma WinnerFacts(d: Deferred, s: Settlement)
    requires Invariant(d) && d.settlement == Some(s)
    ensures s.side != Progress
    ensures var ran, registered := RecordOf(d, s.side).log, RecordOf(d, s.side).registered;
      && RecordOf(d, Opposite(s.side)).log == []
      && (forall i :: 0 <= i < |ran| ==> ran[i].call == s.call)
      && LogFns(ran) <= registered
      && (UserControl(d) ==> d.state == SettledAs(s.side))
      && (d.stack == [] ==> LogFns(ran) == registered)
  {
    if UserControl(d) { UserSeesSettled(d); }
  }

  /**
   In every run, with winner k and its call: no callback of the other side ever runs; those of side k
   run in registration order, each at most once, all with that call; and when control is back with the
   outermost user code every registered one has run, however late it was registered.
   */
  lemma WinnerRunsEachCallbackOnce(actions: seq<Action>)
    ensures var d := Run(actions);
      match FirstRequest(actions)
      case None => d.state == Pending && d.doneRecord.log == [] && d.failRecord.log == []
      case Some(s) =>
        s.side != Progress &&
        var ran := RecordOf(d, s.side).log;
        && RecordOf(d, Opposite(s.side)).log == []
        && (forall i :: 0 <= i < |ran| ==> ran[i].call == s.call)
        && LogFns(ran) <= Registrations(actions, s.side)
        && (UserControl(d) ==> d.state == if s.side == Done then Resolved else Rejected)
        && (d.stack == [] ==> LogFns(ran) == Registrations(actions, s.side))
  {
    RunInvariant(actions);
    FirstRequestSettles(actions);
    var request := FirstRequest(actions);
    if request.Some? {
      RegistrationsRecorded(actions, request.value.side);
      WinnerFacts(Run(actions), request.value);
    }
  }

  lemma RunSnoc(actions: seq<Action>, a: Action)
    ensures Run(actions + [a]) == Apply(Run(actions), a)
  {
    assert (actions + [a])[..|actions + [a]| - 1] == actions;
  }

  /** After settlement, resolve, reject and notify issued by user code change nothing at all. */
  lemma LaterRequestsIgnored(actions: seq<Action>, side: Side, call: Call)
    ensures Run(actions).settlement.Some? && UserControl(Run(actions)) ==>
      Run(actions + [Fire(side, call)]) == Run(actions)
  {
    RunInvariant(actions);
    RunSnoc(actions, Fire(side, call));
    var d := Run(actions);
    if d.settlement.Some? && UserControl(d) { FireSettled(d, side, call); }
  }

  lemma {:induction false} PrefixMultiset(a: seq<Callback>, b: seq<Callback>)
    requires a <= b
    ensures multiset(a) <= multiset(b)
  {
    assert b == a + b[|a|..];
  }

  /**
   A done and a fail callback that the run registered once each: between them they are entered at most
   once.  This is what `when` relies on for its counter.
   */
  lemma CalledNoMoreThanRegistered(actions: seq<Action>, f: Callback, g: Callback)
    requires multiset(Registrations(actions, Done))[f] <= 1
    requires multiset(Registrations(actions, Fail))[g] <= 1
    ensures var d := Run(actions);
      multiset(LogFns(d.doneRecord.log))[f] + multiset(LogFns(d.failRecord.log))[g] <= 1
  {
    WinnerRunsEachCallbackOnce(actions);
    var s := FirstRequest(actions);
    if s.Some? {
      PrefixMultiset(LogFns(RecordOf(Run(actions), s.value.side).log), Registrations(actions, s.value.side));
    }
  }
}
