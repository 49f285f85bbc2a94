/**
 Every run of one callback list, with arbitrary callbacks.

 A run is any sequence of actions, folded from the fresh list; an action that control cannot take
 at that point is skipped.  `History` records what the theorems speak about.
 */
module CallbackRuns {
  import opened Wrappers
  import opened CallbackLists
  import opened CallbackLemmas

  datatype Action =
    | AddCallbacks(args: seq<Arg>)
    | RemoveCallbacks(fns: seq<Callback>)
    | DisableList
    | LockList
    | EmptyList
    | FireList(call: Call)
    | StepLoop
    | Comeback(isFalse: bool)

  /**
   before: the entries below `firingStart` when the running pass began;
   called: the entries the running pass has entered, in order;
   requested: every fire request made before the list was locked or disabled;
   started: the calls of the passes begun by a request, in the order they began.
   */
  datatype History = History(before: seq<Entry>, called: seq<Entry>, requested: seq<Call>, started: seq<Call>)

  datatype Machine = Machine(c: CallbackList, h: History)

  /** Foreign code has control: either nothing is running here, or one of the callbacks is. */
  predicate ForeignCode(c: CallbackList) {
    !c.pass.AtLoop?
  }

  /** `empty` while a pass runs is excluded: the loop would then index past the new list. */
  predicate Enabled(c: CallbackList, a: Action) {
    match a
    case StepLoop => c.pass.AtLoop?
    case Comeback(_) => c.pass.Running?
    case EmptyList => c.pass.NoPass?
    case _ => ForeignCode(c)
  }

  function Next(c: CallbackList, a: Action): CallbackList
    requires Valid(c) && Enabled(c, a)
  {
    match a
    case AddCallbacks(args) => Add(c, args)
    case RemoveCallbacks(fns) => Remove(c, fns)
    case DisableList => Disable(c)
    case LockList => Lock(c)
    case EmptyList => Empty(c)
    case FireList(call) => FireWith(c, call)
    case StepLoop => Invoke(c)
    case Comeback(isFalse) => Return(c, isFalse)
  }

  /** The action ends the running pass. */
  predicate EndsPass(c: CallbackList, a: Action) {
    || (a.StepLoop? && !HasNext(c))
    || (a.Comeback? && a.isFalse && c.flags.stopOnFalse)
  }

  /** The action ends the running pass and a queued call begins another. */
  predicate StartsQueued(c: CallbackList, a: Action) {
    EndsPass(c, a) && !c.flags.once && c.stack.Some? && c.stack.value != []
  }

  function NextHistory(c: CallbackList, h: History, a: Action): History
    requires Valid(c) && Enabled(c, a)
  {
    if a.AddCallbacks? && c.list.Some? && !c.firing && c.memory.Remembered? then
      h.(before := c.list.value, called := [])
    else if a.FireList? && c.stack.Some? then
      var h1 := h.(requested := h.requested + [a.call]);
      if FiresNow(c) then h1.(before := [], called := [], started := h.started + [a.call]) else h1
    else if StartsQueued(c, a) then
      h.(before := [], called := [], started := h.started + [c.stack.value[0]])
    else if a.StepLoop? && HasNext(c) then
      h.(called := h.called + [c.list.value[c.firingIndex]])
    else h
  }

  function Step(m: Machine, a: Action): (m': Machine)
    requires Valid(m.c)
    ensures Valid(m'.c) && m'.c.flags == m.c.flags
  {
    StepKeepsValid(m.c, a);
    if Enabled(m.c, a) then Machine(Next(m.c, a), NextHistory(m.c, m.h, a)) else m
  }

  function Run(flags: Flags, actions: seq<Action>): (m: Machine)
    ensures Valid(m.c) && m.c.flags == flags
  {
    if actions == [] then Machine(Fresh(flags), History([], [], [], []))
    else
      Step(Run(flags, actions[..|actions| - 1]), actions[|actions| - 1])
  }

  // ---------------------------------------------------------------- Valid is kept

  lemma AddKeepsValid(c: CallbackList, args: seq<Arg>)
    requires Valid(c)
    ensures Valid(Add(c, args))
  {
    if c.list.Some? {
      PushAppends(c.list.value, c.nextTag, Flatten(args), c.flags.unique);
    }
  }

  lemma RemoveKeepsValid(c: CallbackList, fns: seq<Callback>)
    requires Valid(c) && ForeignCode(c)
    ensures Valid(Remove(c, fns)) && Remove(c, fns).pass == c.pass
  {
    if c.list.Some? {
      var L := c.list.value;
      RemoveEachSplits(Cursor(L, c.firingLength, c.firingIndex), c.firing, c.flags.unique, fns);
      WithoutAllKeeps(L, fns);
      var L' := WithoutAll(L, fns);
      forall i | 0 <= i < |L'| ensures L'[i].tag < c.nextTag {
        WithoutAllMembers(L, fns, L'[i]);
      }
    }
  }

  /**
   `remove`, outside the loop's own test: what is left is exactly the entries whose function was not
   named, in order; during a pass, those entered and those to come are told apart as before.
   */
  lemma RemoveMeaning(c: CallbackList, fns: seq<Callback>)
    requires Valid(c) && ForeignCode(c)
    ensures var r := Remove(c, fns);
      if c.list.None? then r == c
      else
        && r.list == Some(Kept(c.list.value, fns))
        && r == c.(list := r.list, firingLength := r.firingLength, firingIndex := r.firingIndex)
        && (c.firing ==>
              && 0 <= Entered(c) <= |c.list.value| && 0 <= Entered(r) <= |r.list.value|
              && r.list.value[..Entered(r)] == Kept(c.list.value[..Entered(c)], fns)
              && r.list.value[Entered(r)..] == Kept(c.list.value[Entered(c)..], fns))
  {
    if c.list.Some? {
      var L := c.list.value;
      RemoveEachSplits(Cursor(L, c.firingLength, c.firingIndex), c.firing, c.flags.unique, fns);
      RemoveKeepsValid(c, fns);
      WithoutAllIsKept(L, fns);
      if c.firing {
        WithoutAllIsKept(L[..Entered(c)], fns);
        WithoutAllIsKept(L[Entered(c)..], fns);
      }
    }
  }

  lemma EndPassKeepsValid(c: CallbackList)
    requires c.firing && Valid(c.(firing := false, pass := NoPass, stack := if c.stack.Some? then Some([]) else None))
    requires c.flags.once && c.stack.Some? ==> c.stack.value == []
    ensures Valid(EndPass(c))
  {
  }

  lemma StepKeepsValid(c: CallbackList, a: Action)
    requires Valid(c)
    ensures Enabled(c, a) ==> Valid(Next(c, a)) && Next(c, a).flags == c.flags
  {
    if Enabled(c, a) {
      match a
      case AddCallbacks(args) => AddKeepsValid(c, args);
      case RemoveCallbacks(fns) => RemoveKeepsValid(c, fns);
      case StepLoop => if !HasNext(c) { EndPassKeepsValid(c); }
      case Comeback(isFalse) => if EndsPass(c, a) { EndPassKeepsValid(c); }
      case _ =>
    }
  }

  // ---------------------------------------------------------------- what a pass has done

  /** Everything below the cursor was skipped or called; everything above is newer than all of it. */
  predicate PassInvariant(m: Machine)
    requires Valid(m.c)
  {
    m.c.firing && m.c.list.Some? ==>
      var L, n, seen := m.c.list.value, Entered(m.c), m.h.before + m.h.called;
      && Ordered(seen) && TagsBelow(seen, m.c.nextTag)
      && SeenBelow(L, n, seen)
  }

  predicate SeenBelow(L: seq<Entry>, n: nat, seen: seq<Entry>)
    requires n <= |L|
  {
    && (forall i :: 0 <= i < n ==> L[i] in seen)
    && (forall i, j :: 0 <= i < |seen| && n <= j < |L| ==> seen[i].tag < L[j].tag)
  }

  lemma FilteredSeenBelow(L: seq<Entry>, n: nat, seen: seq<Entry>, L': seq<Entry>, n': nat, fns: seq<Callback>)
    requires n <= |L| && n' <= |L'| && SeenBelow(L, n, seen)
    requires L'[..n'] == WithoutAll(L[..n], fns) && L'[n'..] == WithoutAll(L[n..], fns)
    ensures SeenBelow(L', n', seen)
  {
    forall i | 0 <= i < n' ensures L'[i] in seen {
      assert L'[i] == L'[..n'][i];
      WithoutAllMembers(L[..n], fns, L'[i]);
    }
    forall i, j | 0 <= i < |seen| && n' <= j < |L'| ensures seen[i].tag < L'[j].tag {
      assert L'[j] == L'[n'..][j - n'];
      WithoutAllMembers(L[n..], fns, L'[j]);
      var k :| 0 <= k < |L[n..]| && L[n..][k] == L'[j];
      assert L'[j] == L[n + k];
    }
  }

  lemma ExtendedSeenBelow(L: seq<Entry>, n: nat, seen: seq<Entry>, L': seq<Entry>, tag: nat)
    requires n <= |L| && SeenBelow(L, n, seen) && TagsBelow(seen, tag) && L <= L'
    requires forall i :: |L| <= i < |L'| ==> tag <= L'[i].tag
    ensures SeenBelow(L', n, seen)
  {
    forall i, j | 0 <= i < |seen| && n <= j < |L'| ensures seen[i].tag < L'[j].tag {
      if j < |L| { assert L'[j] == L[j]; }
    }
  }

  lemma AddKeepsPass(m: Machine, args: seq<Arg>)
    requires Valid(m.c) && PassInvariant(m) && Enabled(m.c, AddCallbacks(args))
    ensures PassInvariant(Step(m, AddCallbacks(args)))
  {
    AddKeepsValid(m.c, args);
    if m.c.list.Some? {
      var L := m.c.list.value;
      PushAppends(L, m.c.nextTag, Flatten(args), m.c.flags.unique);
      var L' := Push(L, m.c.nextTag, Flatten(args), m.c.flags.unique).0;
      if m.c.firing {
        ExtendedSeenBelow(L, Entered(m.c), m.h.before + m.h.called, L', m.c.nextTag);
      } else if m.c.memory.Remembered? {
        assert L + [] == L;
        assert SeenBelow(L, |L|, L);
        ExtendedSeenBelow(L, |L|, L, L', m.c.nextTag);
      }
    }
  }

  lemma RemoveKeepsPass(m: Machine, fns: seq<Callback>)
    requires Valid(m.c) && PassInvariant(m) && Enabled(m.c, RemoveCallbacks(fns))
    ensures PassInvariant(Step(m, RemoveCallbacks(fns)))
  {
    RemoveKeepsValid(m.c, fns);
    var m' := Step(m, RemoveCallbacks(fns));
    if m.c.list.Some? && m.c.firing {
      var L, n, seen := m.c.list.value, Entered(m.c), m.h.before + m.h.called;
      var L', n' := m'.c.list.value, Entered(m'.c);
      RemoveEachSplits(Cursor(L, m.c.firingLength, m.c.firingIndex), true, m.c.flags.unique, fns);
      FilteredSeenBelow(L, n, seen, L', n', fns);
    }
  }

  lemma EnterKeepsPass(m: Machine)
    requires Valid(m.c) && PassInvariant(m) && m.c.pass.AtLoop? && HasNext(m.c)
    ensures PassInvariant(Step(m, StepLoop))
  {
    var m' := Step(m, StepLoop);
    var seen, seen' := m.h.before + m.h.called, m'.h.before + m'.h.called;
    assert seen' == seen + [m.c.list.value[m.c.firingIndex]];
  }

  lemma EndKeepsPass(m: Machine, a: Action)
    requires Valid(m.c) && Enabled(m.c, a) && EndsPass(m.c, a)
    ensures PassInvariant(Step(m, a))
  {
  }

  lemma StepKeepsPass(m: Machine, a: Action)
    requires Valid(m.c) && PassInvariant(m)
    ensures PassInvariant(Step(m, a))
  {
    if Enabled(m.c, a) {
      match a
      case AddCallbacks(args) => AddKeepsPass(m, args);
      case RemoveCallbacks(fns) => RemoveKeepsPass(m, fns);
      case StepLoop => if HasNext(m.c) { EnterKeepsPass(m); } else { EndKeepsPass(m, a); }
      case Comeback(isFalse) => if EndsPass(m.c, a) { EndKeepsPass(m, a); }
      case _ =>
    }
  }

  /** The entries of s that are still in the list. */
  function Surviving(s: seq<Entry>, list: seq<Entry>): seq<Entry> {
    if s == [] then []
    else if s[0] in list then [s[0]] + Surviving(s[1..], list)
    else Surviving(s[1..], list)
  }

  lemma {:induction false} SurvivingMembers(s: seq<Entry>, list: seq<Entry>, e: Entry)
    ensures e in Surviving(s, list) <==> e in s && e in list
  {
    if s == [] {
    } else {
      SurvivingMembers(s[1..], list, e);
      assert s == [s[0]] + s[1..];
    }
  }

  lemma {:induction false} SurvivingOrdered(s: seq<Entry>, list: seq<Entry>)
    requires Ordered(s)
    ensures Ordered(Surviving(s, list))
  {
    if s == [] {
    } else {
      SurvivingOrdered(s[1..], list);
      forall e | e in Surviving(s[1..], list) ensures s[0].tag < e.tag {
        SurvivingMembers(s[1..], list, e);
        var j :| 0 <= j < |s[1..]| && s[1..][j] == e;
        assert s[j + 1] == e;
      }
      OrderedCons(s[0], Surviving(s[1..], list));
    }
  }

  lemma SameEmptiness(s: seq<Entry>, t: seq<Entry>)
    requires forall e :: e in s <==> e in t
    ensures s != [] ==> t != []
  {
    if s != [] { assert s[0] in s; }
  }

  /** The head of an ordered sequence is below everything in its tail. */
  lemma HeadBelow(s: seq<Entry>, e: Entry)
    requires Ordered(s) && s != []
    ensures e in s[1..] <==> e in s && e != s[0]
    ensures e in s ==> e == s[0] || s[0].tag < e.tag
  {
    assert s == [s[0]] + s[1..];
    if e in s[1..] {
      var j :| 0 <= j < |s[1..]| && s[1..][j] == e;
      assert s[j + 1] == e;
    }
  }

  lemma {:induction false} OrderedUnique(s: seq<Entry>, t: seq<Entry>)
    requires Ordered(s) && Ordered(t)
    requires forall e :: e in s <==> e in t
    ensures s == t
  {
    SameEmptiness(s, t);
    SameEmptiness(t, s);
    if s == [] {
    } else {
      HeadBelow(s, t[0]);
      HeadBelow(t, s[0]);
      assert s[0] in s && t[0] in t;
      forall e ensures e in s[1..] <==> e in t[1..] {
        HeadBelow(s, e);
        HeadBelow(t, e);
      }
      OrderedUnique(s[1..], t[1..]);
      assert s == [s[0]] + s[1..] && t == [t[0]] + t[1..];
    }
  }

  lemma {:induction false} RunKeepsPass(flags: Flags, actions: seq<Action>)
    ensures PassInvariant(Run(flags, actions))
  {
    if actions == [] {
    } else {
      RunKeepsPass(flags, actions[..|actions| - 1]);
      StepKeepsPass(Run(flags, actions[..|actions| - 1]), actions[|actions| - 1]);
    }
  }

  /**
   At every moment of every run, whatever the callbacks added and removed: the entries the pass has
   skipped at its start or called are distinct and in registration order; those still in the list are
   exactly the part of the list below the cursor; and nothing above the cursor was skipped or called.
   */
  lemma PassNeitherSkipsNorRepeats(flags: Flags, actions: seq<Action>)
    ensures var m := Run(flags, actions);
      m.c.firing && m.c.list.Some? ==>
        var L, n, seen := m.c.list.value, Entered(m.c), m.h.before + m.h.called;
        && m.c.firingLength == |L| && 0 <= n <= |L|
        && Ordered(seen)
        && Surviving(seen, L) == L[..n]
        && (forall e :: e in L[n..] ==> e !in seen)
  {
    RunKeepsPass(flags, actions);
    var m := Run(flags, actions);
    if m.c.firing && m.c.list.Some? {
      var L, n, seen := m.c.list.value, Entered(m.c), m.h.before + m.h.called;
      forall e | e in L[n..] ensures e !in seen {
        var j :| 0 <= j < |L[n..]| && L[n..][j] == e;
        assert e == L[n + j];
      }
      SurvivingOrdered(seen, L);
      forall e ensures e in Surviving(seen, L) <==> e in L[..n] {
        SurvivingMembers(seen, L, e);
        assert L == L[..n] + L[n..];
      }
      OrderedUnique(Surviving(seen, L), L[..n]);
    }
  }

  /** When a pass runs to its end, every entry then in the list was skipped at its start or called once. */
  lemma FinishedPassCalledEverySurvivor(flags: Flags, actions: seq<Action>)
    ensures var m := Run(flags, actions);
      m.c.pass.AtLoop? && m.c.list.Some? && !HasNext(m.c) ==>
        && Ordered(m.h.before + m.h.called)
        && Surviving(m.h.before + m.h.called, m.c.list.value) == m.c.list.value
  {
    PassNeitherSkipsNorRepeats(flags, actions);
    var m := Run(flags, actions);
    if m.c.pass.AtLoop? && m.c.list.Some? && !HasNext(m.c) {
      assert m.c.list.value[..Entered(m.c)] == m.c.list.value;
    }
  }

  // ---------------------------------------------------------------- the order of fires

  predicate FireInvariant(m: Machine)
    requires Valid(m.c)
  {
    && (!m.c.flags.once ==> m.h.started <= m.h.requested)
    && (!m.c.flags.once && m.c.stack.Some? ==> m.h.requested == m.h.started + m.c.stack.value)
    && (m.c.memory.Remembered? ==> m.h.started != [] && m.c.memory.call == m.h.started[|m.h.started| - 1])
    && (m.c.firing ==> m.h.started != [] && m.c.pass.call == m.h.started[|m.h.started| - 1])
  }

  /** The end of a pass, with the next queued call taking over. */
  lemma EndKeepsFires(m: Machine, a: Action)
    requires Valid(m.c) && FireInvariant(m) && Enabled(m.c, a) && EndsPass(m.c, a)
    ensures FireInvariant(Step(m, a))
  {
    if StartsQueued(m.c, a) {
      var stack := m.c.stack.value;
      assert stack == [stack[0]] + stack[1..];
      assert m.h.started + stack == (m.h.started + [stack[0]]) + stack[1..];
    }
  }

  lemma RequestKeepsFires(m: Machine, call: Call)
    requires Valid(m.c) && FireInvariant(m) && ForeignCode(m.c)
    ensures FireInvariant(Step(m, FireList(call)))
  {
    if m.c.stack.Some? {
      assert m.h.started + (m.c.stack.value + [call]) == (m.h.started + m.c.stack.value) + [call];
    }
  }

  lemma StepKeepsFires(m: Machine, a: Action)
    requires Valid(m.c) && FireInvariant(m)
    ensures FireInvariant(Step(m, a))
  {
    if Enabled(m.c, a) {
      if EndsPass(m.c, a) { EndKeepsFires(m, a); } else if a.FireList? { RequestKeepsFires(m, a.call); }
    }
  }

  lemma {:induction false} RunKeepsFires(flags: Flags, actions: seq<Action>)
    ensures FireInvariant(Run(flags, actions))
  {
    if actions == [] {
    } else {
      RunKeepsFires(flags, actions[..|actions| - 1]);
      StepKeepsFires(Run(flags, actions[..|actions| - 1]), actions[|actions| - 1]);
    }
  }

  /**
   On a list without `once` that is neither locked nor disabled, requests are served in the order they
   were made: those begun, then those still queued; once no pass runs, all of them were begun.
   A callback always receives the most recently begun call.
   */
  lemma FiresServedInOrder(flags: Flags, actions: seq<Action>)
    requires !flags.once
    ensures var m := Run(flags, actions);
      && m.h.started <= m.h.requested
      && (m.c.stack.Some? ==> m.h.requested == m.h.started + m.c.stack.value)
      && (m.c.stack.Some? && !m.c.firing ==> m.h.requested == m.h.started)
      && (m.c.firing ==> m.h.started != [] && m.c.pass.call == m.h.started[|m.h.started| - 1])
  {
    RunKeepsFires(flags, actions);
  }

  // ---------------------------------------------------------------- the edges of a pass

  /**
   A callback that returns false on a `stopOnFalse` list ends the pass there: either a queued call takes
   over, or nothing runs and a later `add` replays nothing.
   */
  lemma StoppedPassIsOver(c: CallbackList, args: seq<Arg>)
    requires Valid(c) && c.pass.Running? && c.flags.stopOnFalse
    ensures var c' := Return(c, true);
      if StartsQueued(c, Comeback(true)) then c'.pass == AtLoop(c.stack.value[0]) && c'.firingIndex == 0
      else c'.pass.NoPass? && Add(c', args).pass.NoPass?
  {
  }

  /**
   Why `empty` during a pass is excluded: the loop goes on to index the emptied list exactly when the
   running callback is not the last one.
   */
  lemma EmptyInPassOverruns(c: CallbackList)
    requires Valid(c) && c.pass.Running? && c.list.Some?
    ensures var c' := Return(Empty(c), false);
      HasNext(c') && !(0 <= c'.firingIndex < |c'.list.value|) <==>
        Entered(c) < |c.list.value|
  {
  }

  // ---------------------------------------------------------------- lists that have fallen silent

  /** Nothing runs, nothing can be requested and nothing is remembered. */
  predicate Silent(c: CallbackList) {
    c.stack.None? && !c.memory.Remembered? && c.pass.NoPass?
  }

  /** What silences a list: disabling it, locking it before it fired, and the end of a `once` pass without memory. */
  lemma WhatSilences(c: CallbackList)
    requires Valid(c)
    ensures c.pass.NoPass? ==> Silent(Disable(c))
    ensures c.pass.NoPass? && !c.memory.Remembered? ==> Silent(Lock(c))
    ensures c.firing && c.list.Some? && c.flags.once && c.memory == Fired ==> Silent(EndPass(c))
  {
  }

  lemma StepKeepsSilent(m: Machine, a: Action)
    requires Valid(m.c) && Silent(m.c)
    ensures Silent(Step(m, a).c) && Step(m, a).h == m.h
  {
  }

  /** A silent list stays silent: no continuation of the run, not even `empty` and `add`, calls anything. */
  lemma {:induction false} SilentForEver(flags: Flags, a: seq<Action>, b: seq<Action>)
    requires Silent(Run(flags, a).c)
    ensures Silent(Run(flags, a + b).c) && Run(flags, a + b).h == Run(flags, a).h
    decreases |b|
  {
    if b == [] {
      assert a + b == a;
    } else {
      assert (a + b)[..|a + b| - 1] == a + b[..|b| - 1];
      SilentForEver(flags, a, b[..|b| - 1]);
      StepKeepsSilent(Run(flags, a + b[..|b| - 1]), b[|b| - 1]);
    }
  }

  predicate OnceInvariant(m: Machine) {
    m.c.flags.once ==>
      && |m.h.started| <= 1
      && (m.h.started != [] ==> m.c.memory != Unset || m.c.stack.None?)
  }

  lemma StepKeepsOnce(m: Machine, a: Action)
    requires Valid(m.c) && OnceInvariant(m)
    ensures OnceInvariant(Step(m, a))
  {
  }

  /** A `once` list begins at most one requested pass in any run. */
  lemma {:induction false} OnceFiresOnce(flags: Flags, actions: seq<Action>)
    ensures OnceInvariant(Run(flags, actions))
    ensures flags.once ==> |Run(flags, actions).h.started| <= 1
  {
    if actions == [] {
    } else {
      OnceFiresOnce(flags, actions[..|actions| - 1]);
      StepKeepsOnce(Run(flags, actions[..|actions| - 1]), actions[|actions| - 1]);
    }
  }
}
