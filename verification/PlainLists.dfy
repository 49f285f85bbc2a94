/**
 What a callback list does, told without positions: the functions a pass is through with, those it has
 yet to call, the calls that wait, and the call to replay.  Every run of the list with its indexes,
 loop length and splicing shows exactly this.
 */
module PlainLists {
  import opened Wrappers
  import opened CallbackLists
  import opened CallbackLemmas
  import opened CallbackRuns

  datatype Control = Idle | Between(call: Call) | Inside(call: Call, fn: Callback)

  /** The functions listed: those behind the running pass and those ahead of it.  Without a pass none is ahead. */
  datatype Parts = Parts(past: seq<Callback>, ahead: seq<Callback>)

  /**
   parts: None once the list is disabled; queue: None once it is locked; spent: it was fired;
   replay: the call that callbacks added later receive at once.
   */
  datatype Plain = Plain(
    parts: Option<Parts>,
    queue: Option<seq<Call>>,
    spent: bool,
    replay: Option<Call>,
    control: Control)

  /** The functions that are really added: all of them, or on a `unique` list those not held yet. */
  function NewOnes(held: seq<Callback>, fns: seq<Callback>, unique: bool): seq<Callback>
    decreases fns
  {
    if fns == [] then []
    else if unique && fns[0] in held then NewOnes(held, fns[1..], unique)
    else [fns[0]] + NewOnes(held + [fns[0]], fns[1..], unique)
  }

  /** s without the functions named. */
  function Minus(s: seq<Callback>, fns: seq<Callback>): seq<Callback> {
    if s == [] then []
    else (if s[0] in fns then [] else [s[0]]) + Minus(s[1..], fns)
  }

  function Added(p: Plain, flags: Flags, fns: seq<Callback>): Plain {
    if p.parts.None? then p
    else
      var Parts(past, ahead) := p.parts.value;
      var more := NewOnes(past + ahead, fns, flags.unique);
      if !p.control.Idle? then p.(parts := Some(Parts(past, ahead + more)))
      else if p.replay.Some? then p.(parts := Some(Parts(past, more)), control := Between(p.replay.value))
      else p.(parts := Some(Parts(past + more, [])))
  }

  function Removed(p: Plain, fns: seq<Callback>): Plain {
    if p.parts.None? then p
    else p.(parts := Some(Parts(Minus(p.parts.value.past, fns), Minus(p.parts.value.ahead, fns))))
  }

  function Disabled(p: Plain): Plain {
    p.(parts := None, queue := None, spent := false, replay := None)
  }

  function Locked(p: Plain): Plain {
    if p.replay.Some? then p.(queue := None) else Disabled(p)
  }

  /** Nothing runs: all listed functions are behind, or to be called by the next pass. */
  function AtRest(p: Plain): Plain {
    p.(control := Idle,
       parts := if p.parts.None? then None else Some(Parts(p.parts.value.past + p.parts.value.ahead, [])))
  }

  function Started(p: Plain, flags: Flags, call: Call): Plain
    requires p.parts.Some?
  {
    p.(parts := Some(Parts([], p.parts.value.past)),
       spent := true,
       replay := if flags.memory then Some(call) else None,
       control := Between(call))
  }

  function Requested(p: Plain, flags: Flags, call: Call): Plain {
    if p.queue.None? || p.parts.None? || (flags.once && (p.spent || !p.control.Idle?)) then p
    else if p.control.Idle? then Started(p, flags, call)
    else p.(queue := Some(p.queue.value + [call]))
  }

  function Ended(p: Plain, flags: Flags): Plain {
    var q := AtRest(p);
    if p.parts.None? then q
    else if flags.once then if p.replay.None? then Disabled(q) else q.(parts := Some(Parts([], [])))
    else if p.queue.Some? && p.queue.value != [] then
      Started(q.(queue := Some(p.queue.value[1..])), flags, p.queue.value[0])
    else q
  }

  predicate CanDo(p: Plain, a: Action) {
    match a
    case StepLoop => p.control.Between?
    case Comeback(_) => p.control.Inside?
    case EmptyList => p.control.Idle?
    case _ => !p.control.Between?
  }

  function Do(p: Plain, flags: Flags, a: Action): Plain
    requires CanDo(p, a)
  {
    match a
    case AddCallbacks(args) => Added(p, flags, Flatten(args))
    case RemoveCallbacks(fns) => Removed(p, fns)
    case DisableList => Disabled(p)
    case LockList => Locked(p)
    case EmptyList => p.(parts := Some(Parts([], [])))
    case FireList(call) => Requested(p, flags, call)
    case StepLoop =>
      if p.parts.Some? && p.parts.value.ahead != [] then
        var Parts(past, ahead) := p.parts.value;
        p.(parts := Some(Parts(past + [ahead[0]], ahead[1..])), control := Inside(p.control.call, ahead[0]))
      else Ended(p, flags)
    case Comeback(isFalse) =>
      if isFalse && flags.stopOnFalse then Ended(p.(spent := true, replay := None), flags)
      else p.(control := Between(p.control.call))
  }

  /** A run told without positions, from the actions alone; an action that cannot be done is skipped. */
  function PlainRun(flags: Flags, actions: seq<Action>): Plain
    decreases |actions|
  {
    if actions == [] then Plain(Some(Parts([], [])), Some([]), false, None, Idle)
    else
      var p, a := PlainRun(flags, actions[..|actions| - 1]), actions[|actions| - 1];
      if CanDo(p, a) then Do(p, flags, a) else p
  }

  // ---------------------------------------------------------------- the list with positions shows the same

  function Told(c: CallbackList): Plain
    requires Valid(c)
  {
    Plain(if c.list.None? then None
          else if c.firing then Some(Parts(Fns(c.list.value[..Entered(c)]), Fns(c.list.value[Entered(c)..])))
          else Some(Parts(Fns(c.list.value), [])),
          c.stack,
          c.memory != Unset,
          if c.memory.Remembered? then Some(c.memory.call) else None,
          match c.pass
          case NoPass => Idle
          case AtLoop(call) => Between(call)
          case Running(call, entry) => Inside(call, entry.fn))
  }

  /** A list that runs a pass and was not disabled knows that it was fired. */
  predicate Lit(c: CallbackList) {
    c.firing && c.list.Some? ==> c.memory != Unset
  }

  lemma HasIsListed(list: seq<Entry>, f: Callback)
    ensures Has(list, f) <==> f in Fns(list)
  {
    if f in Fns(list) {
      var i :| 0 <= i < |list| && Fns(list)[i] == f;
      assert list[i].fn == f;
    }
    if Has(list, f) {
      var i :| 0 <= i < |list| && list[i].fn == f;
      assert Fns(list)[i] == f;
    }
  }

  lemma {:induction false} PushIsNewOnes(list: seq<Entry>, tag: nat, fns: seq<Callback>, unique: bool)
    ensures Fns(Push(list, tag, fns, unique).0) == Fns(list) + NewOnes(Fns(list), fns, unique)
    decreases fns
  {
    if fns == [] {
    } else {
      HasIsListed(list, fns[0]);
      if unique && Has(list, fns[0]) {
        PushIsNewOnes(list, tag, fns[1..], unique);
      } else {
        var list' := list + [Entry(fns[0], tag)];
        PushIsNewOnes(list', tag + 1, fns[1..], unique);
        assert Fns(list') == Fns(list) + [fns[0]];
      }
    }
  }

  lemma {:induction false} KeptIsMinus(s: seq<Entry>, fns: seq<Callback>)
    ensures Fns(Kept(s, fns)) == Minus(Fns(s), fns)
  {
    if s == [] {
    } else {
      KeptIsMinus(s[1..], fns);
      assert Fns(s)[1..] == Fns(s[1..]);
      var first := if s[0].fn in fns then [] else [s[0]];
      assert Fns(first + Kept(s[1..], fns)) == Fns(first) + Fns(Kept(s[1..], fns));
    }
  }

  lemma FnsSplit(s: seq<Entry>, n: nat)
    requires n <= |s|
    ensures Fns(s) == Fns(s[..n]) + Fns(s[n..])
    ensures n < |s| ==> Fns(s[..n + 1]) == Fns(s[..n]) + [s[n].fn] && Fns(s[n..]) == [s[n].fn] + Fns(s[n + 1..])
  {
  }

  lemma NewTail(L: seq<Entry>, L': seq<Entry>, n: nat, more: seq<Callback>)
    requires n <= |L| && L <= L' && Fns(L') == Fns(L) + more
    ensures Fns(L'[..n]) == Fns(L[..n]) && Fns(L'[n..]) == Fns(L[n..]) + more
  {
    forall i | 0 <= i < |more| ensures L'[|L| + i].fn == more[i] { assert Fns(L')[|L| + i] == more[i]; }
    assert L'[..n] == L[..n];
  }

  lemma Pushed(c: CallbackList, fns: seq<Callback>)
    requires Valid(c) && c.list.Some?
    ensures var L, L' := c.list.value, Push(c.list.value, c.nextTag, fns, c.flags.unique).0;
      L <= L' && Fns(L') == Fns(L) + NewOnes(Fns(L), fns, c.flags.unique)
  {
    PushAppends(c.list.value, c.nextTag, fns, c.flags.unique);
    PushIsNewOnes(c.list.value, c.nextTag, fns, c.flags.unique);
  }

  lemma AddDuring(c: CallbackList, args: seq<Arg>)
    requires Valid(c) && Valid(Add(c, args)) && c.list.Some? && c.firing
    ensures Told(Add(c, args)) == Added(Told(c), c.flags, Flatten(args))
  {
    var L, fns := c.list.value, Flatten(args);
    Pushed(c, fns);
    FnsSplit(L, Entered(c));
    NewTail(L, Push(L, c.nextTag, fns, c.flags.unique).0, Entered(c), NewOnes(Fns(L), fns, c.flags.unique));
  }

  lemma AddAtRest(c: CallbackList, args: seq<Arg>)
    requires Valid(c) && Valid(Add(c, args)) && c.list.Some? && !c.firing
    ensures Told(Add(c, args)) == Added(Told(c), c.flags, Flatten(args))
  {
    var L, fns := c.list.value, Flatten(args);
    Pushed(c, fns);
    assert Fns(L) + [] == Fns(L);
    if c.memory.Remembered? {
      var more := NewOnes(Fns(L), fns, c.flags.unique);
      NewTail(L, Push(L, c.nextTag, fns, c.flags.unique).0, |L|, more);
      assert L[..|L|] == L && Fns(L[|L|..]) == [] && [] + more == more;
    }
  }

  lemma AddTold(c: CallbackList, args: seq<Arg>)
    requires Valid(c)
    ensures Valid(Add(c, args)) && Told(Add(c, args)) == Added(Told(c), c.flags, Flatten(args))
  {
    AddKeepsValid(c, args);
    if c.list.Some? {
      if c.firing { AddDuring(c, args); } else { AddAtRest(c, args); }
    }
  }

  lemma RemoveTold(c: CallbackList, fns: seq<Callback>)
    requires Valid(c) && ForeignCode(c)
    ensures Valid(Remove(c, fns)) && Told(Remove(c, fns)) == Removed(Told(c), fns)
  {
    RemoveKeepsValid(c, fns);
    RemoveMeaning(c, fns);
    if c.list.Some? {
      KeptIsMinus(c.list.value, fns);
      if c.firing {
        KeptIsMinus(c.list.value[..Entered(c)], fns);
        KeptIsMinus(c.list.value[Entered(c)..], fns);
      }
    }
  }

  lemma FireTold(c: CallbackList, call: Call)
    requires Valid(c) && ForeignCode(c)
    ensures Valid(FireWith(c, call)) && Told(FireWith(c, call)) == Requested(Told(c), c.flags, call)
  {
    if c.stack.Some? { FnsSplit(c.list.value, 0); }
  }

  /** The end of a pass, called with the pass still marked as running. */
  lemma EndTold(c: CallbackList)
    requires Valid(c) && c.firing && Lit(c)
    ensures Valid(EndPass(c)) && Told(EndPass(c)) == Ended(Told(c), c.flags)
  {
    EndPassKeepsValid(c);
    if c.list.Some? {
      FnsSplit(c.list.value, Entered(c));
      FnsSplit(c.list.value, 0);
    }
  }

  lemma InvokeTold(c: CallbackList)
    requires Valid(c) && Lit(c) && c.pass.AtLoop?
    ensures Valid(Invoke(c)) && Told(Invoke(c)) == Do(Told(c), c.flags, StepLoop)
  {
    StepKeepsValid(c, StepLoop);
    if c.list.Some? { FnsSplit(c.list.value, c.firingIndex); }
    if !HasNext(c) { EndTold(c); }
  }

  lemma ReturnTold(c: CallbackList, isFalse: bool)
    requires Valid(c) && Lit(c) && c.pass.Running?
    ensures Valid(Return(c, isFalse)) && Told(Return(c, isFalse)) == Do(Told(c), c.flags, Comeback(isFalse))
  {
    StepKeepsValid(c, Comeback(isFalse));
    if isFalse && c.flags.stopOnFalse { EndTold(c.(memory := Fired)); }
  }

  lemma StepTold(c: CallbackList, a: Action)
    requires Valid(c) && Lit(c) && Enabled(c, a)
    ensures Valid(Next(c, a)) && Lit(Next(c, a)) && Told(Next(c, a)) == Do(Told(c), c.flags, a)
  {
    StepKeepsValid(c, a);
    match a
    case AddCallbacks(args) => AddTold(c, args);
    case RemoveCallbacks(fns) => RemoveTold(c, fns); RemoveMeaning(c, fns);
    case FireList(call) => FireTold(c, call);
    case StepLoop => InvokeTold(c);
    case Comeback(isFalse) => ReturnTold(c, isFalse);
    case EmptyList => assert Fns([]) == [];
    case _ =>
  }

  /** In every run, whatever the flags and whatever the callbacks do. */
  lemma {:induction false} RunIsPlain(flags: Flags, actions: seq<Action>)
    ensures Lit(Run(flags, actions).c) && Told(Run(flags, actions).c) == PlainRun(flags, actions)
    decreases |actions|
  {
    if actions == [] {
      assert Fns([]) == [];
    } else {
      var before, a := actions[..|actions| - 1], actions[|actions| - 1];
      RunIsPlain(flags, before);
      var c := Run(flags, before).c;
      assert Enabled(c, a) <==> CanDo(Told(c), a);
      if Enabled(c, a) { StepTold(c, a); }
    }
  }
}
