/**
 `jQuery.when` together with the Deferreds behind its promises.

 Every promised input has an owner, a Deferred with a run of its own; several inputs may share one.
 The argument loop registers three closures per promised input on its owner, and an input event of
 `when` happens exactly when the owner enters one of them.  The guards that Whens puts on its input
 events are proved here to hold always.
 */
module WhenWorld {
  import opened Wrappers
  import opened CallbackLists
  import opened Deferreds
  import DeferredTheorems
  import Whens

  datatype Setup = Setup(inputs: seq<Whens.Input>, owner: seq<nat>, deferreds: nat)

  predicate ValidSetup(s: Setup) {
    && |s.inputs| == |s.owner| >= 2
    && forall i :: 0 <= i < |s.owner| ==> s.owner[i] < s.deferreds
  }

  function Rank(side: Side): nat {
    match side case Done => 0 case Fail => 1 case Progress => 2
  }

  /** The function `when` registers for input i on one side of its owner. */
  function Closure(side: Side, i: nat): Callback {
    User(3 * i + Rank(side))
  }

  /**
   traces: the runs of the owners; phase: how many closures of the input last examined are registered,
   0 when its three registrations are over.
   */
  datatype World = World(when: Whens.When, traces: seq<seq<Deferreds.Action>>, phase: nat)

  datatype Move =
    | LoopTurn
    | LoopAttach
    | LoopClose
    | OwnerActs(j: nat, a: Deferreds.Action)
    | MasterActs(e: Whens.Event)

  function Owner(w: World, j: nat): Deferred
    requires j < |w.traces|
  {
    Run(w.traces[j])
  }

  /** User functions other than the closures of `when`. */
  predicate Foreign(s: Setup, fns: seq<Callback>) {
    forall i :: 0 <= i < |fns| ==> fns[i].User? && fns[i].id >= 3 * |s.inputs|
  }

  predicate Shaped(s: Setup, w: World) {
    && ValidSetup(s) && |w.traces| == s.deferreds
    && Whens.Sized(w.when.books) && w.when.books.inputs == s.inputs
    && w.phase < 3 && (w.phase > 0 ==> w.when.books.next > 0)
  }

  predicate CanMove(s: Setup, w: World, m: Move)
    requires Shaped(s, w)
  {
    match m
    case LoopTurn =>
      && w.phase == 0 && Whens.Enabled(w.when, Whens.Examine)
      && (s.inputs[w.when.books.next].Promised? ==> UserControl(Owner(w, s.owner[w.when.books.next])))
    case LoopAttach => w.phase > 0 && UserControl(Owner(w, s.owner[w.when.books.next - 1]))
    case LoopClose => w.phase == 0 && Whens.Enabled(w.when, Whens.CloseLoop)
    case OwnerActs(j, a) =>
      && UserControl(w.when.master) && j < s.deferreds && Deferreds.Enabled(Owner(w, j), a)
      && (a.Register? ==> Foreign(s, Flatten(a.args)))
    case MasterActs(e) => (e.OnPromise? || e.MasterStep? || e.MasterComeback?) && Whens.Enabled(w.when, e)
  }

  /** The callback an action of a Deferred enters, with its side and call. */
  function Entered(d: Deferred, a: Deferreds.Action): Option<(Side, Ran)>
    requires Wf(d)
  {
    if a == Step && d.stack != [] && On(d, d.stack[0]).pass.AtLoop? && HasNext(On(d, d.stack[0])) then
      var c := On(d, d.stack[0]);
      Some((d.stack[0], Ran(c.list.value[c.firingIndex].fn, c.pass.call)))
    else None
  }

  /** The event of `when` that entering a callback is. */
  function EventOf(s: Setup, ran: Ran): Option<Whens.Event> {
    if ran.fn.User? && ran.fn.id < 3 * |s.inputs| then
      var i := ran.fn.id / 3;
      Some(if ran.fn.id % 3 == 0 then Whens.InputDone(i, ran.call.args)
           else if ran.fn.id % 3 == 1 then Whens.InputFail(i, ran.call)
           else Whens.InputProgress(i, ran.call.args))
    else None
  }

  function OwnerEvent(s: Setup, d: Deferred, a: Deferreds.Action): Option<Whens.Event>
    requires Wf(d)
  {
    var entered := Entered(d, a);
    if entered.Some? then EventOf(s, entered.value.1) else None
  }

  function Attach(s: Setup, w: World, i: nat, side: Side): seq<seq<Deferreds.Action>>
    requires Shaped(s, w) && i < |s.inputs|
  {
    var j := s.owner[i];
    w.traces[j := w.traces[j] + [Register(side, [Fn(Closure(side, i))])]]
  }

  function Turned(s: Setup, w: World): World
    requires Shaped(s, w) && Wf(w.when.master) && CanMove(s, w, LoopTurn)
  {
    var i := w.when.books.next;
    var when' := Whens.Next(w.when, Whens.Examine);
    if s.inputs[i].Promised? then World(when', Attach(s, w, i, Done), 1) else World(when', w.traces, 0)
  }

  function AttachedNext(s: Setup, w: World): World
    requires Shaped(s, w) && CanMove(s, w, LoopAttach)
  {
    var i := w.when.books.next - 1;
    if w.phase == 1 then World(w.when, Attach(s, w, i, Fail), 2) else World(w.when, Attach(s, w, i, Progress), 0)
  }

  function OwnerActed(s: Setup, w: World, j: nat, a: Deferreds.Action): World
    requires Shaped(s, w) && Wf(w.when.master) && CanMove(s, w, OwnerActs(j, a))
  {
    var e := OwnerEvent(s, Owner(w, j), a);
    var when' := if e.Some? && Whens.Enabled(w.when, e.value) then Whens.Next(w.when, e.value) else w.when;
    World(when', w.traces[j := w.traces[j] + [a]], w.phase)
  }

  function After(s: Setup, w: World, m: Move): World
    requires Shaped(s, w) && Wf(w.when.master) && CanMove(s, w, m)
  {
    match m
    case LoopTurn => Turned(s, w)
    case LoopAttach => AttachedNext(s, w)
    case LoopClose => w.(when := Whens.Next(w.when, Whens.CloseLoop))
    case OwnerActs(j, a) => OwnerActed(s, w, j, a)
    case MasterActs(e) => w.(when := Whens.Next(w.when, e))
  }

  // ---------------------------------------------------------------- what binds owners and books

  /** The closure of input i on a side is registered. */
  predicate Attached(next: nat, phase: nat, side: Side, i: nat) {
    i < next && !(i == next - 1 && phase > 0 && Rank(side) >= phase)
  }

  /** On each side of owner j exactly the closures attached so far are registered, once each. */
  predicate Clean(s: Setup, next: nat, phase: nat, j: nat, side: Side, registered: seq<Callback>)
    requires ValidSetup(s)
  {
    forall i: nat, t: Side | i < |s.inputs| ::
      multiset(registered)[Closure(t, i)] ==
        if t == side && s.inputs[i].Promised? && s.owner[i] == j && Attached(next, phase, t, i) then 1 else 0
  }

  /** The outcome noted for input i is what its owner has told the closures. */
  predicate Noted(d: Deferred, i: nat, o: Whens.Outcome) {
    && (o.Fulfilled? <==> Closure(Done, i) in DeferredTheorems.LogFns(d.doneRecord.log))
    && (o.Refused? <==> Closure(Fail, i) in DeferredTheorems.LogFns(d.failRecord.log))
    && (o.Fulfilled? ==>
          && d.settlement.Some? && d.settlement.value.side == Done
          && o.value == Whens.Collect(d.settlement.value.call.args))
    && (o.Refused? ==> d.settlement == Some(Settlement(Fail, o.call)))
  }

  predicate Bound(s: Setup, b: Whens.Books, phase: nat, j: nat, d: Deferred)
    requires ValidSetup(s) && Whens.Sized(b) && b.inputs == s.inputs
  {
    && DeferredTheorems.Invariant(d)
    && (forall side :: Clean(s, b.next, phase, j, side, RecordOf(d, side).registered))
    && (forall i :: 0 <= i < |s.inputs| && s.inputs[i].Promised? && s.owner[i] == j ==> Noted(d, i, b.outcomes[i]))
  }

  /** All owners are bound to the books. */
  predicate OwnersBound(s: Setup, b: Whens.Books, phase: nat, traces: seq<seq<Deferreds.Action>>)
    requires ValidSetup(s) && Whens.Sized(b) && b.inputs == s.inputs && |traces| == s.deferreds
  {
    forall j :: 0 <= j < s.deferreds ==> Bound(s, b, phase, j, Run(traces[j]))
  }

  /** The loop and `when` itself are in order. */
  predicate LoopInOrder(s: Setup, w: World) {
    && Shaped(s, w) && Whens.Invariant(w.when)
    && (w.phase > 0 ==> s.inputs[w.when.books.next - 1].Promised?)
    && (w.when.books.closed ==> w.phase == 0)
  }

  predicate AllBound(s: Setup, w: World)
    requires Shaped(s, w)
  {
    OwnersBound(s, w.when.books, w.phase, w.traces)
  }

  predicate Invariant(s: Setup, w: World) {
    LoopInOrder(s, w) && AllBound(s, w)
  }

  // ---------------------------------------------------------------- one action of an owner

  /** A log grows exactly by the callback entered. */
  lemma LogGrows(d: Deferred, a: Deferreds.Action, side: Side)
    requires Wf(d) && Deferreds.Enabled(d, a)
    ensures var entered := Entered(d, a);
      RecordOf(Next(d, a), side).log ==
        if entered.Some? && entered.value.0 == side then RecordOf(d, side).log + [entered.value.1]
        else RecordOf(d, side).log
  {
    match a
    case Register(t, args) =>
    case Fire(t, call) =>
    case Step => StepLog(d, side);
    case Comeback(isFalse) =>
  }

  lemma StepLog(d: Deferred, side: Side)
    requires Wf(d) && !UserControl(d)
    ensures var entered := Entered(d, Step);
      RecordOf(Next(d, Step), side).log ==
        if entered.Some? && entered.value.0 == side then RecordOf(d, side).log + [entered.value.1]
        else RecordOf(d, side).log
  {
    assert d.stack[0] in d.stack;
  }

  /** A callback entered is a registered one, and on a settling list it was not entered before. */
  lemma EnteredRegistered(d: Deferred, a: Deferreds.Action)
    requires DeferredTheorems.Invariant(d) && Deferreds.Enabled(d, a) && Entered(d, a).Some?
    ensures var (k, ran) := Entered(d, a).value;
      && ran.fn in RecordOf(d, k).registered
      && (k != Progress ==>
           && Next(d, a).settlement == d.settlement == Some(Settlement(k, ran.call))
           && RecordOf(d, Opposite(k)).log == []
           && multiset(DeferredTheorems.LogFns(RecordOf(d, k).log))[ran.fn]
            < multiset(RecordOf(d, k).registered)[ran.fn])
  {
    var (k, ran) := Entered(d, a).value;
    if k != Progress {
      var d' := Next(d, a);
      DeferredTheorems.InnermostWins(d);
      DeferredTheorems.StepKeeps(d, a);
      LogGrows(d, a, k);
      DeferredTheorems.RegisteredGrows(d, a, k);
      DeferredTheorems.WinnerFacts(d', d.settlement.value);
      LogSnoc(RecordOf(d, k).log, ran);
      DeferredTheorems.PrefixMultiset(DeferredTheorems.LogFns(RecordOf(d', k).log), RecordOf(d, k).registered);
      assert RecordOf(d', k).log[|RecordOf(d, k).log|] == ran;
    }
  }

  lemma LogSnoc(log: seq<Ran>, ran: Ran)
    ensures DeferredTheorems.LogFns(log + [ran]) == DeferredTheorems.LogFns(log) + [ran.fn]
    ensures multiset(DeferredTheorems.LogFns(log + [ran]))[ran.fn] == multiset(DeferredTheorems.LogFns(log))[ran.fn] + 1
  {
    assert DeferredTheorems.LogFns(log + [ran]) == DeferredTheorems.LogFns(log) + [ran.fn];
  }

  lemma ClosureParts(id: nat, n: nat)
    requires id < 3 * n
    ensures id / 3 < n
    ensures User(id) == Closure(if id % 3 == 0 then Done else if id % 3 == 1 then Fail else Progress, id / 3)
  {
  }

  function SideOf(id: nat): Side {
    if id % 3 == 0 then Done else if id % 3 == 1 then Fail else Progress
  }

  lemma ClosureInjective(t: Side, i: nat, u: Side, k: nat)
    requires Closure(t, i) == Closure(u, k)
    ensures t == u && i == k
  {
  }

  /** Entering a closure of `when`: the guard of its event holds, by the counts. */
  lemma GuardHolds(s: Setup, b: Whens.Books, phase: nat, j: nat, d: Deferred, a: Deferreds.Action)
    requires ValidSetup(s) && Whens.Sized(b) && b.inputs == s.inputs && Bound(s, b, phase, j, d)
    requires Deferreds.Enabled(d, a) && OwnerEvent(s, d, a).Some?
    ensures var (k, ran) := Entered(d, a).value;
      var i := ran.fn.id / 3;
      && i < |s.inputs| && ran.fn == Closure(k, i) && s.owner[i] == j && Whens.Listening(b, i)
      && (k != Progress ==> b.outcomes[i].Unsettled?)
  {
    var (k, ran) := Entered(d, a).value;
    var id := ran.fn.id;
    ClosureParts(id, |s.inputs|);
    EnteredRegistered(d, a);
    var t := SideOf(id);
    assert ran.fn == Closure(t, id / 3);
    assert multiset(RecordOf(d, k).registered)[Closure(t, id / 3)] >= 1;
    if k != Progress {
      assert multiset(DeferredTheorems.LogFns(RecordOf(d, k).log))[ran.fn] == 0;
    }
  }

  // ---------------------------------------------------------------- the bond is kept

  function BooksAfterOwner(s: Setup, b: Whens.Books, d: Deferred, a: Deferreds.Action): Whens.Books
    requires ValidSetup(s) && Whens.Sized(b) && b.inputs == s.inputs && Wf(d)
  {
    var e := OwnerEvent(s, d, a);
    if e.Some? then Whens.BooksAfter(b, e.value) else b
  }

  lemma ForeignCounts(s: Setup, fns: seq<Callback>, t: Side, i: nat)
    requires Foreign(s, fns) && i < |s.inputs|
    ensures multiset(fns)[Closure(t, i)] == 0
  {
    forall k | 0 <= k < |fns| ensures fns[k] != Closure(t, i) {}
    assert Closure(t, i) !in fns;
  }

  lemma CleanStep(s: Setup, next: nat, phase: nat, j: nat, d: Deferred, a: Deferreds.Action, side: Side)
    requires ValidSetup(s) && Wf(d) && Deferreds.Enabled(d, a)
    requires Clean(s, next, phase, j, side, RecordOf(d, side).registered)
    requires a.Register? ==> Foreign(s, Flatten(a.args))
    ensures Clean(s, next, phase, j, side, RecordOf(Next(d, a), side).registered)
  {
    DeferredTheorems.RegisteredGrows(d, a, side);
    if a.Register? && a.side == side {
      forall i: nat, t: Side | i < |s.inputs|
        ensures multiset(RecordOf(d, side).registered + Flatten(a.args))[Closure(t, i)]
             == multiset(RecordOf(d, side).registered)[Closure(t, i)]
      {
        ForeignCounts(s, Flatten(a.args), t, i);
      }
    }
  }

  /** No callback of input i was entered: what is noted for it stays right. */
  lemma NotedQuiet(d: Deferred, a: Deferreds.Action, i: nat, o: Whens.Outcome)
    requires Wf(d) && Deferreds.Enabled(d, a) && Noted(d, i, o)
    requires Entered(d, a).Some? ==>
      Entered(d, a).value.1.fn != Closure(Done, i) && Entered(d, a).value.1.fn != Closure(Fail, i)
    ensures Noted(Next(d, a), i, o)
  {
    LogGrows(d, a, Done);
    LogGrows(d, a, Fail);
    DeferredTheorems.SettlementStays(d, a);
    var entered := Entered(d, a);
    if entered.Some? {
      var (k, ran) := entered.value;
      LogSnoc(RecordOf(d, k).log, ran);
    }
  }

  /** What an owner's action does to the books: at most one outcome changes. */
  lemma AfterOwner(s: Setup, b: Whens.Books, d: Deferred, a: Deferreds.Action)
    requires ValidSetup(s) && Whens.Sized(b) && b.inputs == s.inputs && Wf(d)
    ensures var b' := BooksAfterOwner(s, b, d, a);
      && Whens.Sized(b') && b'.inputs == b.inputs && b'.next == b.next && b'.closed == b.closed
      && (OwnerEvent(s, d, a).None? ==> b' == b)
      && (OwnerEvent(s, d, a).Some? ==>
            var ran := Entered(d, a).value.1;
            b'.outcomes == OutcomesWith(b.outcomes, SideOf(ran.fn.id), ran.fn.id / 3, ran.call))
  {
  }

  function OutcomesWith(outcomes: seq<Whens.Outcome>, side: Side, i: nat, call: Call): seq<Whens.Outcome> {
    if i >= |outcomes| then outcomes
    else
      match side
      case Done => outcomes[i := Whens.Fulfilled(Whens.Collect(call.args))]
      case Fail => outcomes[i := Whens.Refused(call)]
      case Progress => outcomes
  }

  /** After the done or fail closure of input i was entered, its outcome is noted. */
  lemma NotedEntered(d: Deferred, k: Side, log: seq<Ran>, ran: Ran, i: nat, outcomes: seq<Whens.Outcome>)
    requires k != Progress && i < |outcomes| && ran.fn == Closure(k, i)
    requires RecordOf(d, k).log == log + [ran] && RecordOf(d, Opposite(k)).log == []
    requires d.settlement == Some(Settlement(k, ran.call))
    ensures Noted(d, i, OutcomesWith(outcomes, k, i, ran.call)[i])
  {
    LogSnoc(log, ran);
    assert (DeferredTheorems.LogFns(log) + [ran.fn])[|log|] == ran.fn;
  }

  lemma NotedEvent(d: Deferred, a: Deferreds.Action, i: nat, outcomes: seq<Whens.Outcome>)
    requires DeferredTheorems.Invariant(d) && Deferreds.Enabled(d, a) && Entered(d, a).Some?
    requires i < |outcomes| && Noted(d, i, outcomes[i])
    requires Entered(d, a).value.1.fn == Closure(Entered(d, a).value.0, i)
    ensures var (k, ran) := Entered(d, a).value;
      Noted(Next(d, a), i, OutcomesWith(outcomes, k, i, ran.call)[i])
  {
    var (k, ran) := Entered(d, a).value;
    if k == Progress {
      NotedQuiet(d, a, i, outcomes[i]);
    } else {
      EnteredRegistered(d, a);
      LogGrows(d, a, k);
      LogGrows(d, a, Opposite(k));
      NotedEntered(Next(d, a), k, RecordOf(d, k).log, ran, i, outcomes);
    }
  }

  /** A callback that is no closure of input i. */
  lemma NotedOther(d: Deferred, a: Deferreds.Action, i: nat, o: Whens.Outcome)
    requires Wf(d) && Deferreds.Enabled(d, a) && Noted(d, i, o)
    requires Entered(d, a).Some? ==>
      !Entered(d, a).value.1.fn.User? || Entered(d, a).value.1.fn.id / 3 != i
    ensures Noted(Next(d, a), i, o)
  {
    NotedQuiet(d, a, i, o);
  }

  lemma NotedAfter(s: Setup, b: Whens.Books, phase: nat, j: nat, d: Deferred, a: Deferreds.Action, i: nat)
    requires ValidSetup(s) && Whens.Sized(b) && b.inputs == s.inputs && Bound(s, b, phase, j, d)
    requires Deferreds.Enabled(d, a) && i < |s.inputs| && s.inputs[i].Promised? && s.owner[i] == j
    ensures i < |BooksAfterOwner(s, b, d, a).outcomes| && Noted(Next(d, a), i, BooksAfterOwner(s, b, d, a).outcomes[i])
  {
    AfterOwner(s, b, d, a);
    assert Noted(d, i, b.outcomes[i]);
    if OwnerEvent(s, d, a).Some? {
      GuardHolds(s, b, phase, j, d, a);
      var (k, ran) := Entered(d, a).value;
      ClosureParts(ran.fn.id, |s.inputs|);
      ClosureInjective(k, ran.fn.id / 3, SideOf(ran.fn.id), ran.fn.id / 3);
      if i == ran.fn.id / 3 { NotedEvent(d, a, i, b.outcomes); } else { NotedOther(d, a, i, b.outcomes[i]); }
    } else {
      NotedOther(d, a, i, b.outcomes[i]);
    }
  }

  /** The owner that acted. */
  lemma ActorBound(s: Setup, b: Whens.Books, phase: nat, j: nat, d: Deferred, a: Deferreds.Action)
    requires ValidSetup(s) && Whens.Sized(b) && b.inputs == s.inputs && Bound(s, b, phase, j, d)
    requires Deferreds.Enabled(d, a) && (a.Register? ==> Foreign(s, Flatten(a.args)))
    ensures Whens.Sized(BooksAfterOwner(s, b, d, a)) && BooksAfterOwner(s, b, d, a).inputs == s.inputs
    ensures Bound(s, BooksAfterOwner(s, b, d, a), phase, j, Next(d, a))
  {
    DeferredTheorems.StepKeeps(d, a);
    AfterOwner(s, b, d, a);
    var b', d' := BooksAfterOwner(s, b, d, a), Next(d, a);
    forall side ensures Clean(s, b'.next, phase, j, side, RecordOf(d', side).registered) {
      CleanStep(s, b.next, phase, j, d, a, side);
    }
    forall i | 0 <= i < |s.inputs| && s.inputs[i].Promised? && s.owner[i] == j ensures Noted(d', i, b'.outcomes[i]) {
      NotedAfter(s, b, phase, j, d, a, i);
    }
    BoundFrom(s, b', phase, j, d');
  }

  lemma BoundFrom(s: Setup, b: Whens.Books, phase: nat, j: nat, d: Deferred)
    requires ValidSetup(s) && Whens.Sized(b) && b.inputs == s.inputs && DeferredTheorems.Invariant(d)
    requires forall side :: Clean(s, b.next, phase, j, side, RecordOf(d, side).registered)
    requires forall i :: 0 <= i < |s.inputs| && s.inputs[i].Promised? && s.owner[i] == j ==> Noted(d, i, b.outcomes[i])
    ensures Bound(s, b, phase, j, d)
  {
  }

  lemma OutcomesWithElsewhere(outcomes: seq<Whens.Outcome>, side: Side, m: nat, call: Call, i: nat)
    requires i < |outcomes| && i != m
    ensures |OutcomesWith(outcomes, side, m, call)| == |outcomes|
    ensures OutcomesWith(outcomes, side, m, call)[i] == outcomes[i]
  {
  }

  /** Only inputs of the owner that acted can change their outcome. */
  lemma OutcomesElsewhere(s: Setup, b: Whens.Books, phase: nat, j: nat, d: Deferred, a: Deferreds.Action, i: nat)
    requires ValidSetup(s) && Whens.Sized(b) && b.inputs == s.inputs && Bound(s, b, phase, j, d)
    requires Deferreds.Enabled(d, a) && i < |s.inputs| && s.owner[i] != j
    ensures |BooksAfterOwner(s, b, d, a).outcomes| == |s.inputs|
    ensures BooksAfterOwner(s, b, d, a).outcomes[i] == b.outcomes[i]
  {
    AfterOwner(s, b, d, a);
    if OwnerEvent(s, d, a).Some? {
      GuardHolds(s, b, phase, j, d, a);
      var ran := Entered(d, a).value.1;
      OutcomesWithElsewhere(b.outcomes, SideOf(ran.fn.id), ran.fn.id / 3, ran.call, i);
    }
  }

  /** An owner that did not act. */
  lemma BystanderBound(
    s: Setup, b: Whens.Books, phase: nat, j: nat, d: Deferred, a: Deferreds.Action, k: nat, d2: Deferred)
    requires ValidSetup(s) && Whens.Sized(b) && b.inputs == s.inputs && Bound(s, b, phase, j, d)
    requires Deferreds.Enabled(d, a) && k != j && Bound(s, b, phase, k, d2)
    ensures Whens.Sized(BooksAfterOwner(s, b, d, a)) && BooksAfterOwner(s, b, d, a).inputs == s.inputs
    ensures Bound(s, BooksAfterOwner(s, b, d, a), phase, k, d2)
  {
    AfterOwner(s, b, d, a);
    var b' := BooksAfterOwner(s, b, d, a);
    forall i | 0 <= i < |s.inputs| && s.owner[i] == k ensures b'.outcomes[i] == b.outcomes[i] {
      OutcomesElsewhere(s, b, phase, j, d, a, i);
    }
    SameOutcomes(s, b, b', phase, k, d2);
  }

  /** Books that agree on the loop position and on the outcomes of an owner's inputs. */
  lemma SameOutcomes(s: Setup, b: Whens.Books, b': Whens.Books, phase: nat, k: nat, d: Deferred)
    requires ValidSetup(s) && Whens.Sized(b) && b.inputs == s.inputs && Bound(s, b, phase, k, d)
    requires Whens.Sized(b') && b'.inputs == s.inputs && b'.next == b.next
    requires forall i :: 0 <= i < |s.inputs| && s.owner[i] == k ==> b'.outcomes[i] == b.outcomes[i]
    ensures Bound(s, b', phase, k, d)
  {
  }

  // ---------------------------------------------------------------- moves of the loop

  /** Moving from one loop position to another attaches exactly one more closure. */
  predicate Extends(s: Setup, next: nat, phase: nat, next': nat, phase': nat, side: Side, i: nat)
    requires ValidSetup(s)
  {
    && !Attached(next, phase, side, i)
    && forall k: nat, t: Side | k < |s.inputs| && s.inputs[k].Promised? ::
         Attached(next', phase', t, k) == (Attached(next, phase, t, k) || (t == side && k == i))
  }

  lemma CleanAttach(s: Setup, next: nat, phase: nat, next': nat, phase': nat, side: Side, i: nat,
                    j: nat, u: Side, registered: seq<Callback>)
    requires ValidSetup(s) && Extends(s, next, phase, next', phase', side, i) && Clean(s, next, phase, j, u, registered)
    requires i < |s.inputs| && s.inputs[i].Promised?
    ensures Clean(s, next', phase', j, u,
                  if u == side && s.owner[i] == j then registered + [Closure(side, i)] else registered)
  {
    var f := Closure(side, i);
    var after := if u == side && s.owner[i] == j then registered + [f] else registered;
    forall k: nat, t: Side | k < |s.inputs|
      ensures multiset(after)[Closure(t, k)] ==
        if t == u && s.inputs[k].Promised? && s.owner[k] == j && Attached(next', phase', t, k) then 1 else 0
    {
      if Closure(t, k) == f { ClosureInjective(t, k, side, i); }
    }
  }

  lemma AttachedAction(d: Deferred, side: Side, f: Callback)
    requires Wf(d) && UserControl(d) && f.User?
    ensures Deferreds.Enabled(d, Register(side, [Fn(f)])) && Flatten([Fn(f)]) == [f]
    ensures Entered(d, Register(side, [Fn(f)])).None?
  {
    assert [Fn(f)][1..] == [];
  }

  /** Registering a closure on its owner. */
  lemma AttachBound(s: Setup, b: Whens.Books, phase: nat, b': Whens.Books, phase': nat, side: Side, i: nat, d: Deferred)
    requires ValidSetup(s) && Whens.Sized(b) && b.inputs == s.inputs && i < |s.inputs| && s.inputs[i].Promised?
    requires Whens.Sized(b') && b'.inputs == s.inputs && b'.outcomes == b.outcomes
    requires Extends(s, b.next, phase, b'.next, phase', side, i)
    requires Bound(s, b, phase, s.owner[i], d) && UserControl(d)
    ensures Bound(s, b', phase', s.owner[i], Apply(d, Register(side, [Fn(Closure(side, i))])))
  {
    var a := Register(side, [Fn(Closure(side, i))]);
    AttachedAction(d, side, Closure(side, i));
    DeferredTheorems.StepKeeps(d, a);
    var d' := Next(d, a);
    forall u ensures Clean(s, b'.next, phase', s.owner[i], u, RecordOf(d', u).registered) {
      DeferredTheorems.RegisteredGrows(d, a, u);
      CleanAttach(s, b.next, phase, b'.next, phase', side, i, s.owner[i], u, RecordOf(d, u).registered);
    }
    forall k | 0 <= k < |s.inputs| && s.inputs[k].Promised? && s.owner[k] == s.owner[i]
      ensures Noted(d', k, b'.outcomes[k])
    {
      NotedQuiet(d, a, k, b.outcomes[k]);
    }
    BoundFrom(s, b', phase', s.owner[i], d');
  }

  lemma NotAttachedBound(
    s: Setup, b: Whens.Books, phase: nat, b': Whens.Books, phase': nat, side: Side, i: nat, j: nat, d: Deferred)
    requires ValidSetup(s) && Whens.Sized(b) && b.inputs == s.inputs && i < |s.inputs| && s.inputs[i].Promised?
    requires Whens.Sized(b') && b'.inputs == s.inputs && b'.outcomes == b.outcomes
    requires Extends(s, b.next, phase, b'.next, phase', side, i)
    requires Bound(s, b, phase, j, d) && j != s.owner[i]
    ensures Bound(s, b', phase', j, d)
  {
    forall u ensures Clean(s, b'.next, phase', j, u, RecordOf(d, u).registered) {
      CleanAttach(s, b.next, phase, b'.next, phase', side, i, j, u, RecordOf(d, u).registered);
    }
    BoundFrom(s, b', phase', j, d);
  }

  /** Passing a plain input attaches nothing. */
  lemma CleanPlain(s: Setup, next: nat, j: nat, u: Side, registered: seq<Callback>)
    requires ValidSetup(s) && next < |s.inputs| && s.inputs[next].Plain? && Clean(s, next, 0, j, u, registered)
    ensures Clean(s, next + 1, 0, j, u, registered)
  {
    forall i: nat, t: Side | i < |s.inputs| && s.inputs[i].Promised?
      ensures Attached(next + 1, 0, t, i) == Attached(next, 0, t, i) {}
  }

  lemma PlainBound(s: Setup, b: Whens.Books, b': Whens.Books, j: nat, d: Deferred)
    requires ValidSetup(s) && Whens.Sized(b) && b.inputs == s.inputs && Bound(s, b, 0, j, d)
    requires Whens.Sized(b') && b'.inputs == s.inputs && b'.outcomes == b.outcomes && b'.next == b.next + 1
    requires s.inputs[b.next].Plain?
    ensures Bound(s, b', 0, j, d)
  {
    forall u ensures Clean(s, b'.next, 0, j, u, RecordOf(d, u).registered) {
      CleanPlain(s, b.next, j, u, RecordOf(d, u).registered);
    }
    BoundFrom(s, b', 0, j, d);
  }

  // ---------------------------------------------------------------- the invariant of the world

  lemma OwnersAttach(s: Setup, w: World, side: Side, i: nat, b': Whens.Books, phase': nat)
    requires Invariant(s, w) && i < |s.inputs| && s.inputs[i].Promised?
    requires Whens.Sized(b') && b'.inputs == s.inputs && b'.outcomes == w.when.books.outcomes
    requires Extends(s, w.when.books.next, w.phase, b'.next, phase', side, i)
    requires UserControl(Owner(w, s.owner[i]))
    ensures OwnersBound(s, b', phase', Attach(s, w, i, side))
  {
    forall j | 0 <= j < s.deferreds ensures Bound(s, b', phase', j, Run(Attach(s, w, i, side)[j])) {
      assert Bound(s, w.when.books, w.phase, j, Owner(w, j));
      if j == s.owner[i] {
        DeferredTheorems.RunSnoc(w.traces[j], Register(side, [Fn(Closure(side, i))]));
        AttachBound(s, w.when.books, w.phase, b', phase', side, i, Owner(w, j));
      } else {
        NotAttachedBound(s, w.when.books, w.phase, b', phase', side, i, j, Owner(w, j));
      }
    }
  }

  lemma TurnInOrder(s: Setup, w: World)
    requires LoopInOrder(s, w) && CanMove(s, w, LoopTurn)
    ensures LoopInOrder(s, Turned(s, w))
  {
    Whens.StepKeeps(w.when, Whens.Examine);
  }

  lemma PlainTurnBound(s: Setup, w: World)
    requires Invariant(s, w) && CanMove(s, w, LoopTurn) && s.inputs[w.when.books.next].Plain?
    ensures Shaped(s, Turned(s, w)) && AllBound(s, Turned(s, w))
  {
    var b' := Turned(s, w).when.books;
    forall j | 0 <= j < s.deferreds ensures Bound(s, b', 0, j, Run(w.traces[j])) {
      assert Bound(s, w.when.books, 0, j, Owner(w, j));
      PlainBound(s, w.when.books, b', j, Owner(w, j));
    }
  }

  lemma TurnExtends(s: Setup, i: nat)
    requires ValidSetup(s)
    ensures Extends(s, i, 0, i + 1, 1, Done, i)
    ensures Extends(s, i + 1, 1, i + 1, 2, Fail, i)
    ensures Extends(s, i + 1, 2, i + 1, 0, Progress, i)
  {
  }

  lemma PromisedTurnBound(s: Setup, w: World)
    requires Invariant(s, w) && CanMove(s, w, LoopTurn) && s.inputs[w.when.books.next].Promised?
    ensures Shaped(s, Turned(s, w)) && AllBound(s, Turned(s, w))
  {
    var i := w.when.books.next;
    TurnExtends(s, i);
    OwnersAttach(s, w, Done, i, Turned(s, w).when.books, 1);
  }

  lemma TurnKeeps(s: Setup, w: World)
    requires Invariant(s, w) && CanMove(s, w, LoopTurn)
    ensures Invariant(s, Turned(s, w))
  {
    TurnInOrder(s, w);
    if s.inputs[w.when.books.next].Promised? { PromisedTurnBound(s, w); } else { PlainTurnBound(s, w); }
  }

  lemma AttachFailBound(s: Setup, w: World)
    requires Invariant(s, w) && CanMove(s, w, LoopAttach) && w.phase == 1
    ensures OwnersBound(s, w.when.books, 2, Attach(s, w, w.when.books.next - 1, Fail))
  {
    var i := w.when.books.next - 1;
    TurnExtends(s, i);
    OwnersAttach(s, w, Fail, i, w.when.books, 2);
  }

  lemma AttachProgressBound(s: Setup, w: World)
    requires Invariant(s, w) && CanMove(s, w, LoopAttach) && w.phase == 2
    ensures OwnersBound(s, w.when.books, 0, Attach(s, w, w.when.books.next - 1, Progress))
  {
    var i := w.when.books.next - 1;
    TurnExtends(s, i);
    OwnersAttach(s, w, Progress, i, w.when.books, 0);
  }

  lemma AttachInOrder(s: Setup, w: World)
    requires LoopInOrder(s, w) && CanMove(s, w, LoopAttach)
    ensures LoopInOrder(s, AttachedNext(s, w))
  {
  }

  lemma AttachKeeps(s: Setup, w: World)
    requires Invariant(s, w) && CanMove(s, w, LoopAttach)
    ensures Invariant(s, AttachedNext(s, w))
  {
    AttachInOrder(s, w);
    if w.phase == 1 { AttachFailBound(s, w); } else { AttachProgressBound(s, w); }
  }

  lemma SameOwners(s: Setup, b: Whens.Books, b': Whens.Books, phase: nat, traces: seq<seq<Deferreds.Action>>)
    requires ValidSetup(s) && Whens.Sized(b) && b.inputs == s.inputs && |traces| == s.deferreds
    requires Whens.Sized(b') && b'.inputs == s.inputs && b'.next == b.next && b'.outcomes == b.outcomes
    requires OwnersBound(s, b, phase, traces)
    ensures OwnersBound(s, b', phase, traces)
  {
    forall j | 0 <= j < s.deferreds ensures Bound(s, b', phase, j, Run(traces[j])) {
      SameOutcomes(s, b, b', phase, j, Run(traces[j]));
    }
  }

  predicate NoInputEvent(w: World, e: Whens.Event) {
    e.OnPromise? || e.MasterStep? || e.MasterComeback? || (e.CloseLoop? && w.phase == 0)
  }

  lemma MasterInOrder(s: Setup, w: World, e: Whens.Event)
    requires LoopInOrder(s, w) && Whens.Enabled(w.when, e) && NoInputEvent(w, e)
    ensures LoopInOrder(s, w.(when := Whens.Next(w.when, e)))
  {
    Whens.StepKeeps(w.when, e);
    InOrderFrom(s, w, w.(when := Whens.Next(w.when, e)));
  }

  /** An event that is no input event leaves the bond of every owner as it is. */
  lemma MasterKeeps(s: Setup, w: World, e: Whens.Event)
    requires Invariant(s, w) && Whens.Enabled(w.when, e) && NoInputEvent(w, e)
    ensures Invariant(s, w.(when := Whens.Next(w.when, e)))
  {
    MasterInOrder(s, w, e);
    SameOwners(s, w.when.books, Whens.Next(w.when, e).books, w.phase, w.traces);
  }

  lemma EventOfClosure(s: Setup, k: Side, i: nat, call: Call)
    requires i < |s.inputs|
    ensures EventOf(s, Ran(Closure(k, i), call)) == Some(
      match k
      case Done => Whens.InputDone(i, call.args)
      case Fail => Whens.InputFail(i, call)
      case Progress => Whens.InputProgress(i, call.args))
  {
  }

  /** The guards of the input events never fail: an owner's event can always happen. */
  lemma OwnerEventEnabled(s: Setup, w: World, j: nat, a: Deferreds.Action)
    requires Invariant(s, w) && CanMove(s, w, OwnerActs(j, a))
    ensures var e := OwnerEvent(s, Owner(w, j), a); e.Some? ==> Whens.Enabled(w.when, e.value)
  {
    var d := Owner(w, j);
    assert Bound(s, w.when.books, w.phase, j, d);
    if OwnerEvent(s, d, a).Some? {
      GuardHolds(s, w.when.books, w.phase, j, d, a);
      var (k, ran) := Entered(d, a).value;
      EventOfClosure(s, k, ran.fn.id / 3, ran.call);
    }
  }

  lemma OwnerActsBound(s: Setup, w: World, j: nat, a: Deferreds.Action)
    requires Invariant(s, w) && CanMove(s, w, OwnerActs(j, a))
    ensures Whens.Sized(BooksAfterOwner(s, w.when.books, Owner(w, j), a))
    ensures BooksAfterOwner(s, w.when.books, Owner(w, j), a).inputs == s.inputs
    ensures OwnersBound(s, BooksAfterOwner(s, w.when.books, Owner(w, j), a), w.phase, w.traces[j := w.traces[j] + [a]])
  {
    var d, b := Owner(w, j), w.when.books;
    var traces := w.traces[j := w.traces[j] + [a]];
    assert Bound(s, b, w.phase, j, d);
    ActorBound(s, b, w.phase, j, d, a);
    DeferredTheorems.RunSnoc(w.traces[j], a);
    forall k | 0 <= k < s.deferreds ensures Bound(s, BooksAfterOwner(s, b, d, a), w.phase, k, Run(traces[k])) {
      if k != j {
        assert Bound(s, b, w.phase, k, Owner(w, k));
        BystanderBound(s, b, w.phase, j, d, a, k, Owner(w, k));
      }
    }
  }

  lemma OwnerBooks(s: Setup, w: World, j: nat, a: Deferreds.Action)
    requires Shaped(s, w) && Wf(w.when.master) && CanMove(s, w, OwnerActs(j, a))
    requires OwnerEvent(s, Owner(w, j), a).Some? ==> Whens.Enabled(w.when, OwnerEvent(s, Owner(w, j), a).value)
    ensures OwnerActed(s, w, j, a).when.books == BooksAfterOwner(s, w.when.books, Owner(w, j), a)
  {
  }

  lemma OwnerWhen(s: Setup, w: World, j: nat, a: Deferreds.Action)
    requires LoopInOrder(s, w) && CanMove(s, w, OwnerActs(j, a))
    ensures Whens.Invariant(OwnerActed(s, w, j, a).when)
  {
    var e := OwnerEvent(s, Owner(w, j), a);
    if e.Some? && Whens.Enabled(w.when, e.value) { Whens.StepKeeps(w.when, e.value); }
  }

  lemma InOrderFrom(s: Setup, w: World, w': World)
    requires LoopInOrder(s, w) && Whens.Invariant(w'.when)
    requires w'.phase == w.phase && |w'.traces| == |w.traces|
    requires Whens.Sized(w'.when.books) && w'.when.books.inputs == w.when.books.inputs
    requires w'.when.books.next == w.when.books.next
    requires w'.when.books.closed ==> w.when.books.closed || w.phase == 0
    ensures LoopInOrder(s, w')
  {
  }

  lemma OwnerInOrder(s: Setup, w: World, j: nat, a: Deferreds.Action)
    requires Invariant(s, w) && CanMove(s, w, OwnerActs(j, a))
    ensures LoopInOrder(s, OwnerActed(s, w, j, a))
    ensures OwnerActed(s, w, j, a).when.books == BooksAfterOwner(s, w.when.books, Owner(w, j), a)
  {
    OwnerEventEnabled(s, w, j, a);
    OwnerBooks(s, w, j, a);
    OwnerWhen(s, w, j, a);
    AfterOwner(s, w.when.books, Owner(w, j), a);
    InOrderFrom(s, w, OwnerActed(s, w, j, a));
  }

  lemma OwnerKeeps(s: Setup, w: World, j: nat, a: Deferreds.Action)
    requires Invariant(s, w) && CanMove(s, w, OwnerActs(j, a))
    ensures Invariant(s, OwnerActed(s, w, j, a))
  {
    OwnerInOrder(s, w, j, a);
    OwnerActsBound(s, w, j, a);
  }

  lemma MoveKeeps(s: Setup, w: World, m: Move)
    requires Invariant(s, w) && CanMove(s, w, m)
    ensures Invariant(s, After(s, w, m))
  {
    match m
    case LoopTurn => TurnKeeps(s, w);
    case LoopAttach => AttachKeeps(s, w);
    case LoopClose => MasterKeeps(s, w, Whens.CloseLoop);
    case OwnerActs(j, a) => OwnerKeeps(s, w, j, a);
    case MasterActs(e) => MasterKeeps(s, w, e);
  }

  // ---------------------------------------------------------------- runs

  function Beginning(s: Setup): World
    requires ValidSetup(s)
  {
    World(Whens.Begin(s.inputs), seq(s.deferreds, j => []), 0)
  }

  lemma NothingRegistered(s: Setup, j: nat, side: Side)
    requires ValidSetup(s)
    ensures Clean(s, 0, 0, j, side, Closures(side))
  {
    forall i: nat, t: Side | i < |s.inputs| ensures multiset(Closures(side))[Closure(t, i)] == 0 {
      assert Closure(t, i) !in Closures(side);
    }
  }

  lemma FreshOwner(s: Setup, j: nat)
    requires ValidSetup(s)
    ensures Bound(s, Whens.Open(s.inputs), 0, j, Run([]))
  {
    DeferredTheorems.RunInvariant([]);
    forall side ensures Clean(s, 0, 0, j, side, RecordOf(Run([]), side).registered) {
      NothingRegistered(s, j, side);
    }
    forall i | 0 <= i < |s.inputs| ensures Noted(Run([]), i, Whens.Unsettled) {}
    BoundFrom(s, Whens.Open(s.inputs), 0, j, Run([]));
  }

  lemma BeginningKeeps(s: Setup)
    requires ValidSetup(s)
    ensures Invariant(s, Beginning(s))
  {
    var w := Beginning(s);
    forall j | 0 <= j < s.deferreds ensures Bound(s, w.when.books, 0, j, Run(w.traces[j])) {
      FreshOwner(s, j);
    }
    assert AllBound(s, w);
  }

  function MoveOn(s: Setup, w: World, m: Move): (w': World)
    requires Invariant(s, w)
    ensures Invariant(s, w')
  {
    if CanMove(s, w, m) then MoveKeeps(s, w, m); After(s, w, m) else w
  }

  function Opening(s: Setup): (w: World)
    requires ValidSetup(s)
    ensures Invariant(s, w)
  {
    BeginningKeeps(s);
    Beginning(s)
  }

  /** A run of `when` and of all owners; a move that cannot be made at that point is skipped. */
  function WorldRun(s: Setup, moves: seq<Move>): (w: World)
    requires ValidSetup(s)
    ensures Invariant(s, w)
    decreases |moves|
  {
    if moves == [] then Opening(s)
    else MoveOn(s, WorldRun(s, moves[..|moves| - 1]), moves[|moves| - 1])
  }

  // ---------------------------------------------------------------- the theorem

  /** An owner that is done with its passes has entered the closure of its winning side. */
  lemma QuietOwnerTold(s: Setup, w: World, i: nat)
    requires Invariant(s, w) && i < |s.inputs| && s.inputs[i].Promised? && w.when.books.closed
    requires Owner(w, s.owner[i]).settlement.Some? && Owner(w, s.owner[i]).stack == []
    ensures Owner(w, s.owner[i]).settlement.value.side == Done ==> w.when.books.outcomes[i].Fulfilled?
    ensures Owner(w, s.owner[i]).settlement.value.side == Fail ==> w.when.books.outcomes[i].Refused?
  {
    var d := Owner(w, s.owner[i]);
    var k := d.settlement.value.side;
    assert Bound(s, w.when.books, w.phase, s.owner[i], d);
    DeferredTheorems.WinnerFacts(d, d.settlement.value);
    assert Clean(s, w.when.books.next, w.phase, s.owner[i], k, RecordOf(d, k).registered);
    assert Attached(w.when.books.next, w.phase, k, i);
    assert multiset(RecordOf(d, k).registered)[Closure(k, i)] == 1;
    assert Closure(k, i) in DeferredTheorems.LogFns(RecordOf(d, k).log);
    assert Noted(d, i, w.when.books.outcomes[i]);
  }

  /** Values of a resolved master come from the owners. */
  lemma ResolvedFromOwners(s: Setup, w: World, i: nat)
    requires Invariant(s, w) && i < |s.inputs|
    requires w.when.master.settlement.Some? && w.when.master.settlement.value.side == Done
    ensures w.when.master.settlement.value.call == Call(Master, w.when.books.values)
    ensures s.inputs[i].Plain? ==> w.when.books.values[i] == s.inputs[i].value
    ensures s.inputs[i].Promised? ==>
      var own := Owner(w, s.owner[i]).settlement;
      own.Some? && own.value.side == Done && Whens.CameAs(w.when.books.values[i], own.value.call.args)
  {
    Whens.NoneMissing(w.when.books, 0);
    assert Whens.Complete(w.when.books, i);
    if s.inputs[i].Promised? {
      assert Bound(s, w.when.books, w.phase, s.owner[i], Owner(w, s.owner[i]));
      assert Noted(Owner(w, s.owner[i]), i, w.when.books.outcomes[i]);
    }
  }

  lemma RejectedByOwner(s: Setup, w: World) returns (i: nat)
    requires Invariant(s, w)
    requires w.when.master.settlement.Some? && w.when.master.settlement.value.side == Fail
    ensures i < |s.inputs| && s.inputs[i].Promised?
    ensures Owner(w, s.owner[i]).settlement == w.when.master.settlement
  {
    var b := w.when.books;
    i :| 0 <= i < |b.inputs| && b.outcomes[i] == Whens.Refused(b.firstRefusal.value);
    assert Whens.Listening(b, i);
    assert Bound(s, b, w.phase, s.owner[i], Owner(w, s.owner[i]));
    assert Noted(Owner(w, s.owner[i]), i, b.outcomes[i]);
  }

  predicate OwnerIs(s: Setup, w: World, i: nat, side: Side)
    requires Shaped(s, w) && i < |s.inputs|
  {
    var d := Owner(w, s.owner[i]);
    s.inputs[i].Promised? && d.stack == [] && d.settlement.Some? && d.settlement.value.side == side
  }

  lemma AllResolved(s: Setup, w: World)
    requires Invariant(s, w) && w.when.books.closed
    requires forall i :: 0 <= i < |s.inputs| && s.inputs[i].Promised? ==> OwnerIs(s, w, i, Done)
    ensures w.when.master.settlement.Some? && w.when.master.settlement.value.side == Done
  {
    var b := w.when.books;
    forall i | 0 <= i < |s.inputs| ensures Whens.Complete(b, i) {
      if s.inputs[i].Promised? { assert OwnerIs(s, w, i, Done); QuietOwnerTold(s, w, i); }
    }
    Whens.NoneMissing(b, 0);
    if b.firstRefusal.Some? { Whens.RefusedStaysOpen(b); }
  }

  lemma OneRejected(s: Setup, w: World, i: nat)
    requires Invariant(s, w) && w.when.books.closed && i < |s.inputs| && OwnerIs(s, w, i, Fail)
    ensures w.when.master.settlement.Some? && w.when.master.settlement.value.side == Fail
  {
    QuietOwnerTold(s, w, i);
    assert w.when.books.firstRefusal.Some?;
  }

  /**
   `when`, from the Deferreds behind its promises to its own: in every run, if the master is resolved, so
   is every owner, and slot i holds what input i's owner was resolved with, several arguments as an array,
   none as undefined; if it is rejected, it is with
   the call that rejected some owner; and once the argument loop is over and the owners are quiet, it is
   resolved when all owners are and rejected when one of them is.
   */
  lemma WhenEndToEnd(s: Setup, moves: seq<Move>)
    requires ValidSetup(s)
    ensures var w := WorldRun(s, moves);
      var settled := w.when.master.settlement;
      && (settled.Some? && settled.value.side == Done ==> forall i :: 0 <= i < |s.inputs| ==>
            if s.inputs[i].Plain? then w.when.books.values[i] == s.inputs[i].value
            else
              && Owner(w, s.owner[i]).settlement.Some? && Owner(w, s.owner[i]).settlement.value.side == Done
              && Whens.CameAs(w.when.books.values[i], Owner(w, s.owner[i]).settlement.value.call.args))
      && (settled.Some? && settled.value.side == Fail ==> exists i ::
            0 <= i < |s.inputs| && s.inputs[i].Promised? && Owner(w, s.owner[i]).settlement == settled)
      && (w.when.books.closed
          && (forall i :: 0 <= i < |s.inputs| && s.inputs[i].Promised? ==> OwnerIs(s, w, i, Done)) ==>
            settled == Some(Settlement(Done, Call(Master, w.when.books.values))))
      && (w.when.books.closed && (exists i :: 0 <= i < |s.inputs| && OwnerIs(s, w, i, Fail)) ==>
            settled.Some? && settled.value.side == Fail)
  {
    var w := WorldRun(s, moves);
    var settled := w.when.master.settlement;
    if w.when.books.closed && (forall i :: 0 <= i < |s.inputs| && s.inputs[i].Promised? ==> OwnerIs(s, w, i, Done)) {
      AllResolved(s, w);
      ResolvedFromOwners(s, w, 0);
    }
    if i :| w.when.books.closed && 0 <= i < |s.inputs| && OwnerIs(s, w, i, Fail) { OneRejected(s, w, i); }
    if settled.Some? && settled.value.side == Done {
      forall i | 0 <= i < |s.inputs|
        ensures if s.inputs[i].Plain? then w.when.books.values[i] == s.inputs[i].value
            else
              && Owner(w, s.owner[i]).settlement.Some? && Owner(w, s.owner[i]).settlement.value.side == Done
              && Whens.CameAs(w.when.books.values[i], Owner(w, s.owner[i]).settlement.value.call.args)
      {
        ResolvedFromOwners(s, w, i);
      }
    }
    if settled.Some? && settled.value.side == Fail { var i := RejectedByOwner(s, w); }
  }
}
