/**
 `jQuery.when` on two or more arguments: a counter, an array of values and a master Deferred.

 The inputs settle at moments the environment chooses, between the steps of the argument loop or
 later, and possibly from inside callbacks of the master.  Here the closure of an input that settles
 it is assumed to run at most once; WhenWorld.dfy puts real Deferreds behind the inputs and proves
 that.  Users hold only the promise of the master, so they register but never resolve.
 */
module Whens {
  import opened Wrappers
  import opened CallbackLists
  import opened Deferreds
  import DeferredTheorems

  datatype Input = Plain(value: Value) | Promised

  datatype Outcome = Unsettled | Fulfilled(value: Value) | Refused(call: Call)

  /**
   The variables of `when`: the arguments, the value array, the counter and the loop position, with
   `closed` once the test after the loop is done.  `outcomes` and `firstRefusal` are what the theorems
   speak about.
   */
  datatype Books = Books(
    inputs: seq<Input>,
    values: seq<Value>,
    progressValues: seq<Value>,
    count: int,
    next: nat,
    closed: bool,
    outcomes: seq<Outcome>,
    firstRefusal: Option<Call>)

  /** `trace` is the run of the master so far. */
  datatype When = When(books: Books, master: Deferred, trace: seq<Deferreds.Action>)

  datatype Event =
    | Examine
    | CloseLoop
    | InputDone(i: nat, args: seq<Value>)
    | InputFail(i: nat, call: Call)
    | InputProgress(i: nat, args: seq<Value>)
    | OnPromise(side: Side, functions: seq<Arg>)
    | MasterStep
    | MasterComeback(isFalse: bool)

  function Open(inputs: seq<Input>): Books {
    Books(inputs,
          seq(|inputs|, i requires 0 <= i < |inputs| => if inputs[i].Plain? then inputs[i].value else PromiseRef(i)),
          seq(|inputs|, i => Undefined),
          |inputs|, 0, false,
          seq(|inputs|, i => Unsettled), None)
  }

  function Start(inputs: seq<Input>): When {
    When(Open(inputs), Create(), [])
  }

  /** Several arguments arrive as an array, one or none as itself. */
  function Collect(args: seq<Value>): Value {
    if |args| > 1 then Array(args) else if |args| == 1 then args[0] else Undefined
  }

  /** What a slot must hold for the arguments of a call: the array of several, the only one, or undefined. */
  predicate CameAs(v: Value, args: seq<Value>) {
    && (|args| >= 2 ==> v == Array(args))
    && (|args| == 1 ==> v == args[0])
    && (|args| == 0 ==> v == Undefined)
  }

  predicate Sized(b: Books) {
    && |b.values| == |b.progressValues| == |b.outcomes| == |b.inputs|
    && b.next <= |b.inputs|
  }

  /** The callbacks of `when` are registered on input i. */
  predicate Listening(b: Books, i: nat) {
    i < b.next <= |b.inputs| && b.inputs[i].Promised?
  }

  predicate CanSettle(b: Books, i: nat)
    requires Sized(b)
  {
    Listening(b, i) && b.outcomes[i].Unsettled?
  }

  predicate Enabled(w: When, e: Event)
    requires Sized(w.books)
  {
    match e
    case Examine => UserControl(w.master) && w.books.next < |w.books.inputs|
    case CloseLoop => UserControl(w.master) && w.books.next == |w.books.inputs| && !w.books.closed
    case InputDone(i, _) => UserControl(w.master) && CanSettle(w.books, i)
    case InputFail(i, _) => UserControl(w.master) && CanSettle(w.books, i)
    case InputProgress(i, _) => UserControl(w.master) && Listening(w.books, i)
    case OnPromise(_, functions) => UserControl(w.master) && UserFunctions(Flatten(functions))
    case MasterStep => !UserControl(w.master)
    case MasterComeback(_) => UserControl(w.master) && w.master.stack != []
  }

  // ---------------------------------------------------------------- what an event does

  function Examined(b: Books): Books
    requires Sized(b) && b.next < |b.inputs|
  {
    b.(next := b.next + 1, count := if b.inputs[b.next].Plain? then b.count - 1 else b.count)
  }

  function Stored(b: Books, i: nat, v: Value): Books
    requires Sized(b) && i < |b.inputs|
  {
    b.(values := b.values[i := v], outcomes := b.outcomes[i := Fulfilled(v)], count := b.count - 1)
  }

  function Failed(b: Books, i: nat, call: Call): Books
    requires Sized(b) && i < |b.inputs|
  {
    b.(outcomes := b.outcomes[i := Refused(call)],
       firstRefusal := if b.firstRefusal.None? then Some(call) else b.firstRefusal)
  }

  function Notified(b: Books, i: nat, v: Value): Books
    requires Sized(b) && i < |b.inputs|
  {
    b.(progressValues := b.progressValues[i := v])
  }

  function BooksAfter(b: Books, e: Event): (b': Books)
    requires Sized(b)
    requires e.Examine? ==> b.next < |b.inputs|
    requires e.InputDone? || e.InputFail? || e.InputProgress? ==> e.i < |b.inputs|
    ensures b'.inputs == b.inputs
  {
    match e
    case Examine => Examined(b)
    case CloseLoop => b.(closed := true)
    case InputDone(i, args) => Stored(b, i, Collect(args))
    case InputFail(i, call) => Failed(b, i, call)
    case InputProgress(i, args) => Notified(b, i, Collect(args))
    case _ => b
  }

  /** What the event makes the master do, given the books after it. */
  function MasterAction(b: Books, e: Event): Option<Deferreds.Action> {
    match e
    case Examine => None
    case CloseLoop => if b.count == 0 then Some(Fire(Done, Call(Master, b.values))) else None
    case InputDone(_, _) => if b.count == 0 then Some(Fire(Done, Call(Master, b.values))) else None
    case InputFail(_, call) => Some(Fire(Fail, call))
    case InputProgress(_, _) => Some(Fire(Progress, Call(MasterPromise, b.progressValues)))
    case OnPromise(side, functions) => Some(Register(side, functions))
    case MasterStep => Some(Step)
    case MasterComeback(isFalse) => Some(Comeback(isFalse))
  }

  function Next(w: When, e: Event): (w': When)
    requires Sized(w.books) && Wf(w.master) && Enabled(w, e)
    ensures w'.books == BooksAfter(w.books, e)
  {
    var b := BooksAfter(w.books, e);
    match MasterAction(b, e)
    case None => w.(books := b)
    case Some(a) => When(b, Apply(w.master, a), w.trace + [a])
  }

  // ---------------------------------------------------------------- the counter

  /** Input i has been passed by the loop and has its value. */
  predicate Complete(b: Books, i: nat)
    requires Sized(b)
  {
    i < b.next && (b.inputs[i].Plain? || b.outcomes[i].Fulfilled?)
  }

  /** The number of inputs at or above position i still without a value. */
  function Missing(b: Books, i: nat): nat
    requires Sized(b) && i <= |b.inputs|
    decreases |b.inputs| - i
  {
    if i == |b.inputs| then 0 else (if Complete(b, i) then 0 else 1) + Missing(b, i + 1)
  }

  lemma {:induction false} MissingChange(b: Books, b': Books, j: nat, i: nat)
    requires Sized(b) && Sized(b') && b.inputs == b'.inputs && j < |b.inputs| && i <= |b.inputs|
    requires forall k :: 0 <= k < |b.inputs| && k != j ==> Complete(b, k) == Complete(b', k)
    ensures Missing(b', i) - Missing(b, i) ==
      if j < i || Complete(b, j) == Complete(b', j) then 0 else if Complete(b, j) then 1 else -1
    decreases |b.inputs| - i
  {
    if i < |b.inputs| { MissingChange(b, b', j, i + 1); }
  }

  lemma {:induction false} NoneMissing(b: Books, i: nat)
    requires Sized(b) && i <= |b.inputs|
    ensures Missing(b, i) == 0 <==> forall k :: i <= k < |b.inputs| ==> Complete(b, k)
    decreases |b.inputs| - i
  {
    if i < |b.inputs| { NoneMissing(b, i + 1); }
  }

  lemma {:induction false} AllMissing(b: Books, i: nat)
    requires Sized(b) && i <= |b.inputs| && b.next == 0
    ensures Missing(b, i) == |b.inputs| - i
    decreases |b.inputs| - i
  {
    if i < |b.inputs| { AllMissing(b, i + 1); }
  }

  /** Slot i holds the plain argument, the value input i was resolved with, or still the promise. */
  function SlotValue(b: Books, i: nat): Value
    requires Sized(b) && i < |b.inputs|
  {
    if b.inputs[i].Plain? then b.inputs[i].value
    else if b.outcomes[i].Fulfilled? then b.outcomes[i].value
    else PromiseRef(i)
  }

  predicate Balanced(b: Books) {
    && Sized(b)
    && b.count == Missing(b, 0)
    && (forall i :: 0 <= i < |b.inputs| ==> b.values[i] == SlotValue(b, i))
    && (b.closed ==> b.next == |b.inputs|)
    && (forall i :: 0 <= i < |b.inputs| && !b.outcomes[i].Unsettled? ==> Listening(b, i))
    && (forall i :: 0 <= i < |b.inputs| && b.outcomes[i].Refused? ==> b.firstRefusal.Some?)
    && (b.firstRefusal.Some? ==> exists i :: 0 <= i < |b.inputs| && b.outcomes[i] == Refused(b.firstRefusal.value))
  }

  lemma StoredBalanced(b: Books, i: nat, v: Value)
    requires Balanced(b) && i < |b.inputs| && CanSettle(b, i)
    ensures Balanced(Stored(b, i, v))
  {
    var b' := Stored(b, i, v);
    MissingChange(b, b', i, 0);
    if b.firstRefusal.Some? {
      var j :| 0 <= j < |b.inputs| && b.outcomes[j] == Refused(b.firstRefusal.value);
      assert b'.outcomes[j] == Refused(b'.firstRefusal.value);
    }
  }

  lemma FailedBalanced(b: Books, i: nat, call: Call)
    requires Balanced(b) && i < |b.inputs| && CanSettle(b, i)
    ensures Balanced(Failed(b, i, call))
  {
    var b' := Failed(b, i, call);
    MissingChange(b, b', i, 0);
    if b.firstRefusal.None? {
      assert b'.outcomes[i] == Refused(b'.firstRefusal.value);
    } else {
      var j :| 0 <= j < |b.inputs| && b.outcomes[j] == Refused(b.firstRefusal.value);
      assert b'.outcomes[j] == Refused(b'.firstRefusal.value);
    }
  }

  /** The loop position, the progress values and the closing test leave values and outcomes alone. */
  lemma OthersBalanced(b: Books, e: Event)
    requires Balanced(b) && !e.InputDone? && !e.InputFail?
    requires e.Examine? ==> b.next < |b.inputs|
    requires e.CloseLoop? ==> b.next == |b.inputs|
    requires e.InputProgress? ==> Listening(b, e.i)
    ensures Balanced(BooksAfter(b, e))
  {
    var b' := BooksAfter(b, e);
    if e.Examine? {
      MissingChange(b, b', b.next, 0);
    } else if |b.inputs| > 0 {
      MissingChange(b, b', 0, 0);
    }
  }

  lemma BalancedStep(b: Books, e: Event)
    requires Balanced(b)
    requires e.Examine? ==> b.next < |b.inputs|
    requires e.CloseLoop? ==> b.next == |b.inputs|
    requires e.InputDone? || e.InputFail? ==> CanSettle(b, e.i)
    requires e.InputProgress? ==> Listening(b, e.i)
    ensures Balanced(BooksAfter(b, e))
  {
    match e
    case InputDone(i, args) => StoredBalanced(b, i, Collect(args));
    case InputFail(i, call) => FailedBalanced(b, i, call);
    case _ => OthersBalanced(b, e);
  }

  /** How the books and the master's settlement belong together. */
  predicate Agree(b: Books, settlement: Option<Settlement>)
    requires Sized(b)
  {
    match settlement
    case None => b.firstRefusal.None? && !(b.closed && b.count == 0)
    case Some(s) =>
      if s.side == Done then b.count == 0 && b.firstRefusal.None? && s.call == Call(Master, b.values)
      else b.firstRefusal == Some(s.call)
  }

  /** The settlement after a master action, by DeferredTheorems.SettlementStays. */
  function SettledBy(settlement: Option<Settlement>, a: Option<Deferreds.Action>): Option<Settlement> {
    if settlement.None? && a.Some? && a.value.Fire? && a.value.side != Progress
    then Some(Settlement(a.value.side, a.value.call))
    else settlement
  }

  /** A refused input is never complete, so the counter stays positive. */
  lemma RefusedStaysOpen(b: Books)
    requires Balanced(b) && b.firstRefusal.Some?
    ensures b.count > 0
  {
    var i :| 0 <= i < |b.inputs| && b.outcomes[i] == Refused(b.firstRefusal.value);
    assert !Complete(b, i);
    NoneMissing(b, 0);
  }

  lemma AgreeStep(b: Books, settlement: Option<Settlement>, e: Event)
    requires Balanced(b) && Agree(b, settlement)
    requires e.Examine? ==> b.next < |b.inputs|
    requires e.CloseLoop? ==> b.next == |b.inputs|
    requires e.InputDone? || e.InputFail? ==> CanSettle(b, e.i)
    requires e.InputProgress? ==> Listening(b, e.i)
    ensures var b' := BooksAfter(b, e); Agree(b', SettledBy(settlement, MasterAction(b', e)))
  {
    var b' := BooksAfter(b, e);
    BalancedStep(b, e);
    NoneMissing(b, 0);
    NoneMissing(b', 0);
    if e.InputDone? || e.InputFail? { assert !Complete(b, e.i); }
    if e.Examine? { assert !Complete(b, b.next); }
    if b'.firstRefusal.Some? { RefusedStaysOpen(b'); }
  }

  // ---------------------------------------------------------------- runs

  predicate Invariant(w: When) {
    && Balanced(w.books)
    && w.master == Run(w.trace)
    && DeferredTheorems.Invariant(w.master)
    && Agree(w.books, w.master.settlement)
  }

  lemma MasterSettlement(d: Deferred, a: Deferreds.Action)
    requires Wf(d) && (a.Fire? ==> UserControl(d))
    ensures Apply(d, a).settlement == SettledBy(d.settlement, Some(a))
  {
    DeferredTheorems.SettlementStays(d, a);
  }

  lemma StepKeeps(w: When, e: Event)
    requires Invariant(w) && Enabled(w, e)
    ensures Invariant(Next(w, e))
  {
    var b := BooksAfter(w.books, e);
    BalancedStep(w.books, e);
    AgreeStep(w.books, w.master.settlement, e);
    var action := MasterAction(b, e);
    if action.Some? {
      DeferredTheorems.RunSnoc(w.trace, action.value);
      DeferredTheorems.StepKeeps(w.master, action.value);
      MasterSettlement(w.master, action.value);
    }
  }

  lemma OpenBalanced(inputs: seq<Input>)
    requires |inputs| >= 2
    ensures Balanced(Open(inputs)) && Agree(Open(inputs), None)
  {
    AllMissing(Open(inputs), 0);
  }

  lemma StartKeeps(inputs: seq<Input>)
    requires |inputs| >= 2
    ensures Invariant(Start(inputs))
  {
    CreateIsWf();
    DeferredTheorems.CreateInvariant();
    OpenBalanced(inputs);
  }

  function Advance(w: When, e: Event): (w': When)
    requires Invariant(w)
    ensures Invariant(w') && w'.books.inputs == w.books.inputs
  {
    if Enabled(w, e) then StepKeeps(w, e); Next(w, e) else w
  }

  function Begin(inputs: seq<Input>): (w: When)
    requires |inputs| >= 2
    ensures Invariant(w) && w.books.inputs == inputs
  {
    StartKeeps(inputs);
    Start(inputs)
  }

  /** A run of `when`; an event that cannot happen at that point is skipped. */
  function RunWhen(inputs: seq<Input>, events: seq<Event>): (w: When)
    requires |inputs| >= 2
    ensures Invariant(w) && w.books.inputs == inputs
    decreases |events|
  {
    if events == [] then Begin(inputs)
    else Advance(RunWhen(inputs, events[..|events| - 1]), events[|events| - 1])
  }

  /**
   In every run the master is resolved only when every input has its value, and then with slot i
   holding input i's value; it is rejected exactly with the first refusal; and when the loop is over
   and no input is missing it has been resolved.  Its trace is a run of a Deferred, so its callbacks
   obey DeferredTheorems.WinnerRunsEachCallbackOnce.
   */
  lemma WhenWaitsForAll(inputs: seq<Input>, events: seq<Event>)
    requires |inputs| >= 2
    ensures var w := RunWhen(inputs, events);
      && w.master == Run(w.trace)
      && (forall i :: 0 <= i < |inputs| ==> w.books.values[i] == SlotValue(w.books, i))
      && match w.master.settlement
         case None => w.books.firstRefusal.None? &&
           !(w.books.closed && forall i :: 0 <= i < |inputs| ==> Complete(w.books, i))
         case Some(s) =>
           if s.side == Done then
             && s.call == Call(Master, w.books.values)
             && forall i :: 0 <= i < |inputs| ==> Complete(w.books, i)
           else w.books.firstRefusal == Some(s.call)
  {
    NoneMissing(RunWhen(inputs, events).books, 0);
  }
}
