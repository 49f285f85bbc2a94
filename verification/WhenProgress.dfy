/**
 What users of a promise of `when` get to see: the notifications of the inputs, forwarded one by one with
 the latest value of each, and their own callbacks, called by the master.
 */
module WhenProgress {
  import opened Wrappers
  import opened CallbackLists
  import opened Deferreds
  import DeferredLists
  import DeferredTheorems
  import Whens
  import W = WhenWorld

  // ---------------------------------------------------------------- by the events

  /** The arguments of the last notification of input i that happened. */
  function LastNote(inputs: seq<Whens.Input>, events: seq<Whens.Event>, i: nat): Option<seq<Value>>
    requires |inputs| >= 2
    decreases |events|
  {
    if events == [] then None
    else
      var before, e := events[..|events| - 1], events[|events| - 1];
      if Whens.Enabled(Whens.RunWhen(inputs, before), e) && e.InputProgress? && e.i == i then Some(e.args)
      else LastNote(inputs, before, i)
  }

  predicate SlotShows(v: Value, note: Option<seq<Value>>) {
    match note
    case None => v == Undefined
    case Some(args) => Whens.CameAs(v, args)
  }

  /** What may happen to the books at all. */
  predicate Fits(b: Whens.Books, e: Whens.Event) {
    && Whens.Sized(b)
    && (e.Examine? ==> b.next < |b.inputs|)
    && (e.InputDone? || e.InputFail? || e.InputProgress? ==> e.i < |b.inputs|)
  }

  lemma EnabledFits(w: Whens.When, e: Whens.Event)
    requires Whens.Sized(w.books) && Whens.Enabled(w, e)
    ensures Fits(w.books, e)
  {
  }

  lemma SlotAfter(b: Whens.Books, e: Whens.Event, i: nat)
    requires Fits(b, e) && i < |b.inputs|
    ensures var b' := Whens.BooksAfter(b, e);
      && |b'.progressValues| == |b.inputs|
      && (if e.InputProgress? && e.i == i then Whens.CameAs(b'.progressValues[i], e.args)
          else b'.progressValues[i] == b.progressValues[i])
  {
  }

  function ActionList(a: Option<Deferreds.Action>): seq<Deferreds.Action> {
    if a.Some? then [a.value] else []
  }

  /** One event of a run: the books it leaves and the action the master takes. */
  lemma RunStep(inputs: seq<Whens.Input>, events: seq<Whens.Event>)
    requires |inputs| >= 2 && events != []
    ensures var w, e := Whens.RunWhen(inputs, events[..|events| - 1]), events[|events| - 1];
      var w' := Whens.RunWhen(inputs, events);
      if Whens.Enabled(w, e) then
        Fits(w.books, e) && w'.books == Whens.BooksAfter(w.books, e)
        && w'.trace == w.trace + ActionList(Whens.MasterAction(w'.books, e))
      else w' == w
  {
    var w, e := Whens.RunWhen(inputs, events[..|events| - 1]), events[|events| - 1];
    if Whens.Enabled(w, e) { NextIs(w, e); }
  }

  lemma NextIs(w: Whens.When, e: Whens.Event)
    requires Whens.Sized(w.books) && Wf(w.master) && Whens.Enabled(w, e)
    ensures Fits(w.books, e)
    ensures Whens.Next(w, e).trace == w.trace + ActionList(Whens.MasterAction(Whens.BooksAfter(w.books, e), e))
  {
    EnabledFits(w, e);
    assert w.trace + [] == w.trace;
  }

  /** The slot of an input holds its last notification, and undefined before the first. */
  lemma {:induction false} ProgressSlots(inputs: seq<Whens.Input>, events: seq<Whens.Event>, i: nat)
    requires |inputs| >= 2 && i < |inputs|
    ensures SlotShows(Whens.RunWhen(inputs, events).books.progressValues[i], LastNote(inputs, events, i))
    decreases |events|
  {
    if events == [] {
    } else {
      var w, e := Whens.RunWhen(inputs, events[..|events| - 1]), events[|events| - 1];
      ProgressSlots(inputs, events[..|events| - 1], i);
      RunStep(inputs, events);
      if Whens.Enabled(w, e) { SlotAfter(w.books, e, i); }
    }
  }

  /** What the notifications of the inputs have the master tell: each time, the slots as they are then. */
  function NotesDue(inputs: seq<Whens.Input>, events: seq<Whens.Event>): seq<Call>
    requires |inputs| >= 2
    decreases |events|
  {
    if events == [] then []
    else
      var before, e := events[..|events| - 1], events[|events| - 1];
      NotesDue(inputs, before) +
      if e.InputProgress? && Whens.Enabled(Whens.RunWhen(inputs, before), e)
      then [Call(MasterPromise, Whens.RunWhen(inputs, events).books.progressValues)] else []
  }

  /** The functions users have registered on a side of the promise. */
  function PromiseFunctions(inputs: seq<Whens.Input>, events: seq<Whens.Event>, side: Side): seq<Callback>
    requires |inputs| >= 2
    decreases |events|
  {
    if events == [] then []
    else
      var before, e := events[..|events| - 1], events[|events| - 1];
      PromiseFunctions(inputs, before, side) +
      if e.OnPromise? && e.side == side && Whens.Enabled(Whens.RunWhen(inputs, before), e)
      then Flatten(e.functions) else []
  }

  lemma TraceSnoc(trace: seq<Deferreds.Action>, a: Deferreds.Action, side: Side)
    ensures DeferredLists.Notifications(trace + [a]) == DeferredLists.Notifications(trace) +
      if a.Fire? && a.side == Progress && Deferreds.Enabled(Run(trace), a) then [a.call] else []
    ensures DeferredTheorems.Registrations(trace + [a], side) == DeferredTheorems.Registrations(trace, side) +
      if a.Register? && a.side == side && Deferreds.Enabled(Run(trace), a) then Flatten(a.args) else []
  {
    assert (trace + [a])[..|trace + [a]| - 1] == trace;
    assert DeferredTheorems.Registrations(trace, side) + [] == DeferredTheorems.Registrations(trace, side);
  }

  /** What the master's action adds to its notifications and registrations. */
  lemma ActionHeard(w: Whens.When, e: Whens.Event, b: Whens.Books, side: Side)
    requires Whens.Sized(w.books) && Whens.Enabled(w, e) && w.master == Run(w.trace)
    ensures var trace' := w.trace + ActionList(Whens.MasterAction(b, e));
      && DeferredLists.Notifications(trace') == DeferredLists.Notifications(w.trace) +
           (if e.InputProgress? then [Call(MasterPromise, b.progressValues)] else [])
      && DeferredTheorems.Registrations(trace', side) == DeferredTheorems.Registrations(w.trace, side) +
           (if e.OnPromise? && e.side == side then Flatten(e.functions) else [])
  {
    var action := Whens.MasterAction(b, e);
    if action.Some? {
      TraceSnoc(w.trace, action.value, side);
    } else {
      assert w.trace + [] == w.trace;
      assert DeferredLists.Notifications(w.trace) + [] == DeferredLists.Notifications(w.trace);
      assert DeferredTheorems.Registrations(w.trace, side) + [] == DeferredTheorems.Registrations(w.trace, side);
    }
  }

  lemma Regroup(a: seq<Callback>, b: seq<Callback>, c: seq<Callback>)
    ensures (a + b) + c == a + (b + c) && (a + b) + [] == a + (b + [])
  {
  }

  /** One event of a run, as the master's notifications and registrations see it. */
  lemma TraceStep(inputs: seq<Whens.Input>, events: seq<Whens.Event>, side: Side)
    requires |inputs| >= 2 && events != []
    ensures var w, w' := Whens.RunWhen(inputs, events[..|events| - 1]), Whens.RunWhen(inputs, events);
      var e, happens := events[|events| - 1], Whens.Enabled(w, events[|events| - 1]);
      && DeferredLists.Notifications(w'.trace) == DeferredLists.Notifications(w.trace) +
           (if e.InputProgress? && happens then [Call(MasterPromise, w'.books.progressValues)] else [])
      && DeferredTheorems.Registrations(w'.trace, side) == DeferredTheorems.Registrations(w.trace, side) +
           (if e.OnPromise? && e.side == side && happens then Flatten(e.functions) else [])
  {
    RunStep(inputs, events);
    var w, w' := Whens.RunWhen(inputs, events[..|events| - 1]), Whens.RunWhen(inputs, events);
    if Whens.Enabled(w, events[|events| - 1]) {
      ActionHeard(w, events[|events| - 1], w'.books, side);
    } else {
      assert DeferredLists.Notifications(w.trace) + [] == DeferredLists.Notifications(w.trace);
      assert DeferredTheorems.Registrations(w.trace, side) + [] == DeferredTheorems.Registrations(w.trace, side);
    }
  }

  /** The master is notified of exactly that. */
  lemma {:induction false} MasterNotified(inputs: seq<Whens.Input>, events: seq<Whens.Event>)
    requires |inputs| >= 2
    ensures DeferredLists.Notifications(Whens.RunWhen(inputs, events).trace) == NotesDue(inputs, events)
    decreases |events|
  {
    if events == [] {
    } else {
      MasterNotified(inputs, events[..|events| - 1]);
      TraceStep(inputs, events, Progress);
    }
  }

  /** The master holds exactly those functions behind its own. */
  lemma {:induction false} MasterHolds(inputs: seq<Whens.Input>, events: seq<Whens.Event>, side: Side)
    requires |inputs| >= 2
    ensures DeferredTheorems.Registrations(Whens.RunWhen(inputs, events).trace, side)
         == Closures(side) + PromiseFunctions(inputs, events, side)
    decreases |events|
  {
    if events == [] {
      assert Closures(side) + [] == Closures(side);
    } else {
      var before, e := events[..|events| - 1], events[|events| - 1];
      MasterHolds(inputs, before, side);
      TraceStep(inputs, events, side);
      Regroup(Closures(side), PromiseFunctions(inputs, before, side),
              if e.OnPromise? then Flatten(e.functions) else []);
    }
  }

  /**
   Users of the promise: until the master settles, every notification of an input has been forwarded or
   waits its turn, in order; when it has settled and control is back with the outermost code, exactly the
   functions registered on the winning side were called, in order, with its call.
   */
  lemma PromiseServesUsers(inputs: seq<Whens.Input>, events: seq<Whens.Event>)
    requires |inputs| >= 2
    ensures var w := Whens.RunWhen(inputs, events);
      match w.master.settlement
      case None =>
        w.master.progress.stack.Some? &&
        NotesDue(inputs, events) == DeferredLists.ProgressHistory(w.trace).started + w.master.progress.stack.value
      case Some(s) =>
        s.side != Progress && (w.master.stack == [] ==>
          var log := RecordOf(w.master, s.side).log;
          && DeferredTheorems.LogFns(log) == Closures(s.side) + PromiseFunctions(inputs, events, s.side)
          && forall i :: 0 <= i < |log| ==> log[i].call == s.call)
  {
    var w := Whens.RunWhen(inputs, events);
    DeferredTheorems.FirstRequestSettles(w.trace);
    DeferredTheorems.WinnerRunsEachCallbackOnce(w.trace);
    if w.master.settlement.Some? {
      MasterHolds(inputs, events, w.master.settlement.value.side);
    } else {
      MasterNotified(inputs, events);
      DeferredLists.NotificationsServedInOrder(w.trace);
    }
  }

  // ---------------------------------------------------------------- by the owners

  /**
   An owner enters a closure of `when`: what is stored for its input, and what the master is made to do.
   */
  lemma OwnerTells(s: W.Setup, w: W.World, j: nat, a: Deferreds.Action, k: Side, i: nat)
    requires W.Invariant(s, w) && W.CanMove(s, w, W.OwnerActs(j, a)) && i < |s.inputs|
    requires W.Entered(W.Owner(w, j), a).Some? && W.Entered(W.Owner(w, j), a).value.1.fn == W.Closure(k, i)
    ensures var now := W.OwnerActed(s, w, j, a).when;
      && Whens.Sized(now.books) && now.books.inputs == s.inputs
      && Tells(w.when, now, k, i, W.Entered(W.Owner(w, j), a).value.1.call)
  {
    W.OwnerEventEnabled(s, w, j, a);
    var call := W.Entered(W.Owner(w, j), a).value.1.call;
    W.EventOfClosure(s, k, i, call);
    var e := ClosureEvent(k, i, call);
    assert W.OwnerEvent(s, W.Owner(w, j), a) == Some(e);
    assert W.OwnerActed(s, w, j, a).when == Whens.Next(w.when, e);
    EventTells(w.when, k, i, call);
  }

  function ClosureEvent(k: Side, i: nat, call: Call): Whens.Event {
    match k
    case Done => Whens.InputDone(i, call.args)
    case Fail => Whens.InputFail(i, call)
    case Progress => Whens.InputProgress(i, call.args)
  }

  /** What an input event stores and has the master do, in terms of the arguments that came. */
  predicate Tells(was: Whens.When, now: Whens.When, k: Side, i: nat, call: Call)
    requires Whens.Sized(was.books) && Whens.Sized(now.books) && was.books.inputs == now.books.inputs
    requires i < |was.books.inputs|
  {
    match k
    case Done =>
      && Whens.CameAs(now.books.values[i], call.args)
      && now.books.values == was.books.values[i := now.books.values[i]]
      && now.books.count == was.books.count - 1 && now.books.progressValues == was.books.progressValues
      && now.trace == was.trace + if now.books.count == 0 then [Fire(Done, Call(Master, now.books.values))] else []
    case Fail =>
      && now.books.values == was.books.values && now.books.count == was.books.count
      && now.books.progressValues == was.books.progressValues
      && now.trace == was.trace + [Fire(Fail, call)]
    case Progress =>
      && Whens.CameAs(now.books.progressValues[i], call.args)
      && now.books.progressValues == was.books.progressValues[i := now.books.progressValues[i]]
      && now.books.values == was.books.values && now.books.count == was.books.count
      && now.trace == was.trace + [Fire(Progress, Call(MasterPromise, now.books.progressValues))]
  }

  lemma EventTells(w: Whens.When, k: Side, i: nat, call: Call)
    requires Whens.Sized(w.books) && Wf(w.master) && Whens.Enabled(w, ClosureEvent(k, i, call)) && i < |w.books.inputs|
    ensures var w' := Whens.Next(w, ClosureEvent(k, i, call)); Whens.Sized(w'.books) && Tells(w, w', k, i, call)
  {
    NextIs(w, ClosureEvent(k, i, call));
  }

  /** The arguments of the last entry of a function. */
  function LastArgs(log: seq<Ran>, fn: Callback): Option<seq<Value>> {
    if log == [] then None
    else if log[|log| - 1].fn == fn then Some(log[|log| - 1].call.args)
    else LastArgs(log[..|log| - 1], fn)
  }

  lemma LastArgsSnoc(log: seq<Ran>, ran: Ran, fn: Callback)
    ensures LastArgs(log + [ran], fn) == if ran.fn == fn then Some(ran.call.args) else LastArgs(log, fn)
  {
    assert (log + [ran])[..|log + [ran]| - 1] == log;
  }

  /** Every slot shows what the input's owner last told the progress closure. */
  predicate SlotShown(s: W.Setup, w: W.World, i: nat)
    requires W.Shaped(s, w) && i < |s.inputs|
  {
    SlotShows(w.when.books.progressValues[i],
              LastArgs(W.Owner(w, s.owner[i]).progressRecord.log, W.Closure(Progress, i)))
  }

  lemma QuietRegister(trace: seq<Deferreds.Action>, side: Side, args: seq<Arg>)
    ensures Run(trace + [Register(side, args)]).progressRecord.log == Run(trace).progressRecord.log
  {
    DeferredTheorems.RunSnoc(trace, Register(side, args));
    if Deferreds.Enabled(Run(trace), Register(side, args)) {
      W.LogGrows(Run(trace), Register(side, args), Progress);
    }
  }

  lemma AttachQuiet(s: W.Setup, w: W.World, n: nat, side: Side, j: nat)
    requires W.Shaped(s, w) && n < |s.inputs| && j < s.deferreds
    ensures |W.Attach(s, w, n, side)| == s.deferreds
    ensures Run(W.Attach(s, w, n, side)[j]).progressRecord.log == W.Owner(w, j).progressRecord.log
  {
    QuietRegister(w.traces[j], side, [Fn(W.Closure(side, n))]);
  }

  lemma TurnQuiet(s: W.Setup, w: W.World, j: nat)
    requires W.Shaped(s, w) && Wf(w.when.master) && W.CanMove(s, w, W.LoopTurn) && j < s.deferreds
    ensures |W.Turned(s, w).traces| == s.deferreds
    ensures W.Owner(W.Turned(s, w), j).progressRecord.log == W.Owner(w, j).progressRecord.log
  {
    AttachQuiet(s, w, w.when.books.next, Done, j);
  }

  lemma AttachNextQuiet(s: W.Setup, w: W.World, j: nat)
    requires W.Shaped(s, w) && W.CanMove(s, w, W.LoopAttach) && j < s.deferreds
    ensures |W.AttachedNext(s, w).traces| == s.deferreds
    ensures W.Owner(W.AttachedNext(s, w), j).progressRecord.log == W.Owner(w, j).progressRecord.log
  {
    var i := w.when.books.next - 1;
    if w.phase == 1 {
      AttachQuiet(s, w, i, Fail, j);
      assert W.AttachedNext(s, w).traces == W.Attach(s, w, i, Fail);
    } else {
      AttachQuiet(s, w, i, Progress, j);
      assert W.AttachedNext(s, w).traces == W.Attach(s, w, i, Progress);
    }
  }

  lemma LogsStay(s: W.Setup, w: W.World, m: W.Move, j: nat)
    requires W.Shaped(s, w) && Wf(w.when.master) && W.CanMove(s, w, m) && !m.OwnerActs? && j < s.deferreds
    ensures |W.After(s, w, m).traces| == s.deferreds
    ensures W.Owner(W.After(s, w, m), j).progressRecord.log == W.Owner(w, j).progressRecord.log
  {
    match m
    case LoopTurn => TurnQuiet(s, w, j);
    case LoopAttach => AttachNextQuiet(s, w, j);
    case _ =>
  }

  /** The moves that are not an owner's leave every progress log and every slot as it is. */
  lemma OthersShow(s: W.Setup, w: W.World, m: W.Move, i: nat)
    requires W.Shaped(s, w) && Wf(w.when.master) && W.CanMove(s, w, m) && W.Shaped(s, W.After(s, w, m))
    requires !m.OwnerActs? && i < |s.inputs| && SlotShown(s, w, i)
    ensures SlotShown(s, W.After(s, w, m), i)
  {
    SlotsStay(s, w, m);
    LogsStay(s, w, m, s.owner[i]);
  }

  lemma MoveShaped(s: W.Setup, w: W.World, m: W.Move)
    requires W.Invariant(s, w) && W.CanMove(s, w, m)
    ensures W.Shaped(s, w) && Wf(w.when.master) && W.Shaped(s, W.After(s, w, m))
  {
    W.MoveKeeps(s, w, m);
  }

  lemma SlotsStay(s: W.Setup, w: W.World, m: W.Move)
    requires W.Shaped(s, w) && Wf(w.when.master) && W.CanMove(s, w, m) && !m.OwnerActs?
    ensures W.After(s, w, m).when.books.progressValues == w.when.books.progressValues
  {
  }

  /** The callback entered is the closure of an input, and input i's slot changes with its own only. */
  predicate SlotTold(s: W.Setup, w: W.World, j: nat, a: Deferreds.Action, i: nat)
    requires W.Shaped(s, w) && Wf(w.when.master) && W.CanMove(s, w, W.OwnerActs(j, a)) && i < |s.inputs|
    requires W.Entered(W.Owner(w, j), a).Some?
  {
    var (k, ran) := W.Entered(W.Owner(w, j), a).value;
    var now := W.OwnerActed(s, w, j, a).when.books;
    && |now.progressValues| == |s.inputs|
    && (ran.fn == W.Closure(Progress, i) ==> k == Progress && s.owner[i] == j)
    && if ran.fn == W.Closure(Progress, i) then Whens.CameAs(now.progressValues[i], ran.call.args)
       else now.progressValues[i] == w.when.books.progressValues[i]
  }

  lemma ClosureEntered(s: W.Setup, w: W.World, j: nat, a: Deferreds.Action) returns (k: Side, m: nat)
    requires W.Invariant(s, w) && W.CanMove(s, w, W.OwnerActs(j, a)) && W.OwnerEvent(s, W.Owner(w, j), a).Some?
    ensures m < |s.inputs| && s.owner[m] == j && W.Entered(W.Owner(w, j), a).Some?
    ensures W.Entered(W.Owner(w, j), a).value.0 == k && W.Entered(W.Owner(w, j), a).value.1.fn == W.Closure(k, m)
  {
    assert W.Bound(s, w.when.books, w.phase, j, W.Owner(w, j));
    W.GuardHolds(s, w.when.books, w.phase, j, W.Owner(w, j), a);
    var entered := W.Entered(W.Owner(w, j), a).value;
    k, m := entered.0, entered.1.fn.id / 3;
  }

  lemma TellsSlot(was: Whens.When, now: Whens.When, k: Side, m: nat, call: Call, i: nat)
    requires Whens.Sized(was.books) && Whens.Sized(now.books) && was.books.inputs == now.books.inputs
    requires m < |was.books.inputs| && i < |was.books.inputs| && Tells(was, now, k, m, call)
    ensures if k == Progress && i == m then Whens.CameAs(now.books.progressValues[i], call.args)
      else now.books.progressValues[i] == was.books.progressValues[i]
  {
  }

  lemma ClosureShows(s: W.Setup, w: W.World, j: nat, a: Deferreds.Action, i: nat)
    requires W.Invariant(s, w) && W.CanMove(s, w, W.OwnerActs(j, a)) && i < |s.inputs|
    requires W.OwnerEvent(s, W.Owner(w, j), a).Some?
    ensures W.Entered(W.Owner(w, j), a).Some? && SlotTold(s, w, j, a, i)
  {
    var k, m := ClosureEntered(s, w, j, a);
    OwnerTells(s, w, j, a, k, m);
    ToldSlot(s, w, j, a, k, m, i);
  }

  lemma ToldSlot(s: W.Setup, w: W.World, j: nat, a: Deferreds.Action, k: Side, m: nat, i: nat)
    requires W.Shaped(s, w) && Wf(w.when.master) && W.CanMove(s, w, W.OwnerActs(j, a)) && i < |s.inputs|
    requires m < |s.inputs| && s.owner[m] == j && W.Entered(W.Owner(w, j), a).Some?
    requires W.Entered(W.Owner(w, j), a).value.0 == k && W.Entered(W.Owner(w, j), a).value.1.fn == W.Closure(k, m)
    requires var now := W.OwnerActed(s, w, j, a).when;
      && Whens.Sized(now.books) && now.books.inputs == s.inputs
      && Tells(w.when, now, k, m, W.Entered(W.Owner(w, j), a).value.1.call)
    ensures SlotTold(s, w, j, a, i)
  {
    TellsSlot(w.when, W.OwnerActed(s, w, j, a).when, k, m, W.Entered(W.Owner(w, j), a).value.1.call, i);
    if k == Progress && i != m { DistinctClosures(m, i); }
  }

  lemma DistinctClosures(m: nat, i: nat)
    requires m != i
    ensures W.Closure(Progress, m) != W.Closure(Progress, i)
  {
  }

  /** No closure of `when` was entered: the slots stay. */
  lemma NoEventShows(s: W.Setup, w: W.World, j: nat, a: Deferreds.Action)
    requires W.Shaped(s, w) && Wf(w.when.master) && W.CanMove(s, w, W.OwnerActs(j, a))
    requires W.OwnerEvent(s, W.Owner(w, j), a).None?
    ensures W.OwnerActed(s, w, j, a).when == w.when
  {
  }

  lemma LogAfter(d: Deferred, a: Deferreds.Action, fn: Callback)
    requires Wf(d) && Deferreds.Enabled(d, a)
    ensures LastArgs(Next(d, a).progressRecord.log, fn) ==
      if W.Entered(d, a).Some? && W.Entered(d, a).value.0 == Progress && W.Entered(d, a).value.1.fn == fn
      then Some(W.Entered(d, a).value.1.call.args) else LastArgs(d.progressRecord.log, fn)
  {
    W.LogGrows(d, a, Progress);
    if W.Entered(d, a).Some? { LastArgsSnoc(d.progressRecord.log, W.Entered(d, a).value.1, fn); }
  }

  lemma NoEventOther(s: W.Setup, d: Deferred, a: Deferreds.Action, k: Side, i: nat)
    requires Wf(d) && W.Entered(d, a).Some? && W.OwnerEvent(s, d, a).None? && i < |s.inputs|
    ensures W.Entered(d, a).value.1.fn != W.Closure(k, i)
  {
  }

  lemma OwnerAfter(s: W.Setup, w: W.World, j: nat, a: Deferreds.Action, m: nat)
    requires W.Shaped(s, w) && Wf(w.when.master) && W.CanMove(s, w, W.OwnerActs(j, a)) && m < s.deferreds
    ensures |W.OwnerActed(s, w, j, a).traces| == |w.traces|
    ensures W.Owner(W.OwnerActed(s, w, j, a), m) == if m == j then Next(W.Owner(w, j), a) else W.Owner(w, m)
  {
    DeferredTheorems.RunSnoc(w.traces[j], a);
  }

  lemma EnteredShows(s: W.Setup, w: W.World, j: nat, a: Deferreds.Action, i: nat)
    requires W.Shaped(s, w) && Wf(w.when.master) && W.CanMove(s, w, W.OwnerActs(j, a))
    requires W.Shaped(s, W.OwnerActed(s, w, j, a)) && i < |s.inputs| && SlotShown(s, w, i)
    requires W.Entered(W.Owner(w, j), a).Some? && SlotTold(s, w, j, a, i)
    ensures SlotShown(s, W.OwnerActed(s, w, j, a), i)
  {
    OwnerAfter(s, w, j, a, s.owner[i]);
    LogAfter(W.Owner(w, j), a, W.Closure(Progress, i));
  }

  lemma QuietShows(s: W.Setup, w: W.World, j: nat, a: Deferreds.Action, i: nat)
    requires W.Shaped(s, w) && Wf(w.when.master) && W.CanMove(s, w, W.OwnerActs(j, a))
    requires W.Shaped(s, W.OwnerActed(s, w, j, a)) && i < |s.inputs| && SlotShown(s, w, i)
    requires W.OwnerEvent(s, W.Owner(w, j), a).None?
    ensures SlotShown(s, W.OwnerActed(s, w, j, a), i)
  {
    OwnerAfter(s, w, j, a, s.owner[i]);
    LogAfter(W.Owner(w, j), a, W.Closure(Progress, i));
    NoEventShows(s, w, j, a);
    if W.Entered(W.Owner(w, j), a).Some? { NoEventOther(s, W.Owner(w, j), a, Progress, i); }
  }

  lemma MoveShows(s: W.Setup, w: W.World, m: W.Move, i: nat)
    requires W.Invariant(s, w) && W.CanMove(s, w, m) && i < |s.inputs| && SlotShown(s, w, i)
    ensures W.Shaped(s, W.After(s, w, m)) && SlotShown(s, W.After(s, w, m), i)
  {
    MoveShaped(s, w, m);
    if !m.OwnerActs? {
      OthersShow(s, w, m, i);
    } else if W.OwnerEvent(s, W.Owner(w, m.j), m.a).Some? {
      ClosureShows(s, w, m.j, m.a, i);
      EnteredShows(s, w, m.j, m.a, i);
    } else {
      QuietShows(s, w, m.j, m.a, i);
    }
  }

  /** In every run of `when` and its owners, whatever was told is what the slots show. */
  lemma {:induction false} SlotsShowOwners(s: W.Setup, moves: seq<W.Move>, i: nat)
    requires W.ValidSetup(s) && i < |s.inputs|
    ensures SlotShown(s, W.WorldRun(s, moves), i)
    decreases |moves|
  {
    if moves == [] {
      assert Run([]).progressRecord.log == [];
    } else {
      var before, m := moves[..|moves| - 1], moves[|moves| - 1];
      SlotsShowOwners(s, before, i);
      var w := W.WorldRun(s, before);
      if W.CanMove(s, w, m) { MoveShows(s, w, m, i); }
    }
  }
}
