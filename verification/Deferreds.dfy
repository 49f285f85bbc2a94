/**
 A jQuery Deferred: a state string and three callback lists that switch one another off.

 Control is a stack of running passes, innermost first.  User code runs when no pass is running or
 when the innermost pass is inside a user callback; only then can the promise be used.  The closures
 that Deferred itself registers run without giving control away.
 */
module Deferreds {
  import opened Wrappers
  import opened CallbackLists
  import CallbackRuns

  datatype State = Pending | Resolved | Rejected

  datatype Side = Done | Fail | Progress

  /** One callback entered, with the call it was given. */
  datatype Ran = Ran(fn: Callback, call: Call)

  /** What the theorems speak about on one side: the functions registered and the callbacks entered. */
  datatype Record = Record(registered: seq<Callback>, log: seq<Ran>)

  /** The first resolve or reject. */
  datatype Settlement = Settlement(side: Side, call: Call)

  datatype Deferred = Deferred(
    state: State,
    done: CallbackList,
    fail: CallbackList,
    progress: CallbackList,
    stack: seq<Side>,
    doneRecord: Record,
    failRecord: Record,
    progressRecord: Record,
    settlement: Option<Settlement>)

  datatype Action =
    | Register(side: Side, args: seq<Arg>)
    | Fire(side: Side, call: Call)
    | Step
    | Comeback(isFalse: bool)

  const ONCE_MEMORY := Flags(true, true, false, false)
  const MEMORY := Flags(false, true, false, false)

  function Opposite(side: Side): Side
    requires side != Progress
  {
    if side == Done then Fail else Done
  }

  function SettledAs(side: Side): State
    requires side != Progress
  {
    if side == Done then Resolved else Rejected
  }

  /** The closures Deferred registers first on each settling list. */
  function Closures(side: Side): seq<Callback> {
    match side
    case Done => [MarkResolved, DisableFail, LockProgress]
    case Fail => [MarkRejected, DisableDone, LockProgress]
    case Progress => []
  }

  function FunctionArgs(fns: seq<Callback>): seq<Arg> {
    seq(|fns|, i requires 0 <= i < |fns| => Fn(fns[i]))
  }

  function ClosureArgs(side: Side): seq<Arg> {
    FunctionArgs(Closures(side))
  }

  function On(d: Deferred, side: Side): CallbackList {
    match side case Done => d.done case Fail => d.fail case Progress => d.progress
  }

  function Put(d: Deferred, side: Side, c: CallbackList): Deferred {
    match side
    case Done => d.(done := c)
    case Fail => d.(fail := c)
    case Progress => d.(progress := c)
  }

  function RecordOf(d: Deferred, side: Side): Record {
    match side case Done => d.doneRecord case Fail => d.failRecord case Progress => d.progressRecord
  }

  function PutRecord(d: Deferred, side: Side, r: Record): (d': Deferred)
    ensures d'.state == d.state && d'.settlement == d.settlement
    ensures forall s :: On(d', s) == On(d, s) && RecordOf(d', s) == if s == side then r else RecordOf(d, s)
  {
    match side
    case Done => d.(doneRecord := r)
    case Fail => d.(failRecord := r)
    case Progress => d.(progressRecord := r)
  }

  function Create(): Deferred {
    Deferred(Pending,
             Add(Fresh(ONCE_MEMORY), ClosureArgs(Done)),
             Add(Fresh(ONCE_MEMORY), ClosureArgs(Fail)),
             Fresh(MEMORY),
             [],
             Record(Closures(Done), []), Record(Closures(Fail), []), Record([], []),
             None)
  }

  predicate UserControl(d: Deferred) {
    d.stack == [] || (On(d, d.stack[0]).pass.Running? && On(d, d.stack[0]).pass.entry.fn.User?)
  }

  predicate UserFunctions(fns: seq<Callback>) {
    forall i :: 0 <= i < |fns| ==> fns[i].User?
  }

  predicate Enabled(d: Deferred, a: Action) {
    match a
    case Register(_, args) => UserControl(d) && UserFunctions(Flatten(args))
    case Fire(_, _) => UserControl(d)
    case Step => !UserControl(d)
    case Comeback(_) => UserControl(d) && d.stack != []
  }

  /** The lists are valid and the control stack names exactly the lists that are firing, each once. */
  predicate Wf(d: Deferred) {
    && Valid(d.done) && Valid(d.fail) && Valid(d.progress)
    && d.done.flags == d.fail.flags == ONCE_MEMORY && d.progress.flags == MEMORY
    && (forall side :: side in d.stack <==> On(d, side).firing)
    && (forall i, j :: 0 <= i < j < |d.stack| ==> d.stack[i] != d.stack[j])
  }

  /** Store a list after an operation, entering or leaving its pass on the control stack. */
  function Store(d: Deferred, side: Side, c: CallbackList): (d': Deferred)
    ensures d'.state == d.state && d'.settlement == d.settlement
    ensures forall s :: RecordOf(d', s) == RecordOf(d, s) && On(d', s) == if s == side then c else On(d, s)
  {
    var d1 := Put(d, side, c);
    if !On(d, side).firing && c.firing then d1.(stack := [side] + d.stack)
    else if On(d, side).firing && !c.firing && d.stack != [] then d1.(stack := d.stack[1..])
    else d1
  }

  /** What one of Deferred's own closures does. */
  function Effect(d: Deferred, fn: Callback): (d': Deferred)
    ensures d'.settlement == d.settlement && d'.stack == d.stack
    ensures forall s :: RecordOf(d', s) == RecordOf(d, s)
    ensures fn !in {MarkResolved, MarkRejected} ==> d'.state == d.state
  {
    match fn
    case MarkResolved => d.(state := Resolved)
    case MarkRejected => d.(state := Rejected)
    case DisableDone => d.(done := Disable(d.done))
    case DisableFail => d.(fail := Disable(d.fail))
    case LockProgress => d.(progress := Lock(d.progress))
    case User(_) => d
  }

  function RegisterOn(d: Deferred, side: Side, args: seq<Arg>): (d': Deferred)
    ensures d'.state == d.state && d'.settlement == d.settlement
  {
    var r := RecordOf(d, side);
    PutRecord(Store(d, side, Add(On(d, side), args)), side, r.(registered := r.registered + Flatten(args)))
  }

  function FireOn(d: Deferred, side: Side, call: Call): (d': Deferred)
    requires Wf(d)
    ensures d'.state == d.state && forall s :: RecordOf(d', s) == RecordOf(d, s)
  {
    var d1 := Store(d, side, FireWith(On(d, side), call));
    if side != Progress && d.settlement.None? then d1.(settlement := Some(Settlement(side, call))) else d1
  }

  /** The innermost pass tests its loop condition. */
  function TestLoop(d: Deferred): (d': Deferred)
    requires Wf(d) && d.stack != [] && On(d, d.stack[0]).pass.AtLoop?
    ensures d'.state == d.state && d'.settlement == d.settlement
    ensures forall s :: RecordOf(d', s).registered == RecordOf(d, s).registered
  {
    var side := d.stack[0];
    var c, r := On(d, side), RecordOf(d, side);
    var d1 := Store(d, side, Invoke(c));
    if HasNext(c) then
      PutRecord(d1, side, r.(log := r.log + [Ran(c.list.value[c.firingIndex].fn, c.pass.call)]))
    else d1
  }

  /** The innermost pass is inside a closure of Deferred's own: it acts and returns. */
  function RunClosure(d: Deferred): (d': Deferred)
    requires d.stack != [] && On(d, d.stack[0]).pass.Running?
    ensures d'.settlement == d.settlement && d'.state == Effect(d, On(d, d.stack[0]).pass.entry.fn).state
    ensures forall s :: RecordOf(d', s) == RecordOf(d, s)
  {
    var side := d.stack[0];
    var d1 := Effect(d, On(d, side).pass.entry.fn);
    EffectKeepsPass(d, On(d, side).pass.entry.fn, side);
    ComeBack(d1, false)
  }

  lemma EffectKeepsPass(d: Deferred, fn: Callback, side: Side)
    ensures On(Effect(d, fn), side).pass == On(d, side).pass
    ensures On(Effect(d, fn), side).firing == On(d, side).firing
  {
  }

  function ComeBack(d: Deferred, isFalse: bool): (d': Deferred)
    requires d.stack != [] && On(d, d.stack[0]).pass.Running?
    ensures d'.state == d.state && d'.settlement == d.settlement
    ensures forall s :: RecordOf(d', s) == RecordOf(d, s)
  {
    Store(d, d.stack[0], Return(On(d, d.stack[0]), isFalse))
  }

  function Next(d: Deferred, a: Action): Deferred
    requires Wf(d) && Enabled(d, a)
  {
    match a
    case Register(side, args) => RegisterOn(d, side, args)
    case Fire(side, call) => FireOn(d, side, call)
    case Step =>
      assert d.stack[0] in d.stack;
      if On(d, d.stack[0]).pass.AtLoop? then TestLoop(d) else RunClosure(d)
    case Comeback(isFalse) => ComeBack(d, isFalse)
  }

  // ---------------------------------------------------------------- runs

  lemma StoreKeepsWf(d: Deferred, side: Side, c: CallbackList)
    requires Wf(d) && Valid(c) && c.flags == On(d, side).flags
    requires On(d, side).firing && !c.firing ==> d.stack != [] && d.stack[0] == side
    ensures Wf(Store(d, side, c))
  {
    var d' := Store(d, side, c);
    forall s ensures s in d'.stack <==> On(d', s).firing {
      if d.stack != [] { assert d.stack == [d.stack[0]] + d.stack[1..]; }
      assert s in d.stack <==> On(d, s).firing;
    }
    forall i, j | 0 <= i < j < |d'.stack| ensures d'.stack[i] != d'.stack[j] {
      if !On(d, side).firing && c.firing {
        assert d'.stack[j] == d.stack[j - 1];
        assert d.stack[j - 1] in d.stack;
        assert side !in d.stack;
      }
    }
  }

  lemma EffectKeepsWf(d: Deferred, fn: Callback)
    requires Wf(d)
    ensures Wf(Effect(d, fn)) && Effect(d, fn).stack == d.stack
  {
    var d' := Effect(d, fn);
    forall side ensures On(d', side).firing == On(d, side).firing { EffectKeepsPass(d, fn, side); }
  }

  lemma TestLoopKeepsWf(d: Deferred)
    requires Wf(d) && d.stack != [] && On(d, d.stack[0]).pass.AtLoop?
    ensures Wf(TestLoop(d))
  {
    var side := d.stack[0];
    CallbackRuns.StepKeepsValid(On(d, side), CallbackRuns.StepLoop);
    StoreKeepsWf(d, side, Invoke(On(d, side)));
  }

  lemma RunClosureKeepsWf(d: Deferred)
    requires Wf(d) && d.stack != [] && On(d, d.stack[0]).pass.Running?
    ensures Wf(RunClosure(d))
  {
    var side := d.stack[0];
    var fn := On(d, side).pass.entry.fn;
    EffectKeepsWf(d, fn);
    EffectKeepsPass(d, fn, side);
    ComebackKeepsWf(Effect(d, fn), false);
  }

  lemma ComebackKeepsWf(d: Deferred, isFalse: bool)
    requires Wf(d) && d.stack != [] && On(d, d.stack[0]).pass.Running?
    ensures Wf(ComeBack(d, isFalse))
  {
    var side := d.stack[0];
    CallbackRuns.StepKeepsValid(On(d, side), CallbackRuns.Comeback(isFalse));
    StoreKeepsWf(d, side, Return(On(d, side), isFalse));
  }

  lemma RegisterKeepsWf(d: Deferred, side: Side, args: seq<Arg>)
    requires Wf(d)
    ensures Wf(RegisterOn(d, side, args))
  {
    CallbackRuns.AddKeepsValid(On(d, side), args);
    StoreKeepsWf(d, side, Add(On(d, side), args));
  }

  lemma FireKeepsWf(d: Deferred, side: Side, call: Call)
    requires Wf(d)
    ensures Wf(FireOn(d, side, call))
  {
    StoreKeepsWf(d, side, FireWith(On(d, side), call));
  }

  lemma StepKeepsWf(d: Deferred, a: Action)
    requires Wf(d) && Enabled(d, a)
    ensures Wf(Next(d, a))
  {
    match a
    case Register(side, args) => RegisterKeepsWf(d, side, args);
    case Fire(side, call) => FireKeepsWf(d, side, call);
    case Step =>
      assert d.stack[0] in d.stack;
      if On(d, d.stack[0]).pass.AtLoop? { TestLoopKeepsWf(d); } else { RunClosureKeepsWf(d); }
    case Comeback(isFalse) => ComebackKeepsWf(d, isFalse);
  }

  lemma CreateIsWf()
    ensures Wf(Create())
  {
    CallbackRuns.AddKeepsValid(Fresh(ONCE_MEMORY), ClosureArgs(Done));
    CallbackRuns.AddKeepsValid(Fresh(ONCE_MEMORY), ClosureArgs(Fail));
  }

  function Apply(d: Deferred, a: Action): (d': Deferred)
    requires Wf(d)
    ensures Wf(d')
  {
    if Enabled(d, a) then StepKeepsWf(d, a); Next(d, a) else d
  }

  /** A run: the actions applied one after another; one that control cannot take is skipped. */
  function RunFrom(d: Deferred, actions: seq<Action>): (d': Deferred)
    requires Wf(d)
    ensures Wf(d')
    decreases |actions|
  {
    if actions == [] then d
    else Apply(RunFrom(d, actions[..|actions| - 1]), actions[|actions| - 1])
  }

  function Run(actions: seq<Action>): (d: Deferred)
    ensures Wf(d)
  {
    CreateIsWf();
    RunFrom(Create(), actions)
  }
}
