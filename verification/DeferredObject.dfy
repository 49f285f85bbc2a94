/**
 The Deferred as jQuery builds it: three callback list objects and a state variable, changed in place.
 The control stack and the records are carried along as ghost state.
 */
module DeferredObject {
  import opened Wrappers
  import opened CallbackLists
  import opened Deferreds
  import Lists = CallbackObject

  class DeferredCell {
    const done: Lists.Callbacks
    const fail: Lists.Callbacks
    const progress: Lists.Callbacks
    var state: State
    ghost var stack: seq<Side>
    ghost var doneRecord: Record
    ghost var failRecord: Record
    ghost var progressRecord: Record
    ghost var settlement: Option<Settlement>

    ghost predicate Separate() {
      && done != fail && fail != progress && done != progress
      && done.flags == fail.flags == ONCE_MEMORY && progress.flags == MEMORY
    }

    ghost function View(): Deferred
      reads this, done, fail, progress
    {
      Deferred(state, done.View(), fail.View(), progress.View(),
               stack, doneRecord, failRecord, progressRecord, settlement)
    }

    constructor ()
      ensures Separate() && fresh(done) && fresh(fail) && fresh(progress)
      ensures View() == Create()
    {
      done := new Lists.Callbacks(ONCE_MEMORY);
      fail := new Lists.Callbacks(ONCE_MEMORY);
      progress := new Lists.Callbacks(MEMORY);
      state := Pending;
      stack, settlement := [], None;
      doneRecord, failRecord, progressRecord := Record(Closures(Done), []), Record(Closures(Fail), []), Record([], []);
      new;
      done.Add(ClosureArgs(Done));
      fail.Add(ClosureArgs(Fail));
    }

    function ListOf(side: Side): Lists.Callbacks {
      match side case Done => done case Fail => fail case Progress => progress
    }

    /** `done`, `fail` or `progress` of the promise. */
    method Add(side: Side, args: seq<Arg>)
      requires Separate()
      modifies this, done, fail, progress
      ensures View() == RegisterOn(old(View()), side, args)
    {
      ListOf(side).Add(args);
      ghost var d1 := Store(old(View()), side, ListOf(side).View());
      ghost var r := RecordOf(old(View()), side);
      Adopt(PutRecord(d1, side, r.(registered := r.registered + Flatten(args))));
    }

    /** `resolveWith`, `rejectWith` or `notifyWith`. */
    method Fire(side: Side, call: Call)
      requires Separate() && Wf(View())
      modifies this, done, fail, progress
      ensures View() == FireOn(old(View()), side, call)
    {
      ListOf(side).FireWith(call);
      ghost var d1 := Store(old(View()), side, ListOf(side).View());
      Adopt(if side != Progress && settlement.None? then d1.(settlement := Some(Settlement(side, call))) else d1);
    }

    /** One test of the innermost loop. */
    method TestInnermost(side: Side)
      requires Separate() && Wf(View()) && stack != [] && stack[0] == side && ListOf(side).pass.AtLoop?
      modifies this, done, fail, progress
      ensures View() == TestLoop(old(View()))
    {
      ghost var d, c := View(), ListOf(side).View();
      var entered := ListOf(side).Invoke();
      ghost var r := RecordOf(d, side);
      ghost var d1 := Store(d, side, ListOf(side).View());
      Adopt(if HasNext(c)
            then PutRecord(d1, side, r.(log := r.log + [Ran(c.list.value[c.firingIndex].fn, c.pass.call)]))
            else d1);
    }

    /** One of the closures registered by the constructor. */
    method RunOwnClosure(side: Side)
      requires Separate() && stack != [] && stack[0] == side && ListOf(side).pass.Running?
      modifies this, done, fail, progress
      ensures View() == RunClosure(old(View()))
    {
      EffectKeepsPass(View(), ListOf(side).pass.entry.fn, side);
      match ListOf(side).pass.entry.fn {
        case MarkResolved => state := Resolved;
        case MarkRejected => state := Rejected;
        case DisableDone => done.Disable();
        case DisableFail => fail.Disable();
        case LockProgress => progress.Lock();
        case User(_) =>
      }
      ReturnToLoop(side, false);
    }

    /** The innermost callback comes back to its loop. */
    method ReturnToLoop(side: Side, isFalse: bool)
      requires Separate() && stack != [] && stack[0] == side && ListOf(side).pass.Running?
      modifies this, done, fail, progress
      ensures View() == ComeBack(old(View()), isFalse)
    {
      ListOf(side).Return(isFalse);
      Adopt(Store(old(View()), side, ListOf(side).View()));
    }

    /** Take over the ghost part of a view; the lists and the state already agree. */
    ghost method Adopt(d: Deferred)
      requires (d.state, d.done, d.fail, d.progress) == (state, done.View(), fail.View(), progress.View())
      modifies this`stack, this`doneRecord, this`failRecord, this`progressRecord, this`settlement
      ensures View() == d
    {
      stack, settlement := d.stack, d.settlement;
      doneRecord, failRecord, progressRecord := d.doneRecord, d.failRecord, d.progressRecord;
    }
  }
}
