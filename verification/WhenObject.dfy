/** The closures of `jQuery.when`, changing its counter and arrays in place and driving the master. */
module WhenObject {
  import opened Wrappers
  import opened CallbackLists
  import opened Deferreds
  import opened Whens
  import DeferredObject

  /** What the master's view becomes under an optional action. */
  function Driven(d: Deferred, a: Option<Deferreds.Action>): Deferred
    requires Wf(d) && (a.Some? ==> Deferreds.Enabled(d, a.value))
  {
    if a.Some? then Deferreds.Next(d, a.value) else d
  }

  class WhenCell {
    const inputs: seq<Input>
    const master: DeferredObject.DeferredCell
    var values: seq<Value>
    var progressValues: seq<Value>
    var count: int
    var next: nat
    var closed: bool
    ghost var outcomes: seq<Outcome>
    ghost var firstRefusal: Option<Call>

    ghost function View(): Books
      reads this
    {
      Books(inputs, values, progressValues, count, next, closed, outcomes, firstRefusal)
    }

    ghost predicate Ready()
      reads this, master, master.done, master.fail, master.progress
    {
      Sized(View()) && master.Separate() && Wf(master.View()) && UserControl(master.View())
    }

    constructor (inputs: seq<Input>)
      ensures View() == Whens.Open(inputs)
      ensures master.Separate() && master.View() == Create()
    {
      this.inputs := inputs;
      values := seq(|inputs|, i requires 0 <= i < |inputs| =>
        if inputs[i].Plain? then inputs[i].value else PromiseRef(i));
      progressValues := seq(|inputs|, i => Undefined);
      count, next, closed := |inputs|, 0, false;
      outcomes := seq(|inputs|, i => Unsettled);
      firstRefusal := None;
      master := new DeferredObject.DeferredCell();
    }

    /** One turn of the argument loop; for a promise it only registers the closures below. */
    method ExamineNext()
      requires Ready() && next < |inputs|
      modifies this
      ensures View() == BooksAfter(old(View()), Examine)
    {
      if inputs[next].Plain? { count := count - 1; }
      next := next + 1;
    }

    /** The test after the loop. */
    method Close()
      requires Ready() && next == |inputs| && !closed
      modifies this, master, master.done, master.fail, master.progress
      ensures View() == BooksAfter(old(View()), CloseLoop)
      ensures master.View() == Driven(old(master.View()), MasterAction(View(), CloseLoop))
    {
      closed := true;
      if count == 0 { master.Fire(Done, Call(Master, values)); }
    }

    /** The done closure of input i. */
    method OnDone(i: nat, args: seq<Value>)
      requires Ready() && i < |inputs| && CanSettle(View(), i)
      modifies this, master, master.done, master.fail, master.progress
      ensures View() == BooksAfter(old(View()), InputDone(i, args))
      ensures master.View() == Driven(old(master.View()), MasterAction(View(), InputDone(i, args)))
      ensures |values| == |inputs| && CameAs(values[i], args) && count == old(count) - 1
    {
      values := values[i := Collect(args)];
      outcomes := outcomes[i := Fulfilled(Collect(args))];
      count := count - 1;
      if count == 0 { master.Fire(Done, Call(Master, values)); }
    }

    /** The fail callback of input i is the master's `reject`. */
    method OnFail(i: nat, call: Call)
      requires Ready() && i < |inputs| && CanSettle(View(), i)
      modifies this, master, master.done, master.fail, master.progress
      ensures View() == BooksAfter(old(View()), InputFail(i, call))
      ensures master.View() == Driven(old(master.View()), MasterAction(View(), InputFail(i, call)))
    {
      outcomes := outcomes[i := Refused(call)];
      firstRefusal := if firstRefusal.None? then Some(call) else firstRefusal;
      master.Fire(Fail, call);
    }

    /** The progress closure of input i. */
    method OnProgress(i: nat, args: seq<Value>)
      requires Ready() && i < |inputs| && Listening(View(), i)
      modifies this, master, master.done, master.fail, master.progress
      ensures View() == BooksAfter(old(View()), InputProgress(i, args))
      ensures master.View() == Driven(old(master.View()), MasterAction(View(), InputProgress(i, args)))
      ensures |progressValues| == |inputs| && CameAs(progressValues[i], args)
    {
      progressValues := progressValues[i := Collect(args)];
      master.Fire(Progress, Call(MasterPromise, progressValues));
    }
  }
}
