/**
 The state behind one jQuery callback list and the operations on it.

 User callbacks are arbitrary programs.  The fire loop is therefore cut at the points where
 foreign code runs: `Invoke` looks at the loop condition and enters the next callback (or ends
 the pass), `Return` is the moment that callback comes back.  Between the two, the callback may
 issue any of the public operations.  Each operation is a pure function of the state here; the
 class in CallbackObject.dfy performs the same operations in place.
 */
module CallbackLists {
  import opened Wrappers

  /** A JavaScript value as far as callbacks care. */
  datatype Value =
    Undefined | Number(n: int) | Array(items: seq<Value>) | PromiseRef(input: nat) | Master | MasterPromise

  /** One firing request: the context and the argument list. */
  datatype Call = Call(context: Value, args: seq<Value>)

  /** A function a list may hold: a user program, or one of the closures Deferred installs. */
  datatype Callback =
    | User(id: nat)
    | MarkResolved
    | MarkRejected
    | DisableDone
    | DisableFail
    | LockProgress

  /** An argument of `add`: functions are taken, arrays are flattened, anything else is skipped. */
  datatype Arg = Fn(fn: Callback) | Args(items: seq<Arg>) | Other

  /** One list slot.  The tag numbers registrations, so two adds of one function differ. */
  datatype Entry = Entry(fn: Callback, tag: nat)

  datatype Flags = Flags(once: bool, memory: bool, unique: bool, stopOnFalse: bool)

  /** The variable `memory`: undefined, `true`, or the last call. */
  datatype Memory = Unset | Fired | Remembered(call: Call)

  /** Where control stands in the fire loop of this list. */
  datatype Pass = NoPass | AtLoop(call: Call) | Running(call: Call, entry: Entry)

  /** The closure variables of one list. */
  datatype CallbackList = CallbackList(
    flags: Flags,
    list: Option<seq<Entry>>,
    stack: Option<seq<Call>>,
    memory: Memory,
    firing: bool,
    firingStart: nat,
    firingLength: int,
    firingIndex: int,
    pass: Pass,
    nextTag: nat)

  function Fresh(flags: Flags): CallbackList {
    CallbackList(flags, Some([]), Some([]), Unset, false, 0, 0, 0, NoPass, 0)
  }

  // ---------------------------------------------------------------- add

  function Flatten(args: seq<Arg>): seq<Callback>
    decreases args
  {
    if args == [] then []
    else
      var first :=
        match args[0]
        case Fn(f) => [f]
        case Args(items) => Flatten(items)
        case Other => [];
      first + Flatten(args[1..])
  }

  predicate Has(list: seq<Entry>, fn: Callback) {
    exists i :: 0 <= i < |list| && list[i].fn == fn
  }

  /** Append the functions one at a time; a `unique` list skips those it already holds. */
  function Push(list: seq<Entry>, tag: nat, fns: seq<Callback>, unique: bool): (seq<Entry>, nat)
    decreases fns
  {
    if fns == [] then (list, tag)
    else if unique && Has(list, fns[0]) then Push(list, tag, fns[1..], unique)
    else Push(list + [Entry(fns[0], tag)], tag + 1, fns[1..], unique)
  }

  function Add(c: CallbackList, args: seq<Arg>): CallbackList {
    if c.list.None? then c
    else
      var start := |c.list.value|;
      var (list, tag) := Push(c.list.value, c.nextTag, Flatten(args), c.flags.unique);
      var c1 := c.(list := Some(list), nextTag := tag);
      if c.firing then c1.(firingLength := |list|)
      else if c.memory.Remembered? then BeginPass(c1.(firingStart := start), c.memory.call)
      else c1
  }

  // ---------------------------------------------------------------- remove

  datatype Cursor = Cursor(list: seq<Entry>, length: int, index: int)

  /** The inner removal loop for one function, from position i on. */
  function RemoveFrom(k: Cursor, firing: bool, unique: bool, fn: Callback, i: nat): Cursor
    requires i <= |k.list|
    decreases |k.list| - i
  {
    if i == |k.list| then k
    else if k.list[i].fn == fn then
      var k' := Cut(k, firing, i);
      if unique then k' else RemoveFrom(k', firing, unique, fn, i)
    else RemoveFrom(k, firing, unique, fn, i + 1)
  }

  /** Splice out position i, moving the loop bounds of a running pass. */
  function Cut(k: Cursor, firing: bool, i: nat): Cursor
    requires i < |k.list|
  {
    var within := firing && i <= k.length;
    Cursor(k.list[..i] + k.list[i + 1..],
           if within then k.length - 1 else k.length,
           if within && i <= k.index then k.index - 1 else k.index)
  }

  function RemoveEach(k: Cursor, firing: bool, unique: bool, fns: seq<Callback>): Cursor
    decreases fns
  {
    if fns == [] then k
    else RemoveEach(RemoveFrom(k, firing, unique, fns[0], 0), firing, unique, fns[1..])
  }

  function Remove(c: CallbackList, fns: seq<Callback>): CallbackList {
    if c.list.None? then c
    else
      var k := RemoveEach(Cursor(c.list.value, c.firingLength, c.firingIndex), c.firing, c.flags.unique, fns);
      c.(list := Some(k.list), firingLength := k.length, firingIndex := k.index)
  }

  // ---------------------------------------------------------------- disable, lock, fireWith, empty

  function Disable(c: CallbackList): CallbackList {
    c.(list := None, stack := None, memory := Unset)
  }

  function Lock(c: CallbackList): CallbackList {
    var c1 := c.(stack := None);
    if c.memory.Remembered? then c1 else Disable(c1)
  }

  function Empty(c: CallbackList): CallbackList {
    c.(list := Some([]))
  }

  /** Whether `fireWith` starts a pass now. */
  predicate FiresNow(c: CallbackList) {
    c.stack.Some? && !c.firing && !(c.flags.once && c.memory != Unset)
  }

  /** Whether `fireWith` puts the call on the stack for later. */
  predicate Queues(c: CallbackList) {
    c.stack.Some? && c.firing && !c.flags.once
  }

  function FireWith(c: CallbackList, call: Call): CallbackList
    requires c.stack.Some? ==> c.list.Some?
  {
    if FiresNow(c) then BeginPass(c, call)
    else if Queues(c) then c.(stack := Some(c.stack.value + [call]))
    else c
  }

  // ---------------------------------------------------------------- the fire loop

  /** The head of `fire`.  Passes of one list never nest: every caller shows that none is running. */
  function BeginPass(c: CallbackList, call: Call): CallbackList
    requires !c.firing && c.list.Some?
  {
    c.(memory := if c.flags.memory then Remembered(call) else Fired,
       firing := true,
       firingIndex := c.firingStart,
       firingStart := 0,
       firingLength := |c.list.value|,
       pass := AtLoop(call))
  }

  /** The loop condition. */
  predicate HasNext(c: CallbackList) {
    c.list.Some? && c.firingIndex < c.firingLength
  }

  /** One test of the loop condition, then either the next callback is entered or the pass ends. */
  function Invoke(c: CallbackList): CallbackList
    requires c.pass.AtLoop?
    requires HasNext(c) ==> 0 <= c.firingIndex < |c.list.value|
  {
    if HasNext(c) then c.(pass := Running(c.pass.call, c.list.value[c.firingIndex]))
    else EndPass(c)
  }

  /** The running callback comes back; `isFalse` tells whether it returned `false`. */
  function Return(c: CallbackList, isFalse: bool): CallbackList
    requires c.pass.Running?
  {
    if isFalse && c.flags.stopOnFalse then EndPass(c.(memory := Fired))
    else c.(firingIndex := c.firingIndex + 1, pass := AtLoop(c.pass.call))
  }

  /** After the loop: start the oldest queued call, or apply the `once` rule. */
  function EndPass(c: CallbackList): CallbackList {
    var c1 := c.(firing := false, pass := NoPass);
    if c.list.None? then c1
    else if !c.flags.once then
      if c.stack.Some? && |c.stack.value| > 0 then
        var next := c.stack.value[0];
        FireWith(c1.(stack := Some(c.stack.value[1..]), memory := Remembered(next)), next)
      else c1
    else if c.memory == Fired then Disable(c1)
    else c1.(list := Some([]))
  }

  // ---------------------------------------------------------------- well-formed lists

  predicate Ordered(s: seq<Entry>) {
    forall i, j :: 0 <= i < j < |s| ==> s[i].tag < s[j].tag
  }

  predicate TagsBelow(s: seq<Entry>, n: nat) {
    forall i :: 0 <= i < |s| ==> s[i].tag < n
  }

  predicate DistinctFns(s: seq<Entry>) {
    forall i, j :: 0 <= i < j < |s| ==> s[i].fn != s[j].fn
  }

  /** How many entries of the list the running pass has entered or skipped. */
  function Entered(c: CallbackList): int {
    if c.pass.Running? then c.firingIndex + 1 else c.firingIndex
  }

  predicate Valid(c: CallbackList) {
    && (c.firing <==> !c.pass.NoPass?)
    && c.firingStart == 0
    && (c.stack.Some? ==> c.list.Some?)
    && (c.stack.Some? && (!c.firing || c.flags.once) ==> c.stack.value == [])
    && (c.memory.Remembered? ==> c.flags.memory)
    && (c.list.Some? ==>
      && Ordered(c.list.value) && TagsBelow(c.list.value, c.nextTag)
      && (c.flags.unique ==> DistinctFns(c.list.value))
      && (c.firing ==>
        && c.firingLength == |c.list.value|
        && 0 <= Entered(c) <= |c.list.value|))
  }
}
