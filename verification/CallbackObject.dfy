/**
 The callback list as jQuery keeps it: closure variables updated in place, with the flattening,
 searching and splicing loops.  Every method is proved to do what the function of CallbackLists does.
 */
module CallbackObject {
  import opened Wrappers
  import opened CallbackLists

  lemma {:induction false} PushConcat(list: seq<Entry>, tag: nat, a: seq<Callback>, b: seq<Callback>, unique: bool)
    ensures Push(list, tag, a + b, unique)
         == Push(Push(list, tag, a, unique).0, Push(list, tag, a, unique).1, b, unique)
    decreases a
  {
    if a == [] {
      assert a + b == b;
    } else {
      assert (a + b)[1..] == a[1..] + b;
      if unique && Has(list, a[0]) {
        PushConcat(list, tag, a[1..], b, unique);
      } else {
        PushConcat(list + [Entry(a[0], tag)], tag + 1, a[1..], b, unique);
      }
    }
  }

  lemma {:induction false} FlattenConcat(a: seq<Arg>, b: seq<Arg>)
    ensures Flatten(a + b) == Flatten(a) + Flatten(b)
  {
    if a == [] {
      assert a + b == b;
    } else {
      assert (a + b)[1..] == a[1..] + b;
      FlattenConcat(a[1..], b);
    }
  }

  lemma FlattenAround(a: seq<Arg>, items: seq<Arg>, b: seq<Arg>)
    ensures Flatten(a + items + b) == Flatten(a) + Flatten(items) + Flatten(b)
  {
    FlattenConcat(a + items, b);
    FlattenConcat(a, items);
  }

  lemma FlattenOne(x: Arg)
    ensures Flatten([x]) == match x case Fn(f) => [f] case Args(items) => Flatten(items) case Other => []
  {
  }

  /** An array counts as the arguments it holds, a function as itself, anything else not at all. */
  lemma FlattenLeaves(a: seq<Arg>, items: seq<Arg>, f: Callback, b: seq<Arg>)
    ensures Flatten(a + [Args(items)] + b) == Flatten(a + items + b)
    ensures Flatten(a + [Fn(f)] + b) == Flatten(a) + [f] + Flatten(b)
    ensures Flatten(a + [Other] + b) == Flatten(a) + Flatten(b)
  {
    FlattenAround(a, [Args(items)], b);
    FlattenAround(a, items, b);
    FlattenAround(a, [Fn(f)], b);
    FlattenAround(a, [Other], b);
    FlattenOne(Args(items));
    FlattenOne(Fn(f));
    FlattenOne(Other);
    assert Flatten(a) + [] == Flatten(a);
  }

  lemma {:induction false} RemoveEachSnoc(k: Cursor, firing: bool, unique: bool, fns: seq<Callback>, fn: Callback)
    ensures RemoveEach(k, firing, unique, fns + [fn])
         == RemoveFrom(RemoveEach(k, firing, unique, fns), firing, unique, fn, 0)
    decreases fns
  {
    if fns == [] {
      assert fns + [fn] == [fn];
      assert [fn][1..] == [];
    } else {
      assert (fns + [fn])[1..] == fns[1..] + [fn];
      RemoveEachSnoc(RemoveFrom(k, firing, unique, fns[0], 0), firing, unique, fns[1..], fn);
    }
  }

  class Callbacks {
    const flags: Flags
    var list: Option<seq<Entry>>
    var stack: Option<seq<Call>>
    var memory: Memory
    var firing: bool
    var firingStart: nat
    var firingLength: int
    var firingIndex: int
    var pass: Pass
    var nextTag: nat

    ghost function View(): CallbackList
      reads this
    {
      CallbackList(flags, list, stack, memory, firing, firingStart, firingLength, firingIndex, pass, nextTag)
    }

    constructor (flags: Flags)
      ensures View() == Fresh(flags)
    {
      this.flags := flags;
      list, stack, memory := Some([]), Some([]), Unset;
      firing, firingStart, firingLength, firingIndex := false, 0, 0, 0;
      pass, nextTag := NoPass, 0;
    }

    method HasFunction(fn: Callback) returns (found: bool)
      ensures found == (list.Some? && Has(list.value, fn))
    {
      if list.None? { return false; }
      for i := 0 to |list.value|
        invariant forall j :: 0 <= j < i ==> list.value[j].fn != fn
      {
        if list.value[i].fn == fn { return true; }
      }
      return false;
    }

    /** The recursive adder: functions are appended, arrays entered, anything else ignored. */
    method AddArguments(args: seq<Arg>)
      requires list.Some?
      modifies this`list, this`nextTag
      ensures list.Some?
      ensures (list.value, nextTag) == Push(old(list.value), old(nextTag), Flatten(args), flags.unique)
      decreases args
    {
      ghost var list0, tag0 := list.value, nextTag;
      for i := 0 to |args|
        invariant list.Some?
        invariant (list.value, nextTag) == Push(list0, tag0, Flatten(args[..i]), flags.unique)
      {
        FlattenConcat(args[..i], [args[i]]);
        assert args[..i + 1] == args[..i] + [args[i]];
        ghost var mid, midTag := list.value, nextTag;
        match args[i] {
          case Args(items) =>
            AddArguments(items);
            assert Flatten([args[i]]) == Flatten(items);
          case Fn(f) =>
            var present := HasFunction(f);
            if !flags.unique || !present {
              list := Some(list.value + [Entry(f, nextTag)]);
              nextTag := nextTag + 1;
            }
            assert Flatten([args[i]]) == [f];
          case Other =>
            assert Flatten([args[i]]) == [];
        }
        assert (list.value, nextTag) == Push(mid, midTag, Flatten([args[i]]), flags.unique);
        PushConcat(list0, tag0, Flatten(args[..i]), Flatten([args[i]]), flags.unique);
      }
      assert args[..|args|] == args;
    }

    method Add(args: seq<Arg>)
      modifies this
      ensures View() == CallbackLists.Add(old(View()), args)
    {
      if list.Some? {
        var length := |list.value|;
        AddArguments(args);
        if firing {
          firingLength := |list.value|;
        } else if memory.Remembered? {
          firingStart := length;
          Begin(memory.call);
        }
      }
    }

    method Remove(fns: seq<Callback>)
      modifies this
      ensures View() == CallbackLists.Remove(old(View()), fns)
    {
      if list.None? { return; }
      ghost var start := Cursor(list.value, firingLength, firingIndex);
      for a := 0 to |fns|
        invariant list.Some?
        invariant Cursor(list.value, firingLength, firingIndex) == RemoveEach(start, firing, flags.unique, fns[..a])
        invariant View() == old(View()).(list := list, firingLength := firingLength, firingIndex := firingIndex)
      {
        ghost var goal := RemoveFrom(Cursor(list.value, firingLength, firingIndex), firing, flags.unique, fns[a], 0);
        var i := 0;
        while i < |list.value|
          invariant list.Some? && 0 <= i <= |list.value|
          invariant RemoveFrom(Cursor(list.value, firingLength, firingIndex), firing, flags.unique, fns[a], i) == goal
          invariant View() == old(View()).(list := list, firingLength := firingLength, firingIndex := firingIndex)
          decreases |list.value| - i
        {
          if list.value[i].fn == fns[a] {
            if firing {
              if i <= firingLength {
                firingLength := firingLength - 1;
                if i <= firingIndex { firingIndex := firingIndex - 1; }
              }
            }
            list := Some(list.value[..i] + list.value[i + 1..]);
            if flags.unique { break; }
          } else {
            i := i + 1;
          }
        }
        assert Cursor(list.value, firingLength, firingIndex) == goal;
        RemoveEachSnoc(start, firing, flags.unique, fns[..a], fns[a]);
        assert fns[..a + 1] == fns[..a] + [fns[a]];
      }
      assert fns[..|fns|] == fns;
    }

    method Empty()
      modifies this
      ensures View() == CallbackLists.Empty(old(View()))
    {
      list := Some([]);
    }

    method Disable()
      modifies this
      ensures View() == CallbackLists.Disable(old(View()))
    {
      list, stack, memory := None, None, Unset;
    }

    method Lock()
      modifies this
      ensures View() == CallbackLists.Lock(old(View()))
    {
      stack := None;
      if !memory.Remembered? { Disable(); }
    }

    method FireWith(call: Call)
      requires stack.Some? ==> list.Some?
      modifies this
      ensures View() == CallbackLists.FireWith(old(View()), call)
    {
      if stack.Some? {
        if firing {
          if !flags.once { stack := Some(stack.value + [call]); }
        } else if !(flags.once && memory != Unset) {
          Begin(call);
        }
      }
    }

    /** The head of the fire function, up to the first test of the loop condition. */
    method Begin(call: Call)
      requires !firing && list.Some?
      modifies this
      ensures View() == BeginPass(old(View()), call)
    {
      memory := if flags.memory then Remembered(call) else Fired;
      firing := true;
      firingIndex := firingStart;
      firingStart := 0;
      firingLength := |list.value|;
      pass := AtLoop(call);
    }

    method Invoke() returns (entered: Option<Callback>)
      requires pass.AtLoop? && Valid(View())
      modifies this
      ensures View() == CallbackLists.Invoke(old(View()))
      ensures entered == if pass.Running? then Some(pass.entry.fn) else None
    {
      if list.Some? && firingIndex < firingLength {
        pass := Running(pass.call, list.value[firingIndex]);
        entered := Some(pass.entry.fn);
      } else {
        End();
        entered := None;
      }
    }

    method Return(isFalse: bool)
      requires pass.Running?
      modifies this
      ensures View() == CallbackLists.Return(old(View()), isFalse)
    {
      if isFalse && flags.stopOnFalse {
        memory := Fired;
        End();
      } else {
        firingIndex := firingIndex + 1;
        pass := AtLoop(pass.call);
      }
    }

    /** The tail of the fire function, after its loop. */
    method End()
      modifies this
      ensures View() == EndPass(old(View()))
    {
      firing, pass := false, NoPass;
      if list.Some? {
        if !flags.once {
          if stack.Some? && |stack.value| > 0 {
            var next := stack.value[0];
            stack := Some(stack.value[1..]);
            memory := Remembered(next);
            FireWith(next);
          }
        } else if memory == Fired {
          Disable();
        } else {
          list := Some([]);
        }
      }
    }
  }
}
