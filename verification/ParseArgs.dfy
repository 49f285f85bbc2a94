/**
 Tcl_ParseArgsObjv: the argument loop over a table of options, its leftovers array and its write-back.

 Conversions and FUNC handlers are oracles; a handler may depend on everything that happened before.
 GENFUNC rows, whose handlers may change the argument count at will, are not part of this model.
 */
module ParseArgs {
  import opened Wrappers
  import opened OptionLookup

  datatype Obj = Obj(str: string, id: nat)

  datatype Stored = Integer(n: int) | Text(s: string) | Float(r: real)

  /** Effects on the caller's variables, in order. */
  datatype Effect = Write(slot: nat, value: Stored) | Handled(row: nat, arg: Option<Obj>)

  datatype Kind =
    | Constant(slot: nat, value: int)
    | IntArg(slot: nat)
    | StringArg(slot: nat)
    | FloatArg(slot: nat)
    | Rest(target: Option<nat>)
    | Func
    | Help
    | BadType

  datatype Row = Row(key: Key, kind: Kind)

  datatype Oracles = Oracles(
    toInt: Obj -> Option<int>,
    toDouble: Obj -> Option<real>,
    handler: (nat, Option<Obj>, seq<Effect>) -> bool)

  function Keys(table: seq<Row>): seq<Key> {
    seq(|table|, i requires 0 <= i < |table| => table[i].key)
  }

  // ---------------------------------------------------------------- one matched option

  /** What a matched option does: fail, go on (having taken the next argument or not), or end the options. */
  datatype Action = Fail | GoOn(taken: bool) | EndOptions

  /** `index` is the position the rest would have among the leftovers. */
  function Act(row: nat, kind: Kind, next: Option<Obj>, index: nat, past: seq<Effect>, o: Oracles)
      : (Action, seq<Effect>)
  {
    match kind
    case Constant(slot, value) => (GoOn(false), past + [Write(slot, Integer(value))])
    case IntArg(slot) =>
      if next.None? || o.toInt(next.value).None? then (Fail, past)
      else (GoOn(true), past + [Write(slot, Integer(o.toInt(next.value).value))])
    case StringArg(slot) =>
      if next.None? then (Fail, past) else (GoOn(true), past + [Write(slot, Text(next.value.str))])
    case FloatArg(slot) =>
      if next.None? || o.toDouble(next.value).None? then (Fail, past)
      else (GoOn(true), past + [Write(slot, Float(o.toDouble(next.value).value))])
    case Rest(target) =>
      (EndOptions, if target.Some? then past + [Write(target.value, Integer(index))] else past)
    case Func => (GoOn(o.handler(row, next, past)), past + [Handled(row, next)])
    case Help => (Fail, past)
    case BadType => (Fail, past)
  }

  // ---------------------------------------------------------------- the recursive specification

  datatype Outcome = Failure(effects: seq<Effect>) | Success(left: seq<Obj>, rest: seq<Obj>, effects: seq<Effect>)

  /** Drop one argument, if there is one. */
  function Drop(args: seq<Obj>): seq<Obj> {
    if args == [] then [] else args[1..]
  }

  function NextOf(args: seq<Obj>): Option<Obj> {
    if args == [] then None else Some(args[0])
  }

  /** `keep` tells whether the caller wants leftovers; `left` holds those found so far. */
  function Parse(table: seq<Row>, args: seq<Obj>, keep: bool, o: Oracles, left: seq<Obj>, past: seq<Effect>): Outcome
    decreases |args|
  {
    if args == [] then Success(left, [], past)
    else
      match Lookup(Keys(table), args[0].str)
      case Ambiguous => Failure(past)
      case Unrecognized =>
        if keep then Parse(table, args[1..], keep, o, left + [args[0]], past) else Failure(past)
      case Entry(i) =>
        var (action, past') := Act(i, table[i].kind, NextOf(args[1..]), 1 + |left|, past, o);
        match action
        case Fail => Failure(past')
        case EndOptions => Success(left, args[1..], past')
        case GoOn(taken) =>
          Parse(table, if taken then Drop(args[1..]) else args[1..], keep, o, left, past')
  }

  // ---------------------------------------------------------------- the argument loop

  /** The caller's side: the count, the leftovers pointer and everything written through the table. */
  class Caller {
    var objc: nat
    var remObjv: array<Option<Obj>>
    var effects: seq<Effect>

    constructor (objc: nat)
      ensures this.objc == objc && effects == [] && fresh(remObjv)
    {
      this.objc, effects := objc, [];
      remObjv := new Option<Obj>[0];
    }
  }

  function Wrap(s: seq<Obj>): seq<Option<Obj>> {
    seq(|s|, i requires 0 <= i < |s| => Some(s[i]))
  }

  /** The switch on the option type; `next` is the next argument, or None when there is none. */
  method TakeAction(row: nat, kind: Kind, next: Option<Obj>, dstIndex: nat, caller: Caller, o: Oracles)
      returns (action: Action)
    modifies caller`effects
    ensures (action, caller.effects) == Act(row, kind, next, dstIndex, old(caller.effects), o)
  {
    match kind {
      case Constant(slot, value) =>
        caller.effects := caller.effects + [Write(slot, Integer(value))];
        action := GoOn(false);
      case IntArg(slot) =>
        if next.None? { return Fail; }
        var n := o.toInt(next.value);
        if n.None? { return Fail; }
        caller.effects := caller.effects + [Write(slot, Integer(n.value))];
        action := GoOn(true);
      case StringArg(slot) =>
        if next.None? { return Fail; }
        caller.effects := caller.effects + [Write(slot, Text(next.value.str))];
        action := GoOn(true);
      case FloatArg(slot) =>
        if next.None? { return Fail; }
        var r := o.toDouble(next.value);
        if r.None? { return Fail; }
        caller.effects := caller.effects + [Write(slot, Float(r.value))];
        action := GoOn(true);
      case Rest(target) =>
        if target.Some? { caller.effects := caller.effects + [Write(target.value, Integer(dstIndex))]; }
        action := EndOptions;
      case Func =>
        var taken := o.handler(row, next, caller.effects);
        caller.effects := caller.effects + [Handled(row, next)];
        action := GoOn(taken);
      case Help => action := Fail;
      case BadType => action := Fail;
    }
  }

  /** The loop variables. */
  datatype Position = Position(srcIndex: nat, dstIndex: nat, objc: int, nrem: nat)

  /** The arguments still to process; a handler that took a missing argument leaves objc at -1. */
  function Pending(objv: seq<Obj>, p: Position): seq<Obj>
    requires p.srcIndex + p.objc == |objv| && p.objc >= -1
  {
    if p.objc <= 0 then [] else objv[p.srcIndex..]
  }

  /** What the loop keeps: the indexes account for every argument, and the leftovers so far fit the buffer. */
  ghost predicate InStep(objv: seq<Obj>, keep: bool, p: Position, leftovers: array<Option<Obj>>, left: seq<Obj>)
    reads leftovers
  {
    && |objv| >= 1 && leftovers.Length == 1 + |objv|
    && p.srcIndex + p.objc == |objv| && p.objc >= -1
    && p.dstIndex == 1 + |left| <= p.srcIndex
    && p.dstIndex + (if p.objc > 0 then p.objc else 0) <= |objv|
    && (if keep then p.nrem == p.dstIndex && leftovers[..p.nrem] == Wrap([objv[0]] + left)
        else p.nrem == 0 && left == [])
  }

  datatype Flow = Error | Onward | ArgsDone

  /** An unrecognized argument is copied down. */
  method KeepArgument(objv: seq<Obj>, curArg: Obj, p: Position, leftovers: array<Option<Obj>>, ghost left: seq<Obj>)
      returns (q: Position, ghost left': seq<Obj>)
    requires InStep(objv, true, p, leftovers, left) && p.dstIndex < |objv| && p.dstIndex < p.srcIndex
    requires p.dstIndex + 1 + (if p.objc > 0 then p.objc else 0) <= |objv|
    modifies leftovers
    ensures left' == left + [curArg] && InStep(objv, true, q, leftovers, left')
    ensures q == p.(dstIndex := p.dstIndex + 1, nrem := p.nrem + 1)
  {
    leftovers[p.nrem] := Some(curArg);
    q := p.(dstIndex := p.dstIndex + 1, nrem := p.nrem + 1);
    left' := left + [curArg];
    assert leftovers[..q.nrem] == Wrap([objv[0]] + left) + [Some(curArg)];
    assert Wrap([objv[0]] + left') == Wrap([objv[0]] + left) + [Some(curArg)];
  }

  /** One turn of the loop. */
  method Turn(table: seq<Row>, objv: seq<Obj>, keep: bool, caller: Caller, o: Oracles,
              p: Position, leftovers: array<Option<Obj>>, ghost left: seq<Obj>)
      returns (flow: Flow, q: Position, ghost left': seq<Obj>)
    requires InStep(objv, keep, p, leftovers, left) && p.objc > 0
    modifies caller`effects, leftovers
    ensures flow != Error ==> InStep(objv, keep, q, leftovers, left') && q.objc < p.objc
    ensures var now := Parse(table, Pending(objv, p), keep, o, left, old(caller.effects));
      match flow
      case Error => now == Failure(caller.effects)
      case Onward => now == Parse(table, Pending(objv, q), keep, o, left', caller.effects)
      case ArgsDone => now == Success(left', Pending(objv, q), caller.effects)
  {
    var curArg := objv[p.srcIndex];
    assert objv[p.srcIndex..][1..] == objv[p.srcIndex + 1..];
    q := p.(srcIndex := p.srcIndex + 1, objc := p.objc - 1);
    left' := left;
    var found := FindOption(Keys(table), curArg.str);
    match found {
      case Ambiguous => flow := Error;
      case Unrecognized =>
        if !keep { return Error, q, left; }
        q, left' := KeepArgument(objv, curArg, q, leftovers, left);
        flow := Onward;
      case Entry(i) =>
        flow, q := TakeOption(i, table[i].kind, objv, q, caller, o);
    }
  }

  /** A recognized option acts, and takes the next argument with it when it wants to. */
  method TakeOption(row: nat, kind: Kind, objv: seq<Obj>, p: Position, caller: Caller, o: Oracles)
      returns (flow: Flow, q: Position)
    requires p.srcIndex + p.objc == |objv| && p.objc >= 0
    modifies caller`effects
    ensures q == p || q == p.(srcIndex := p.srcIndex + 1, objc := p.objc - 1)
    ensures var (action, effects) := Act(row, kind, NextOf(Pending(objv, p)), p.dstIndex, old(caller.effects), o);
      && caller.effects == effects
      && match action
         case Fail => flow == Error
         case EndOptions => flow == ArgsDone && q == p
         case GoOn(taken) =>
           && flow == Onward
           && Pending(objv, q) == (if taken then Drop(Pending(objv, p)) else Pending(objv, p))
  {
    q := p;
    var next := if p.objc == 0 then None else Some(objv[p.srcIndex]);
    var action := TakeAction(row, kind, next, p.dstIndex, caller, o);
    match action {
      case Fail => flow := Error;
      case EndOptions => flow := ArgsDone;
      case GoOn(taken) =>
        if taken { q := p.(srcIndex := p.srcIndex + 1, objc := p.objc - 1); }
        flow := Onward;
    }
  }

  /**
   The parser.  `keep` is remObjv != NULL.  The caller passes the command name as argument 0.  On success
   the leftovers are the name, the unrecognized arguments and everything after a REST option, with a NULL
   behind them; on failure, or when nothing is kept, the count and the pointer are as they were.
   */
  method ParseArgsObjv(table: seq<Row>, objv: seq<Obj>, keep: bool, caller: Caller, o: Oracles) returns (ok: bool)
    requires 1 <= |objv| && caller.objc == |objv|
    modifies caller
    ensures var outcome := Parse(table, objv[1..], keep, o, [], old(caller.effects));
      && ok == outcome.Success?
      && caller.effects == outcome.effects
      && (ok && keep ==>
           && caller.objc == 1 + |outcome.left| + |outcome.rest|
           && caller.remObjv[..] == Wrap([objv[0]] + outcome.left + outcome.rest) + [None])
      && (!(ok && keep) ==> caller.objc == |objv| && caller.remObjv == old(caller.remObjv))
  {
    ghost var outcome := Parse(table, objv[1..], keep, o, [], caller.effects);
    var leftovers := new Option<Obj>[1 + caller.objc](_ => None);
    var p := Position(1, 1, caller.objc - 1, 0);
    if keep {
      leftovers[0] := Some(objv[0]);
      p := p.(nrem := 1);
    }
    ghost var left: seq<Obj> := [];
    var flow := Onward;
    while p.objc > 0 && flow == Onward
      invariant flow != Error && InStep(objv, keep, p, leftovers, left)
      invariant caller.objc == |objv| && caller.remObjv == old(caller.remObjv)
      invariant outcome ==
        if flow == Onward then Parse(table, Pending(objv, p), keep, o, left, caller.effects)
        else Success(left, Pending(objv, p), caller.effects)
      decreases p.objc
    {
      flow, p, left := Turn(table, objv, keep, caller, o, p, leftovers, left);
      if flow == Error { return false; }
    }
    if keep { Finish(objv, p, leftovers, left, caller); }
    return true;
  }

  /** argsDone: copy the rest behind the leftovers, terminate with NULL and shrink the buffer to size. */
  method Finish(objv: seq<Obj>, p: Position, leftovers: array<Option<Obj>>, ghost left: seq<Obj>, caller: Caller)
    requires InStep(objv, true, p, leftovers, left)
    modifies caller`objc, caller`remObjv, leftovers
    ensures caller.objc == 1 + |left| + |Pending(objv, p)|
    ensures caller.remObjv[..] == Wrap([objv[0]] + left + Pending(objv, p)) + [None]
  {
    var n := p.nrem;
    ghost var kept := leftovers[..p.nrem];
    ghost var rest := Pending(objv, p);
    if p.objc > 0 {
      forall k | 0 <= k < p.objc { leftovers[p.nrem + k] := Some(objv[p.srcIndex + k]); }
      n := p.nrem + p.objc;
    }
    leftovers[n] := None;
    assert leftovers[..p.nrem] == kept;
    assert leftovers[p.nrem..n] == Wrap(rest);
    caller.objc := n;
    caller.remObjv := Shrink(leftovers, n + 1);
    assert caller.remObjv[..] == leftovers[..p.nrem] + leftovers[p.nrem..n] + [None];
  }

  /** ckrealloc to a smaller size: the first n elements survive. */
  method Shrink(a: array<Option<Obj>>, n: nat) returns (b: array<Option<Obj>>)
    requires n <= a.Length
    ensures fresh(b) && b[..] == a[..n]
  {
    b := new Option<Obj>[n](k requires 0 <= k < n <= a.Length reads a => a[k]);
  }
}
