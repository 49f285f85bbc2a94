/** What the argument parser guarantees about the arguments as a whole. */
module ParseTheorems {
  import opened Wrappers
  import opened OptionLookup
  import opened ParseArgs

  /**
   What became of one argument.  A parse that fails does so at a `Rejected` argument and leaves those
   behind it `Unread`; a successful parse has neither.
   */
  datatype Role = Leftover | Keyword | Value | Trailing | Rejected | Unread

  /** The roles of all arguments, assigned along the way. */
  function Roles(table: seq<Row>, args: seq<Obj>, keep: bool, o: Oracles, left: seq<Obj>, past: seq<Effect>)
      : (r: seq<Role>)
    ensures |r| == |args|
    decreases |args|
  {
    if args == [] then []
    else
      match Lookup(Keys(table), args[0].str)
      case Ambiguous => StoppedAt(|args|)
      case Unrecognized =>
        if keep then [Leftover] + Roles(table, args[1..], keep, o, left + [args[0]], past) else StoppedAt(|args|)
      case Entry(i) =>
        var (action, past') := Act(i, table[i].kind, NextOf(args[1..]), 1 + |left|, past, o);
        match action
        case Fail => StoppedAt(|args|)
        case EndOptions => [Keyword] + seq(|args| - 1, i => Trailing)
        case GoOn(taken) =>
          if taken && |args| > 1 then [Keyword, Value] + Roles(table, args[2..], keep, o, left, past')
          else [Keyword] + Roles(table, args[1..], keep, o, left, past')
  }

  function StoppedAt(n: nat): (r: seq<Role>)
    requires n > 0
    ensures |r| == n
  {
    [Rejected] + seq(n - 1, i => Unread)
  }

  /** The arguments with a given role, in order. */
  function Select(args: seq<Obj>, roles: seq<Role>, role: Role): seq<Obj>
    requires |args| == |roles|
  {
    if args == [] then []
    else (if roles[0] == role then [args[0]] else []) + Select(args[1..], roles[1..], role)
  }

  lemma {:induction false} SelectAll(args: seq<Obj>, roles: seq<Role>, role: Role, other: Role)
    requires |args| == |roles| && role != other && forall i :: 0 <= i < |roles| ==> roles[i] == role
    ensures Select(args, roles, role) == args && Select(args, roles, other) == []
  {
    if args == [] {
    } else {
      assert roles[0] == role;
      SelectAll(args[1..], roles[1..], role, other);
    }
  }

  /** Each role says what it should: keywords are recognized, leftovers not, a value follows a keyword. */
  predicate RolesFit(table: seq<Row>, args: seq<Obj>, roles: seq<Role>)
    requires |args| == |roles|
  {
    && (forall i :: 0 <= i < |args| && roles[i] == Leftover ==> Lookup(Keys(table), args[i].str) == Unrecognized)
    && (forall i :: 0 <= i < |args| && roles[i] == Keyword ==> Lookup(Keys(table), args[i].str).Entry?)
    && (forall i :: 0 <= i < |args| && roles[i] == Value ==> i > 0 && roles[i - 1] == Keyword)
    && (forall i, j :: 0 <= i < j < |args| && roles[i] == Trailing ==> roles[j] == Trailing)
    && (forall i :: 0 <= i < |args| ==> roles[i] != Rejected && roles[i] != Unread)
  }

  lemma RolesFitCons(table: seq<Row>, args: seq<Obj>, roles: seq<Role>)
    requires |args| == |roles| > 0 && RolesFit(table, args[1..], roles[1..])
    requires roles[0] == Leftover ==> Lookup(Keys(table), args[0].str) == Unrecognized
    requires roles[0] == Keyword ==> Lookup(Keys(table), args[0].str).Entry?
    requires roles[0] == Leftover || roles[0] == Keyword
    ensures RolesFit(table, args, roles)
  {
    forall i | 0 < i < |args| ensures args[i] == args[1..][i - 1] && roles[i] == roles[1..][i - 1] {}
  }

  lemma RolesFitKeywordValue(table: seq<Row>, args: seq<Obj>, roles: seq<Role>)
    requires |args| == |roles| > 1 && RolesFit(table, args[2..], roles[2..])
    requires roles[0] == Keyword && Lookup(Keys(table), args[0].str).Entry? && roles[1] == Value
    ensures RolesFit(table, args, roles)
  {
    forall i | 1 < i < |args| ensures args[i] == args[2..][i - 2] && roles[i] == roles[2..][i - 2] {}
  }

  lemma TrailingFit(table: seq<Row>, args: seq<Obj>, roles: seq<Role>)
    requires |args| == |roles| && forall i :: 0 <= i < |roles| ==> roles[i] == Trailing
    ensures RolesFit(table, args, roles)
  {
  }

  /**
   Every argument of a successful parse has exactly one role: the leftovers reported are those not
   recognized, in their original order; the rest is everything after the option that ended the options;
   all others are keywords or the values they took.
   */
  lemma {:induction false} EveryArgumentAccountedFor(
    table: seq<Row>, args: seq<Obj>, keep: bool, o: Oracles, left: seq<Obj>, past: seq<Effect>)
    requires Parse(table, args, keep, o, left, past).Success?
    ensures Accounted(table, args, keep, o, left, past)
    decreases |args|, 1
  {
    if args == [] {
    } else {
      match Lookup(Keys(table), args[0].str)
      case Unrecognized =>
        EveryArgumentAccountedFor(table, args[1..], keep, o, left + [args[0]], past);
        LeftoverAccounted(table, args, keep, o, left, past);
      case Entry(i) =>
        KeywordAccounted(table, args, keep, o, left, past, i);
    }
  }

  ghost predicate Accounted(
    table: seq<Row>, args: seq<Obj>, keep: bool, o: Oracles, left: seq<Obj>, past: seq<Effect>)
    requires Parse(table, args, keep, o, left, past).Success?
  {
    var out := Parse(table, args, keep, o, left, past);
    var roles := Roles(table, args, keep, o, left, past);
    && RolesFit(table, args, roles)
    && out.left == left + Select(args, roles, Leftover)
    && out.rest == Select(args, roles, Trailing)
  }

  lemma {:induction false} KeywordAccounted(
    table: seq<Row>, args: seq<Obj>, keep: bool, o: Oracles, left: seq<Obj>, past: seq<Effect>, i: nat)
    requires Parse(table, args, keep, o, left, past).Success?
    requires args != [] && Lookup(Keys(table), args[0].str) == Entry(i)
    ensures Accounted(table, args, keep, o, left, past)
    decreases |args|, 0
  {
    var roles := Roles(table, args, keep, o, left, past);
    var (action, past') := Act(i, table[i].kind, NextOf(args[1..]), 1 + |left|, past, o);
    SelectKeyword(args, roles);
    if action.EndOptions? {
      SelectAll(args[1..], roles[1..], Trailing, Leftover);
      TrailingFit(table, args[1..], roles[1..]);
      RolesFitCons(table, args, roles);
    } else if action.taken && |args| > 1 {
      SelectValue(args, roles);
      assert Drop(args[1..]) == args[2..];
      EveryArgumentAccountedFor(table, args[2..], keep, o, left, past');
      RolesFitKeywordValue(table, args, roles);
    } else {
      assert action.taken ==> Drop(args[1..]) == args[1..];
      EveryArgumentAccountedFor(table, args[1..], keep, o, left, past');
      RolesFitCons(table, args, roles);
    }
  }

  lemma LeftoverAccounted(
    table: seq<Row>, args: seq<Obj>, keep: bool, o: Oracles, left: seq<Obj>, past: seq<Effect>)
    requires Parse(table, args, keep, o, left, past).Success?
    requires args != [] && Lookup(Keys(table), args[0].str) == Unrecognized
    requires Accounted(table, args[1..], keep, o, left + [args[0]], past)
    ensures Accounted(table, args, keep, o, left, past)
  {
    var later := Roles(table, args[1..], keep, o, left + [args[0]], past);
    LeftoverRole(table, args, [Leftover] + later, left);
  }

  /** A leftover in front of arguments whose roles fit. */
  lemma LeftoverRole(table: seq<Row>, args: seq<Obj>, roles: seq<Role>, left: seq<Obj>)
    requires |args| == |roles| > 0 && roles[0] == Leftover && RolesFit(table, args[1..], roles[1..])
    requires Lookup(Keys(table), args[0].str) == Unrecognized
    ensures RolesFit(table, args, roles)
    ensures (left + [args[0]]) + Select(args[1..], roles[1..], Leftover) == left + Select(args, roles, Leftover)
    ensures Select(args, roles, Trailing) == Select(args[1..], roles[1..], Trailing)
  {
    RolesFitCons(table, args, roles);
    SelectLeftover(args, roles);
    var kept := Select(args[1..], roles[1..], Leftover);
    assert (left + [args[0]]) + kept == left + ([args[0]] + kept);
  }

  lemma SelectLeftover(args: seq<Obj>, roles: seq<Role>)
    requires |args| == |roles| > 0 && roles[0] == Leftover
    ensures Select(args, roles, Leftover) == [args[0]] + Select(args[1..], roles[1..], Leftover)
    ensures Select(args, roles, Trailing) == Select(args[1..], roles[1..], Trailing)
  {
  }

  lemma SelectKeyword(args: seq<Obj>, roles: seq<Role>)
    requires |args| == |roles| > 0 && roles[0] == Keyword
    ensures Select(args, roles, Leftover) == Select(args[1..], roles[1..], Leftover)
    ensures Select(args, roles, Trailing) == Select(args[1..], roles[1..], Trailing)
  {
  }

  lemma SelectValue(args: seq<Obj>, roles: seq<Role>)
    requires |args| == |roles| > 1 && roles[1] == Value
    ensures Select(args[1..], roles[1..], Leftover) == Select(args[2..], roles[2..], Leftover)
    ensures Select(args[1..], roles[1..], Trailing) == Select(args[2..], roles[2..], Trailing)
  {
    assert args[1..][1..] == args[2..] && roles[1..][1..] == roles[2..];
  }

  /** Row `row` ended the options: its target, if it has one, got the index behind the leftovers, as the last effect. */
  predicate EndedBy(table: seq<Row>, row: nat, out: Outcome) {
    && out.Success? && row < |table| && table[row].kind.Rest?
    && (table[row].kind.target.Some? ==>
          && out.effects != []
          && out.effects[|out.effects| - 1] == Write(table[row].kind.target.value, Integer(1 + |out.left|)))
  }

  /** The row named by argument p ended the options, and the rest is exactly what follows that argument. */
  predicate EndedAt(table: seq<Row>, args: seq<Obj>, p: nat, out: Outcome)
  {
    && p < |args| && Lookup(Keys(table), args[p].str).Entry?
    && EndedBy(table, Lookup(Keys(table), args[p].str).index, out)
    && out.rest == args[p + 1..]
  }

  /** Argument p was taken as a keyword, and it names a REST option. */
  predicate RestKeyword(table: seq<Row>, args: seq<Obj>, roles: seq<Role>, p: nat)
    requires |args| == |roles|
  {
    && p < |args| && roles[p] == Keyword
    && Lookup(Keys(table), args[p].str).Entry?
    && table[Lookup(Keys(table), args[p].str).index].kind.Rest?
  }

  /**
   A REST keyword, wherever it stands, ends the options: the parse succeeds, the rest is exactly what
   follows the keyword, if anything does, and the index stored is where the rest begins.
   */
  lemma {:induction false} RestEndsOptions(
    table: seq<Row>, args: seq<Obj>, keep: bool, o: Oracles, left: seq<Obj>, past: seq<Effect>, p: nat)
    requires RestKeyword(table, args, Roles(table, args, keep, o, left, past), p)
    ensures EndedAt(table, args, p, Parse(table, args, keep, o, left, past))
    decreases |args|
  {
    var roles := Roles(table, args, keep, o, left, past);
    match Lookup(Keys(table), args[0].str)
    case Ambiguous =>
    case Unrecognized =>
      if keep {
        assert roles[1..] == Roles(table, args[1..], keep, o, left + [args[0]], past);
        KeywordBehind(table, args, roles, 1, p);
        RestEndsOptions(table, args[1..], keep, o, left + [args[0]], past, p - 1);
      }
    case Entry(i) =>
      RestBehindOption(table, args, keep, o, left, past, p, i);
  }

  /** An option that lets the loop go on: n arguments are dealt with, and the others are parsed as they are. */
  lemma OptionGoesOn(table: seq<Row>, args: seq<Obj>, keep: bool, o: Oracles, left: seq<Obj>, past: seq<Effect>, i: nat)
    returns (n: nat, later: seq<Effect>)
    requires args != [] && Lookup(Keys(table), args[0].str) == Entry(i)
    requires Act(i, table[i].kind, NextOf(args[1..]), 1 + |left|, past, o).0.GoOn?
    ensures later == Act(i, table[i].kind, NextOf(args[1..]), 1 + |left|, past, o).1
    ensures 1 <= n <= 2 && n <= |args|
    ensures Roles(table, args, keep, o, left, past)[0] == Keyword
    ensures n == 2 ==> Roles(table, args, keep, o, left, past)[1] == Value
    ensures Roles(table, args, keep, o, left, past)[n..] == Roles(table, args[n..], keep, o, left, later)
    ensures Parse(table, args, keep, o, left, past) == Parse(table, args[n..], keep, o, left, later)
    ensures !table[i].kind.Rest?
  {
    var (action, effects) := Act(i, table[i].kind, NextOf(args[1..]), 1 + |left|, past, o);
    n := if action.taken && |args| > 1 then 2 else 1;
    later := effects;
    assert args[n..] == if action.taken then Drop(args[1..]) else args[1..];
  }

  lemma {:induction false} RestBehindOption(
    table: seq<Row>, args: seq<Obj>, keep: bool, o: Oracles, left: seq<Obj>, past: seq<Effect>, p: nat, i: nat)
    requires RestKeyword(table, args, Roles(table, args, keep, o, left, past), p)
    requires Lookup(Keys(table), args[0].str) == Entry(i)
    ensures EndedAt(table, args, p, Parse(table, args, keep, o, left, past))
    decreases |args|, 0
  {
    if Act(i, table[i].kind, NextOf(args[1..]), 1 + |left|, past, o).0.GoOn? {
      var n, past' := OptionGoesOn(table, args, keep, o, left, past, i);
      KeywordBehind(table, args, Roles(table, args, keep, o, left, past), n, p);
      RestEndsOptions(table, args[n..], keep, o, left, past', p - n);
    } else {
      OptionEnds(table, args, keep, o, left, past, p, i);
    }
  }

  /** A REST keyword behind the first n arguments is one of the arguments behind those. */
  lemma KeywordBehind(table: seq<Row>, args: seq<Obj>, roles: seq<Role>, n: nat, p: nat)
    requires |args| == |roles| && RestKeyword(table, args, roles, p)
    requires 1 <= n <= 2 && n <= |args| && (n == 2 ==> roles[1] == Value)
    requires !RestKeyword(table, args, roles, 0)
    ensures p >= n && RestKeyword(table, args[n..], roles[n..], p - n)
    ensures forall out :: EndedAt(table, args[n..], p - n, out) ==> EndedAt(table, args, p, out)
  {
    assert args[n..][p - n + 1..] == args[p + 1..];
  }

  lemma OptionEnds(
    table: seq<Row>, args: seq<Obj>, keep: bool, o: Oracles, left: seq<Obj>, past: seq<Effect>, p: nat, i: nat)
    requires RestKeyword(table, args, Roles(table, args, keep, o, left, past), p)
    requires Lookup(Keys(table), args[0].str) == Entry(i)
    requires !Act(i, table[i].kind, NextOf(args[1..]), 1 + |left|, past, o).0.GoOn?
    ensures EndedAt(table, args, p, Parse(table, args, keep, o, left, past))
  {
  }

  /** Arguments trail only behind a REST keyword. */
  lemma {:induction false} TrailingNeedsRest(
    table: seq<Row>, args: seq<Obj>, keep: bool, o: Oracles, left: seq<Obj>, past: seq<Effect>, q: nat)
    requires q < |args| && Roles(table, args, keep, o, left, past)[q] == Trailing
    ensures exists p: nat :: RestKeyword(table, args, Roles(table, args, keep, o, left, past), p)
    decreases |args|
  {
    var roles := Roles(table, args, keep, o, left, past);
    match Lookup(Keys(table), args[0].str)
    case Ambiguous =>
    case Unrecognized =>
      if keep {
        var later := Roles(table, args[1..], keep, o, left + [args[0]], past);
        assert roles[1..] == later;
        TrailingNeedsRest(table, args[1..], keep, o, left + [args[0]], past, q - 1);
        var p: nat :| RestKeyword(table, args[1..], later, p);
        assert RestKeyword(table, args, roles, p + 1);
      }
    case Entry(i) =>
      var action := Act(i, table[i].kind, NextOf(args[1..]), 1 + |left|, past, o).0;
      if action.EndOptions? {
        assert RestKeyword(table, args, roles, 0);
      } else if action.GoOn? {
        var n, past' := OptionGoesOn(table, args, keep, o, left, past, i);
        var later := Roles(table, args[n..], keep, o, left, past');
        TrailingNeedsRest(table, args[n..], keep, o, left, past', q - n);
        var p: nat :| RestKeyword(table, args[n..], later, p);
        assert RestKeyword(table, args, roles, p + n);
      }
  }

  lemma {:induction false} SelectedRole(args: seq<Obj>, roles: seq<Role>, role: Role) returns (q: nat)
    requires |args| == |roles| && Select(args, roles, role) != []
    ensures q < |args| && roles[q] == role
  {
    if roles[0] == role {
      q := 0;
    } else {
      var k := SelectedRole(args[1..], roles[1..], role);
      q := k + 1;
    }
  }

  /** A rest that is not empty was left by a REST keyword. */
  lemma RestNeedsKeyword(
    table: seq<Row>, args: seq<Obj>, keep: bool, o: Oracles, left: seq<Obj>, past: seq<Effect>)
    requires Parse(table, args, keep, o, left, past).Success?
    requires Parse(table, args, keep, o, left, past).rest != []
    ensures exists p: nat :: RestKeyword(table, args, Roles(table, args, keep, o, left, past), p)
  {
    EveryArgumentAccountedFor(table, args, keep, o, left, past);
    var q := SelectedRole(args, Roles(table, args, keep, o, left, past), Trailing);
    TrailingNeedsRest(table, args, keep, o, left, past, q);
  }

  /** Behind the program's name and the leftovers, the arguments handed back are the rest. */
  lemma RestBehindLeft(name: Obj, left: seq<Obj>, rest: seq<Obj>)
    ensures Wrap([name] + left + rest)[1 + |left|..] == Wrap(rest)
  {
  }

  /**
   When anything follows the options, a REST option ended them, and the index it stored is where the rest
   begins among the arguments handed back.
   */
  lemma RestIndexPoints(
    table: seq<Row>, args: seq<Obj>, keep: bool, o: Oracles, left: seq<Obj>, past: seq<Effect>, name: Obj)
    requires Parse(table, args, keep, o, left, past).Success?
    ensures var out := Parse(table, args, keep, o, left, past);
      out.rest != [] ==> exists row :: EndedBy(table, row, out)
    ensures var out := Parse(table, args, keep, o, left, past);
      Wrap([name] + out.left + out.rest)[1 + |out.left|..] == Wrap(out.rest)
  {
    var out := Parse(table, args, keep, o, left, past);
    RestBehindLeft(name, out.left, out.rest);
    if out.rest != [] {
      RestNeedsKeyword(table, args, keep, o, left, past);
      var p: nat :| RestKeyword(table, args, Roles(table, args, keep, o, left, past), p);
      RestEndsOptions(table, args, keep, o, left, past, p);
    }
  }

  lemma {:induction false} UnrecognizedPassThrough(
    table: seq<Row>, args: seq<Obj>, o: Oracles, left: seq<Obj>, past: seq<Effect>)
    requires forall i :: 0 <= i < |args| ==> Lookup(Keys(table), args[i].str) == Unrecognized
    ensures Parse(table, args, true, o, left, past) == Success(left + args, [], past)
    decreases |args|
  {
    if args == [] {
    } else {
      UnrecognizedPassThrough(table, args[1..], o, left + [args[0]], past);
      assert (left + [args[0]]) + args[1..] == left + args;
    }
  }

  lemma {:induction false} SelectedFit(table: seq<Row>, args: seq<Obj>, roles: seq<Role>)
    requires |args| == |roles|
    requires forall i :: 0 <= i < |args| && roles[i] == Leftover ==> Lookup(Keys(table), args[i].str) == Unrecognized
    ensures forall i :: 0 <= i < |Select(args, roles, Leftover)| ==>
      Lookup(Keys(table), Select(args, roles, Leftover)[i].str) == Unrecognized
  {
    if args == [] {
    } else {
      SelectedFit(table, args[1..], roles[1..]);
    }
  }

  /** Parsing the unrecognized leftovers again recognizes nothing, writes nothing and gives them back. */
  lemma ReparseIsIdentity(table: seq<Row>, args: seq<Obj>, o: Oracles, past: seq<Effect>)
    requires Parse(table, args, true, o, [], past).Success?
    ensures var out := Parse(table, args, true, o, [], past);
      Parse(table, out.left, true, o, [], []) == Success(out.left, [], [])
  {
    EveryArgumentAccountedFor(table, args, true, o, [], past);
    var roles := Roles(table, args, true, o, [], past);
    var out := Parse(table, args, true, o, [], past);
    SelectedFit(table, args, roles);
    assert out.left == Select(args, roles, Leftover);
    UnrecognizedPassThrough(table, out.left, o, [], []);
    assert [] + out.left == out.left;
  }

  // ---------------------------------------------------------------- where the effects come from

  /** The effect is what the option named by argument p does with the argument behind it. */
  predicate Caused(table: seq<Row>, args: seq<Obj>, o: Oracles, p: nat, e: Effect) {
    p < |args| && Lookup(Keys(table), args[p].str).Entry? &&
    var row := Lookup(Keys(table), args[p].str).index;
    var next := if p + 1 < |args| then Some(args[p + 1]) else None;
    match table[row].kind
    case Constant(slot, value) => e == Write(slot, Integer(value))
    case IntArg(slot) =>
      next.Some? && o.toInt(next.value).Some? && e == Write(slot, Integer(o.toInt(next.value).value))
    case StringArg(slot) => next.Some? && e == Write(slot, Text(next.value.str))
    case FloatArg(slot) =>
      next.Some? && o.toDouble(next.value).Some? && e == Write(slot, Float(o.toDouble(next.value).value))
    case Rest(target) => e.Write? && target == Some(e.slot) && e.value.Integer?
    case Func => e == Handled(row, next)
    case Help => false
    case BadType => false
  }

  /** The option named by the argument leaves an effect: every option does but a REST without a target. */
  predicate Effective(table: seq<Row>, arg: Obj) {
    var found := Lookup(Keys(table), arg.str);
    found.Entry? && table[found.index].kind != Rest(None)
  }

  /** The positions, counted from n, of the keywords that leave an effect. */
  function EffectPositions(table: seq<Row>, args: seq<Obj>, roles: seq<Role>, n: nat): seq<nat>
    requires |args| == |roles|
    decreases |args|
  {
    if args == [] then []
    else
      (if roles[0] == Keyword && Effective(table, args[0]) then [n] else [])
      + EffectPositions(table, args[1..], roles[1..], n + 1)
  }

  predicate Increasing(ps: seq<nat>) {
    forall i, j :: 0 <= i < j < |ps| ==> ps[i] < ps[j]
  }

  predicate AtLeast(ps: seq<nat>, n: nat) {
    forall i :: 0 <= i < |ps| ==> ps[i] >= n
  }

  /** They are listed in increasing order. */
  lemma {:induction false} PositionsIncrease(table: seq<Row>, args: seq<Obj>, roles: seq<Role>, n: nat)
    requires |args| == |roles|
    ensures Increasing(EffectPositions(table, args, roles, n)) && AtLeast(EffectPositions(table, args, roles, n), n)
    decreases |args|
  {
    if args == [] {
    } else {
      PositionsIncrease(table, args[1..], roles[1..], n + 1);
      var later := EffectPositions(table, args[1..], roles[1..], n + 1);
      if roles[0] == Keyword && Effective(table, args[0]) {
        FirstPosition(n, later);
      } else {
        assert [] + later == later;
      }
    }
  }

  lemma FirstPosition(n: nat, later: seq<nat>)
    requires Increasing(later) && AtLeast(later, n + 1)
    ensures Increasing([n] + later) && AtLeast([n] + later, n)
  {
    var ps := [n] + later;
    forall j | 0 < j < |ps| ensures ps[j] == later[j - 1] >= n + 1 {}
    forall i, j | 0 <= i < j < |ps| ensures ps[i] < ps[j] {}
  }

  /** They are exactly the positions of those keywords. */
  lemma {:induction false} PositionListed(table: seq<Row>, args: seq<Obj>, roles: seq<Role>, n: nat, p: nat)
    requires |args| == |roles|
    ensures p in EffectPositions(table, args, roles, n)
       <==> n <= p < n + |args| && roles[p - n] == Keyword && Effective(table, args[p - n])
    decreases |args|
  {
    if args == [] {
    } else {
      PositionListed(table, args[1..], roles[1..], n + 1, p);
      var first := if roles[0] == Keyword && Effective(table, args[0]) then [n] else [];
      var later := EffectPositions(table, args[1..], roles[1..], n + 1);
      assert p in first + later <==> p in first || p in later;
      if n < p < n + |args| {
        assert args[1..][p - n - 1] == args[p - n] && roles[1..][p - n - 1] == roles[p - n];
      }
    }
  }

  /** Nothing without a keyword leaves an effect. */
  lemma {:induction false} NoPositions(table: seq<Row>, args: seq<Obj>, roles: seq<Role>, n: nat)
    requires |args| == |roles| && forall i :: 0 <= i < |roles| ==> roles[i] != Keyword
    ensures EffectPositions(table, args, roles, n) == []
    decreases |args|
  {
    if args == [] {
    } else {
      assert roles[0] != Keyword;
      NoPositions(table, args[1..], roles[1..], n + 1);
    }
  }

  /** The effects beyond `past` belong one by one to the given positions. */
  predicate Accords(table: seq<Row>, all: seq<Obj>, o: Oracles, past: seq<Effect>, effects: seq<Effect>, ps: seq<nat>) {
    && past <= effects && |effects| == |past| + |ps|
    && forall k :: 0 <= k < |ps| ==> Caused(table, all, o, ps[k], effects[|past| + k])
  }

  lemma AccordsAppend(table: seq<Row>, all: seq<Obj>, o: Oracles, past: seq<Effect>, mid: seq<Effect>,
                      effects: seq<Effect>, ps: seq<nat>, qs: seq<nat>)
    requires Accords(table, all, o, past, mid, ps) && Accords(table, all, o, mid, effects, qs)
    ensures Accords(table, all, o, past, effects, ps + qs)
  {
    assert effects[..|past|] == mid[..|past|] == past;
    forall k | 0 <= k < |ps + qs| ensures Caused(table, all, o, (ps + qs)[k], effects[|past| + k]) {
      if k < |ps| {
        assert effects[|past| + k] == mid[|past| + k];
      } else {
        assert effects[|past| + k] == effects[|mid| + (k - |ps|)];
      }
    }
  }

  /** One option: its effect, if it leaves one, is what the keyword at n causes. */
  lemma ActAccords(table: seq<Row>, all: seq<Obj>, o: Oracles, n: nat, i: nat, index: nat, past: seq<Effect>)
    requires n < |all| && Lookup(Keys(table), all[n].str) == Entry(i)
    ensures var (action, effects) := Act(i, table[i].kind, NextOf(all[n + 1..]), index, past, o);
      Accords(table, all, o, past, effects, if !action.Fail? && Effective(table, all[n]) then [n] else [])
  {
  }

  /** The effects of the arguments from n on are those of their keywords. */
  lemma {:induction false} EffectsFollow(
    table: seq<Row>, all: seq<Obj>, n: nat, keep: bool, o: Oracles, left: seq<Obj>, past: seq<Effect>)
    requires n <= |all|
    ensures Followed(table, all, n, keep, o, left, past)
    decreases |all| - n, 2
  {
    var args := all[n..];
    if args == [] {
    } else {
      assert args[1..] == all[n + 1..];
      match Lookup(Keys(table), args[0].str)
      case Ambiguous => NoPositions(table, args, StoppedAt(|args|), n);
      case Unrecognized =>
        if keep {
          EffectsFollow(table, all, n + 1, keep, o, left + [args[0]], past);
        } else {
          NoPositions(table, args, StoppedAt(|args|), n);
        }
      case Entry(i) => OptionFollowed(table, all, n, keep, o, left, past, i);
    }
  }

  predicate Followed(
    table: seq<Row>, all: seq<Obj>, n: nat, keep: bool, o: Oracles, left: seq<Obj>, past: seq<Effect>)
    requires n <= |all|
  {
    Accords(table, all, o, past, Parse(table, all[n..], keep, o, left, past).effects,
            EffectPositions(table, all[n..], Roles(table, all[n..], keep, o, left, past), n))
  }

  lemma {:induction false} OptionFollowed(
    table: seq<Row>, all: seq<Obj>, n: nat, keep: bool, o: Oracles, left: seq<Obj>, past: seq<Effect>, i: nat)
    requires n < |all| && Lookup(Keys(table), all[n].str) == Entry(i)
    ensures Followed(table, all, n, keep, o, left, past)
    decreases |all| - n, 1
  {
    var args := all[n..];
    assert args[1..] == all[n + 1..];
    match Act(i, table[i].kind, NextOf(args[1..]), 1 + |left|, past, o).0
    case Fail =>
      ActAccords(table, all, o, n, i, 1 + |left|, past);
      NoPositions(table, args, Roles(table, args, keep, o, left, past), n);
    case EndOptions =>
      ActAccords(table, all, o, n, i, 1 + |left|, past);
      NoPositions(table, args[1..], Roles(table, args, keep, o, left, past)[1..], n + 1);
    case GoOn(_) => LoopFollowed(table, all, n, keep, o, left, past, i);
  }

  lemma {:induction false} LoopFollowed(
    table: seq<Row>, all: seq<Obj>, n: nat, keep: bool, o: Oracles, left: seq<Obj>, past: seq<Effect>, i: nat)
    requires n < |all| && Lookup(Keys(table), all[n].str) == Entry(i)
    requires Act(i, table[i].kind, NextOf(all[n..][1..]), 1 + |left|, past, o).0.GoOn?
    ensures Followed(table, all, n, keep, o, left, past)
    decreases |all| - n, 0
  {
    var args := all[n..];
    var m, past' := OptionGoesOn(table, args, keep, o, left, past, i);
    assert args[m..] == all[n + m..];
    EffectsFollow(table, all, n + m, keep, o, left, past');
    PositionsBehind(table, args, Roles(table, args, keep, o, left, past), n, m);
    assert args[1..] == all[n + 1..];
    ActAccords(table, all, o, n, i, 1 + |left|, past);
    AccordsAppend(table, all, o, past, past', Parse(table, args, keep, o, left, past).effects,
                  if Effective(table, all[n]) then [n] else [],
                  EffectPositions(table, args[m..], Roles(table, args[m..], keep, o, left, past'), n + m));
  }

  /** The positions behind a keyword and the value it took. */
  lemma PositionsBehind(table: seq<Row>, args: seq<Obj>, roles: seq<Role>, n: nat, m: nat)
    requires |args| == |roles| && 1 <= m <= 2 && m <= |args|
    requires roles[0] == Keyword && (m == 2 ==> roles[1] == Value)
    ensures EffectPositions(table, args, roles, n)
         == (if Effective(table, args[0]) then [n] else []) + EffectPositions(table, args[m..], roles[m..], n + m)
  {
    if m == 2 {
      assert args[1..][1..] == args[2..] && roles[1..][1..] == roles[2..];
    }
  }

  /**
   Whatever the outcome, the writes and handler calls are those of the keywords, one for each keyword in
   the order of the arguments, except that a REST option without a target leaves none.  Each goes to its
   option's slot and carries its constant, or the conversion of the argument right behind the keyword.
   */
  lemma EffectsAreCaused(
    table: seq<Row>, args: seq<Obj>, keep: bool, o: Oracles, left: seq<Obj>, past: seq<Effect>)
    ensures var roles := Roles(table, args, keep, o, left, past);
      var ps := EffectPositions(table, args, roles, 0);
      && Accords(table, args, o, past, Parse(table, args, keep, o, left, past).effects, ps)
      && Increasing(ps)
      && (forall p: nat :: p in ps <==> p < |args| && roles[p] == Keyword && Effective(table, args[p]))
  {
    assert args[0..] == args;
    EffectsFollow(table, args, 0, keep, o, left, past);
    var roles := Roles(table, args, keep, o, left, past);
    PositionsIncrease(table, args, roles, 0);
    forall p: nat
      ensures p in EffectPositions(table, args, roles, 0)
         <==> p < |args| && roles[p] == Keyword && Effective(table, args[p])
    {
      PositionListed(table, args, roles, 0, p);
    }
  }

  // ---------------------------------------------------------------- which keywords take a value

  predicate Took(roles: seq<Role>, p: nat) {
    p + 1 < |roles| && roles[p + 1] == Value
  }

  /** By the kind of its row: an INT, STRING or FLOAT keyword has a value, a CONSTANT or REST keyword has none. */
  predicate ValueByKind(table: seq<Row>, args: seq<Obj>, roles: seq<Role>, p: nat)
    requires |args| == |roles|
  {
    p < |args| && Lookup(Keys(table), args[p].str).Entry? &&
    match table[Lookup(Keys(table), args[p].str).index].kind
    case IntArg(_) => Took(roles, p)
    case StringArg(_) => Took(roles, p)
    case FloatArg(_) => Took(roles, p)
    case Constant(_, _) => !Took(roles, p)
    case Rest(_) => !Took(roles, p)
    case Func => true
    case Help => false
    case BadType => false
  }

  lemma ValueBehind(table: seq<Row>, args: seq<Obj>, roles: seq<Role>, n: nat, p: nat)
    requires |args| == |roles| && n <= p && n <= |args| && ValueByKind(table, args[n..], roles[n..], p - n)
    ensures ValueByKind(table, args, roles, p)
  {
    assert args[n..][p - n] == args[p];
    assert Took(roles[n..], p - n) == Took(roles, p);
  }

  /** The first argument, when it names an option and is not rejected. */
  lemma OptionValue(
    table: seq<Row>, args: seq<Obj>, keep: bool, o: Oracles, left: seq<Obj>, past: seq<Effect>, i: nat)
    requires args != [] && Lookup(Keys(table), args[0].str) == Entry(i)
    requires Roles(table, args, keep, o, left, past)[0] == Keyword
    ensures ValueByKind(table, args, Roles(table, args, keep, o, left, past), 0)
  {
    var roles := Roles(table, args, keep, o, left, past);
    if |args| > 1 {
      var past' := Act(i, table[i].kind, NextOf(args[1..]), 1 + |left|, past, o).1;
      FirstNotValue(table, args[1..], keep, o, left, past');
    }
  }

  lemma FirstNotValue(table: seq<Row>, args: seq<Obj>, keep: bool, o: Oracles, left: seq<Obj>, past: seq<Effect>)
    requires args != []
    ensures Roles(table, args, keep, o, left, past)[0] != Value
  {
  }

  /** Every keyword, wherever it stands and whatever the outcome. */
  lemma {:induction false} ValueMeaning(
    table: seq<Row>, args: seq<Obj>, keep: bool, o: Oracles, left: seq<Obj>, past: seq<Effect>, p: nat)
    requires p < |args| && Roles(table, args, keep, o, left, past)[p] == Keyword
    ensures ValueByKind(table, args, Roles(table, args, keep, o, left, past), p)
    decreases |args|
  {
    var roles := Roles(table, args, keep, o, left, past);
    match Lookup(Keys(table), args[0].str)
    case Ambiguous =>
    case Unrecognized =>
      if keep {
        assert roles[1..] == Roles(table, args[1..], keep, o, left + [args[0]], past);
        assert roles[1..][p - 1] == Keyword;
        ValueMeaning(table, args[1..], keep, o, left + [args[0]], past, p - 1);
        ValueBehind(table, args, roles, 1, p);
      }
    case Entry(i) =>
      if p == 0 {
        OptionValue(table, args, keep, o, left, past, i);
      } else if Act(i, table[i].kind, NextOf(args[1..]), 1 + |left|, past, o).0.GoOn? {
        var n, past' := OptionGoesOn(table, args, keep, o, left, past, i);
        assert p >= n && roles[n..][p - n] == Keyword;
        ValueMeaning(table, args[n..], keep, o, left, past', p - n);
        ValueBehind(table, args, roles, n, p);
      }
  }

  // ---------------------------------------------------------------- when a parse fails

  /** The parser looked this argument up itself. */
  predicate LookedUp(role: Role) {
    role == Leftover || role == Keyword || role == Rejected
  }

  /** The argument cannot be accepted, by the table and the argument behind it alone. */
  predicate Unacceptable(table: seq<Row>, args: seq<Obj>, keep: bool, o: Oracles, p: nat) {
    p < |args| &&
    match Lookup(Keys(table), args[p].str)
    case Ambiguous => true
    case Unrecognized => !keep
    case Entry(i) =>
      match table[i].kind
      case IntArg(_) => p + 1 == |args| || o.toInt(args[p + 1]).None?
      case StringArg(_) => p + 1 == |args|
      case FloatArg(_) => p + 1 == |args| || o.toDouble(args[p + 1]).None?
      case Help => true
      case BadType => true
      case _ => false
  }

  lemma UnacceptableBehind(table: seq<Row>, args: seq<Obj>, keep: bool, o: Oracles, n: nat, p: nat)
    requires n <= p && n <= |args|
    ensures Unacceptable(table, args[n..], keep, o, p - n) <==> Unacceptable(table, args, keep, o, p)
  {
    if p < |args| { assert args[n..][p - n] == args[p]; }
    if p + 1 < |args| { assert args[n..][p - n + 1] == args[p + 1]; }
  }

  /** An argument that was looked up is a leftover, a keyword or rejected by its own merits. */
  predicate RoleByMerit(table: seq<Row>, args: seq<Obj>, keep: bool, o: Oracles, roles: seq<Role>, p: nat)
    requires p < |args| == |roles|
  {
    LookedUp(roles[p]) ==>
      && (roles[p] == Rejected <==> Unacceptable(table, args, keep, o, p))
      && (roles[p] == Leftover <==> keep && Lookup(Keys(table), args[p].str) == Unrecognized)
  }

  lemma MeritBehind(
    table: seq<Row>, args: seq<Obj>, keep: bool, o: Oracles, roles: seq<Role>, n: nat, p: nat)
    requires n <= p < |args| == |roles| && RoleByMerit(table, args[n..], keep, o, roles[n..], p - n)
    ensures RoleByMerit(table, args, keep, o, roles, p)
  {
    UnacceptableBehind(table, args, keep, o, n, p);
    assert args[n..][p - n] == args[p] && roles[n..][p - n] == roles[p];
  }

  lemma FirstByMerit(table: seq<Row>, args: seq<Obj>, keep: bool, o: Oracles, left: seq<Obj>, past: seq<Effect>)
    requires args != []
    ensures LookedUp(Roles(table, args, keep, o, left, past)[0])
    ensures RoleByMerit(table, args, keep, o, Roles(table, args, keep, o, left, past), 0)
  {
    var next := NextOf(args[1..]);
    assert next == if |args| > 1 then Some(args[1]) else None;
  }

  /** Every argument of every parse. */
  lemma {:induction false} RoleMeaning(
    table: seq<Row>, args: seq<Obj>, keep: bool, o: Oracles, left: seq<Obj>, past: seq<Effect>, p: nat)
    requires p < |args|
    ensures RoleByMerit(table, args, keep, o, Roles(table, args, keep, o, left, past), p)
    decreases |args|
  {
    var roles := Roles(table, args, keep, o, left, past);
    if p == 0 {
      FirstByMerit(table, args, keep, o, left, past);
    } else {
      match Lookup(Keys(table), args[0].str)
      case Ambiguous =>
      case Unrecognized =>
        if keep {
          assert roles[1..] == Roles(table, args[1..], keep, o, left + [args[0]], past);
          RoleMeaning(table, args[1..], keep, o, left + [args[0]], past, p - 1);
          MeritBehind(table, args, keep, o, roles, 1, p);
        }
      case Entry(i) => OptionMerit(table, args, keep, o, left, past, p, i);
    }
  }

  lemma {:induction false} OptionMerit(
    table: seq<Row>, args: seq<Obj>, keep: bool, o: Oracles, left: seq<Obj>, past: seq<Effect>, p: nat, i: nat)
    requires 0 < p < |args| && Lookup(Keys(table), args[0].str) == Entry(i)
    ensures RoleByMerit(table, args, keep, o, Roles(table, args, keep, o, left, past), p)
    decreases |args|, 0
  {
    if Act(i, table[i].kind, NextOf(args[1..]), 1 + |left|, past, o).0.GoOn? {
      var roles := Roles(table, args, keep, o, left, past);
      var n, past' := OptionGoesOn(table, args, keep, o, left, past, i);
      if p < n {
        assert roles[p] == Value;
      } else {
        RoleMeaning(table, args[n..], keep, o, left, past', p - n);
        MeritBehind(table, args, keep, o, roles, n, p);
      }
    } else {
      NotLookedUp(table, args, keep, o, left, past, p, i);
    }
  }

  lemma NotLookedUp(
    table: seq<Row>, args: seq<Obj>, keep: bool, o: Oracles, left: seq<Obj>, past: seq<Effect>, p: nat, i: nat)
    requires 0 < p < |args| && Lookup(Keys(table), args[0].str) == Entry(i)
    requires !Act(i, table[i].kind, NextOf(args[1..]), 1 + |left|, past, o).0.GoOn?
    ensures !LookedUp(Roles(table, args, keep, o, left, past)[p])
  {
  }

  /** The parse stopped at p: what is before it was dealt with, what is behind it not looked at. */
  predicate StopsAt(roles: seq<Role>, p: nat) {
    && p < |roles| && roles[p] == Rejected
    && (forall q :: 0 <= q < p ==> roles[q] != Rejected && roles[q] != Unread)
    && (forall q :: p < q < |roles| ==> roles[q] == Unread)
  }

  lemma StopsBehind(roles: seq<Role>, n: nat, p: nat)
    requires n <= |roles| && StopsAt(roles[n..], p)
    requires forall q :: 0 <= q < n ==> roles[q] != Rejected && roles[q] != Unread
    ensures StopsAt(roles, p + n)
  {
    forall q | n <= q < |roles| ensures roles[q] == roles[n..][q - n] {}
  }

  /** A failing parse stops at one argument; a successful one at none. */
  lemma {:induction false} FailureStops(
    table: seq<Row>, args: seq<Obj>, keep: bool, o: Oracles, left: seq<Obj>, past: seq<Effect>) returns (p: nat)
    requires Parse(table, args, keep, o, left, past).Failure?
    ensures StopsAt(Roles(table, args, keep, o, left, past), p)
    decreases |args|
  {
    var roles := Roles(table, args, keep, o, left, past);
    p := 0;
    match Lookup(Keys(table), args[0].str)
    case Ambiguous =>
    case Unrecognized =>
      if keep {
        var q := FailureStops(table, args[1..], keep, o, left + [args[0]], past);
        assert roles[1..] == Roles(table, args[1..], keep, o, left + [args[0]], past);
        StopsBehind(roles, 1, q);
        p := q + 1;
      }
    case Entry(i) =>
      if Act(i, table[i].kind, NextOf(args[1..]), 1 + |left|, past, o).0.GoOn? {
        var n, past' := OptionGoesOn(table, args, keep, o, left, past, i);
        var q := FailureStops(table, args[n..], keep, o, left, past');
        StopsBehind(roles, n, q);
        p := q + n;
      }
  }

  /**
   A parse fails exactly when it looks up an argument that is ambiguous, unrecognized with nothing kept, a
   help request, of a bad type, or an option whose value is missing or does not convert.
   */
  lemma FailureMeaning(
    table: seq<Row>, args: seq<Obj>, keep: bool, o: Oracles, left: seq<Obj>, past: seq<Effect>)
    ensures var roles := Roles(table, args, keep, o, left, past);
      Parse(table, args, keep, o, left, past).Failure? <==>
        exists p: nat :: p < |args| && LookedUp(roles[p]) && Unacceptable(table, args, keep, o, p)
  {
    var roles := Roles(table, args, keep, o, left, past);
    if Parse(table, args, keep, o, left, past).Failure? {
      var p := FailureStops(table, args, keep, o, left, past);
      RoleMeaning(table, args, keep, o, left, past, p);
      assert LookedUp(roles[p]);
    } else {
      EveryArgumentAccountedFor(table, args, keep, o, left, past);
      forall p: nat | p < |args| && LookedUp(roles[p]) ensures !Unacceptable(table, args, keep, o, p) {
        RoleMeaning(table, args, keep, o, left, past, p);
      }
    }
  }

  // ---------------------------------------------------------------- what the handlers decide

  /** A FUNC option has a value exactly when an argument was there and its handler, told all so far, accepted it. */
  predicate HandlerAgrees(table: seq<Row>, all: seq<Obj>, o: Oracles, p: nat, soFar: seq<Effect>, took: bool) {
    p < |all| && Lookup(Keys(table), all[p].str).Entry? &&
    var row := Lookup(Keys(table), all[p].str).index;
    table[row].kind.Func? ==> (took <==> p + 1 < |all| && o.handler(row, Some(all[p + 1]), soFar))
  }

  /** Of the effects beyond `past`, each with its position; the roles start at argument n. */
  predicate HandlersAgree(table: seq<Row>, all: seq<Obj>, o: Oracles, past: seq<Effect>, effects: seq<Effect>,
                          ps: seq<nat>, roles: seq<Role>, n: nat) {
    |effects| == |past| + |ps| &&
    forall k :: 0 <= k < |ps| ==>
      ps[k] >= n && HandlerAgrees(table, all, o, ps[k], effects[..|past| + k], Took(roles, ps[k] - n))
  }

  lemma AgreeShift(table: seq<Row>, all: seq<Obj>, o: Oracles, past: seq<Effect>, effects: seq<Effect>,
                   ps: seq<nat>, roles: seq<Role>, n: nat, m: nat)
    requires m <= |roles| && HandlersAgree(table, all, o, past, effects, ps, roles[m..], n + m)
    ensures HandlersAgree(table, all, o, past, effects, ps, roles, n)
  {
    forall k | 0 <= k < |ps| ensures Took(roles[m..], ps[k] - n - m) == Took(roles, ps[k] - n) {}
  }

  lemma AgreeCons(table: seq<Row>, all: seq<Obj>, o: Oracles, past: seq<Effect>, mid: seq<Effect>, effects: seq<Effect>,
                  first: seq<nat>, ps: seq<nat>, roles: seq<Role>, n: nat)
    requires |first| <= 1 && |mid| == |past| + |first| && past <= effects
    requires HandlersAgree(table, all, o, mid, effects, ps, roles, n)
    requires first != [] ==> first[0] >= n && HandlerAgrees(table, all, o, first[0], past, Took(roles, first[0] - n))
    ensures HandlersAgree(table, all, o, past, effects, first + ps, roles, n)
  {
    var qs := first + ps;
    forall k | 0 <= k < |qs|
      ensures qs[k] >= n && HandlerAgrees(table, all, o, qs[k], effects[..|past| + k], Took(roles, qs[k] - n))
    {
      if k < |first| {
        assert effects[..|past| + k] == past;
      } else {
        assert qs[k] == ps[k - |first|] && |past| + k == |mid| + (k - |first|);
      }
    }
  }

  predicate HandlersFrom(
    table: seq<Row>, all: seq<Obj>, n: nat, keep: bool, o: Oracles, left: seq<Obj>, past: seq<Effect>)
    requires n <= |all|
  {
    var roles := Roles(table, all[n..], keep, o, left, past);
    HandlersAgree(table, all, o, past, Parse(table, all[n..], keep, o, left, past).effects,
                  EffectPositions(table, all[n..], roles, n), roles, n)
  }

  lemma {:induction false} HandlersFollow(
    table: seq<Row>, all: seq<Obj>, n: nat, keep: bool, o: Oracles, left: seq<Obj>, past: seq<Effect>)
    requires n <= |all|
    ensures HandlersFrom(table, all, n, keep, o, left, past)
    decreases |all| - n, 2
  {
    var args := all[n..];
    var roles := Roles(table, args, keep, o, left, past);
    if args == [] {
    } else {
      assert args[1..] == all[n + 1..];
      match Lookup(Keys(table), args[0].str)
      case Ambiguous => NoPositions(table, args, roles, n);
      case Unrecognized =>
        if keep {
          HandlersFollow(table, all, n + 1, keep, o, left + [args[0]], past);
          assert roles[1..] == Roles(table, args[1..], keep, o, left + [args[0]], past);
          var ps := EffectPositions(table, args[1..], roles[1..], n + 1);
          assert EffectPositions(table, args, roles, n) == ps;
          AgreeShift(table, all, o, past, Parse(table, args, keep, o, left, past).effects, ps, roles, n, 1);
        } else {
          NoPositions(table, args, roles, n);
        }
      case Entry(i) => OptionHandlers(table, all, n, keep, o, left, past, i);
    }
  }

  lemma {:induction false} OptionHandlers(
    table: seq<Row>, all: seq<Obj>, n: nat, keep: bool, o: Oracles, left: seq<Obj>, past: seq<Effect>, i: nat)
    requires n < |all| && Lookup(Keys(table), all[n].str) == Entry(i)
    ensures HandlersFrom(table, all, n, keep, o, left, past)
    decreases |all| - n, 1
  {
    var args := all[n..];
    var roles := Roles(table, args, keep, o, left, past);
    match Act(i, table[i].kind, NextOf(args[1..]), 1 + |left|, past, o).0
    case Fail => NoPositions(table, args, roles, n);
    case EndOptions => NoPositions(table, args[1..], roles[1..], n + 1);
    case GoOn(_) => LoopHandlers(table, all, n, keep, o, left, past, i);
  }

  /** The answer of the handler, when the first argument names a FUNC option. */
  lemma FirstHandler(
    table: seq<Row>, all: seq<Obj>, n: nat, keep: bool, o: Oracles, left: seq<Obj>, past: seq<Effect>, i: nat)
    requires n < |all| && Lookup(Keys(table), all[n].str) == Entry(i)
    requires Act(i, table[i].kind, NextOf(all[n..][1..]), 1 + |left|, past, o).0.GoOn?
    ensures HandlerAgrees(table, all, o, n, past, Took(Roles(table, all[n..], keep, o, left, past), 0))
  {
    var args := all[n..];
    if |args| > 1 {
      assert args[1] == all[n + 1];
      var past' := Act(i, table[i].kind, NextOf(args[1..]), 1 + |left|, past, o).1;
      FirstNotValue(table, args[1..], keep, o, left, past');
    }
  }

  lemma {:induction false} LoopHandlers(
    table: seq<Row>, all: seq<Obj>, n: nat, keep: bool, o: Oracles, left: seq<Obj>, past: seq<Effect>, i: nat)
    requires n < |all| && Lookup(Keys(table), all[n].str) == Entry(i)
    requires Act(i, table[i].kind, NextOf(all[n..][1..]), 1 + |left|, past, o).0.GoOn?
    ensures HandlersFrom(table, all, n, keep, o, left, past)
    decreases |all| - n, 0
  {
    var args := all[n..];
    var roles := Roles(table, args, keep, o, left, past);
    var effects := Parse(table, args, keep, o, left, past).effects;
    var m, past' := OptionGoesOn(table, args, keep, o, left, past, i);
    assert args[m..] == all[n + m..];
    HandlersFollow(table, all, n + m, keep, o, left, past');
    var first := if Effective(table, args[0]) then [n] else [];
    var ps := EffectPositions(table, args[m..], roles[m..], n + m);
    PositionsBehind(table, args, roles, n, m);
    AgreeShift(table, all, o, past', effects, ps, roles, n, m);
    FirstHandler(table, all, n, keep, o, left, past, i);
    assert args[1..] == all[n + 1..];
    ActAccords(table, all, o, n, i, 1 + |left|, past);
    EffectsFollow(table, all, n, keep, o, left, past);
    AgreeCons(table, all, o, past, past', effects, first, ps, roles, n);
  }

  /** In every parse, whatever its outcome. */
  lemma HandlersDecide(table: seq<Row>, args: seq<Obj>, keep: bool, o: Oracles, left: seq<Obj>, past: seq<Effect>)
    ensures var roles := Roles(table, args, keep, o, left, past);
      HandlersAgree(table, args, o, past, Parse(table, args, keep, o, left, past).effects,
                    EffectPositions(table, args, roles, 0), roles, 0)
  {
    assert args[0..] == args;
    HandlersFollow(table, args, 0, keep, o, left, past);
  }
}
