/**
 What the list operations mean for a running pass, and that every operation keeps `Valid`.
 */
module CallbackLemmas {
  import opened Wrappers
  import opened CallbackLists

  function Fns(s: seq<Entry>): seq<Callback> {
    seq(|s|, i requires 0 <= i < |s| => s[i].fn)
  }

  /** The entries of s whose function is not fn. */
  function Without(s: seq<Entry>, fn: Callback): (r: seq<Entry>)
    ensures |r| <= |s|
  {
    if s == [] then []
    else if s[0].fn == fn then Without(s[1..], fn)
    else [s[0]] + Without(s[1..], fn)
  }

  function WithoutAll(s: seq<Entry>, fns: seq<Callback>): seq<Entry>
    decreases fns
  {
    if fns == [] then s else WithoutAll(Without(s, fns[0]), fns[1..])
  }

  // ---------------------------------------------------------------- Push

  lemma {:induction false} PushAppends(list: seq<Entry>, tag: nat, fns: seq<Callback>, unique: bool)
    requires Ordered(list) && TagsBelow(list, tag)
    requires unique ==> DistinctFns(list)
    ensures var (r, t) := Push(list, tag, fns, unique);
      && list <= r && Ordered(r) && tag <= t && TagsBelow(r, t)
      && (unique ==> DistinctFns(r))
      && (!unique ==> Fns(r[|list|..]) == fns)
      && (forall i :: |list| <= i < |r| ==> tag <= r[i].tag)
    decreases fns
  {
    if fns == [] {
    } else if unique && Has(list, fns[0]) {
      PushAppends(list, tag, fns[1..], unique);
    } else {
      var list' := list + [Entry(fns[0], tag)];
      PushAppends(list', tag + 1, fns[1..], unique);
      var r := Push(list', tag + 1, fns[1..], unique).0;
      assert r[|list|] == list'[|list|];
      assert r[..|list|] == list;
      assert Fns(r[|list|..]) == [fns[0]] + Fns(r[|list'|..]);
    }
  }

  /** Afterwards every function asked for is in the list, and nothing else was added. */
  lemma {:induction false} PushHolds(list: seq<Entry>, tag: nat, fns: seq<Callback>, unique: bool, f: Callback)
    ensures Has(Push(list, tag, fns, unique).0, f) <==> Has(list, f) || f in fns
    decreases fns
  {
    if fns == [] {
    } else {
      assert fns == [fns[0]] + fns[1..];
      if unique && Has(list, fns[0]) {
        PushHolds(list, tag, fns[1..], unique, f);
      } else {
        var list' := list + [Entry(fns[0], tag)];
        PushHolds(list', tag + 1, fns[1..], unique, f);
        assert list'[|list|].fn == fns[0];
        if Has(list, f) {
          var i :| 0 <= i < |list| && list[i].fn == f;
          assert list'[i].fn == f;
        }
      }
    }
  }

  // ---------------------------------------------------------------- Remove

  lemma {:induction false} WithoutAppend(a: seq<Entry>, b: seq<Entry>, fn: Callback)
    ensures Without(a + b, fn) == Without(a, fn) + Without(b, fn)
  {
    if a == [] {
      assert a + b == b;
    } else {
      assert (a + b)[1..] == a[1..] + b;
      WithoutAppend(a[1..], b, fn);
    }
  }

  lemma {:induction false} WithoutAbsent(s: seq<Entry>, fn: Callback)
    requires !Has(s, fn)
    ensures Without(s, fn) == s
  {
    if s == [] {
    } else {
      assert s[0].fn != fn;
        forall i {:trigger s[1..][i]} | 0 <= i < |s[1..]| ensures s[1..][i].fn != fn { assert s[i + 1].fn != fn; }
      WithoutAbsent(s[1..], fn);
    }
  }

  /** Without holds exactly the entries not named fn. */
  lemma {:induction false} WithoutMembers(s: seq<Entry>, fn: Callback, e: Entry)
    ensures e in Without(s, fn) <==> e in s && e.fn != fn
  {
    if s == [] {
    } else {
      WithoutMembers(s[1..], fn, e);
      assert s == [s[0]] + s[1..];
    }
  }

  lemma OrderedCons(x: Entry, s: seq<Entry>)
    requires Ordered(s) && forall e :: e in s ==> x.tag < e.tag
    ensures Ordered([x] + s)
  {
    var r := [x] + s;
    forall i, j | 0 <= i < j < |r| ensures r[i].tag < r[j].tag {
      assert r[j] == s[j - 1];
      assert s[j - 1] in s;
      if i > 0 { assert r[i] == s[i - 1]; }
    }
  }

  lemma {:induction false} WithoutOrdered(s: seq<Entry>, fn: Callback)
    requires Ordered(s)
    ensures Ordered(Without(s, fn))
  {
    if s == [] {
    } else {
      WithoutOrdered(s[1..], fn);
      if s[0].fn != fn {
        forall e | e in Without(s[1..], fn) ensures s[0].tag < e.tag {
          WithoutMembers(s[1..], fn, e);
          var j :| 0 <= j < |s[1..]| && s[1..][j] == e;
          assert s[j + 1] == e;
        }
        OrderedCons(s[0], Without(s[1..], fn));
      }
    }
  }

  lemma DistinctCons(x: Entry, s: seq<Entry>)
    requires DistinctFns(s) && forall e :: e in s ==> x.fn != e.fn
    ensures DistinctFns([x] + s)
  {
    var r := [x] + s;
    forall i, j | 0 <= i < j < |r| ensures r[i].fn != r[j].fn {
      assert r[j] == s[j - 1];
      assert s[j - 1] in s;
      if i > 0 { assert r[i] == s[i - 1]; }
    }
  }

  lemma {:induction false} WithoutDistinct(s: seq<Entry>, fn: Callback)
    requires DistinctFns(s)
    ensures DistinctFns(Without(s, fn))
  {
    if s == [] {
    } else {
      WithoutDistinct(s[1..], fn);
      if s[0].fn != fn {
        forall e | e in Without(s[1..], fn) ensures s[0].fn != e.fn {
          WithoutMembers(s[1..], fn, e);
          var j :| 0 <= j < |s[1..]| && s[1..][j] == e;
          assert s[j + 1] == e;
        }
        DistinctCons(s[0], Without(s[1..], fn));
      }
    }
  }

  /** The bounds of a running pass agree with the list: the loop length is the list's, the cursor is inside. */
  predicate Aligned(k: Cursor, firing: bool) {
    firing ==> k.length == |k.list| && -1 <= k.index < |k.list|
  }

  lemma DistinctTail(s: seq<Entry>, i: nat, hi: nat)
    requires i < hi <= |s| && DistinctFns(s)
    ensures Without(s[i..hi], s[i].fn) == s[i + 1..hi]
  {
    var tail := s[i + 1..hi];
    forall j {:trigger tail[j]} | 0 <= j < |tail| ensures tail[j].fn != s[i].fn { assert s[i + 1 + j].fn != s[i].fn; }
    WithoutAbsent(tail, s[i].fn);
    assert s[i..hi][1..] == tail;
  }

  /** Cutting position i leaves what is before and after it. */
  lemma CutSlices(k: Cursor, firing: bool, i: nat, hi: nat)
    requires i < hi <= |k.list|
    ensures Cut(k, firing, i).list[..i] == k.list[..i]
    ensures Cut(k, firing, i).list[i..] == k.list[i + 1..]
    ensures Cut(k, firing, i).list[i..hi - 1] == k.list[i + 1..hi]
    ensures k.list[i..hi][1..] == k.list[i + 1..hi]
  {
  }

  lemma ShiftOne(L: seq<Entry>, i: nat, w: seq<Entry>)
    requires i < |L|
    ensures L[..i + 1] + w == L[..i] + ([L[i]] + w)
  {
  }

  lemma WithoutHead(L: seq<Entry>, i: nat, fn: Callback)
    requires i < |L|
    ensures Without(L[i..], fn) == if L[i].fn == fn then Without(L[i + 1..], fn) else [L[i]] + Without(L[i + 1..], fn)
  {
    assert L[i..][1..] == L[i + 1..];
  }

  /** One removal loop, from position i on: the list becomes the filtered list. */
  lemma {:induction false} RemoveFromList(k: Cursor, firing: bool, unique: bool, fn: Callback, i: nat)
    requires i <= |k.list| && (unique ==> DistinctFns(k.list))
    ensures RemoveFrom(k, firing, unique, fn, i).list == k.list[..i] + Without(k.list[i..], fn)
    decreases |k.list| - i
  {
    var L := k.list;
    if i == |L| {
    } else {
      CutSlices(k, firing, i, |L|);
      WithoutHead(L, i, fn);
      if L[i].fn == fn {
        if unique {
          DistinctTail(L, i, |L|);
          assert L[i..|L|] == L[i..] && L[i + 1..|L|] == L[i + 1..];
        } else {
          RemoveFromList(Cut(k, firing, i), firing, unique, fn, i);
        }
      } else {
        RemoveFromList(k, firing, unique, fn, i + 1);
        ShiftOne(L, i, Without(L[i + 1..], fn));
      }
    }
  }

  /** Without a running pass the loop bounds stay. */
  lemma {:induction false} RemoveFromIdle(k: Cursor, unique: bool, fn: Callback, i: nat)
    requires i <= |k.list|
    ensures RemoveFrom(k, false, unique, fn, i).length == k.length
    ensures RemoveFrom(k, false, unique, fn, i).index == k.index
    decreases |k.list| - i
  {
    if i == |k.list| {
    } else {
      if k.list[i].fn != fn {
        RemoveFromIdle(k, unique, fn, i + 1);
      } else if !unique {
        RemoveFromIdle(Cut(k, false, i), unique, fn, i);
      }
    }
  }

  /** Behind the cursor the cursor stays, and the loop length follows the list. */
  lemma {:induction false} RemoveFromAhead(k: Cursor, unique: bool, fn: Callback, i: nat)
    requires k.index < i <= |k.list| && Aligned(k, true)
    ensures Aligned(RemoveFrom(k, true, unique, fn, i), true)
    ensures RemoveFrom(k, true, unique, fn, i).index == k.index
    decreases |k.list| - i
  {
    if i == |k.list| {
    } else {
      if k.list[i].fn != fn {
        RemoveFromAhead(k, unique, fn, i + 1);
      } else if !unique {
        RemoveFromAhead(Cut(k, true, i), unique, fn, i);
      }
    }
  }

  /** One removal loop: the cursor moves back by the number of entered entries that were removed. */
  lemma {:induction false} RemoveFromIndex(k: Cursor, unique: bool, fn: Callback, i: nat)
    requires i <= k.index + 1 && Aligned(k, true) && (unique ==> DistinctFns(k.list))
    ensures Aligned(RemoveFrom(k, true, unique, fn, i), true)
    ensures RemoveFrom(k, true, unique, fn, i).index + 1 == i + |Without(k.list[i..k.index + 1], fn)|
    decreases |k.list| - i
  {
    var L := k.list;
    if i == k.index + 1 {
      RemoveFromAhead(k, unique, fn, i);
    } else {
      CutSlices(k, true, i, k.index + 1);
      if L[i].fn != fn {
        RemoveFromIndex(k, unique, fn, i + 1);
      } else if unique {
        DistinctTail(L, i, k.index + 1);
      } else {
        RemoveFromIndex(Cut(k, true, i), unique, fn, i);
      }
    }
  }

  lemma SplitByLength(r: seq<Entry>, a: seq<Entry>, b: seq<Entry>, n: int)
    requires r == a + b && n == |a|
    ensures r[..n] == a && r[n..] == b
  {
  }

  lemma RemovedList(k: Cursor, firing: bool, unique: bool, fn: Callback)
    requires unique ==> DistinctFns(k.list)
    ensures RemoveFrom(k, firing, unique, fn, 0).list == Without(k.list, fn)
  {
    RemoveFromList(k, firing, unique, fn, 0);
    assert k.list[0..] == k.list && k.list[..0] == [];
  }

  lemma RemovedIndex(k: Cursor, unique: bool, fn: Callback)
    requires Aligned(k, true) && (unique ==> DistinctFns(k.list))
    ensures Aligned(RemoveFrom(k, true, unique, fn, 0), true)
    ensures RemoveFrom(k, true, unique, fn, 0).index + 1 == |Without(k.list[..k.index + 1], fn)|
  {
    RemoveFromIndex(k, unique, fn, 0);
    assert k.list[0..k.index + 1] == k.list[..k.index + 1];
  }

  /**
   A removal seen from the pass: the part the pass has entered and the part still to come are filtered
   separately, so the cursor stays between the same two entries; without a pass the bounds stay.
   */
  predicate Splits(k: Cursor, r: Cursor, firing: bool, fns: seq<Callback>) {
    && Aligned(k, firing) && Aligned(r, firing)
    && r.list == WithoutAll(k.list, fns)
    && (!firing ==> r.length == k.length && r.index == k.index)
    && (firing ==>
         && r.list[..r.index + 1] == WithoutAll(k.list[..k.index + 1], fns)
         && r.list[r.index + 1..] == WithoutAll(k.list[k.index + 1..], fns))
  }

  lemma WithoutOne(s: seq<Entry>, fn: Callback)
    ensures WithoutAll(s, [fn]) == Without(s, fn)
  {
    assert [fn][1..] == [];
  }

  lemma RemoveFromSplits(k: Cursor, firing: bool, unique: bool, fn: Callback)
    requires Aligned(k, firing) && (unique ==> DistinctFns(k.list))
    ensures Splits(k, RemoveFrom(k, firing, unique, fn, 0), firing, [fn])
  {
    RemovedList(k, firing, unique, fn);
    WithoutOne(k.list, fn);
    if firing {
      RemovedIndex(k, unique, fn);
      var a, b := k.list[..k.index + 1], k.list[k.index + 1..];
      assert a + b == k.list;
      WithoutAppend(a, b, fn);
      WithoutOne(a, fn);
      WithoutOne(b, fn);
      var r := RemoveFrom(k, firing, unique, fn, 0);
      SplitByLength(r.list, Without(a, fn), Without(b, fn), r.index + 1);
    } else {
      RemoveFromIdle(k, unique, fn, 0);
    }
  }

  lemma SplitsCompose(k: Cursor, mid: Cursor, r: Cursor, firing: bool, fns: seq<Callback>)
    requires fns != [] && Splits(k, mid, firing, [fns[0]]) && Splits(mid, r, firing, fns[1..])
    ensures Splits(k, r, firing, fns)
  {
    WithoutOne(k.list, fns[0]);
    if firing {
      WithoutOne(k.list[..k.index + 1], fns[0]);
      WithoutOne(k.list[k.index + 1..], fns[0]);
    }
  }

  lemma {:induction false} RemoveEachSplits(k: Cursor, firing: bool, unique: bool, fns: seq<Callback>)
    requires Aligned(k, firing) && (unique ==> DistinctFns(k.list))
    ensures Splits(k, RemoveEach(k, firing, unique, fns), firing, fns)
    decreases fns
  {
    if fns == [] {
    } else {
      var mid := RemoveFrom(k, firing, unique, fns[0], 0);
      RemoveFromSplits(k, firing, unique, fns[0]);
      WithoutOne(k.list, fns[0]);
      if unique { WithoutDistinct(k.list, fns[0]); }
      RemoveEachSplits(mid, firing, unique, fns[1..]);
      SplitsCompose(k, mid, RemoveEach(mid, firing, unique, fns[1..]), firing, fns);
    }
  }

  lemma {:induction false} WithoutAllMembers(s: seq<Entry>, fns: seq<Callback>, e: Entry)
    ensures e in WithoutAll(s, fns) <==> e in s && e.fn !in fns
    decreases fns
  {
    if fns == [] {
    } else {
      WithoutMembers(s, fns[0], e);
      WithoutAllMembers(Without(s, fns[0]), fns[1..], e);
      assert fns == [fns[0]] + fns[1..];
    }
  }

  lemma {:induction false} WithoutAllKeeps(s: seq<Entry>, fns: seq<Callback>)
    ensures Ordered(s) ==> Ordered(WithoutAll(s, fns))
    ensures DistinctFns(s) ==> DistinctFns(WithoutAll(s, fns))
    decreases fns
  {
    if fns == [] {
    } else {
      if Ordered(s) { WithoutOrdered(s, fns[0]); }
      if DistinctFns(s) { WithoutDistinct(s, fns[0]); }
      WithoutAllKeeps(Without(s, fns[0]), fns[1..]);
    }
  }

  /** The entries of s whose function is not among fns, in order. */
  function Kept(s: seq<Entry>, fns: seq<Callback>): seq<Entry> {
    if s == [] then []
    else (if s[0].fn in fns then [] else [s[0]]) + Kept(s[1..], fns)
  }

  lemma {:induction false} WithoutAllHead(x: Entry, s: seq<Entry>, fns: seq<Callback>)
    ensures WithoutAll([x] + s, fns) == (if x.fn in fns then [] else [x]) + WithoutAll(s, fns)
    decreases fns
  {
    if fns == [] {
    } else {
      assert fns == [fns[0]] + fns[1..];
      assert ([x] + s)[1..] == s;
      if x.fn == fns[0] {
        assert [] + WithoutAll(s, fns) == WithoutAll(s, fns);
      } else {
        WithoutAllHead(x, Without(s, fns[0]), fns[1..]);
      }
    }
  }

  lemma {:induction false} WithoutAllNone(fns: seq<Callback>)
    ensures WithoutAll([], fns) == []
    decreases fns
  {
    if fns == [] {
    } else {
      WithoutAllNone(fns[1..]);
    }
  }

  /** Removing the functions one after another leaves the entries with none of them. */
  lemma {:induction false} WithoutAllIsKept(s: seq<Entry>, fns: seq<Callback>)
    ensures WithoutAll(s, fns) == Kept(s, fns)
  {
    if s == [] {
      WithoutAllNone(fns);
    } else {
      assert s == [s[0]] + s[1..];
      WithoutAllHead(s[0], s[1..], fns);
      WithoutAllIsKept(s[1..], fns);
    }
  }
}
