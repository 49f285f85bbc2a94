/**
 The stackless walk of the search page: from element to element over firstChild, nextSibling and
 parentNode, looking for the first SRChildren DIV below a parent.
 */
module DomWalk {

  class Element {
    const nodeName: string
    const className: string
    var firstChild: Element?
    var nextSibling: Element?
    var parentNode: Element?

    constructor (nodeName: string, className: string)
      ensures this.nodeName == nodeName && this.className == className
      ensures firstChild == null && nextSibling == null && parentNode == null
    {
      this.nodeName, this.className := nodeName, className;
      firstChild, nextSibling, parentNode := null, null, null;
    }
  }

  /** The shape of a list of sibling subtrees. */
  datatype Tree = Tree(kids: seq<Tree>)

  function Size(shape: seq<Tree>): nat {
    if shape == [] then 0 else 1 + Size(shape[0].kids) + Size(shape[1..])
  }

  /** e heads a sibling list of the given shape below parent, with consistent links, and root is not in it. */
  ghost predicate Chain(e: Element?, parent: Element, root: Element, shape: seq<Tree>)
    reads *
    decreases shape
  {
    if shape == [] then e == null
    else
      && e != null && e != root && e.parentNode == parent
      && Chain(e.firstChild, e, root, shape[0].kids)
      && Chain(e.nextSibling, parent, root, shape[1..])
  }

  /** The elements met in preorder when only DIVs are entered. */
  ghost function Preorder(e: Element?, parent: Element, root: Element, shape: seq<Tree>): seq<Element>
    requires Chain(e, parent, root, shape)
    reads *
    decreases shape
  {
    if shape == [] then []
    else
      [e]
      + (if e.nodeName == "DIV" then Preorder(e.firstChild, e, root, shape[0].kids) else [])
      + Preorder(e.nextSibling, parent, root, shape[1..])
  }

  predicate Wanted(e: Element) {
    e.nodeName == "DIV" && e.className == "SRChildren"
  }

  ghost function First(s: seq<Element>): Element? {
    if s == [] then null else if Wanted(s[0]) then s[0] else First(s[1..])
  }

  lemma {:induction false} FirstConcat(a: seq<Element>, b: seq<Element>)
    ensures First(a + b) == if First(a) != null then First(a) else First(b)
  {
    if a == [] {
      assert a + b == b;
    } else {
      assert (a + b)[1..] == a[1..] + b;
      FirstConcat(a[1..], b);
    }
  }

  lemma FirstSkips(e: Element, a: seq<Element>, b: seq<Element>)
    requires !Wanted(e)
    ensures First(([e] + a) + b) == First(a + b)
  {
    assert (([e] + a) + b)[1..] == a + b;
  }

  /** First is the earliest wanted element, or null when there is none. */
  lemma {:induction false} FirstIsEarliest(s: seq<Element>)
    ensures First(s) == null <==> forall i :: 0 <= i < |s| ==> !Wanted(s[i])
    ensures First(s) != null ==>
      exists i :: 0 <= i < |s| && s[i] == First(s) && Wanted(s[i]) && forall j :: 0 <= j < i ==> !Wanted(s[j])
  {
    if s == [] || Wanted(s[0]) {
    } else {
      FirstIsEarliest(s[1..]);
      if First(s) != null {
        var i :| 0 <= i < |s[1..]| && s[1..][i] == First(s[1..]) && Wanted(s[1..][i])
              && forall j :: 0 <= j < i ==> !Wanted(s[1..][j]);
        assert s[i + 1] == First(s);
        forall j | 0 <= j < i + 1 ensures !Wanted(s[j]) { if j > 0 { assert s[j] == s[1..][j - 1]; } }
      }
    }
  }

  /** The recursive search the walk stands for. */
  ghost function Search(e: Element?, parent: Element, root: Element, shape: seq<Tree>): Element?
    requires Chain(e, parent, root, shape)
    reads *
    decreases shape
  {
    if shape == [] then null
    else if Wanted(e) then e
    else
      var below := if e.nodeName == "DIV" then Search(e.firstChild, e, root, shape[0].kids) else null;
      if below != null then below else Search(e.nextSibling, parent, root, shape[1..])
  }

  lemma {:induction false} SearchIsFirst(e: Element?, parent: Element, root: Element, shape: seq<Tree>)
    requires Chain(e, parent, root, shape)
    ensures Search(e, parent, root, shape) == First(Preorder(e, parent, root, shape))
    decreases shape
  {
    if shape == [] {
    } else {
      SearchIsFirst(e.firstChild, e, root, shape[0].kids);
      SearchIsFirst(e.nextSibling, parent, root, shape[1..]);
      var below := if e.nodeName == "DIV" then Preorder(e.firstChild, e, root, shape[0].kids) else [];
      var after := Preorder(e.nextSibling, parent, root, shape[1..]);
      FirstConcat([e] + below, after);
      FirstConcat([e], below);
    }
  }

  // ---------------------------------------------------------------- what is left above the cursor

  /** p is an ancestor (or root itself) and `rests` are the shapes right of each ancestor up to root. */
  ghost predicate Up(p: Element, root: Element, rests: seq<seq<Tree>>)
    reads *
    decreases |rests|
  {
    if rests == [] then p == root
    else
      && p != root && p.parentNode != null
      && Chain(p.nextSibling, p.parentNode, root, rests[0])
      && Up(p.parentNode, root, rests[1..])
  }

  ghost function Remaining(p: Element, root: Element, rests: seq<seq<Tree>>): seq<Element>
    requires Up(p, root, rests)
    reads *
    decreases |rests|
  {
    if rests == [] then []
    else Preorder(p.nextSibling, p.parentNode, root, rests[0]) + Remaining(p.parentNode, root, rests[1..])
  }

  function TotalSize(rests: seq<seq<Tree>>): nat {
    if rests == [] then 0 else Size(rests[0]) + TotalSize(rests[1..])
  }

  lemma PushRest(e: Element, p: Element, root: Element, shape: seq<Tree>, rests: seq<seq<Tree>>)
    requires shape != [] && Chain(e, p, root, shape) && Up(p, root, rests)
    ensures Up(e, root, [shape[1..]] + rests)
    ensures Remaining(e, root, [shape[1..]] + rests)
         == Preorder(e.nextSibling, p, root, shape[1..]) + Remaining(p, root, rests)
  {
    assert ([shape[1..]] + rests)[1..] == rests;
  }

  lemma PushSize(shape: seq<Tree>, rests: seq<seq<Tree>>)
    requires shape != []
    ensures Size(shape[0].kids) + TotalSize([shape[1..]] + rests) < Size(shape) + TotalSize(rests)
  {
    assert ([shape[1..]] + rests)[1..] == rests;
  }

  lemma Rearrange(e: Element, below: seq<Element>, after: seq<Element>, above: seq<Element>)
    requires !Wanted(e)
    ensures First(([e] + below + after) + above) == First(below + (after + above))
  {
    assert ([e] + below + after) + above == ([e] + below) + (after + above);
    FirstSkips(e, below, after + above);
  }

  /** Entering a DIV: what is ahead stays the same, less the DIV itself. */
  lemma Descend(e: Element, p: Element, root: Element, shape: seq<Tree>, rests: seq<seq<Tree>>)
    requires shape != [] && Chain(e, p, root, shape) && Up(p, root, rests)
    requires e.nodeName == "DIV" && !Wanted(e)
    ensures Up(e, root, [shape[1..]] + rests)
    ensures First(Preorder(e, p, root, shape) + Remaining(p, root, rests))
         == First(Preorder(e.firstChild, e, root, shape[0].kids) + Remaining(e, root, [shape[1..]] + rests))
  {
    PushRest(e, p, root, shape, rests);
    Rearrange(e, Preorder(e.firstChild, e, root, shape[0].kids), Preorder(e.nextSibling, p, root, shape[1..]),
              Remaining(p, root, rests));
  }

  /** Passing an element that is not entered. */
  lemma Pass(e: Element, p: Element, root: Element, shape: seq<Tree>, rests: seq<seq<Tree>>)
    requires shape != [] && Chain(e, p, root, shape) && Up(p, root, rests)
    requires !Wanted(e) && (e.nodeName == "DIV" ==> e.firstChild == null)
    ensures First(Preorder(e, p, root, shape) + Remaining(p, root, rests))
         == First(Preorder(e.nextSibling, p, root, shape[1..]) + Remaining(p, root, rests))
  {
    NotEntered(e, p, root, shape);
    var after, above := Preorder(e.nextSibling, p, root, shape[1..]), Remaining(p, root, rests);
    FirstSkips(e, after, above);
  }

  lemma NotEntered(e: Element, p: Element, root: Element, shape: seq<Tree>)
    requires shape != [] && Chain(e, p, root, shape) && (e.nodeName == "DIV" ==> e.firstChild == null)
    ensures Preorder(e, p, root, shape) == [e] + Preorder(e.nextSibling, p, root, shape[1..])
  {
    if e.nodeName == "DIV" {
      assert shape[0].kids == [];
      assert Preorder(e.firstChild, e, root, shape[0].kids) == [];
    }
  }

  /** The walk terminates and returns what the recursive search returns. */
  method FindChildElement(parentElement: Element, ghost shape: seq<Tree>) returns (r: Element?)
    requires Chain(parentElement.firstChild, parentElement, parentElement, shape)
    ensures r == Search(parentElement.firstChild, parentElement, parentElement, shape)
  {
    ghost var root := parentElement;
    ghost var goal := First(Preorder(root.firstChild, root, root, shape));
    SearchIsFirst(root.firstChild, root, root, shape);
    var element := parentElement.firstChild;
    ghost var p: Element := root;
    ghost var s: seq<Tree>, rests: seq<seq<Tree>> := shape, [];
    assert Preorder(root.firstChild, root, root, shape) + Remaining(root, root, [])
        == Preorder(root.firstChild, root, root, shape);
    while element != null && element != parentElement
      invariant element != null && element != root ==>
        && s != [] && Chain(element, p, root, s) && Up(p, root, rests)
        && goal == First(Preorder(element, p, root, s) + Remaining(p, root, rests))
      invariant element == null || element == root ==> goal == null
      decreases if element == null || element == root then 0 else Size(s) + TotalSize(rests)
    {
      if element.nodeName == "DIV" && element.className == "SRChildren" {
        assert (Preorder(element, p, root, s) + Remaining(p, root, rests))[0] == element;
        return element;
      }
      if element.nodeName == "DIV" && element.firstChild != null {
        Descend(element, p, root, s, rests);
        PushSize(s, rests);
        p, s, rests := element, s[0].kids, [s[1..]] + rests;
        element := element.firstChild;
      } else if element.nextSibling != null {
        Pass(element, p, root, s, rests);
        s := s[1..];
        element := element.nextSibling;
      } else {
        Pass(element, p, root, s, rests);
        assert s[1..] == [];
        ghost var above := Remaining(p, root, rests);
        assert [] + above == above;
        ghost var size := Size(s) + TotalSize(rests);
        element := element.parentNode;
        while element != null && element != parentElement && element.nextSibling == null
          invariant element == p && Up(p, root, rests)
          invariant goal == First(Remaining(p, root, rests))
          invariant TotalSize(rests) < size
          decreases |rests|
        {
          assert rests[0] == [];
          assert [] + Remaining(p.parentNode, root, rests[1..]) == Remaining(p.parentNode, root, rests[1..]);
          p, rests := p.parentNode, rests[1..];
          element := element.parentNode;
        }
        if element != null && element != parentElement {
          assert rests[0] != [];
          s, p, rests := rests[0], p.parentNode, rests[1..];
          element := element.nextSibling;
        }
      }
    }
    return null;
  }
}
