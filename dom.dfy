/**
 * An abstract view of the DOM that the page builds: a node is a text node
 * or an element with a tag, its attributes and its children, as built by
 * the helper `el(tag, attrs, ...children)` (src/lib/elements.js is not
 * part of this model). Elements are compared by value.
 */
module Dom {

  datatype Node =
    | Text(text: string)
    | Elem(tag: string, attrs: map<string, string>, children: seq<Node>)

  /** The `class` attribute of a node, or "" when it has none. */
  function ClassOf(n: Node): string
  {
    if n.Elem? && "class" in n.attrs then n.attrs["class"] else ""
  }

  /** How many of `nodes` carry class `cls`. */
  function Count(nodes: seq<Node>, cls: string): nat
  {
    if nodes == [] then 0
    else (if ClassOf(nodes[0]) == cls then 1 else 0) + Count(nodes[1..], cls)
  }

  /** `querySelector('.cls')` finds a node among `nodes`. */
  predicate Has(nodes: seq<Node>, cls: string)
  {
    exists i :: 0 <= i < |nodes| && ClassOf(nodes[i]) == cls
  }

  /** `i` is the position `querySelector('.cls')` returns: the first node of class `cls`. */
  predicate IsFirst(nodes: seq<Node>, cls: string, i: int)
  {
    0 <= i < |nodes| && ClassOf(nodes[i]) == cls &&
    forall j :: 0 <= j < i ==> ClassOf(nodes[j]) != cls
  }

  /**
   * `querySelector('.cls')` followed by `remove()` on what it found: the
   * first node of class `cls` goes, everything else stays in order.
   */
  function RemoveFirst(nodes: seq<Node>, cls: string): (r: seq<Node>)
    ensures !Has(nodes, cls) ==> r == nodes
    ensures forall i :: IsFirst(nodes, cls, i) ==> r == nodes[..i] + nodes[i + 1..]
  {
    if nodes == [] then []
    else if ClassOf(nodes[0]) == cls then nodes[1..]
    else
      var rest := RemoveFirst(nodes[1..], cls);
      assert forall i :: IsFirst(nodes, cls, i) ==> IsFirst(nodes[1..], cls, i - 1);
      assert !Has(nodes, cls) ==> !Has(nodes[1..], cls);
      [nodes[0]] + rest
  }

  /** The nodes whose class is not in `classes`, in order. */
  function FilterOut(nodes: seq<Node>, classes: set<string>): seq<Node>
  {
    if nodes == [] then []
    else if ClassOf(nodes[0]) in classes then FilterOut(nodes[1..], classes)
    else [nodes[0]] + FilterOut(nodes[1..], classes)
  }

  /** The visible text of a node: its text descendants, in document order. */
  function TextOf(n: Node): string
    decreases n
  {
    match n
    case Text(s) => s
    case Elem(_, _, children) => TextOfAll(children)
  }

  function TextOfAll(nodes: seq<Node>): string
    decreases nodes
  {
    if nodes == [] then "" else TextOf(nodes[0]) + TextOfAll(nodes[1..])
  }

  /** The text of a single node list is that node's text. */
  lemma TextOfOne(a: Node)
    ensures TextOfAll([a]) == TextOf(a)
  {
    assert [a][1..] == [];
  }

  /** The text of three nodes is their texts in order. */
  lemma TextOfThree(a: Node, b: Node, c: Node)
    ensures TextOfAll([a, b, c]) == TextOf(a) + TextOf(b) + TextOf(c)
  {
    assert [a, b, c][1..] == [b, c] && [b, c][1..] == [c];
    TextOfOne(c);
  }

  /** Counting distributes over concatenation. */
  lemma {:induction false} CountAppend(a: seq<Node>, b: seq<Node>, cls: string)
    ensures Count(a + b, cls) == Count(a, cls) + Count(b, cls)
  {
    if a == [] {
      assert a + b == b;
    } else {
      assert (a + b)[0] == a[0] && (a + b)[1..] == a[1..] + b;
      CountAppend(a[1..], b, cls);
    }
  }

  /** `Has` and `Count` agree. */
  lemma {:induction false} HasIffCount(nodes: seq<Node>, cls: string)
    ensures Has(nodes, cls) <==> Count(nodes, cls) > 0
  {
    if nodes != [] {
      HasIffCount(nodes[1..], cls);
      if Has(nodes[1..], cls) {
        var i :| 0 <= i < |nodes[1..]| && ClassOf(nodes[1..][i]) == cls;
        assert ClassOf(nodes[i + 1]) == cls;
      }
      if Has(nodes, cls) && ClassOf(nodes[0]) != cls {
        var i :| 0 <= i < |nodes| && ClassOf(nodes[i]) == cls;
        assert ClassOf(nodes[1..][i - 1]) == cls;
      }
    }
  }

  /** Removing all nodes of a class leaves none of it and counts the others as before. */
  lemma {:induction false} CountFilterOut(nodes: seq<Node>, classes: set<string>, cls: string)
    ensures Count(FilterOut(nodes, classes), cls) == if cls in classes then 0 else Count(nodes, cls)
  {
    if nodes != [] {
      CountFilterOut(nodes[1..], classes, cls);
      if ClassOf(nodes[0]) !in classes {
        var rest := FilterOut(nodes[1..], classes);
        assert ([nodes[0]] + rest)[0] == nodes[0] && ([nodes[0]] + rest)[1..] == rest;
      }
    }
  }

  /** Filtering twice is filtering once by both sets. */
  lemma {:induction false} FilterOutTwice(nodes: seq<Node>, a: set<string>, b: set<string>)
    ensures FilterOut(FilterOut(nodes, a), b) == FilterOut(nodes, a + b)
  {
    if nodes != [] {
      FilterOutTwice(nodes[1..], a, b);
      if ClassOf(nodes[0]) !in a {
        var rest := FilterOut(nodes[1..], a);
        assert ([nodes[0]] + rest)[0] == nodes[0] && ([nodes[0]] + rest)[1..] == rest;
      }
    }
  }

  /** When at most one node carries `cls`, removing the first removes them all. */
  lemma {:induction false} RemoveFirstOnly(nodes: seq<Node>, cls: string)
    requires Count(nodes, cls) <= 1
    ensures RemoveFirst(nodes, cls) == FilterOut(nodes, {cls})
  {
    if nodes != [] {
      if ClassOf(nodes[0]) == cls {
        HasIffCount(nodes[1..], cls);
        FilterOutNone(nodes[1..], cls);
      } else {
        RemoveFirstOnly(nodes[1..], cls);
      }
    }
  }

  /** Filtering out a class that no node carries changes nothing. */
  lemma {:induction false} FilterOutNone(nodes: seq<Node>, cls: string)
    requires !Has(nodes, cls)
    ensures FilterOut(nodes, {cls}) == nodes
  {
    if nodes != [] {
      assert ClassOf(nodes[0]) != cls;
      FilterOutNone(nodes[1..], cls);
    }
  }
}
