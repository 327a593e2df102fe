/**
  An abstract element tree, the part of the DOM that the page scripts read
  and rearrange. An element has a tag name, a class list, a data-attribute
  map (`dataset`), a map of custom style properties (`style`), its own text
  and its ordered element children. There is no sharing: a tree is a value.
  The selector queries of the scripts are modelled on the preorder of a
  forest, which is the DOM's document order.
*/
module Dom {
  import opened Wrappers

  datatype Node = Node(
    tag: string,
    classes: set<string>,
    dataset: map<string, string>,
    style: map<string, string>,
    text: string,
    kids: seq<Node>)

  /** A freshly created `div` holding the given children. */
  function NewDiv(classes: set<string>, kids: seq<Node>): Node
  {
    Node("div", classes, map[], map[], "", kids)
  }

  /** The simple selectors the scripts use: `h1`, `table`, `div.section-metadata`. */
  datatype Selector = Tag(name: string) | TagWithClass(name: string, cls: string)

  predicate Matches(n: Node, sel: Selector)
  {
    match sel
    case Tag(name) => n.tag == name
    case TagWithClass(name, cls) => n.tag == name && cls in n.classes
  }

  /** Every element of the forest `ns` in document order (each element before its descendants). */
  function Preorder(ns: seq<Node>): (r: seq<Node>)
    ensures |r| >= |ns|
    ensures ns != [] ==> r[0] == ns[0]
    ensures forall n :: n in ns ==> n in r
    decreases ns
  {
    if ns == [] then [] else [ns[0]] + Preorder(ns[0].kids) + Preorder(ns[1..])
  }

  /** Document order of two forests placed side by side is the one followed by the other. */
  lemma {:induction false} PreorderAppend(xs: seq<Node>, ys: seq<Node>)
    ensures Preorder(xs + ys) == Preorder(xs) + Preorder(ys)
    decreases xs
  {
    if xs == [] {
      assert xs + ys == ys;
    } else {
      assert (xs + ys)[0] == xs[0];
      assert (xs + ys)[1..] == xs[1..] + ys;
      PreorderAppend(xs[1..], ys);
    }
  }

  /** The document order of a single element: the element, then its descendants. */
  lemma PreorderSingle(n: Node)
    ensures Preorder([n]) == [n] + Preorder(n.kids)
  {
    assert [n][1..] == [];
  }

  /** The position of the first element of `s` that matches `sel`. */
  function IndexOfFirst(s: seq<Node>, sel: Selector): (r: Option<nat>)
    ensures r.Some? ==> r.value < |s| && Matches(s[r.value], sel)
    ensures r.Some? ==> forall j :: 0 <= j < r.value ==> !Matches(s[j], sel)
    ensures r.None? <==> forall j :: 0 <= j < |s| ==> !Matches(s[j], sel)
  {
    if s == [] then None
    else if Matches(s[0], sel) then Some(0)
    else match IndexOfFirst(s[1..], sel)
      case None => None
      case Some(i) => Some(i + 1)
  }

  /** `querySelector` on an element whose children are `ns`: the first matching descendant. */
  function QuerySelector(ns: seq<Node>, sel: Selector): (r: Option<Node>)
    ensures r.None? <==> forall i :: 0 <= i < |Preorder(ns)| ==> !Matches(Preorder(ns)[i], sel)
    ensures r.Some? ==> exists p :: 0 <= p < |Preorder(ns)| && Preorder(ns)[p] == r.value && Matches(r.value, sel)
                                    && forall j :: 0 <= j < p ==> !Matches(Preorder(ns)[j], sel)
  {
    var order := Preorder(ns);
    match IndexOfFirst(order, sel)
    case None => None
    case Some(i) => Some(order[i])
  }

  /** The elements of `s` that match `sel`, in their order. */
  function Filter(s: seq<Node>, sel: Selector): (r: seq<Node>)
    ensures |r| <= |s|
    ensures forall i :: 0 <= i < |r| ==> Matches(r[i], sel)
    ensures forall x :: x in r <==> x in s && Matches(x, sel)
  {
    if s == [] then []
    else if Matches(s[0], sel) then [s[0]] + Filter(s[1..], sel)
    else Filter(s[1..], sel)
  }

  /** Filtering keeps the order of the input: filtering two parts side by side is filtering each in turn. */
  lemma {:induction false} FilterAppend(a: seq<Node>, b: seq<Node>, sel: Selector)
    ensures Filter(a + b, sel) == Filter(a, sel) + Filter(b, sel)
    decreases |a|
  {
    if a == [] {
      assert a + b == b;
    } else {
      assert (a + b)[0] == a[0];
      assert (a + b)[1..] == a[1..] + b;
      FilterAppend(a[1..], b, sel);
    }
  }

  /** `querySelectorAll` on an element whose children are `ns`: all matching descendants in document order. */
  function QuerySelectorAll(ns: seq<Node>, sel: Selector): (r: seq<Node>)
    ensures forall i :: 0 <= i < |r| ==> Matches(r[i], sel)
    ensures forall x :: x in r <==> x in Preorder(ns) && Matches(x, sel)
  {
    Filter(Preorder(ns), sel)
  }

  /** `String.prototype.toLowerCase` on ASCII letters. */
  function LowerChar(c: char): char
  {
    if 'A' <= c <= 'Z' then (c as int + 32) as char else c
  }

  function Lower(s: string): string
  {
    seq(|s|, i requires 0 <= i < |s| => LowerChar(s[i]))
  }

  /** `String.prototype.includes`: `sub` occurs somewhere in `s`. */
  predicate Contains(s: string, sub: string)
  {
    exists i :: 0 <= i <= |s| && sub <= s[i..]
  }

  /** Some stretch of `s`, read with its ASCII capitals lowered, spells `sub`. */
  predicate ContainsIgnoringCase(s: string, sub: string)
  {
    exists i :: 0 <= i <= |s| && |sub| <= |s[i..]| && Lower(s[i..][..|sub|]) == sub
  }

  /** Searching the lower-cased text finds exactly the stretches that spell `sub` in any ASCII case. */
  lemma LowerContains(s: string, sub: string)
    ensures Contains(Lower(s), sub) <==> ContainsIgnoringCase(s, sub)
  {
    if Contains(Lower(s), sub) {
      var i :| 0 <= i <= |Lower(s)| && sub <= Lower(s)[i..];
      assert Lower(s[i..][..|sub|]) == sub;
    }
    if ContainsIgnoringCase(s, sub) {
      var i :| 0 <= i <= |s| && |sub| <= |s[i..]| && Lower(s[i..][..|sub|]) == sub;
      assert sub <= Lower(s)[i..];
    }
  }

  /** Whatever spelling `t` occurs in `s`, its lower-cased form is found case-insensitively. */
  lemma SpellingFound(s: string, t: string)
    requires Contains(s, t)
    ensures ContainsIgnoringCase(s, Lower(t))
  {
    var i :| 0 <= i <= |s| && t <= s[i..];
    assert s[i..][..|t|] == t;
  }
}
