/**
  The hero auto-block (`buildHeroBlock` and `buildAutoBlocks`,
  scripts/scripts.js): when the first `picture` of `main` comes before its
  first `h1` in document order, a block named "hero" built from
  `[picture, h1]` is put into a new section at the front of `main`. The
  block builder is a collaborator that may throw; `buildAutoBlocks` catches
  that and decoration goes on with `main` as it was.
*/
module HeroBlock {
  import opened Wrappers
  import opened Dom

  const HeroName := "hero"
  const Heading := Tag("h1")
  const Picture := Tag("picture")

  /** `buildBlock(name, { elems })`; a Failure stands for an exception it throws. */
  type BlockBuilder = (string, seq<Node>) -> Result<Node, string>

  /** In the element sequence `order`, a heading and a picture exist and the first picture precedes the first heading. */
  predicate PictureFirst(order: seq<Node>)
  {
    var h1 := IndexOfFirst(order, Heading);
    var picture := IndexOfFirst(order, Picture);
    h1.Some? && picture.Some? && picture.value < h1.value
  }

  /** `compareDocumentPosition` of the first heading and the first picture of `main` says PRECEDING. */
  predicate HeroFires(ns: seq<Node>)
  {
    PictureFirst(Preorder(ns))
  }

  /** The block content: the first picture in document order, then the first heading, which comes after it. */
  function HeroElems(ns: seq<Node>): (r: seq<Node>)
    requires HeroFires(ns)
    ensures |r| == 2 && Matches(r[0], Picture) && Matches(r[1], Heading)
    ensures exists p, h :: && 0 <= p < h < |Preorder(ns)| && Preorder(ns)[p] == r[0] && Preorder(ns)[h] == r[1]
                           && (forall i :: 0 <= i < p ==> !Matches(Preorder(ns)[i], Picture))
                           && (forall i :: 0 <= i < h ==> !Matches(Preorder(ns)[i], Heading))
  {
    var order := Preorder(ns);
    var p := IndexOfFirst(order, Picture).value;
    var h := IndexOfFirst(order, Heading).value;
    var r := [order[p], order[h]];
    assert && 0 <= p < h < |order| && order[p] == r[0] && order[h] == r[1]
           && (forall i :: 0 <= i < p ==> !Matches(order[i], Picture))
           && (forall i :: 0 <= i < h ==> !Matches(order[i], Heading));
    r
  }

  /** `document.createElement('div')` with the block appended. */
  function NewSection(block: Node): Node
  {
    NewDiv({}, [block])
  }

  /** `buildHeroBlock`: the new children of `main`, or the error the block builder threw. Without the condition nothing
      is built; a success adds exactly one section in front of the old children. */
  function BuildHero(ns: seq<Node>, buildBlock: BlockBuilder): (r: Result<seq<Node>, string>)
    ensures !HeroFires(ns) ==> r == Success(ns)
    ensures r.Failure? ==> HeroFires(ns)
    ensures r.Success? && HeroFires(ns) ==> |r.value| == |ns| + 1 && r.value[1..] == ns
  {
    if HeroFires(ns) then
      match buildBlock(HeroName, HeroElems(ns))
      case Failure(e) => Failure(e)
      case Success(block) => Success([NewSection(block)] + ns)
    else Success(ns)
  }

  /** `buildAutoBlocks`: a failure of the hero block is caught, and `main` keeps its children. */
  function AutoBlocks(ns: seq<Node>, buildBlock: BlockBuilder): (r: seq<Node>)
    ensures r == ns || (HeroFires(ns) && |r| == |ns| + 1 && r[1..] == ns)
  {
    match BuildHero(ns, buildBlock)
    case Success(r) => r
    case Failure(_) => ns
  }

  /** A picture at `j` with no heading before it and a heading at `k` after it: the hero fires. */
  lemma PictureBeforeHeading(order: seq<Node>, j: nat, k: nat)
    requires j < k < |order| && Matches(order[j], Picture) && Matches(order[k], Heading)
    requires forall i :: 0 <= i < j ==> !Matches(order[i], Heading)
    ensures PictureFirst(order)
  {
    var h1 := IndexOfFirst(order, Heading);
    var picture := IndexOfFirst(order, Picture);
    assert h1.Some?;
    assert !Matches(order[j], Heading);
    assert h1.value > j;
    assert picture.Some? && picture.value <= j;
  }

  /** The firing condition, stated without positions: some picture comes before every heading, and a heading follows it. */
  lemma PictureFirstIff(order: seq<Node>)
    ensures PictureFirst(order) <==>
            exists j, k :: 0 <= j < k < |order| && Matches(order[j], Picture) && Matches(order[k], Heading)
                           && (forall i :: 0 <= i < j ==> !Matches(order[i], Heading))
  {
    if PictureFirst(order) {
      var j := IndexOfFirst(order, Picture).value;
      var k := IndexOfFirst(order, Heading).value;
      assert Matches(order[j], Picture) && Matches(order[k], Heading);
    }
    if exists j, k :: 0 <= j < k < |order| && Matches(order[j], Picture) && Matches(order[k], Heading)
                      && (forall i :: 0 <= i < j ==> !Matches(order[i], Heading)) {
      var j, k :| 0 <= j < k < |order| && Matches(order[j], Picture) && Matches(order[k], Heading)
                  && (forall i :: 0 <= i < j ==> !Matches(order[i], Heading));
      PictureBeforeHeading(order, j, k);
    }
  }

  /** A hero section is prepended exactly when the condition holds and the builder succeeds; otherwise `main` is unchanged. */
  lemma HeroPrepended(ns: seq<Node>, buildBlock: BlockBuilder)
    ensures var r := AutoBlocks(ns, buildBlock);
            (|r| == |ns| + 1) <==> HeroFires(ns) && buildBlock(HeroName, HeroElems(ns)).Success?
    ensures var r := AutoBlocks(ns, buildBlock);
            || r == ns
            || (&& HeroFires(ns)
                && r[1..] == ns
                && r[0].tag == "div" && r[0].classes == {}
                && r[0].kids == [buildBlock(HeroName, [QuerySelector(ns, Picture).value, QuerySelector(ns, Heading).value]).value])
  {
    if HeroFires(ns) {
      assert HeroElems(ns) == [QuerySelector(ns, Picture).value, QuerySelector(ns, Heading).value];
    }
  }

  /** The new section is the first element of `main` in document order, followed by the block and then the old content. */
  lemma HeroSectionFirst(ns: seq<Node>, buildBlock: BlockBuilder)
    requires HeroFires(ns) && buildBlock(HeroName, HeroElems(ns)).Success?
    ensures var block := buildBlock(HeroName, HeroElems(ns)).value;
            Preorder(AutoBlocks(ns, buildBlock)) == [NewSection(block), block] + Preorder(block.kids) + Preorder(ns)
  {
    var block := buildBlock(HeroName, HeroElems(ns)).value;
    assert AutoBlocks(ns, buildBlock) == [NewSection(block)] + ns;
    SectionInFront(block, ns);
  }

  /** Document order of a new section holding `block`, placed in front of `ns`. */
  lemma SectionInFront(block: Node, ns: seq<Node>)
    ensures Preorder([NewSection(block)] + ns) == [NewSection(block), block] + Preorder(block.kids) + Preorder(ns)
  {
    var section := NewSection(block);
    PreorderAppend([section], ns);
    PreorderSingle(section);
    PreorderSingle(block);
  }
}
