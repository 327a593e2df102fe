/**
  Decoration of the page's `main` element (scripts/scripts.js): `main` is an
  object whose children the steps rearrange in place. `decorateMain` runs a
  fixed pipeline of seven steps; four of them are collaborators from the
  block library (button, icon, section and block decoration) and stay
  opaque, the other three are the hero auto-block, the column-layout reader
  and the grid builder.
*/
module Scripts {
  import opened Wrappers
  import opened Dom
  import LayoutMeta
  import LayoutGrid
  import HeroBlock

  /** An opaque decoration pass over the children of `main`. */
  type Decorator = seq<Node> -> seq<Node>

  /** The collaborators, imported from the block library, that decoration calls. */
  datatype Collaborators = Collaborators(
    decorateButtons: Decorator,
    decorateIcons: Decorator,
    decorateSections: Decorator,
    decorateBlocks: Decorator,
    buildBlock: HeroBlock.BlockBuilder,
    readBlockConfig: Node -> LayoutMeta.Config,
    innerHtml: Node -> string)

  /** `readLayoutMeta` over all top-level elements of `main`: each stays in its place with its tag, classes, text and
      children, at most gains the `data-layout` tag "columns", and keeps every style property but the two widths. */
  function ReadLayoutAll(ns: seq<Node>, readBlockConfig: Node -> LayoutMeta.Config, innerHtml: Node -> string): (r: seq<Node>)
    ensures |r| == |ns|
    ensures forall i :: 0 <= i < |ns| ==> && r[i].tag == ns[i].tag && r[i].classes == ns[i].classes
                                          && r[i].text == ns[i].text && r[i].kids == ns[i].kids
    ensures forall i :: 0 <= i < |ns| ==> || r[i].dataset == ns[i].dataset
                                          || r[i].dataset == ns[i].dataset[LayoutMeta.LayoutKey := LayoutMeta.ColumnsValue]
    ensures forall i :: 0 <= i < |ns| ==> r[i].style.Keys <= ns[i].style.Keys + {LayoutMeta.LeftVar, LayoutMeta.RightVar}
    ensures forall i, k :: 0 <= i < |ns| && k in ns[i].style && k != LayoutMeta.LeftVar && k != LayoutMeta.RightVar
              ==> k in r[i].style && r[i].style[k] == ns[i].style[k]
  {
    seq(|ns|, i requires 0 <= i < |ns| => LayoutMeta.SectionWithLayout(ns[i], readBlockConfig, innerHtml))
  }

  /** The named steps of `decorateMain`. */
  datatype Step =
    | DecorateButtons
    | DecorateIcons
    | BuildAutoBlocks
    | ReadLayoutMeta
    | DecorateSections
    | DecorateBlocks
    | BuildLayoutContainer

  const DecorationOrder: seq<Step> :=
    [DecorateButtons, DecorateIcons, BuildAutoBlocks, ReadLayoutMeta, DecorateSections, DecorateBlocks, BuildLayoutContainer]

  function RunStep(step: Step, ns: seq<Node>, c: Collaborators): seq<Node>
  {
    match step
    case DecorateButtons => c.decorateButtons(ns)
    case DecorateIcons => c.decorateIcons(ns)
    case BuildAutoBlocks => HeroBlock.AutoBlocks(ns, c.buildBlock)
    case ReadLayoutMeta => ReadLayoutAll(ns, c.readBlockConfig, c.innerHtml)
    case DecorateSections => c.decorateSections(ns)
    case DecorateBlocks => c.decorateBlocks(ns)
    case BuildLayoutContainer => LayoutGrid.BuildGridAll(ns)
  }

  /** Steps run one after the other, each on what the previous one left; `run` gives a step's meaning. */
  function RunAll<S, T>(steps: seq<S>, x: T, run: (S, T) -> T): T
    decreases |steps|
  {
    if steps == [] then x else RunAll(steps[1..], run(steps[0], x), run)
  }

  /** Running two lists of steps one after the other is running their concatenation. */
  lemma {:induction false} RunAllAppend<S, T>(xs: seq<S>, ys: seq<S>, x: T, run: (S, T) -> T)
    ensures RunAll(xs + ys, x, run) == RunAll(ys, RunAll(xs, x, run), run)
    decreases |xs|
  {
    if xs == [] {
      assert xs + ys == ys;
    } else {
      assert (xs + ys)[0] == xs[0];
      assert (xs + ys)[1..] == xs[1..] + ys;
      RunAllAppend(xs[1..], ys, run(xs[0], x), run);
    }
  }

  /** A step that leaves its input as it is can be dropped from the pipeline. */
  lemma DropInertStep<S, T>(pre: seq<S>, step: S, post: seq<S>, x: T, run: (S, T) -> T)
    requires run(step, RunAll(pre, x, run)) == RunAll(pre, x, run)
    ensures RunAll(pre + [step] + post, x, run) == RunAll(pre + post, x, run)
  {
    RunAllAppend(pre + [step], post, x, run);
    RunAllAppend(pre, [step], x, run);
    assert [step][1..] == [];
    RunAllAppend(pre, post, x, run);
  }

  /** Seven steps run in sequence are the composition of the seven. */
  lemma SevenSteps<S, T>(a: S, b: S, d: S, e: S, f: S, g: S, h: S, x: T, run: (S, T) -> T)
    ensures RunAll([a, b, d, e, f, g, h], x, run) ==
            run(h, run(g, run(f, run(e, run(d, run(b, run(a, x)))))))
  {
    var steps := [a, b, d, e, f, g, h];
    assert steps[1..] == [b, d, e, f, g, h];
    assert steps[1..][1..] == [d, e, f, g, h];
    assert steps[1..][1..][1..] == [e, f, g, h];
    assert steps[1..][1..][1..][1..] == [f, g, h];
    assert steps[1..][1..][1..][1..][1..] == [g, h];
    assert steps[1..][1..][1..][1..][1..][1..] == [h];
    assert [h][1..] == [];
    assert RunAll([h], run(g, run(f, run(e, run(d, run(b, run(a, x)))))), run)
        == run(h, run(g, run(f, run(e, run(d, run(b, run(a, x)))))));
    assert RunAll([g, h], run(f, run(e, run(d, run(b, run(a, x))))), run)
        == RunAll([h], run(g, run(f, run(e, run(d, run(b, run(a, x)))))), run);
    assert RunAll([f, g, h], run(e, run(d, run(b, run(a, x)))), run)
        == RunAll([g, h], run(f, run(e, run(d, run(b, run(a, x))))), run);
    assert RunAll([e, f, g, h], run(d, run(b, run(a, x))), run)
        == RunAll([f, g, h], run(e, run(d, run(b, run(a, x)))), run);
    assert RunAll([d, e, f, g, h], run(b, run(a, x)), run)
        == RunAll([e, f, g, h], run(d, run(b, run(a, x))), run);
    assert RunAll([b, d, e, f, g, h], run(a, x), run)
        == RunAll([d, e, f, g, h], run(b, run(a, x)), run);
  }

  /** The meaning of each step of `decorateMain`, with the collaborators `c`. */
  function StepRunner(c: Collaborators): (Step, seq<Node>) -> seq<Node>
  {
    (step: Step, ns: seq<Node>) => RunStep(step, ns, c)
  }

  /** The pipeline `steps` run over the children of `main`. */
  function RunSteps(steps: seq<Step>, ns: seq<Node>, c: Collaborators): seq<Node>
  {
    RunAll(steps, ns, StepRunner(c))
  }

  /** Step `a` runs, and runs before step `b`. */
  predicate RunsBefore(steps: seq<Step>, a: Step, b: Step)
  {
    exists i, j :: 0 <= i < j < |steps| && steps[i] == a && steps[j] == b
  }

  /** Each step runs exactly once, and the load-bearing orderings hold: the hero block before the layout is read,
      the layout read before sections are decorated (which hides the metadata), and the grid built last. */
  lemma DecorationOrderConstraints()
    ensures |DecorationOrder| == 7
    ensures forall i, j :: 0 <= i < j < |DecorationOrder| ==> DecorationOrder[i] != DecorationOrder[j]
    ensures RunsBefore(DecorationOrder, DecorateIcons, BuildAutoBlocks)
    ensures RunsBefore(DecorationOrder, BuildAutoBlocks, ReadLayoutMeta)
    ensures RunsBefore(DecorationOrder, ReadLayoutMeta, DecorateSections)
    ensures RunsBefore(DecorationOrder, DecorateSections, DecorateBlocks)
    ensures RunsBefore(DecorationOrder, DecorateBlocks, BuildLayoutContainer)
    ensures RunsBefore(DecorationOrder, ReadLayoutMeta, BuildLayoutContainer)
    ensures DecorationOrder[|DecorationOrder| - 1] == BuildLayoutContainer
  {
    var d := DecorationOrder;
    assert d[1] == DecorateIcons && d[2] == BuildAutoBlocks;
    assert d[2] == BuildAutoBlocks && d[3] == ReadLayoutMeta;
    assert d[3] == ReadLayoutMeta && d[4] == DecorateSections;
    assert d[4] == DecorateSections && d[5] == DecorateBlocks;
    assert d[5] == DecorateBlocks && d[6] == BuildLayoutContainer;
  }

  /** `decorateMain` as one composition of its steps. */
  lemma DecorateIsComposition(ns: seq<Node>, c: Collaborators)
    ensures RunSteps(DecorationOrder, ns, c) ==
            LayoutGrid.BuildGridAll(
              c.decorateBlocks(
                c.decorateSections(
                  ReadLayoutAll(
                    HeroBlock.AutoBlocks(c.decorateIcons(c.decorateButtons(ns)), c.buildBlock),
                    c.readBlockConfig, c.innerHtml))))
  {
    var run := StepRunner(c);
    SevenSteps(DecorateButtons, DecorateIcons, BuildAutoBlocks, ReadLayoutMeta, DecorateSections, DecorateBlocks, BuildLayoutContainer,
               ns, run);
    var s1 := c.decorateButtons(ns);
    var s2 := c.decorateIcons(s1);
    var s3 := HeroBlock.AutoBlocks(s2, c.buildBlock);
    var s4 := ReadLayoutAll(s3, c.readBlockConfig, c.innerHtml);
    var s5 := c.decorateSections(s4);
    var s6 := c.decorateBlocks(s5);
    LibrarySteps(c, ns);
    LibrarySteps(c, s1);
    ScriptSteps(c, s2);
    ScriptSteps(c, s3);
    LibrarySteps(c, s4);
    LibrarySteps(c, s5);
    ScriptSteps(c, s6);
  }

  /** What the four library steps do to the children `x`. */
  lemma LibrarySteps(c: Collaborators, x: seq<Node>)
    ensures StepRunner(c)(DecorateButtons, x) == c.decorateButtons(x)
    ensures StepRunner(c)(DecorateIcons, x) == c.decorateIcons(x)
    ensures StepRunner(c)(DecorateSections, x) == c.decorateSections(x)
    ensures StepRunner(c)(DecorateBlocks, x) == c.decorateBlocks(x)
  {
  }

  /** What the three steps of this script do to the children `x`. */
  lemma ScriptSteps(c: Collaborators, x: seq<Node>)
    ensures StepRunner(c)(BuildAutoBlocks, x) == HeroBlock.AutoBlocks(x, c.buildBlock)
    ensures StepRunner(c)(ReadLayoutMeta, x) == ReadLayoutAll(x, c.readBlockConfig, c.innerHtml)
    ensures StepRunner(c)(BuildLayoutContainer, x) == LayoutGrid.BuildGridAll(x)
  {
  }

  /** A hero block that fails to build does not abort decoration: the other six steps run as if it were absent. */
  lemma HeroFailureIsNotFatal(ns: seq<Node>, c: Collaborators)
    requires HeroBlock.BuildHero(c.decorateIcons(c.decorateButtons(ns)), c.buildBlock).Failure?
    ensures RunSteps(DecorationOrder, ns, c) ==
            RunSteps([DecorateButtons, DecorateIcons, ReadLayoutMeta, DecorateSections, DecorateBlocks, BuildLayoutContainer], ns, c)
  {
    var pre := [DecorateButtons, DecorateIcons];
    var post := [ReadLayoutMeta, DecorateSections, DecorateBlocks, BuildLayoutContainer];
    var run := StepRunner(c);
    var s2 := c.decorateIcons(c.decorateButtons(ns));
    assert RunAll(pre, ns, run) == s2 by {
      assert pre[1..] == [DecorateIcons] && [DecorateIcons][1..] == [];
      assert run(DecorateButtons, ns) == c.decorateButtons(ns);
      assert run(DecorateIcons, c.decorateButtons(ns)) == s2;
    }
    assert run(BuildAutoBlocks, s2) == s2 by {
      assert run(BuildAutoBlocks, s2) == HeroBlock.AutoBlocks(s2, c.buildBlock);
    }
    DropInertStep(pre, BuildAutoBlocks, post, ns, run);
    DecorationOrderAroundAutoBlocks();
  }

  lemma DecorationOrderAroundAutoBlocks()
    ensures var pre := [DecorateButtons, DecorateIcons];
            var post := [ReadLayoutMeta, DecorateSections, DecorateBlocks, BuildLayoutContainer];
            && DecorationOrder == pre + [BuildAutoBlocks] + post
            && pre + post == [DecorateButtons, DecorateIcons, ReadLayoutMeta, DecorateSections, DecorateBlocks, BuildLayoutContainer]
  {
  }

  /** The page's `main` element; its children are rearranged in place by the decoration steps. */
  class Main {
    var children: seq<Node>

    constructor (children: seq<Node>)
      ensures this.children == children
    {
      this.children := children;
    }

    /** `buildHeroBlock`; a Fail outcome is the exception the block builder threw, with `main` left as it was. */
    method BuildHeroBlock(buildBlock: HeroBlock.BlockBuilder) returns (outcome: Outcome<string>)
      modifies this
      ensures outcome == match HeroBlock.BuildHero(old(children), buildBlock)
                         case Success(_) => Pass
                         case Failure(e) => Fail(e)
      ensures children == HeroBlock.AutoBlocks(old(children), buildBlock)
    {
      var order := Preorder(children);
      var h1 := IndexOfFirst(order, HeroBlock.Heading);
      var picture := IndexOfFirst(order, HeroBlock.Picture);
      if h1.Some? && picture.Some? && picture.value < h1.value {
        var block := buildBlock(HeroBlock.HeroName, [order[picture.value], order[h1.value]]);
        if block.Failure? {
          return Fail(block.error);
        }
        var section := NewDiv({}, []);
        section := section.(kids := section.kids + [block.value]);
        assert HeroBlock.HeroElems(children) == [order[picture.value], order[h1.value]];
        assert section == HeroBlock.NewSection(block.value);
        children := [section] + children;
      }
      outcome := Pass;
    }

    /** `buildAutoBlocks`: the hero block's failure is caught; `logged` is what `console.error` reports. */
    method BuildAutoBlocks(buildBlock: HeroBlock.BlockBuilder) returns (logged: Option<string>)
      modifies this
      ensures children == HeroBlock.AutoBlocks(old(children), buildBlock)
      ensures logged == match HeroBlock.BuildHero(old(children), buildBlock)
                        case Success(_) => None
                        case Failure(e) => Some(e)
    {
      var outcome := BuildHeroBlock(buildBlock);
      logged := None;
      if outcome.Fail? {
        logged := Some(outcome.error);
      }
    }

    /** `readLayoutMeta`: every top-level element in turn, each one updated in its place. */
    method ReadLayoutMeta(readBlockConfig: Node -> LayoutMeta.Config, innerHtml: Node -> string)
      modifies this
      ensures children == ReadLayoutAll(old(children), readBlockConfig, innerHtml)
    {
      var i := 0;
      while i < |children|
        invariant 0 <= i <= |children| == |old(children)|
        invariant forall k :: 0 <= k < i ==> children[k] == LayoutMeta.SectionWithLayout(old(children)[k], readBlockConfig, innerHtml)
        invariant forall k :: i <= k < |children| ==> children[k] == old(children)[k]
      {
        var section := LayoutMeta.ReadSectionLayout(children[i], readBlockConfig, innerHtml);
        children := children[i := section];
        i := i + 1;
      }
    }

    /** `buildLayoutContainer`: each columns section with two children has them moved into a two-column grid. */
    method BuildLayoutContainer()
      modifies this
      ensures children == LayoutGrid.BuildGridAll(old(children))
    {
      var i := 0;
      while i < |children|
        invariant 0 <= i <= |children| == |old(children)|
        invariant forall k :: 0 <= k < i ==> children[k] == LayoutGrid.BuildGrid(old(children)[k])
        invariant forall k :: i <= k < |children| ==> children[k] == old(children)[k]
      {
        var section := children[i];
        if LayoutGrid.IsColumnsSection(section) {
          var wrapper := NewDiv({LayoutGrid.WrapperClass}, []);
          if |section.kids| == 2 {
            var leftContent := section.kids[0];
            var rightContent := section.kids[1];
            // appending a child into its grid column moves it out of the section
            var leftDiv := LayoutGrid.CreateDiv(leftContent);
            section := section.(kids := section.kids[1..]);
            var rightDiv := LayoutGrid.CreateDiv(rightContent);
            section := section.(kids := section.kids[1..]);
            wrapper := wrapper.(kids := wrapper.kids + [leftDiv, rightDiv]);
            section := section.(kids := section.kids + [wrapper]);
            assert wrapper == LayoutGrid.Wrapper(leftDiv, rightDiv);
            assert section == LayoutGrid.BuildGrid(old(children)[i]);
            children := children[i := section];
          }
        }
        i := i + 1;
      }
    }

    /** `decorateMain`: the seven steps in their fixed order. */
    method DecorateMain(c: Collaborators)
      modifies this
      ensures children == RunSteps(DecorationOrder, old(children), c)
    {
      children := c.decorateButtons(children);
      children := c.decorateIcons(children);
      var logged := this.BuildAutoBlocks(c.buildBlock);
      this.ReadLayoutMeta(c.readBlockConfig, c.innerHtml);
      children := c.decorateSections(children);
      children := c.decorateBlocks(children);
      this.BuildLayoutContainer();
      DecorateIsComposition(old(children), c);
    }
  }
}
