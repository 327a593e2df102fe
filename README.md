# Page decoration of an Edge Delivery site, modelled in Dafny

This project models the content-restructuring part of `scripts/scripts.js`. That script runs in the browser and rewrites the `main` element of a page authored as a document, before the page loads its blocks.

- The DOM is an abstract element tree (`Dom.Node`). Each element has a tag, a class set, a `dataset` map, a map of custom style properties, its text and its ordered element children.
- Document order is preorder. `querySelector` is the first match in the preorder of the descendants. `querySelectorAll` is every match in that order.
- `main` is an object, `Scripts.Main`. Its `children` field holds the top-level elements, and its methods reassign it the way the script's functions rearrange `main` in place.
- `decorateMain` is a fixed pipeline of seven steps (`Scripts.DecorationOrder`). Four steps come from the block library and are opaque functions on the children of `main`. The other three are modelled in full:
  - **Hero auto-block** (`HeroBlock`, with the `buildHeroBlock` and `buildAutoBlocks` methods of `Scripts.Main`). If the first `picture` of `main` comes before its first `h1` in document order, a new section holding a `hero` block built from `[picture, h1]` is prepended to `main`. If the block builder throws, the error is caught and reported, and `main` keeps its children.
  - **Column-layout reader** (`LayoutMeta`, with `Scripts.Main.ReadLayoutMeta`). It applies to each top-level `div` whose section metadata maps `layout` to exactly `"columns"`. It scans every metadata row; a row matches when its first cell's lower-cased markup contains "layout" and its second cell's contains "columns". For a matching row whose second cell holds a table:
    - each `td` is written in order with `setProperty`, the first to `--left` and every later one to `--right` (an empty value removes the property);
    - the section's `data-layout` is then set to the configured value.
  - **Two-column grid** (`LayoutGrid`, with `Scripts.Main.BuildLayoutContainer`). It applies to each top-level element with class `section`, `data-layout="columns"` and exactly two children:
    - each child is moved into its own `grid-column` div;
    - both of those go into a `default-content-wrapper` div appended to the section.

The layout reader is specified by two pure functions:
- `RowEffect` reduces a metadata row to what it does: nothing, or the markup of its table cells.
- `ApplyEffects` folds those effects onto the section, last write winning.

The imperative loops (`LayoutMeta.SetColumnVars`, `LayoutMeta.ReadSectionLayout` and the `Scripts.Main` methods) are proved equal to these functions. The properties are proved as lemmas about the functions.

Four behaviours of the code are easy to misread, and the model states them as the code has them:
- The hero block is built when the picture precedes the heading. The test is `h1.compareDocumentPosition(picture) & PRECEDING`, at scripts/scripts.js:26.
- The grid wrapper does not end up beside the two children. Appending them to the grid columns at scripts/scripts.js:132-133 moves them out of the section, so after the append at line 136 the wrapper is the section's only child.
- Table cells after the second are not ignored. Line 97 sends every index other than 0 to `--right`, so the last cell decides it.
- `data-layout` is set only for a matching row whose second cell holds a table. Line 100 sits inside the `table` branch that opens at line 93.

## Model

| member | source | states |
|---|---|---|
| Dom.IndexOfFirst | scripts/scripts.js:23-24 | `querySelector`'s choice: the index found matches the selector, no earlier element matches, and None exactly when nothing matches |
| Dom.Preorder | scripts/scripts.js:26 | document order: a forest's first element comes first, and every top-level element appears in it |
| Dom.QuerySelector | scripts/scripts.js:74 | `querySelector`: None exactly when no descendant matches; otherwise a matching descendant with no matching element before it in document order |
| Dom.Filter | scripts/scripts.js:84 | `:scope > div` and `querySelectorAll`: every element of the result matches, the result keeps exactly the matching elements of the input, and is no longer than it |
| Dom.FilterAppend | scripts/scripts.js:95-96 | filtering keeps the input's order: filtering two parts side by side is filtering each in turn, so the first `td` in document order is the first cell written |
| Dom.QuerySelectorAll | scripts/scripts.js:95 | `querySelectorAll`: every element of the result matches, and the result holds exactly the matching descendants |
| Dom.LowerContains | scripts/scripts.js:71 | searching the lower-cased markup finds exactly the stretches that spell the name in any ASCII case |
| Dom.SpellingFound | scripts/scripts.js:71 | any spelling that occurs in the markup is found in its lower-cased form |
| LayoutMeta.CheckColExists | scripts/scripts.js:71 | `checkColExists` holds iff the column exists and its raw markup spells the name in some ASCII case |
| LayoutMeta.RowMatchesIff | scripts/scripts.js:71-90 | a row matches iff it has at least two cells, the lower-cased markup of the first contains "layout" and that of the second contains "columns"; a row with a missing cell never matches |
| LayoutMeta.RowMatchIgnoresCase | scripts/scripts.js:71 | a row whose first two cells contain any spelling of "layout" and of "columns" in any ASCII case ("Layout", "COLUMNS", ...) matches |
| LayoutMeta.RowEffect | scripts/scripts.js:85-101 | a row has an effect only when it has two cells spelling "layout" and "columns" in some case and its second cell holds a table |
| LayoutMeta.RowWithoutTableIsInert | scripts/scripts.js:90-93 | a row that does not match, or matches without a table in its second cell, has no effect and leaves the section as it is |
| LayoutMeta.WriteCells | scripts/scripts.js:96-99 | after `setProperty` of cells `c0..cn` in order: `--left` holds `c0` (absent if `c0` is empty); when n >= 1, `--right` holds `cn` (absent if `cn` is empty); with one cell `--right` keeps its old state; no other key is added and every other property is unchanged |
| LayoutMeta.SetColumnVars | scripts/scripts.js:95-99 | the loop over the table cells leaves the section with exactly the style `WriteCells` describes, and nothing else of the section changed |
| LayoutMeta.ApplyEffects | scripts/scripts.js:84-104 | processing the rows never changes the section's tag, classes, text or children; it adds no style key other than `--left` and `--right` and keeps every other style property |
| LayoutMeta.ApplyEffectsDataset | scripts/scripts.js:100 | `data-layout` is set to the configured value exactly when some row configures the section; otherwise the dataset is unchanged |
| LayoutMeta.ApplyEffectsAppend | scripts/scripts.js:84-104 | the rows are processed one after another with no early exit: two batches in turn are the same as one batch |
| LayoutMeta.ApplyEffectsInert | scripts/scripts.js:84-104 | rows none of which configures the section leave it exactly as it was |
| LayoutMeta.AfterLastConfiguring | scripts/scripts.js:84-104 | rows after the last configuring row change nothing |
| LayoutMeta.LastConfiguringRowWins | scripts/scripts.js:84-101 | when several rows match, the last configuring row decides `--left` (its first cell) and `--right` (its last cell), each removed when that cell is empty, and the section ends tagged |
| LayoutMeta.ReadSectionLayout | scripts/scripts.js:74-106 | the per-section body, with its row loop and cell loop, leaves the section exactly as `SectionWithLayout` says |
| LayoutMeta.SectionLayoutIsFold | scripts/scripts.js:76-84 | a `div` with section metadata whose `layout` is exactly "columns" gets the fold of its rows' effects, tagged with "columns" |
| LayoutMeta.LayoutReaderSkip | scripts/scripts.js:74-83 | no `div.section-metadata`, no `layout` key, or a `layout` value other than exactly "columns": the section gets no style property and no `data-layout` |
| LayoutMeta.SectionWithLayout | scripts/scripts.js:73-107 | for any top-level element, the reader keeps tag, classes, text and children; it sets `data-layout` to "columns" or leaves the dataset alone; it touches no style property but `--left` and `--right` |
| LayoutMeta.ColumnWidthsFromLastRow | scripts/scripts.js:83-104 | for a section configured for columns, the last row with a table sets `--left` to its first cell and `--right` to its last cell (removing either one whose cell is empty), and `data-layout` becomes "columns" |
| LayoutGrid.BuildGrid | scripts/scripts.js:124-137 | an element without class `section`, without `data-layout="columns"`, or without exactly two children is left unchanged; from a rearranged section the two old children read back out of the grid in order |
| LayoutGrid.BuildGridAll | scripts/scripts.js:124-138 | every top-level element keeps its place; those the builder does not apply to are never touched; each rearranged one gives back its old children |
| LayoutGrid.GridShape | scripts/scripts.js:116-137 | a columns section with children `[a, b]` ends with one child, a `default-content-wrapper` div holding two `grid-column` divs that hold exactly `a` and `b` in that order; nothing else of the section changes |
| LayoutGrid.GridIdempotent | scripts/scripts.js:128-136 | building the grid twice gives the same element as building it once |
| LayoutGrid.GridAllIdempotent | scripts/scripts.js:124-138 | running the grid builder over `main` twice gives the same children as running it once |
| LayoutGrid.GridKeepsDocumentOrder | scripts/scripts.js:128-136 | moving the two children keeps their subtrees in document order; the only new elements are the wrapper and the two grid columns, placed around them |
| HeroBlock.HeroElems | scripts/scripts.js:23-28 | the block elements are a picture and a heading at positions p < h of document order, with no picture before p and no heading before h |
| HeroBlock.BuildHero | scripts/scripts.js:22-31 | without the condition nothing is built and `main` is unchanged; a failure happens only when the condition holds; a success with the condition adds exactly one element in front of the old children |
| HeroBlock.AutoBlocks | scripts/scripts.js:49-56 | after the caught build, `main` is either unchanged or the old children with exactly one element in front, the latter only when the condition holds |
| HeroBlock.PictureBeforeHeading | scripts/scripts.js:26 | a picture with no heading before it, followed later by a heading, fires the hero condition |
| HeroBlock.PictureFirstIff | scripts/scripts.js:23-26 | the hero condition holds iff some picture comes before every heading and a heading follows it |
| HeroBlock.HeroPrepended | scripts/scripts.js:22-30 | a section is prepended iff the condition holds and the builder succeeds; the new first child is a plain `div` holding exactly the hero block built from `[picture, h1]`, followed by the old children; otherwise `main` is unchanged |
| HeroBlock.HeroSectionFirst | scripts/scripts.js:27-29 | after the prepend, the new section is the first element of `main` in document order, then the block and its content, then the old content |
| Scripts.Main.BuildHeroBlock | scripts/scripts.js:22-31 | the outcome is the builder's error exactly when the condition holds and the builder throws; the new children are those of `AutoBlocks` |
| Scripts.Main.BuildAutoBlocks | scripts/scripts.js:49-56 | a hero failure is caught: the error is reported as `logged`, and the children are those of `AutoBlocks` |
| Scripts.ReadLayoutAll | scripts/scripts.js:73-107 | every top-level element stays in its place with its tag, classes, text and children, at most gains `data-layout` "columns", adds no style property but `--left` and `--right`, and keeps every other style property |
| Scripts.Main.ReadLayoutMeta | scripts/scripts.js:70-108 | each top-level element is replaced, in its place, by its `SectionWithLayout` |
| Scripts.Main.BuildLayoutContainer | scripts/scripts.js:116-139 | each top-level element becomes its `BuildGrid`; the loop moves the two children one at a time and then appends the wrapper |
| Scripts.Main.DecorateMain | scripts/scripts.js:146-155 | the new children are the seven steps of `DecorationOrder` run in order over the old ones |
| Scripts.DecorationOrderConstraints | scripts/scripts.js:146-155 | the pipeline has seven distinct steps; icons come before the hero auto-block, the auto-block before the layout reader, the reader before section decoration and before the grid builder, which runs last |
| Scripts.DecorateIsComposition | scripts/scripts.js:146-155 | the pipeline is the composition of the grid builder, block and section decorators, layout reader, hero auto-block, icon and button decorators |
| Scripts.HeroFailureIsNotFatal | scripts/scripts.js:49-56 | when the hero block fails, decoration gives exactly what the other six steps give without it |

## Left out

- Load scheduling (`loadEager`, `loadLazy`, `loadDelayed`, `loadPage`, `loadFonts`, scripts/scripts.js:33-43 and 157-217): these are asynchronous I/O and timing — CSS and header/footer loads, `setTimeout`, dynamic imports, `sessionStorage`, `window` — with no state the model could hold.
- Scripts.Main.DecorateMain: the collaborators are taken never to throw. In the source an exception from `decorateButtons`, `decorateIcons`, `decorateSections`, `decorateBlocks` or `readBlockConfig` is not caught (the only `try` is around the hero block, scripts/scripts.js:50-55). It aborts the remaining steps and keeps the changes already made, for example the widths of sections read before the one whose `readBlockConfig` threw. This abort is not modelled; `Scripts.DecorateIsComposition` and `Scripts.RunSteps` share the assumption.
- The block library functions `decorateButtons`, `decorateIcons`, `decorateSections`, `decorateBlocks`, `buildBlock` and `readBlockConfig` are parameters: opaque functions in `Scripts.Collaborators`. aem.js is not part of this model.
- `innerHTML` serialisation is the opaque parameter `innerHtml`. The model does not tie a cell's markup to its subtree.
- `toLowerCase` is modelled on ASCII letters only. Other case mappings are not modelled.
- `toCamelCase("layout")` is taken to be the key `layout`, since `toCamelCase` is in aem.js.
- LayoutMeta.SetProperty: a non-empty value that is not a valid custom-property value is ignored by `setProperty`. An example is markup with a top-level `;`, such as `30%&nbsp;`. The model stores every non-empty value, because CSS value parsing is not part of this model.
- LayoutMeta.WriteCells: inherits the gap above. A cell whose markup does not parse is written in the model but ignored by the browser.
- LayoutMeta.SetColumnVars: inherits the same gap through `SetProperty`.
- HeroBlock.BuildHero: the picture and heading also stay where they were in the old content. The real `buildBlock` moves them into the new block, and its code is in aem.js.
- An exception that `buildBlock` throws after changing the DOM is modelled as a clean failure. Any partial change it made is not modelled.
- Node identity and aliasing: elements are values, compared by content. Two equal subtrees are indistinguishable.
- Text nodes: an element's text is one field. `children.length` and `append` are modelled on element children only.
- `console.error` output: the message is not modelled. `Scripts.Main.BuildAutoBlocks` returns the caught error as `logged`.
- The `row.children` guard at scripts/scripts.js:85 is always true for an element, so it has no branch in the model.
- `decorateTemplateAndTheme`, `waitForFirstImage`, `loadSection(s)`, `loadHeader` and `loadFooter` are called only from the load scheduling above.
