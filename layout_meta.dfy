/**
  The column-layout reader (`readLayoutMeta`, scripts/scripts.js): for a
  top-level `div` whose section metadata says `layout` is `columns`, find the
  metadata rows whose first cell mentions "layout" and whose second cell
  mentions "columns"; when that second cell holds a table, write its data
  cells to the section's `--left` / `--right` style properties and tag the
  section with `data-layout`.

  Each metadata row is first reduced to its effect (`RowEffect`): None when
  it configures nothing, or the markup of its table cells. The way the rows'
  effects accumulate on the section (`ApplyEffects`) is then stated on those
  plain values.
*/
module LayoutMeta {
  import opened Wrappers
  import opened Dom

  const LayoutKey := "layout"
  const ColumnsValue := "columns"
  const LeftVar := "--left"
  const RightVar := "--right"

  /** A value of the mapping that `readBlockConfig` builds: one string, or several when a row has several value cells. */
  datatype ConfigValue = Single(value: string) | Multiple(values: seq<string>)

  type Config = map<string, ConfigValue>

  const SectionMetadata := TagWithClass("div", "section-metadata")

  /** The `index`-th entry of an element list, `undefined` (None) past its end. */
  function At(cols: seq<Node>, index: nat): Option<Node>
  {
    if index < |cols| then Some(cols[index]) else None
  }

  /** `checkColExists`: the column exists and its lower-cased markup contains `name`. */
  predicate CheckColExists(column: Option<Node>, name: string, innerHtml: Node -> string)
    ensures CheckColExists(column, name, innerHtml) <==> column.Some? && ContainsIgnoringCase(innerHtml(column.value), name)
  {
    column.Some? && (LowerContains(innerHtml(column.value), name); Contains(Lower(innerHtml(column.value)), name))
  }

  /** A metadata row that names the column layout: "layout" in its first cell, "columns" in its second. */
  predicate RowMatches(row: Node, innerHtml: Node -> string)
  {
    CheckColExists(At(row.kids, 0), LayoutKey, innerHtml) && CheckColExists(At(row.kids, 1), ColumnsValue, innerHtml)
  }

  /** The markup of each element, in order. */
  function Markup(cells: seq<Node>, innerHtml: Node -> string): (r: seq<string>)
    ensures |r| == |cells|
  {
    seq(|cells|, i requires 0 <= i < |cells| => innerHtml(cells[i]))
  }

  /** What one metadata row does: the markup of the `td` cells of the table in a matching row's second cell, else None. */
  function RowEffect(row: Node, innerHtml: Node -> string): (r: Option<seq<string>>)
    ensures r.Some? ==> && |row.kids| >= 2
                        && ContainsIgnoringCase(innerHtml(row.kids[0]), LayoutKey)
                        && ContainsIgnoringCase(innerHtml(row.kids[1]), ColumnsValue)
                        && QuerySelector(row.kids[1].kids, Tag("table")).Some?
  {
    if RowMatches(row, innerHtml) then
      match QuerySelector(row.kids[1].kids, Tag("table"))
      case None => None
      case Some(table) => Some(Markup(QuerySelectorAll(table.kids, Tag("td")), innerHtml))
    else None
  }

  function RowEffects(rows: seq<Node>, innerHtml: Node -> string): (r: seq<Option<seq<string>>>)
    ensures |r| == |rows|
  {
    seq(|rows|, i requires 0 <= i < |rows| => RowEffect(rows[i], innerHtml))
  }

  /** The style property the cell at `index` is written to: the first cell is the left width, every later cell the right. */
  function StyleVar(index: nat): string
  {
    if index == 0 then LeftVar else RightVar
  }

  /** `style.setProperty(name, value)` on a custom property: the empty string removes it, any other value is stored. */
  function SetProperty(style: map<string, string>, name: string, value: string): map<string, string>
  {
    if value == "" then style - {name} else style[name := value]
  }

  /** The property `name` holds what `setProperty(name, value)` leaves: absent for an empty value, else `value`. */
  predicate SetTo(style: map<string, string>, name: string, value: string)
  {
    if value == "" then name !in style else name in style && style[name] == value
  }

  /** The style after the cells' markup is written in order, each write overwriting what an earlier one left. */
  function WriteCells(style: map<string, string>, cells: seq<string>): (r: map<string, string>)
    ensures cells == [] ==> r == style
    ensures r.Keys <= style.Keys + {LeftVar, RightVar}
    ensures forall k :: k in style && k != LeftVar && k != RightVar ==> k in r && r[k] == style[k]
    ensures |cells| >= 1 ==> SetTo(r, LeftVar, cells[0])
    ensures |cells| >= 2 ==> SetTo(r, RightVar, cells[|cells| - 1])
    ensures |cells| < 2 ==> (RightVar in r <==> RightVar in style) && (RightVar in style ==> r[RightVar] == style[RightVar])
    decreases |cells|
  {
    if cells == [] then style
    else
      var n := |cells| - 1;
      SetProperty(WriteCells(style, cells[..n]), StyleVar(n), cells[n])
  }

  /** The effect of one row on the section: write the widths, then tag the section with the layout value. */
  function ApplyEffect(section: Node, effect: Option<seq<string>>, value: string): Node
  {
    match effect
    case None => section
    case Some(cells) => section.(style := WriteCells(section.style, cells), dataset := section.dataset[LayoutKey := value])
  }

  /** The effect of the rows on the section, processed in order with no early exit. */
  function ApplyEffects(section: Node, effects: seq<Option<seq<string>>>, value: string): (r: Node)
    ensures r.tag == section.tag && r.classes == section.classes && r.text == section.text && r.kids == section.kids
    ensures r.style.Keys <= section.style.Keys + {LeftVar, RightVar}
    ensures forall k :: k in section.style && k != LeftVar && k != RightVar ==> k in r.style && r.style[k] == section.style[k]
    decreases |effects|
  {
    if effects == [] then section
    else
      var n := |effects| - 1;
      ApplyEffect(ApplyEffects(section, effects[..n], value), effects[n], value)
  }

  /** Some row's effect configures the section. */
  predicate AnyConfigures(effects: seq<Option<seq<string>>>)
  {
    exists j :: 0 <= j < |effects| && effects[j].Some?
  }

  /** The `data-layout` tag is written exactly when some row configures the section. */
  lemma {:induction false} ApplyEffectsDataset(section: Node, effects: seq<Option<seq<string>>>, value: string)
    ensures ApplyEffects(section, effects, value).dataset ==
            if AnyConfigures(effects) then section.dataset[LayoutKey := value] else section.dataset
    decreases |effects|
  {
    if effects != [] {
      var n := |effects| - 1;
      var prefix := effects[..n];
      ApplyEffectsDataset(section, prefix, value);
      assert AnyConfigures(effects) <==> AnyConfigures(prefix) || effects[n].Some? by {
        if AnyConfigures(effects) {
          var j :| 0 <= j < |effects| && effects[j].Some?;
          if j < n {
            assert prefix[j] == effects[j];
          }
        }
        if AnyConfigures(prefix) {
          var j :| 0 <= j < n && prefix[j].Some?;
          assert effects[j] == prefix[j];
        }
      }
      if AnyConfigures(prefix) && effects[n].Some? {
        assert section.dataset[LayoutKey := value][LayoutKey := value] == section.dataset[LayoutKey := value];
      }
    }
  }

  /** Processing rows in two batches is processing them in one. */
  lemma {:induction false} ApplyEffectsAppend(section: Node, a: seq<Option<seq<string>>>, b: seq<Option<seq<string>>>, value: string)
    ensures ApplyEffects(section, a + b, value) == ApplyEffects(ApplyEffects(section, a, value), b, value)
    decreases |b|
  {
    if b == [] {
      assert a + b == a;
    } else {
      var n := |b| - 1;
      assert (a + b)[..|a| + n] == a + b[..n];
      assert (a + b)[|a| + n] == b[n];
      ApplyEffectsAppend(section, a, b[..n], value);
    }
  }

  /** Rows none of which configures the section leave it as it is. */
  lemma {:induction false} ApplyEffectsInert(section: Node, effects: seq<Option<seq<string>>>, value: string)
    requires forall j :: 0 <= j < |effects| ==> effects[j].None?
    ensures ApplyEffects(section, effects, value) == section
    decreases |effects|
  {
    if effects != [] {
      var n := |effects| - 1;
      assert forall j :: 0 <= j < n ==> effects[..n][j] == effects[j];
      ApplyEffectsInert(section, effects[..n], value);
    }
  }

  /** Rows after the last configuring one change nothing. */
  lemma AfterLastConfiguring(section: Node, effects: seq<Option<seq<string>>>, j: nat, value: string)
    requires j < |effects| && effects[j].Some?
    requires forall k :: j < k < |effects| ==> effects[k].None?
    ensures ApplyEffects(section, effects, value) == ApplyEffect(ApplyEffects(section, effects[..j], value), effects[j], value)
  {
    var upTo := effects[..j + 1];
    var post := effects[j + 1..];
    assert effects == upTo + post;
    ApplyEffectsAppend(section, upTo, post, value);
    assert forall k :: 0 <= k < |post| ==> post[k] == effects[j + 1 + k];
    ApplyEffectsInert(ApplyEffects(section, upTo, value), post, value);
    assert upTo[..j] == effects[..j];
  }

  /** Last write wins: the last configuring row decides the widths, and the section is tagged. */
  lemma LastConfiguringRowWins(section: Node, effects: seq<Option<seq<string>>>, j: nat, value: string)
    requires j < |effects| && effects[j].Some?
    requires forall k :: j < k < |effects| ==> effects[k].None?
    ensures var r := ApplyEffects(section, effects, value);
            var cells := effects[j].value;
            && r.dataset == section.dataset[LayoutKey := value]
            && (|cells| >= 1 ==> SetTo(r.style, LeftVar, cells[0]))
            && (|cells| >= 2 ==> SetTo(r.style, RightVar, cells[|cells| - 1]))
  {
    AfterLastConfiguring(section, effects, j, value);
    var before := ApplyEffects(section, effects[..j], value);
    ApplyEffectsDataset(section, effects[..j], value);
    assert section.dataset[LayoutKey := value][LayoutKey := value] == section.dataset[LayoutKey := value];
  }

  /** The rows of a metadata region: its direct `div` children (`:scope > div`). */
  function Rows(meta: Node): seq<Node>
  {
    Filter(meta.kids, Tag("div"))
  }

  /** The metadata region a section's layout is read from, when the section is a `div` that has one. */
  function MetadataOf(section: Node): Option<Node>
  {
    if section.tag != "div" then None else QuerySelector(section.kids, SectionMetadata)
  }

  /** The config asks for the column layout: key `layout` present with the exact string value "columns". */
  predicate AsksForColumns(config: Config)
  {
    LayoutKey in config && config[LayoutKey] == Single(ColumnsValue)
  }

  /** The column layout the section's metadata asks for, applied to one top-level element of `main`. The reader touches
      nothing but the two width properties and the `data-layout` tag, which it sets to "columns". */
  function SectionWithLayout(section: Node, readBlockConfig: Node -> Config, innerHtml: Node -> string): (r: Node)
    ensures r.tag == section.tag && r.classes == section.classes && r.text == section.text && r.kids == section.kids
    ensures r.dataset == section.dataset || r.dataset == section.dataset[LayoutKey := ColumnsValue]
    ensures r.style.Keys <= section.style.Keys + {LeftVar, RightVar}
    ensures forall k :: k in section.style && k != LeftVar && k != RightVar ==> k in r.style && r.style[k] == section.style[k]
  {
    match MetadataOf(section)
    case None => section
    case Some(meta) =>
      var config := readBlockConfig(meta);
      if AsksForColumns(config)
      then
        var effects := RowEffects(Rows(meta), innerHtml);
        ApplyEffectsDataset(section, effects, config[LayoutKey].value);
        ApplyEffects(section, effects, config[LayoutKey].value)
      else section
  }

  /** The inner loop of `readLayoutMeta`: each table cell in order sets `--left` (the first) or `--right` (the rest). */
  method SetColumnVars(section: Node, tableData: seq<Node>, innerHtml: Node -> string) returns (updated: Node)
    ensures updated == section.(style := WriteCells(section.style, Markup(tableData, innerHtml)))
  {
    updated := section;
    var index := 0;
    while index < |tableData|
      invariant 0 <= index <= |tableData|
      invariant updated == section.(style := WriteCells(section.style, Markup(tableData[..index], innerHtml)))
    {
      assert Markup(tableData[..index + 1], innerHtml)[..index] == Markup(tableData[..index], innerHtml);
      updated := updated.(style := SetProperty(updated.style, StyleVar(index), innerHtml(tableData[index])));
      index := index + 1;
    }
    assert tableData[..index] == tableData;
  }

  /** The body of the per-section loop of `readLayoutMeta`. */
  method ReadSectionLayout(section: Node, readBlockConfig: Node -> Config, innerHtml: Node -> string)
    returns (updated: Node)
    ensures updated == SectionWithLayout(section, readBlockConfig, innerHtml)
  {
    updated := section;
    if section.tag != "div" {
      return;
    }
    var sectionMeta := QuerySelector(section.kids, SectionMetadata);
    if sectionMeta.None? {
      return;
    }
    var config := readBlockConfig(sectionMeta.value);
    var hasLayoutConfig := LayoutKey in config;
    var hasColumnsConfig := hasLayoutConfig && config[LayoutKey] == Single(ColumnsValue);
    if hasLayoutConfig && hasColumnsConfig {
      var value := config[LayoutKey].value;
      var rows := Rows(sectionMeta.value);
      ghost var effects := RowEffects(rows, innerHtml);
      var j := 0;
      while j < |rows|
        invariant 0 <= j <= |rows|
        invariant updated == ApplyEffects(section, effects[..j], value)
      {
        var row := rows[j];
        var cols := row.kids;
        var equalToLayout := CheckColExists(At(cols, 0), LayoutKey, innerHtml);
        var equalToColumns := CheckColExists(At(cols, 1), ColumnsValue, innerHtml);
        if equalToLayout && equalToColumns {
          var col := cols[1];
          var table := QuerySelector(col.kids, Tag("table"));
          if table.Some? {
            var tableData := QuerySelectorAll(table.value.kids, Tag("td"));
            updated := SetColumnVars(updated, tableData, innerHtml);
            updated := updated.(dataset := updated.dataset[LayoutKey := value]);
          }
        }
        assert effects[..j + 1][..j] == effects[..j];
        j := j + 1;
      }
      assert effects[..j] == effects;
    }
  }

  /** A row matches only with both cells present, "layout" in the first and "columns" in the second, ignoring case. */
  lemma RowMatchesIff(row: Node, innerHtml: Node -> string)
    ensures RowMatches(row, innerHtml) <==>
            && |row.kids| >= 2
            && ContainsIgnoringCase(innerHtml(row.kids[0]), LayoutKey)
            && ContainsIgnoringCase(innerHtml(row.kids[1]), ColumnsValue)
  {
  }

  /** The row detection lower-cases the cell markup, so any ASCII-case spelling `a` of "layout" and `b` of "columns"
      in the first two cells (an author's "Layout", "COLUMNS", ...) is found. */
  lemma RowMatchIgnoresCase(row: Node, innerHtml: Node -> string, a: string, b: string)
    requires |row.kids| >= 2 && Lower(a) == LayoutKey && Lower(b) == ColumnsValue
    requires Contains(innerHtml(row.kids[0]), a) && Contains(innerHtml(row.kids[1]), b)
    ensures RowMatches(row, innerHtml)
  {
    SpellingFound(innerHtml(row.kids[0]), a);
    SpellingFound(innerHtml(row.kids[1]), b);
  }

  /** A row that does not match, or matches with no table in its second cell, changes nothing. */
  lemma RowWithoutTableIsInert(section: Node, row: Node, value: string, innerHtml: Node -> string)
    requires !RowMatches(row, innerHtml) || QuerySelector(row.kids[1].kids, Tag("table")).None?
    ensures RowEffect(row, innerHtml).None?
    ensures ApplyEffect(section, RowEffect(row, innerHtml), value) == section
  {
  }

  /** No metadata region, no `layout` key, or a `layout` value other than exactly "columns": the section is untouched. */
  lemma LayoutReaderSkip(section: Node, readBlockConfig: Node -> Config, innerHtml: Node -> string)
    requires MetadataOf(section).None? || !AsksForColumns(readBlockConfig(MetadataOf(section).value))
    ensures SectionWithLayout(section, readBlockConfig, innerHtml) == section
  {
  }

  /** A section configured for columns whose last configuring row has table cells `c0..cn` gets `--left` = c0 and `--right` = cn. */
  lemma ColumnWidthsFromLastRow(section: Node, readBlockConfig: Node -> Config, innerHtml: Node -> string,
                                meta: Node, effects: seq<Option<seq<string>>>, j: nat)
    requires MetadataOf(section) == Some(meta) && AsksForColumns(readBlockConfig(meta))
    requires effects == RowEffects(Rows(meta), innerHtml)
    requires j < |effects| && effects[j].Some?
    requires forall k :: j < k < |effects| ==> effects[k].None?
    ensures var r := SectionWithLayout(section, readBlockConfig, innerHtml);
            var cells := effects[j].value;
            && r.dataset == section.dataset[LayoutKey := ColumnsValue]
            && (|cells| >= 1 ==> SetTo(r.style, LeftVar, cells[0]))
            && (|cells| >= 2 ==> SetTo(r.style, RightVar, cells[|cells| - 1]))
  {
    SectionLayoutIsFold(section, readBlockConfig, innerHtml);
    LastConfiguringRowWins(section, effects, j, ColumnsValue);
  }

  /** A section configured for columns gets the fold of its rows' effects with the value "columns". */
  lemma SectionLayoutIsFold(section: Node, readBlockConfig: Node -> Config, innerHtml: Node -> string)
    requires MetadataOf(section).Some?
    requires AsksForColumns(readBlockConfig(MetadataOf(section).value))
    ensures SectionWithLayout(section, readBlockConfig, innerHtml) ==
            ApplyEffects(section, RowEffects(Rows(MetadataOf(section).value), innerHtml), ColumnsValue)
  {
    assert readBlockConfig(MetadataOf(section).value)[LayoutKey].value == ColumnsValue;
  }
}
