/**
 A Markdown answer with tables, split for Google Chat: the lead stays message text, the rest becomes
 card sections. Cell markup is left as it is; what is modelled is where every line goes.
 */
module TableCard {
  import opened Text

  const MAX_TABLE_ROWS := 25

  // ----- What a line looks like -----

  function CountHashes(s: string): nat {
    if s != "" && s[0] == '#' then 1 + CountHashes(s[1..]) else 0
  }

  lemma HashesFit(s: string)
    ensures CountHashes(s) <= |s|
  {
  }

  /** What follows one to six hashes and is set off by a space. */
  function HeadingText(line: string): Option<string> {
    var t := TrimStart(line);
    var level := CountHashes(t);
    HashesFit(t);
    if 1 <= level <= 6 && level < |t| && t[level] == ' ' then Some(t[level..]) else None
  }

  function Visible(s: string): string {
    if s == "" then "" else (if IsWhitespace(s[0]) then "" else [s[0]]) + Visible(s[1..])
  }

  predicate All(s: string, c: char) {
    forall i :: 0 <= i < |s| ==> s[i] == c
  }

  predicate IsBlank(line: string) {
    Trim(line) == ""
  }

  predicate IsRule(line: string) {
    var c := Visible(Trim(line));
    |c| >= 3 && (All(c, '-') || All(c, '*') || All(c, '_'))
  }

  predicate IsTableRow(line: string) {
    var t := Trim(line);
    |t| > 1 && t[0] == '|'
  }

  function DropStart(s: string, c: char): string {
    if s != "" && s[0] == c then DropStart(s[1..], c) else s
  }

  function DropEnd(s: string, c: char): string {
    if s != "" && s[|s| - 1] == c then DropEnd(s[..|s| - 1], c) else s
  }

  /** The cells of a row, without the outer bars. */
  function SplitRow(line: string): seq<string> {
    var t := DropStart(Trim(line), '|');
    var t := if t != "" && t[|t| - 1] == '|' then t[..|t| - 1] else t;
    var cells := Split(t, '|');
    seq(|cells|, i requires 0 <= i < |cells| => Trim(cells[i]))
  }

  predicate IsDashes(cell: string) {
    var c := DropEnd(DropStart(cell, ':'), ':');
    c != "" && All(c, '-')
  }

  predicate IsSeparator(line: string) {
    IsTableRow(line) && forall i :: 0 <= i < |SplitRow(line)| ==> IsDashes(SplitRow(line)[i])
  }

  // ----- A row of a table is nothing else -----

  lemma {:induction false} TrimKeepsFirst(s: string)
    requires Trim(s) != ""
    ensures TrimStart(s) != "" && TrimStart(s)[0] == Trim(s)[0]
  {
    TrimEndKeepsFirst(TrimStart(s));
  }

  lemma {:induction false} TrimEndKeepsFirst(s: string)
    requires TrimEnd(s) != ""
    ensures s != "" && s[0] == TrimEnd(s)[0]
  {
    if s != "" && IsWhitespace(s[|s| - 1]) {
      TrimEndKeepsFirst(s[..|s| - 1]);
    }
  }

  lemma RowIsNothingElse(line: string)
    requires IsTableRow(line)
    ensures !IsBlank(line) && HeadingText(line).None? && !IsRule(line)
  {
    TrimKeepsFirst(line);
    var t := Trim(line);
    assert Visible(t)[0] == '|';
  }

  /** How lines are told apart and taken apart. The gateway's rules are `Markdown`. */
  datatype Syntax = Syntax(isRow: string -> bool, isSeparator: string -> bool, isRule: string -> bool,
                           isBlank: string -> bool, heading: string -> Option<string>,
                           cells: string -> seq<string>, clean: string -> string)

  /** The rules of the source; cleaning a heading of emoji and tags is a parameter. */
  function Markdown(clean: string -> string): Syntax {
    Syntax(IsTableRow, IsSeparator, IsRule, IsBlank, HeadingText, SplitRow, clean)
  }

  predicate RowOnly(x: Syntax, line: string) {
    x.isRow(line) ==> !x.isBlank(line) && x.heading(line).None? && !x.isRule(line)
  }

  /** A table row is not blank, no heading and no rule. */
  ghost predicate Distinguishes(x: Syntax) {
    forall line :: RowOnly(x, line)
  }

  lemma MarkdownRow(clean: string -> string, line: string)
    ensures RowOnly(Markdown(clean), line)
  {
    if IsTableRow(line) {
      RowIsNothingElse(line);
    }
  }

  lemma MarkdownDistinguishes(clean: string -> string)
    ensures Distinguishes(Markdown(clean))
  {
    var x := Markdown(clean);
    forall line ensures RowOnly(x, line) {
      MarkdownRow(clean, line);
    }
  }

  predicate StartsTable(x: Syntax, lines: seq<string>, i: nat)
    requires i < |lines|
  {
    x.isRow(lines[i]) && i + 1 < |lines| && x.isSeparator(lines[i + 1])
  }

  predicate BlockStart(x: Syntax, lines: seq<string>, i: nat)
    requires i < |lines|
  {
    x.heading(lines[i]).Some? || x.isRule(lines[i]) || StartsTable(x, lines, i)
  }

  // ----- The reference: one line after another -----

  datatype Kind = LeadLine | BlankLine | HeadingLine | RuleLine | TableTop | TableRule | TableBody | ParagraphLine

  /** What a line is past the lead and outside a table. */
  function KindBySight(x: Syntax, lines: seq<string>, i: nat): Kind
    requires i < |lines|
  {
    if x.isBlank(lines[i]) then BlankLine
    else if x.heading(lines[i]).Some? then HeadingLine
    else if x.isRule(lines[i]) then RuleLine
    else if StartsTable(x, lines, i) then TableTop
    else ParagraphLine
  }

  /** Where line `i` belongs, given where the line before it does. */
  function KindOf(x: Syntax, lines: seq<string>, i: nat): Kind
    requires i < |lines|
  {
    if i > 0 && KindOf(x, lines, i - 1) == TableTop then TableRule
    else if i > 0 && KindOf(x, lines, i - 1) in {TableRule, TableBody} && x.isRow(lines[i]) then TableBody
    else if (i == 0 || KindOf(x, lines, i - 1) == LeadLine) && !BlockStart(x, lines, i) then LeadLine
    else KindBySight(x, lines, i)
  }

  type Tagged = seq<(string, Kind)>

  function Tags(x: Syntax, lines: seq<string>, n: nat): Tagged
    requires n <= |lines|
  {
    if n == 0 then [] else Tags(x, lines, n - 1) + [(lines[n - 1], KindOf(x, lines, n - 1))]
  }

  // ----- The parts of an answer -----

  datatype Block =
    | Paragraph(lines: seq<string>)
    | Blank(line: string)
    | Heading(line: string)
    | Rule(line: string)
    | Table(top: string, rule: string, rows: seq<string>)

  function TagAll(lines: seq<string>, k: Kind): Tagged {
    seq(|lines|, i requires 0 <= i < |lines| => (lines[i], k))
  }

  /** The lines of a block, with what they are in it. */
  function TagsIn(b: Block): Tagged {
    match b
    case Paragraph(lines) => TagAll(lines, ParagraphLine)
    case Blank(line) => [(line, BlankLine)]
    case Heading(line) => [(line, HeadingLine)]
    case Rule(line) => [(line, RuleLine)]
    case Table(top, rule, rows) => [(top, TableTop), (rule, TableRule)] + TagAll(rows, TableBody)
  }

  function TagsOf(blocks: seq<Block>): Tagged {
    if blocks == [] then [] else TagsOf(blocks[..|blocks| - 1]) + TagsIn(blocks[|blocks| - 1])
  }

  lemma TagsAppend(blocks: seq<Block>, b: Block)
    ensures TagsOf(blocks + [b]) == TagsOf(blocks) + TagsIn(b)
  {
    assert (blocks + [b])[..|blocks + [b]| - 1] == blocks;
  }

  predicate EndsInParagraph(blocks: seq<Block>) {
    blocks != [] && blocks[|blocks| - 1].Paragraph?
  }

  /** Paragraphs are maximal: none is empty, and no two stand next to each other. */
  predicate Tidy(blocks: seq<Block>) {
    && (forall i :: 0 <= i < |blocks| && blocks[i].Paragraph? ==> blocks[i].lines != [])
    && (forall i :: 0 < i < |blocks| ==> !(blocks[i - 1].Paragraph? && blocks[i].Paragraph?))
  }

  /** Tidy, and a paragraph may follow. */
  predicate OpenEnded(blocks: seq<Block>) {
    Tidy(blocks) && !EndsInParagraph(blocks)
  }

  lemma TidyAppend(blocks: seq<Block>, b: Block)
    requires Tidy(blocks) && (b.Paragraph? ==> b.lines != [] && !EndsInParagraph(blocks))
    ensures Tidy(blocks + [b]) && (!b.Paragraph? ==> OpenEnded(blocks + [b]))
  {
    var all := blocks + [b];
    forall i | 0 < i < |all| ensures !(all[i - 1].Paragraph? && all[i].Paragraph?) {
      assert i < |blocks| ==> all[i - 1] == blocks[i - 1] && all[i] == blocks[i];
    }
  }

  // ----- Sections -----

  datatype Widget = Prose(lines: seq<string>) | TableHeader(cells: seq<string>) | Divider
                  | Row(cells: seq<string>) | More(count: nat) | Filler
  datatype Section = Section(header: Option<string>, widgets: seq<Widget>)

  function RowWidgets(x: Syntax, rows: seq<string>, n: nat): seq<Widget>
    requires n <= |rows|
  {
    if n == 0 then [] else RowWidgets(x, rows, n - 1) + [Row(x.cells(rows[n - 1]))]
  }

  /** The widgets of a table: header, divider, up to 25 rows, and how many more there are. */
  function TableWidgets(x: Syntax, top: string, rows: seq<string>): seq<Widget> {
    [TableHeader(x.cells(top)), Divider] + RowWidgets(x, rows, Least(|rows|, MAX_TABLE_ROWS))
    + if |rows| > MAX_TABLE_ROWS then [More(|rows| - MAX_TABLE_ROWS)] else []
  }

  function WidgetsIn(x: Syntax, b: Block): seq<Widget> {
    match b
    case Paragraph(lines) => [Prose(lines)]
    case Table(top, _, rows) => TableWidgets(x, top, rows)
    case _ => []
  }

  /** A heading's text, cleaned; none left counts as no header. */
  function HeaderOf(x: Syntax, line: string): Option<string> {
    var h := x.heading(line);
    if h.Some? && x.clean(h.value) != "" then Some(x.clean(h.value)) else None
  }

  /** One more block: a heading or a rule begins a group, anything else adds its widgets to the last. */
  function Grow(x: Syntax, g: seq<Section>, b: Block): (h: seq<Section>)
    requires g != []
    ensures h != []
  {
    if b.Heading? then g + [Section(HeaderOf(x, b.line), [])]
    else if b.Rule? then g + [Section(None, [])]
    else
      var last := g[|g| - 1];
      g[|g| - 1 := Section(last.header, last.widgets + WidgetsIn(x, b))]
  }

  /** The blocks grouped into sections. */
  function Groups(x: Syntax, blocks: seq<Block>): (g: seq<Section>)
    ensures g != []
  {
    if blocks == [] then [Section(None, [])]
    else Grow(x, Groups(x, blocks[..|blocks| - 1]), blocks[|blocks| - 1])
  }

  /** A group as a section: nothing at all is left out, a bare header gets a filler. */
  function Shown(s: Section): seq<Section> {
    if s.header.None? && s.widgets == [] then []
    else if s.widgets == [] then [Section(s.header, [Filler])]
    else [s]
  }

  function AllShown(g: seq<Section>, n: nat): seq<Section>
    requires n <= |g|
  {
    if n == 0 then [] else AllShown(g, n - 1) + Shown(g[n - 1])
  }

  lemma GroupsAppend(x: Syntax, blocks: seq<Block>, b: Block)
    ensures Groups(x, blocks + [b]) == Grow(x, Groups(x, blocks), b)
  {
    assert (blocks + [b])[..|blocks + [b]| - 1] == blocks;
  }

  lemma {:induction false} AllShownPrefix(g: seq<Section>, h: seq<Section>, n: nat)
    requires n <= |g| && n <= |h| && g[..n] == h[..n]
    ensures AllShown(g, n) == AllShown(h, n)
  {
    if n > 0 {
      assert g[n - 1] == g[..n][n - 1] == h[..n][n - 1] == h[n - 1];
      assert g[..n - 1] == g[..n][..n - 1] && h[..n - 1] == h[..n][..n - 1];
      AllShownPrefix(g, h, n - 1);
    }
  }

  /** The finished sections and the current one are the groups of `blocks`. */
  ghost predicate Grouped(x: Syntax, blocks: seq<Block>, sections: seq<Section>, current: Section) {
    var g := Groups(x, blocks);
    sections == AllShown(g, |g| - 1) && g[|g| - 1] == current
  }

  lemma GrowBegins(x: Syntax, g: seq<Section>, b: Block)
    requires g != [] && (b.Heading? || b.Rule?)
    ensures var h := Grow(x, g, b);
            && AllShown(h, |h| - 1) == AllShown(g, |g| - 1) + Shown(g[|g| - 1])
            && h[|h| - 1] == Section(if b.Heading? then HeaderOf(x, b.line) else None, [])
  {
    AllShownPrefix(g, Grow(x, g, b), |g| - 1);
  }

  lemma GrowAdds(x: Syntax, g: seq<Section>, b: Block)
    requires g != [] && !b.Heading? && !b.Rule?
    ensures var h := Grow(x, g, b);
            && AllShown(h, |h| - 1) == AllShown(g, |g| - 1)
            && h[|h| - 1] == Section(g[|g| - 1].header, g[|g| - 1].widgets + WidgetsIn(x, b))
  {
    AllShownPrefix(g, Grow(x, g, b), |g| - 1);
  }

  lemma GroupedBegin(x: Syntax, blocks: seq<Block>, sections: seq<Section>, current: Section, b: Block)
    requires Grouped(x, blocks, sections, current) && (b.Heading? || b.Rule?)
    ensures Grouped(x, blocks + [b], sections + Shown(current),
                    Section(if b.Heading? then HeaderOf(x, b.line) else None, []))
  {
    GroupsAppend(x, blocks, b);
    GrowBegins(x, Groups(x, blocks), b);
  }

  lemma GroupedAdd(x: Syntax, blocks: seq<Block>, sections: seq<Section>, current: Section, b: Block)
    requires Grouped(x, blocks, sections, current) && !b.Heading? && !b.Rule?
    ensures Grouped(x, blocks + [b], sections, Section(current.header, current.widgets + WidgetsIn(x, b)))
  {
    GroupsAppend(x, blocks, b);
    GrowAdds(x, Groups(x, blocks), b);
  }

  /** Closing the current section completes the list. */
  lemma GroupedAll(x: Syntax, blocks: seq<Block>, sections: seq<Section>, current: Section)
    requires Grouped(x, blocks, sections, current)
    ensures AllShown(Groups(x, blocks), |Groups(x, blocks)|) == sections + Shown(current)
  {
  }

  /** The section builder. The ghost blocks are what has been added to it. */
  class Builder {
    const x: Syntax
    var sections: seq<Section>
    var header: Option<string>
    var widgets: seq<Widget>
    ghost var blocks: seq<Block>

    ghost predicate Valid()
      reads this
    {
      Grouped(x, blocks, sections, Section(header, widgets))
    }

    constructor (x: Syntax)
      ensures Valid() && blocks == [] && this.x == x
    {
      this.x := x;
      sections, header, widgets, blocks := [], None, [], [];
    }

    /** The current section, if there is anything to it, joins the others. */
    method Close()
      modifies this`sections, this`header, this`widgets
      ensures sections == old(sections) + Shown(Section(old(header), old(widgets)))
      ensures header == None && widgets == []
    {
      if widgets == [] && header.None? {
        return;
      }
      var s := Section(header, widgets);
      widgets, header := [], None;
      if s.widgets == [] {
        s := Section(s.header, [Filler]);
      }
      sections := sections + [s];
    }

    /** A heading or a rule begins a new section. */
    method Begin(b: Block)
      requires Valid() && (b.Heading? || b.Rule?)
      modifies this
      ensures Valid() && blocks == old(blocks) + [b]
    {
      GroupedBegin(x, blocks, sections, Section(header, widgets), b);
      Close();
      header := if b.Heading? then HeaderOf(x, b.line) else None;
      blocks := blocks + [b];
    }

    /** A paragraph, a table or a blank line adds its widgets to the current section. */
    method Add(b: Block, ws: seq<Widget>)
      requires Valid() && !b.Heading? && !b.Rule? && ws == WidgetsIn(x, b)
      modifies this`widgets, this`blocks
      ensures Valid() && blocks == old(blocks) + [b]
    {
      GroupedAdd(x, blocks, sections, Section(header, widgets), b);
      widgets := widgets + ws;
      blocks := blocks + [b];
    }

    method AddTable(top: string, rule: string, rows: seq<string>)
      requires Valid()
      modifies this`widgets, this`blocks
      ensures Valid() && blocks == old(blocks) + [Table(top, rule, rows)]
    {
      var ws: seq<Widget> := [TableHeader(x.cells(top)), Divider];
      var n := Least(|rows|, MAX_TABLE_ROWS);
      for i := 0 to n
        invariant ws == [TableHeader(x.cells(top)), Divider] + RowWidgets(x, rows, i)
      {
        ws := ws + [Row(x.cells(rows[i]))];
      }
      if |rows| > MAX_TABLE_ROWS {
        ws := ws + [More(|rows| - MAX_TABLE_ROWS)];
      }
      Add(Table(top, rule, rows), ws);
    }
  }

  // ----- The split -----

  datatype Answer = NoTable | Rich(lead: seq<string>, sections: seq<Section>)

  predicate HasTable(x: Syntax, lines: seq<string>) {
    exists i :: 0 <= i < |lines| && StartsTable(x, lines, i)
  }

  /** Line `i` is not inside a table begun before it. */
  predicate Fresh(x: Syntax, lines: seq<string>, i: nat)
    requires i <= |lines|
  {
    i == 0 || (var k := KindOf(x, lines, i - 1);
               k != TableTop && (k in {TableRule, TableBody} ==> i == |lines| || !x.isRow(lines[i])))
  }

  predicate InLead(x: Syntax, lines: seq<string>, i: nat)
    requires i <= |lines|
  {
    i == 0 || KindOf(x, lines, i - 1) == LeadLine
  }

  /** The lead, the blocks and the open paragraph hold the first `i` lines, each where it belongs. */
  ghost predicate Placed(x: Syntax, lines: seq<string>, i: nat, lead: seq<string>, blocks: seq<Block>, para: seq<string>)
    requires i <= |lines|
  {
    TagAll(lead, LeadLine) + TagsOf(blocks) + TagAll(para, ParagraphLine) == Tags(x, lines, i)
  }

  predicate HasTableBlock(blocks: seq<Block>) {
    exists k :: 0 <= k < |blocks| && blocks[k].Table?
  }

  /** A table begun before line `i` is among the blocks. */
  ghost predicate TablesSeen(x: Syntax, lines: seq<string>, i: nat, blocks: seq<Block>)
    requires i <= |lines|
  {
    (exists j :: 0 <= j < i && StartsTable(x, lines, j)) ==> HasTableBlock(blocks)
  }

  lemma KeepsTable(before: seq<Block>, after: seq<Block>)
    requires before <= after && HasTableBlock(before)
    ensures HasTableBlock(after)
  {
    var k :| 0 <= k < |before| && before[k].Table?;
    assert after[k].Table?;
  }

  lemma SeenNext(x: Syntax, lines: seq<string>, i: nat, j: nat, before: seq<Block>, after: seq<Block>)
    requires i < j <= |lines| && before <= after && TablesSeen(x, lines, i, before)
    requires StartsTable(x, lines, i) || j > i + 1 ==> HasTableBlock(after)
    ensures TablesSeen(x, lines, j, after)
  {
    if HasTableBlock(before) {
      KeepsTable(before, after);
    }
  }

  method FindTable(x: Syntax, lines: seq<string>) returns (found: bool)
    ensures found == HasTable(x, lines)
  {
    found := false;
    for i := 0 to |lines|
      invariant !found && forall j :: 0 <= j < i ==> !StartsTable(x, lines, j)
    {
      if StartsTable(x, lines, i) {
        return true;
      }
    }
  }

  lemma LeadNext(x: Syntax, lines: seq<string>, i: nat, lead: seq<string>)
    requires i < |lines| && InLead(x, lines, i) && !BlockStart(x, lines, i) && Fresh(x, lines, i)
    requires Placed(x, lines, i, lead, [], [])
    ensures KindOf(x, lines, i) == LeadLine && Placed(x, lines, i + 1, lead + [lines[i]], [], [])
  {
    assert TagAll(lead + [lines[i]], LeadLine) == TagAll(lead, LeadLine) + [(lines[i], LeadLine)];
  }

  lemma ParaNext(x: Syntax, lines: seq<string>, i: nat, lead: seq<string>, blocks: seq<Block>, para: seq<string>)
    requires i < |lines| && KindOf(x, lines, i) == ParagraphLine && Placed(x, lines, i, lead, blocks, para)
    ensures Placed(x, lines, i + 1, lead, blocks, para + [lines[i]])
  {
    assert TagAll(para + [lines[i]], ParagraphLine) == TagAll(para, ParagraphLine) + [(lines[i], ParagraphLine)];
  }

  lemma Regroup(l: Tagged, t: Tagged, more: Tagged)
    ensures l + (t + more) + [] == l + t + more
  {
  }

  /** One block more is its lines more. */
  lemma PlacedBlock(lead: seq<string>, blocks: seq<Block>, b: Block, before: Tagged)
    requires TagAll(lead, LeadLine) + TagsOf(blocks) == before
    ensures TagAll(lead, LeadLine) + TagsOf(blocks + [b]) + TagAll([], ParagraphLine) == before + TagsIn(b)
  {
    TagsAppend(blocks, b);
    Regroup(TagAll(lead, LeadLine), TagsOf(blocks), TagsIn(b));
    assert TagAll([], ParagraphLine) == [];
  }

  lemma PlacedPlain(x: Syntax, lines: seq<string>, i: nat, lead: seq<string>, blocks: seq<Block>)
    requires i <= |lines| && Placed(x, lines, i, lead, blocks, [])
    ensures TagAll(lead, LeadLine) + TagsOf(blocks) == Tags(x, lines, i)
  {
    assert TagAll([], ParagraphLine) == [];
  }

  /** A finished paragraph becomes a block. */
  lemma ParaDone(x: Syntax, lines: seq<string>, i: nat, lead: seq<string>, blocks: seq<Block>, para: seq<string>)
    requires i <= |lines| && Placed(x, lines, i, lead, blocks, para)
    ensures Placed(x, lines, i, lead, blocks + [Paragraph(para)], [])
  {
    PlacedBlock(lead, blocks, Paragraph(para), TagAll(lead, LeadLine) + TagsOf(blocks));
  }

  lemma BlockNext(x: Syntax, lines: seq<string>, i: nat, lead: seq<string>, blocks: seq<Block>, b: Block)
    requires i < |lines| && Placed(x, lines, i, lead, blocks, []) && TagsIn(b) == [(lines[i], KindOf(x, lines, i))]
    ensures Placed(x, lines, i + 1, lead, blocks + [b], [])
  {
    PlacedPlain(x, lines, i, lead, blocks);
    PlacedBlock(lead, blocks, b, Tags(x, lines, i));
  }

  /** Lines `i` to `j` are a table from its top on. */
  ghost predicate TableSoFar(x: Syntax, lines: seq<string>, i: nat, j: nat, rows: seq<string>) {
    && i + 2 <= j <= |lines|
    && KindOf(x, lines, j - 1) in {TableRule, TableBody}
    && Tags(x, lines, j) == Tags(x, lines, i) + TagsIn(Table(lines[i], lines[i + 1], rows))
  }

  lemma TableBegins(x: Syntax, lines: seq<string>, i: nat)
    requires i < |lines| && StartsTable(x, lines, i) && KindOf(x, lines, i) == TableTop
    ensures TableSoFar(x, lines, i, i + 2, [])
  {
    assert KindOf(x, lines, i + 1) == TableRule;
    assert TagAll([], TableBody) == [];
    assert Tags(x, lines, i + 2) == Tags(x, lines, i + 1) + [(lines[i + 1], TableRule)];
  }

  lemma TableGrows(x: Syntax, lines: seq<string>, i: nat, j: nat, rows: seq<string>)
    requires TableSoFar(x, lines, i, j, rows) && j < |lines| && x.isRow(lines[j])
    ensures TableSoFar(x, lines, i, j + 1, rows + [lines[j]])
  {
    assert KindOf(x, lines, j) == TableBody;
    assert TagAll(rows + [lines[j]], TableBody) == TagAll(rows, TableBody) + [(lines[j], TableBody)];
  }

  lemma TableDone(x: Syntax, lines: seq<string>, i: nat, j: nat, lead: seq<string>, blocks: seq<Block>, rows: seq<string>)
    requires TableSoFar(x, lines, i, j, rows) && Placed(x, lines, i, lead, blocks, [])
    ensures Placed(x, lines, j, lead, blocks + [Table(lines[i], lines[i + 1], rows)], [])
  {
    var b := Table(lines[i], lines[i + 1], rows);
    PlacedPlain(x, lines, i, lead, blocks);
    PlacedBlock(lead, blocks, b, Tags(x, lines, i));
  }

  /** The body rows of the table at `i`: every table row after its separator. */
  method ReadTable(x: Syntax, lines: seq<string>, i: nat) returns (rows: seq<string>, j: nat)
    requires i < |lines| && StartsTable(x, lines, i) && KindOf(x, lines, i) == TableTop
    ensures TableSoFar(x, lines, i, j, rows) && (j < |lines| ==> !x.isRow(lines[j]))
  {
    rows, j := [], i + 2;
    TableBegins(x, lines, i);
    while j < |lines| && x.isRow(lines[j])
      invariant TableSoFar(x, lines, i, j, rows)
    {
      TableGrows(x, lines, i, j, rows);
      rows := rows + [lines[j]];
      j := j + 1;
    }
  }

  /** End an open paragraph. */
  method EndParagraph(x: Syntax, b: Builder, para: seq<string>, ghost lines: seq<string>, ghost i: nat, ghost lead: seq<string>)
    requires b.x == x && b.Valid() && i <= |lines| && Placed(x, lines, i, lead, b.blocks, para) && OpenEnded(b.blocks)
    modifies b
    ensures b.Valid() && Placed(x, lines, i, lead, b.blocks, []) && old(b.blocks) <= b.blocks
    ensures Tidy(b.blocks)
  {
    if para == [] {
      return;
    }
    ParaDone(x, lines, i, lead, b.blocks, para);
    TidyAppend(b.blocks, Paragraph(para));
    b.Add(Paragraph(para), [Prose(para)]);
  }

  /** A blank line, a heading or a rule ends the open paragraph. */
  method StepLine(x: Syntax, b: Builder, lines: seq<string>, i: nat, para: seq<string>, block: Block, ghost lead: seq<string>)
    requires b.x == x && b.Valid() && i < |lines| && Placed(x, lines, i, lead, b.blocks, para) && OpenEnded(b.blocks)
    requires (block.Blank? || block.Heading? || block.Rule?) && TagsIn(block) == [(lines[i], KindOf(x, lines, i))]
    modifies b
    ensures b.Valid() && Placed(x, lines, i + 1, lead, b.blocks, []) && old(b.blocks) <= b.blocks
    ensures OpenEnded(b.blocks)
  {
    EndParagraph(x, b, para, lines, i, lead);
    TidyAppend(b.blocks, block);
    BlockNext(x, lines, i, lead, b.blocks, block);
    if block.Blank? {
      b.Add(block, []);
    } else {
      b.Begin(block);
    }
  }

  /** A whole table. */
  method StepTable(x: Syntax, b: Builder, lines: seq<string>, i: nat, para: seq<string>, ghost lead: seq<string>)
    returns (j: nat)
    requires b.x == x && b.Valid() && i < |lines| && Placed(x, lines, i, lead, b.blocks, para) && OpenEnded(b.blocks)
    requires StartsTable(x, lines, i) && KindOf(x, lines, i) == TableTop
    modifies b
    ensures b.Valid() && i + 2 <= j <= |lines| && Placed(x, lines, j, lead, b.blocks, [])
    ensures old(b.blocks) <= b.blocks && HasTableBlock(b.blocks)
    ensures Fresh(x, lines, j) && !InLead(x, lines, j) && OpenEnded(b.blocks)
  {
    EndParagraph(x, b, para, lines, i, lead);
    var rows;
    rows, j := ReadTable(x, lines, i);
    TableLeaves(x, lines, i, j, lead, b.blocks, rows);
    b.AddTable(lines[i], lines[i + 1], rows);
  }

  lemma TableIsTidy(blocks: seq<Block>, b: Block)
    requires Tidy(blocks) && b.Table?
    ensures HasTableBlock(blocks + [b]) && OpenEnded(blocks + [b])
  {
    TidyAppend(blocks, b);
    assert (blocks + [b])[|blocks|].Table?;
  }

  lemma TableIsOver(x: Syntax, lines: seq<string>, i: nat, j: nat, rows: seq<string>)
    requires TableSoFar(x, lines, i, j, rows) && (j < |lines| ==> !x.isRow(lines[j]))
    ensures Fresh(x, lines, j) && !InLead(x, lines, j)
  {
  }

  /** Where a whole table leaves the walk. */
  lemma TableLeaves(x: Syntax, lines: seq<string>, i: nat, j: nat, lead: seq<string>, blocks: seq<Block>, rows: seq<string>)
    requires TableSoFar(x, lines, i, j, rows) && Placed(x, lines, i, lead, blocks, []) && Tidy(blocks)
    requires j < |lines| ==> !x.isRow(lines[j])
    ensures var all := blocks + [Table(lines[i], lines[i + 1], rows)];
            Placed(x, lines, j, lead, all, []) && HasTableBlock(all) && OpenEnded(all)
    ensures Fresh(x, lines, j) && !InLead(x, lines, j)
  {
    TableIsTidy(blocks, Table(lines[i], lines[i + 1], rows));
    TableIsOver(x, lines, i, j, rows);
    TableDone(x, lines, i, j, lead, blocks, rows);
  }

  lemma SeenBySight(x: Syntax, lines: seq<string>, i: nat)
    requires i < |lines| && Fresh(x, lines, i) && !(InLead(x, lines, i) && !BlockStart(x, lines, i))
    ensures KindOf(x, lines, i) == KindBySight(x, lines, i)
  {
  }

  lemma TopIsStart(x: Syntax, lines: seq<string>, i: nat)
    requires Distinguishes(x) && i < |lines|
    ensures KindBySight(x, lines, i) == TableTop <==> StartsTable(x, lines, i)
  {
    assert RowOnly(x, lines[i]);
  }

  lemma NextIsFresh(x: Syntax, lines: seq<string>, i: nat)
    requires i < |lines| && KindOf(x, lines, i) in {BlankLine, HeadingLine, RuleLine, ParagraphLine}
    ensures Fresh(x, lines, i + 1) && !InLead(x, lines, i + 1)
  {
  }

  /** One line past the lead that begins no table. */
  method StepPlain(x: Syntax, b: Builder, lines: seq<string>, i: nat, para: seq<string>, ghost lead: seq<string>)
    returns (open: seq<string>)
    requires b.x == x && b.Valid() && i < |lines| && Placed(x, lines, i, lead, b.blocks, para) && OpenEnded(b.blocks)
    requires KindOf(x, lines, i) == KindBySight(x, lines, i) != TableTop
    modifies b
    ensures b.Valid() && Placed(x, lines, i + 1, lead, b.blocks, open) && old(b.blocks) <= b.blocks && OpenEnded(b.blocks)
    ensures Fresh(x, lines, i + 1) && !InLead(x, lines, i + 1)
  {
    var line := lines[i];
    open := [];
    NextIsFresh(x, lines, i);
    if x.isBlank(line) {
      StepLine(x, b, lines, i, para, Blank(line), lead);
    } else if x.heading(line).Some? {
      StepLine(x, b, lines, i, para, Heading(line), lead);
    } else if x.isRule(line) {
      StepLine(x, b, lines, i, para, Rule(line), lead);
    } else {
      ParaNext(x, lines, i, lead, b.blocks, para);
      open := para + [line];
    }
  }

  // ----- What a card shows of a table -----

  lemma {:induction false} RowWidgetsAt(x: Syntax, rows: seq<string>, n: nat)
    requires n <= |rows|
    ensures |RowWidgets(x, rows, n)| == n
    ensures forall i :: 0 <= i < n ==> RowWidgets(x, rows, n)[i] == Row(x.cells(rows[i]))
  {
    if n > 0 {
      RowWidgetsAt(x, rows, n - 1);
    }
  }

  /** The `k`-th widget of a table with these rows. */
  predicate TableWidgetAt(x: Syntax, top: string, rows: seq<string>, w: Widget, k: nat) {
    if k == 0 then w == TableHeader(x.cells(top))
    else if k == 1 then w == Divider
    else if k - 2 < |rows| && k - 2 < MAX_TABLE_ROWS then w == Row(x.cells(rows[k - 2]))
    else w.More? && w.count + MAX_TABLE_ROWS == |rows|
  }

  /** How many widgets a table with `n` rows takes. */
  function TableSize(n: nat): nat {
    if n <= MAX_TABLE_ROWS then 2 + n else 3 + MAX_TABLE_ROWS
  }

  lemma TableWidgetsAt(x: Syntax, top: string, rows: seq<string>)
    ensures var ws := TableWidgets(x, top, rows);
            |ws| == TableSize(|rows|) && forall k :: 0 <= k < |ws| ==> TableWidgetAt(x, top, rows, ws[k], k)
  {
    RowWidgetsAt(x, rows, Least(|rows|, MAX_TABLE_ROWS));
  }

  /** Section `s` has these widgets from `o` on. */
  predicate HasRun(s: Section, ws: seq<Widget>, o: nat) {
    o + |ws| <= |s.widgets| && s.widgets[o..o + |ws|] == ws
  }

  ghost predicate InSection(g: seq<Section>, ws: seq<Widget>) {
    exists i: nat, o: nat :: i < |g| && HasRun(g[i], ws, o)
  }

  lemma GrowKeepsRun(x: Syntax, g: seq<Section>, b: Block, ws: seq<Widget>)
    requires g != [] && InSection(g, ws)
    ensures InSection(Grow(x, g, b), ws)
  {
    var i: nat, o: nat :| i < |g| && HasRun(g[i], ws, o);
    var h := Grow(x, g, b);
    assert h[i].widgets[..|g[i].widgets|] == g[i].widgets;
    assert h[i].widgets[o..o + |ws|] == g[i].widgets[o..o + |ws|];
    assert HasRun(h[i], ws, o);
  }

  lemma GrowAddsRun(x: Syntax, g: seq<Section>, b: Block)
    requires g != [] && b.Table?
    ensures InSection(Grow(x, g, b), WidgetsIn(x, b))
  {
    var last, ws, h := g[|g| - 1], WidgetsIn(x, b), Grow(x, g, b);
    assert h[|h| - 1].widgets == last.widgets + ws;
    assert HasRun(h[|h| - 1], ws, |last.widgets|);
  }

  lemma {:induction false} TableInGroups(x: Syntax, blocks: seq<Block>, k: nat)
    requires k < |blocks| && blocks[k].Table?
    ensures InSection(Groups(x, blocks), WidgetsIn(x, blocks[k]))
    decreases |blocks|
  {
    var n := |blocks| - 1;
    var g := Groups(x, blocks[..n]);
    if k == n {
      GrowAddsRun(x, g, blocks[n]);
    } else {
      TableInGroups(x, blocks[..n], k);
      GrowKeepsRun(x, g, blocks[n], WidgetsIn(x, blocks[k]));
    }
  }

  /** A group with widgets is shown as it is. */
  lemma {:induction false} GroupIsShown(g: seq<Section>, i: nat, n: nat) returns (j: nat)
    requires i < n <= |g| && g[i].widgets != []
    ensures j < |AllShown(g, n)| && AllShown(g, n)[j] == g[i]
    decreases n
  {
    assert AllShown(g, n) == AllShown(g, n - 1) + Shown(g[n - 1]);
    if i == n - 1 {
      j := |AllShown(g, n - 1)|;
      assert Shown(g[i]) == [g[i]];
    } else {
      j := GroupIsShown(g, i, n - 1);
    }
  }

  /**
   Every table of an answer stands in one section of it: header, divider, its rows in order up to 25,
   and after those the number left out, so that rows shown and rows left out are all of them.
   */
  lemma TableIsAccountedFor(x: Syntax, lines: seq<string>, lead: seq<string>, sections: seq<Section>, blocks: seq<Block>, k: nat)
    returns (j: nat, o: nat)
    requires Splits(x, lines, lead, sections, blocks) && k < |blocks| && blocks[k].Table?
    ensures j < |sections| && o + TableSize(|blocks[k].rows|) <= |sections[j].widgets|
    ensures var shown := sections[j].widgets[o..o + TableSize(|blocks[k].rows|)];
            forall i :: 0 <= i < |shown| ==> TableWidgetAt(x, blocks[k].top, blocks[k].rows, shown[i], i)
  {
    var ws, g := WidgetsIn(x, blocks[k]), Groups(x, blocks);
    TableInGroups(x, blocks, k);
    TableWidgetsAt(x, blocks[k].top, blocks[k].rows);
    var i: nat, at: nat :| i < |g| && HasRun(g[i], ws, at);
    o := at;
    j := GroupIsShown(g, i, |g|);
    assert sections[j] == g[i];
    assert sections[j].widgets[o..o + TableSize(|blocks[k].rows|)] == ws;
  }

  // ----- The split is the only one -----

  /** The kind of a block's last line tells what block it is. */
  lemma LastTag(b: Block)
    requires b.Paragraph? ==> b.lines != []
    ensures TagsIn(b) != []
    ensures var k := TagsIn(b)[|TagsIn(b)| - 1].1;
            && (b.Paragraph? <==> k == ParagraphLine) && (b.Blank? <==> k == BlankLine) && (b.Heading? <==> k == HeadingLine)
            && (b.Rule? <==> k == RuleLine) && (b.Table? <==> k == TableRule || k == TableBody)
  {
  }

  lemma SameTags(a: Block, b: Block)
    requires TagsIn(a) == TagsIn(b) && TagsIn(a) != []
    ensures a == b
  {
    var t := TagsIn(a);
    if a.Paragraph? {
      assert t[0].1 == ParagraphLine;
      SameLines(a.lines, b.lines, ParagraphLine);
    } else if a.Table? {
      assert t[0] == (a.top, TableTop) && t[1] == (a.rule, TableRule);
      assert b.Table?;
      assert TagsIn(b)[0] == (b.top, TableTop) && TagsIn(b)[1] == (b.rule, TableRule);
      assert t[2..] == TagAll(a.rows, TableBody) && TagsIn(b)[2..] == TagAll(b.rows, TableBody);
      SameLines(a.rows, b.rows, TableBody);
    } else {
      assert t[0] == TagsIn(b)[0];
    }
  }

  lemma SameLines(a: seq<string>, b: seq<string>, k: Kind)
    requires TagAll(a, k) == TagAll(b, k)
    ensures a == b
  {
    assert |a| == |TagAll(a, k)| == |b|;
    forall i | 0 <= i < |a| ensures a[i] == b[i] {
      assert TagAll(a, k)[i] == (a[i], k) && TagAll(b, k)[i] == (b[i], k);
    }
  }

  /** All of `t` ends in `tail`. */
  predicate EndsIn(t: Tagged, tail: Tagged) {
    |tail| <= |t| && t[|t| - |tail|..] == tail
  }

  lemma EndsInLast(blocks: seq<Block>)
    requires blocks != []
    ensures EndsIn(TagsOf(blocks), TagsIn(blocks[|blocks| - 1]))
    ensures TagsOf(blocks)[..|TagsOf(blocks)| - |TagsIn(blocks[|blocks| - 1])|] == TagsOf(blocks[..|blocks| - 1])
  {
  }

  /** What comes before a paragraph is not a paragraph line. */
  lemma BeforeParagraph(a: seq<Block>)
    requires a != [] && Tidy(a) && a[|a| - 1].Paragraph?
    ensures var t := TagsOf(a[..|a| - 1]); t != [] ==> t[|t| - 1].1 != ParagraphLine
  {
    var head := a[..|a| - 1];
    if head != [] {
      assert head[|head| - 1] == a[|a| - 2];
      LastTag(head[|head| - 1]);
      EndsInLast(head);
    }
  }

  lemma ParagraphsEndAlike(all: Tagged, la: Tagged, lb: Tagged)
    requires EndsIn(all, la) && EndsIn(all, lb)
    requires forall i :: 0 <= i < |lb| ==> lb[i].1 == ParagraphLine
    requires |la| < |all| ==> all[|all| - |la| - 1].1 != ParagraphLine
    ensures |la| >= |lb|
  {
    assert forall p :: |all| - |lb| <= p < |all| ==> all[p] == lb[p - (|all| - |lb|)];
  }

  lemma TablesEndAlike(all: Tagged, la: Tagged, lb: Tagged)
    requires EndsIn(all, la) && EndsIn(all, lb) && la != []
    requires forall i :: 0 < i < |lb| ==> lb[i].1 != TableTop
    requires la[0].1 == TableTop
    ensures |la| >= |lb|
  {
    assert forall p :: |all| - |lb| < p < |all| ==> all[p] == lb[p - (|all| - |lb|)];
    assert all[|all| - |la|] == la[0];
  }

  /** The lines a block begins with, if it may end `all`. */
  ghost predicate MayEnd(all: Tagged, b: Block) {
    && EndsIn(all, TagsIn(b)) && TagsIn(b) != []
    && (b.Paragraph? ==> b.lines != [])
    && (b.Paragraph? && |TagsIn(b)| < |all| ==> all[|all| - |TagsIn(b)| - 1].1 != ParagraphLine)
  }

  lemma LastMayEnd(before: Tagged, b: Block)
    requires b.Paragraph? ==> b.lines != [] && (before != [] ==> before[|before| - 1].1 != ParagraphLine)
    ensures MayEnd(before + TagsIn(b), b)
  {
    LastTag(b);
    assert (before + TagsIn(b))[|before|..] == TagsIn(b);
  }

  lemma ParagraphTags(b: Block)
    requires b.Paragraph?
    ensures forall i :: 0 <= i < |TagsIn(b)| ==> TagsIn(b)[i].1 == ParagraphLine
  {
  }

  lemma TableTags(b: Block)
    requires b.Table?
    ensures TagsIn(b) != [] && TagsIn(b)[0].1 == TableTop
    ensures forall i :: 0 < i < |TagsIn(b)| ==> TagsIn(b)[i].1 != TableTop
  {
    assert TagsIn(b)[1].1 == TableRule;
  }

  lemma LineTags(b: Block)
    requires !b.Paragraph? && !b.Table?
    ensures |TagsIn(b)| == 1
  {
  }

  lemma SameLastTag(all: Tagged, la: Tagged, lb: Tagged)
    requires EndsIn(all, la) && EndsIn(all, lb) && la != [] && lb != []
    ensures la[|la| - 1] == lb[|lb| - 1]
  {
    assert la[|la| - 1] == all[|all| - |la|..][|la| - 1] == all[|all| - 1];
    assert lb[|lb| - 1] == all[|all| - |lb|..][|lb| - 1] == all[|all| - 1];
  }

  /** The last line tells the sort of block. */
  lemma SameSort(all: Tagged, a: Block, b: Block)
    requires MayEnd(all, a) && MayEnd(all, b)
    ensures (a.Paragraph? <==> b.Paragraph?) && (a.Table? <==> b.Table?)
  {
    LastTag(a);
    LastTag(b);
    SameLastTag(all, TagsIn(a), TagsIn(b));
  }

  lemma ParagraphEnds(all: Tagged, a: Block, b: Block)
    requires MayEnd(all, a) && MayEnd(all, b) && a.Paragraph? && b.Paragraph?
    ensures |TagsIn(a)| >= |TagsIn(b)|
  {
    ParagraphTags(b);
    ParagraphsEndAlike(all, TagsIn(a), TagsIn(b));
  }

  lemma TableEnds(all: Tagged, a: Block, b: Block)
    requires MayEnd(all, a) && MayEnd(all, b) && a.Table? && b.Table?
    ensures |TagsIn(a)| >= |TagsIn(b)|
  {
    TableTags(a);
    TableTags(b);
    TablesEndAlike(all, TagsIn(a), TagsIn(b));
  }

  lemma LineEnds(all: Tagged, a: Block, b: Block)
    requires MayEnd(all, a) && !b.Paragraph? && !b.Table?
    ensures |TagsIn(a)| >= |TagsIn(b)|
  {
    LineTags(b);
    assert TagsIn(a) != [];
  }

  /** Of two blocks that may end the same lines, neither is the shorter one. */
  lemma EndAlike(all: Tagged, a: Block, b: Block)
    requires MayEnd(all, a) && MayEnd(all, b)
    ensures |TagsIn(a)| >= |TagsIn(b)|
  {
    SameSort(all, a, b);
    if b.Paragraph? {
      ParagraphEnds(all, a, b);
    } else if b.Table? {
      TableEnds(all, a, b);
    } else {
      LineEnds(all, a, b);
    }
  }

  lemma SameEnd(all: Tagged, a: Block, b: Block)
    requires MayEnd(all, a) && MayEnd(all, b)
    ensures a == b
  {
    EndAlike(all, a, b);
    EndAlike(all, b, a);
    SameTags(a, b);
  }

  lemma TidyPrefix(blocks: seq<Block>, n: nat)
    requires Tidy(blocks) && n <= |blocks|
    ensures Tidy(blocks[..n])
  {
  }

  lemma {:induction false} TagsNonEmpty(blocks: seq<Block>)
    requires Tidy(blocks)
    ensures TagsOf(blocks) == [] <==> blocks == []
  {
    if blocks != [] {
      LastTag(blocks[|blocks| - 1]);
    }
  }

  lemma LastBlock(a: seq<Block>)
    requires a != [] && Tidy(a)
    ensures MayEnd(TagsOf(a), a[|a| - 1])
  {
    if a[|a| - 1].Paragraph? {
      BeforeParagraph(a);
    }
    LastMayEnd(TagsOf(a[..|a| - 1]), a[|a| - 1]);
  }

  lemma HeadsAlike(a: seq<Block>, b: seq<Block>)
    requires a != [] && b != [] && Tidy(a) && Tidy(b) && TagsOf(a) == TagsOf(b)
    ensures a[|a| - 1] == b[|b| - 1] && TagsOf(a[..|a| - 1]) == TagsOf(b[..|b| - 1])
  {
    LastBlock(a);
    LastBlock(b);
    SameEnd(TagsOf(a), a[|a| - 1], b[|b| - 1]);
    EndsInLast(a);
    EndsInLast(b);
  }

  /** Taking the last block off both keeps them alike. */
  ghost predicate Peels(tags: seq<Block> -> Tagged, a: seq<Block>, b: seq<Block>) {
    tags(a) == tags(b) && Tidy(a) && Tidy(b) ==>
      || a == [] == b
      || (a != [] && b != [] && a[|a| - 1] == b[|b| - 1] && tags(a[..|a| - 1]) == tags(b[..|b| - 1])
          && Tidy(a[..|a| - 1]) && Tidy(b[..|b| - 1]))
  }

  lemma TagsPeel(a: seq<Block>, b: seq<Block>)
    ensures Peels(TagsOf, a, b)
  {
    if TagsOf(a) == TagsOf(b) && Tidy(a) && Tidy(b) {
      TagsNonEmpty(a);
      TagsNonEmpty(b);
      if a != [] {
        HeadsAlike(a, b);
        TidyPrefix(a, |a| - 1);
        TidyPrefix(b, |b| - 1);
      }
    }
  }

  lemma {:induction false} PeeledAlike(tags: seq<Block> -> Tagged, a: seq<Block>, b: seq<Block>)
    requires forall c, d :: Peels(tags, c, d)
    requires Tidy(a) && Tidy(b) && tags(a) == tags(b)
    ensures a == b
    decreases |a|
  {
    assert Peels(tags, a, b);
    if a != [] {
      PeeledAlike(tags, a[..|a| - 1], b[..|b| - 1]);
      assert a == a[..|a| - 1] + [a[|a| - 1]] && b == b[..|b| - 1] + [b[|b| - 1]];
    }
  }

  /** Lines split into tidy blocks in one way only. */
  lemma SplitIsUnique(a: seq<Block>, b: seq<Block>)
    requires Tidy(a) && Tidy(b) && TagsOf(a) == TagsOf(b)
    ensures a == b
  {
    forall c, d ensures Peels(TagsOf, c, d) {
      TagsPeel(c, d);
    }
    PeeledAlike(TagsOf, a, b);
  }

  lemma {:induction false} NoLeadInBlocks(blocks: seq<Block>)
    ensures forall i :: 0 <= i < |TagsOf(blocks)| ==> TagsOf(blocks)[i].1 != LeadLine
  {
    if blocks != [] {
      NoLeadInBlocks(blocks[..|blocks| - 1]);
    }
  }

  lemma LeadsAlike(lead: seq<string>, more: seq<string>, t: Tagged, u: Tagged)
    requires TagAll(lead, LeadLine) + t == TagAll(more, LeadLine) + u
    requires forall i :: 0 <= i < |u| ==> u[i].1 != LeadLine
    ensures |lead| <= |more|
  {
    var all := TagAll(lead, LeadLine) + t;
    assert forall i :: 0 <= i < |lead| ==> all[i].1 == LeadLine;
    if |more| < |all| {
      assert all[|more|] == u[0];
    }
  }

  /** Lead and sections are determined by the lines: whatever splits them so has these. */
  lemma AnswerIsDetermined(x: Syntax, lines: seq<string>, lead: seq<string>, sections: seq<Section>, blocks: seq<Block>,
                           lead': seq<string>, sections': seq<Section>, blocks': seq<Block>)
    requires Splits(x, lines, lead, sections, blocks) && Splits(x, lines, lead', sections', blocks')
    ensures lead == lead' && blocks == blocks' && sections == sections'
  {
    NoLeadInBlocks(blocks);
    NoLeadInBlocks(blocks');
    var t, t' := TagsOf(blocks), TagsOf(blocks');
    LeadsAlike(lead, lead', t, t');
    LeadsAlike(lead', lead, t', t);
    var all := Tags(x, lines, |lines|);
    assert TagAll(lead, LeadLine) == all[..|lead|] == TagAll(lead', LeadLine);
    assert t == all[|lead|..] == t';
    SameLines(lead, lead', LeadLine);
    SplitIsUnique(blocks, blocks');
  }

  // ----- A table always shows -----

  lemma {:induction false} ShownGrows(g: seq<Section>, n: nat, m: nat)
    requires n <= m <= |g|
    ensures |AllShown(g, n)| <= |AllShown(g, m)|
    decreases m - n
  {
    if n < m {
      ShownGrows(g, n, m - 1);
    }
  }

  ghost predicate HasWidgets(g: seq<Section>) {
    exists i :: 0 <= i < |g| && g[i].widgets != []
  }

  lemma GrowKeepsWidgets(x: Syntax, g: seq<Section>, b: Block)
    requires g != [] && (HasWidgets(g) || b.Table?)
    ensures HasWidgets(Grow(x, g, b))
  {
    var h := Grow(x, g, b);
    if b.Table? {
      assert h[|h| - 1].widgets != [];
    } else {
      var i :| 0 <= i < |g| && g[i].widgets != [];
      assert h[i].widgets != [];
    }
  }

  lemma {:induction false} TableMakesWidgets(x: Syntax, blocks: seq<Block>)
    requires HasTableBlock(blocks)
    ensures HasWidgets(Groups(x, blocks))
    decreases |blocks|
  {
    var n := |blocks| - 1;
    if !blocks[n].Table? {
      var k :| 0 <= k < |blocks| && blocks[k].Table?;
      assert blocks[..n][k].Table?;
      TableMakesWidgets(x, blocks[..n]);
    }
    GrowKeepsWidgets(x, Groups(x, blocks[..n]), blocks[n]);
  }

  lemma WidgetsShow(g: seq<Section>)
    requires HasWidgets(g)
    ensures AllShown(g, |g|) != []
  {
    var i :| 0 <= i < |g| && g[i].widgets != [];
    ShownGrows(g, i + 1, |g|);
  }

  /** A card made from a table has a section. */
  lemma TableShows(x: Syntax, blocks: seq<Block>)
    requires HasTableBlock(blocks)
    ensures AllShown(Groups(x, blocks), |Groups(x, blocks)|) != []
  {
    TableMakesWidgets(x, blocks);
    WidgetsShow(Groups(x, blocks));
  }

  /**
   Lead and blocks hold every line where the reference puts it, paragraphs are maximal, and the
   sections are the blocks' groups.
   */
  ghost predicate Splits(x: Syntax, lines: seq<string>, lead: seq<string>, sections: seq<Section>, blocks: seq<Block>) {
    && TagAll(lead, LeadLine) + TagsOf(blocks) == Tags(x, lines, |lines|) && Tidy(blocks)
    && sections == AllShown(Groups(x, blocks), |Groups(x, blocks)|)
  }

  /** The last paragraph and the last section. */
  method Finish(x: Syntax, b: Builder, para: seq<string>, lines: seq<string>, ghost lead: seq<string>)
    returns (sections: seq<Section>)
    requires b.x == x && b.Valid() && Placed(x, lines, |lines|, lead, b.blocks, para)
    requires HasTableBlock(b.blocks) && OpenEnded(b.blocks)
    modifies b
    ensures sections != [] && exists blocks :: Splits(x, lines, lead, sections, blocks)
  {
    ghost var before := b.blocks;
    EndParagraph(x, b, para, lines, |lines|, lead);
    ghost var blocks := b.blocks;
    PlacedPlain(x, lines, |lines|, lead, blocks);
    KeepsTable(before, blocks);
    TableShows(x, blocks);
    GroupedAll(x, blocks, b.sections, Section(b.header, b.widgets));
    b.Close();
    sections := b.sections;
    assert Splits(x, lines, lead, sections, blocks);
  }

  /** Where the walk over the lines stands before line `i`. */
  ghost predicate Walked(x: Syntax, lines: seq<string>, i: nat, lead: seq<string>, blocks: seq<Block>,
                         para: seq<string>, inLead: bool)
    requires i <= |lines|
  {
    && Fresh(x, lines, i) && Placed(x, lines, i, lead, blocks, para) && inLead == InLead(x, lines, i)
    && (inLead ==> blocks == [] && para == []) && TablesSeen(x, lines, i, blocks) && OpenEnded(blocks)
  }

  lemma WalkStarts(x: Syntax, lines: seq<string>)
    ensures Walked(x, lines, 0, [], [], [], true)
  {
  }

  lemma WalkLead(x: Syntax, lines: seq<string>, i: nat, lead: seq<string>, blocks: seq<Block>, para: seq<string>)
    requires i < |lines| && Walked(x, lines, i, lead, blocks, para, true) && !BlockStart(x, lines, i)
    ensures Walked(x, lines, i + 1, lead + [lines[i]], blocks, para, true)
  {
    LeadNext(x, lines, i, lead);
    assert KindOf(x, lines, i) == LeadLine;
  }

  method WalkTable(x: Syntax, b: Builder, lines: seq<string>, i: nat, para: seq<string>, ghost lead: seq<string>, ghost inLead: bool)
    returns (j: nat)
    requires b.x == x && b.Valid() && i < |lines| && Walked(x, lines, i, lead, b.blocks, para, inLead)
    requires StartsTable(x, lines, i) && KindOf(x, lines, i) == TableTop
    modifies b
    ensures b.Valid() && i < j <= |lines| && Walked(x, lines, j, lead, b.blocks, [], false)
  {
    ghost var before := b.blocks;
    j := StepTable(x, b, lines, i, para, lead);
    SeenNext(x, lines, i, j, before, b.blocks);
  }

  method WalkPlain(x: Syntax, b: Builder, lines: seq<string>, i: nat, para: seq<string>, ghost lead: seq<string>, ghost inLead: bool)
    returns (open: seq<string>)
    requires b.x == x && b.Valid() && i < |lines| && Walked(x, lines, i, lead, b.blocks, para, inLead)
    requires !StartsTable(x, lines, i) && KindOf(x, lines, i) == KindBySight(x, lines, i) != TableTop
    modifies b
    ensures b.Valid() && Walked(x, lines, i + 1, lead, b.blocks, open, false)
  {
    ghost var before := b.blocks;
    open := StepPlain(x, b, lines, i, para, lead);
    SeenNext(x, lines, i, i + 1, before, b.blocks);
  }

  lemma SeenOnWalk(x: Syntax, lines: seq<string>, i: nat, lead: seq<string>, blocks: seq<Block>, para: seq<string>, inLead: bool)
    requires Distinguishes(x) && i < |lines| && Walked(x, lines, i, lead, blocks, para, inLead)
    requires !(inLead && !BlockStart(x, lines, i))
    ensures KindOf(x, lines, i) == KindBySight(x, lines, i)
    ensures KindBySight(x, lines, i) == TableTop <==> StartsTable(x, lines, i)
  {
    SeenBySight(x, lines, i);
    TopIsStart(x, lines, i);
  }

  lemma WalkedAll(x: Syntax, lines: seq<string>, lead: seq<string>, blocks: seq<Block>, para: seq<string>, inLead: bool)
    requires HasTable(x, lines) && Walked(x, lines, |lines|, lead, blocks, para, inLead)
    ensures Placed(x, lines, |lines|, lead, blocks, para) && HasTableBlock(blocks) && OpenEnded(blocks)
  {
  }

  /** The lines one after another, into the lead and the builder. */
  method Walk(x: Syntax, b: Builder, lines: seq<string>) returns (lead: seq<string>, para: seq<string>)
    requires Distinguishes(x) && b.x == x && b.Valid() && b.blocks == [] && HasTable(x, lines)
    modifies b
    ensures b.Valid() && Placed(x, lines, |lines|, lead, b.blocks, para) && HasTableBlock(b.blocks) && OpenEnded(b.blocks)
  {
    lead, para := [], [];
    var inLead := true;
    var i := 0;
    WalkStarts(x, lines);
    while i < |lines|
      invariant i <= |lines| && b.Valid() && Walked(x, lines, i, lead, b.blocks, para, inLead)
    {
      if inLead && !BlockStart(x, lines, i) {
        WalkLead(x, lines, i, lead, b.blocks, para);
        lead := lead + [lines[i]];
        i := i + 1;
      } else {
        SeenOnWalk(x, lines, i, lead, b.blocks, para, inLead);
        if StartsTable(x, lines, i) {
          i := WalkTable(x, b, lines, i, para, lead, inLead);
          para := [];
        } else {
          para := WalkPlain(x, b, lines, i, para, lead, inLead);
          i := i + 1;
        }
        inLead := false;
      }
    }
    WalkedAll(x, lines, lead, b.blocks, para, inLead);
  }

  /**
   The answer split: none without a table; otherwise every line is in exactly the part the line-by-line
   reference names, in order, the sections are the groups of those parts, and there is at least one.
   */
  method RichAnswer(x: Syntax, lines: seq<string>) returns (r: Answer)
    requires Distinguishes(x)
    ensures r.NoTable? <==> !HasTable(x, lines)
    ensures r.Rich? ==> r.sections != [] && exists blocks :: Splits(x, lines, r.lead, r.sections, blocks)
  {
    var found := FindTable(x, lines);
    if !found {
      return NoTable;
    }
    var b := new Builder(x);
    var lead, para := Walk(x, b, lines);
    var sections := Finish(x, b, para, lines, lead);
    r := Rich(lead, sections);
  }
}
