/**
 The body of an email: components become paired HTML and plain-text blocks, runs of buttons share one
 action row, and the HTML is held under a byte ceiling by dropping whole trailing blocks.
 */
module EmailBody {
  import opened TextCap

  const HTML_MAX_BYTES := 512_000

  /** Length of the HTML note that blocks were dropped. */
  const SENTINEL_BYTES := 88
  const BUDGET := HTML_MAX_BYTES - SENTINEL_BYTES

  datatype Link = Link(caption: Str, href: Str)

  /**
   What a component does to the body. `Nothing`: a conversation kind with no text form. `Break`: an
   empty source list, which ends a run of buttons but adds no block.
   */
  datatype Component = Nothing | Break | Body(html: Str, text: Str) | Button(link: Link)

  /** One block: an action row of buttons, or a component's own. */
  datatype Block = Actions(links: seq<Link>) | Own(html: Str, text: Str)

  /** How an action row is written out in HTML and in plain text. */
  datatype Format = Format(html: seq<Link> -> Str, text: seq<Link> -> Str)

  function Html(f: Format, b: Block): Str {
    if b.Actions? then f.html(b.links) else b.html
  }

  function Plain(f: Format, b: Block): Str {
    if b.Actions? then f.text(b.links) else b.text
  }

  function HtmlOf(f: Format, blocks: seq<Block>): (r: seq<Str>)
    ensures |r| == |blocks|
  {
    seq(|blocks|, i requires 0 <= i < |blocks| => Html(f, blocks[i]))
  }

  function PlainOf(f: Format, blocks: seq<Block>): (r: seq<Str>)
    ensures |r| == |blocks|
  {
    seq(|blocks|, i requires 0 <= i < |blocks| => Plain(f, blocks[i]))
  }

  // ----- What has to come out -----

  /** What a component puts into the body. */
  datatype Item = Clickable(link: Link) | Paired(html: Str, text: Str)

  function ItemOf(c: Component): seq<Item> {
    match c
    case Button(link) => [Clickable(link)]
    case Body(html, text) => [Paired(html, text)]
    case _ => []
  }

  /** Everything the first `n` components put into the body, in order. */
  function Items(cs: seq<Component>, n: nat): seq<Item>
    requires n <= |cs|
  {
    if n == 0 then [] else Items(cs, n - 1) + ItemOf(cs[n - 1])
  }

  function Clickables(links: seq<Link>): seq<Item> {
    seq(|links|, i requires 0 <= i < |links| => Clickable(links[i]))
  }

  lemma ClickablesAppend(before: seq<Item>, links: seq<Link>, l: Link)
    ensures before + Clickables(links + [l]) == before + Clickables(links) + [Clickable(l)]
  {
    assert Clickables(links + [l]) == Clickables(links) + [Clickable(l)];
  }

  function ItemsIn(b: Block): seq<Item> {
    if b.Actions? then Clickables(b.links) else [Paired(b.html, b.text)]
  }

  /** Everything in the blocks, in order. */
  function ItemsOf(blocks: seq<Block>): seq<Item> {
    if blocks == [] then [] else ItemsOf(blocks[..|blocks| - 1]) + ItemsIn(blocks[|blocks| - 1])
  }

  function ActionRows(blocks: seq<Block>): nat {
    if blocks == [] then 0
    else ActionRows(blocks[..|blocks| - 1]) + if blocks[|blocks| - 1].Actions? then 1 else 0
  }

  /** A run of buttons is going on after the first `n` components. */
  predicate InRun(cs: seq<Component>, n: nat)
    requires n <= |cs|
  {
    n > 0 && (cs[n - 1].Button? || (cs[n - 1].Nothing? && InRun(cs, n - 1)))
  }

  /** The runs of buttons begun in the first `n` components. */
  function Runs(cs: seq<Component>, n: nat): nat
    requires n <= |cs|
  {
    if n == 0 then 0 else Runs(cs, n - 1) + if cs[n - 1].Button? && !InRun(cs, n - 1) then 1 else 0
  }

  lemma BlocksAppend(blocks: seq<Block>, b: Block)
    ensures ActionRows(blocks + [b]) == ActionRows(blocks) + if b.Actions? then 1 else 0
    ensures ItemsOf(blocks + [b]) == ItemsOf(blocks) + ItemsIn(b)
  {
    assert (blocks + [b])[..|blocks + [b]| - 1] == blocks;
  }

  /** A button joins the row the run began, or begins a row. */
  function JoinRow(blocks: seq<Block>, inRun: bool, l: Link): seq<Block> {
    if inRun && blocks != [] && blocks[|blocks| - 1].Actions?
    then blocks[..|blocks| - 1] + [Actions(blocks[|blocks| - 1].links + [l])]
    else blocks + [Actions([l])]
  }

  /** One more component. */
  function Place(blocks: seq<Block>, inRun: bool, c: Component): seq<Block> {
    match c
    case Button(l) => JoinRow(blocks, inRun, l)
    case Body(html, text) => blocks + [Own(html, text)]
    case _ => blocks
  }

  /** The blocks of the first `n` components: one action row for each maximal run of buttons. */
  function Arranged(cs: seq<Component>, n: nat): seq<Block>
    requires n <= |cs|
  {
    if n == 0 then [] else Place(Arranged(cs, n - 1), InRun(cs, n - 1), cs[n - 1])
  }

  /** Every action row holds a button. */
  ghost predicate Rows(blocks: seq<Block>) {
    forall i :: 0 <= i < |blocks| && blocks[i].Actions? ==> blocks[i].links != []
  }

  /**
   The body so far, as the two lists the renderer keeps. `pending` are buttons not yet in a row; the
   ghost `blocks` say which HTML block and which text block belong together.
   */
  class Builder {
    const format: Format
    var htmlBlocks: seq<Str>
    var textBlocks: seq<Str>
    var pending: seq<Link>
    ghost var blocks: seq<Block>

    ghost predicate Valid()
      reads this
    {
      htmlBlocks == HtmlOf(format, blocks) && textBlocks == PlainOf(format, blocks) && Rows(blocks)
    }

    constructor (format: Format)
      ensures Valid() && blocks == [] && pending == [] && this.format == format
    {
      this.format := format;
      htmlBlocks, textBlocks, pending, blocks := [], [], [], [];
    }

    method Flush()
      requires Valid()
      modifies this
      ensures Valid() && pending == []
      ensures blocks == old(blocks + PendingRow(pending))
    {
      if pending == [] {
        return;
      }
      htmlBlocks := htmlBlocks + [format.html(pending)];
      textBlocks := textBlocks + [format.text(pending)];
      blocks := blocks + [Actions(pending)];
      pending := [];
    }

    method Push(html: Str, text: Str)
      requires Valid()
      modifies this`htmlBlocks, this`textBlocks, this`blocks
      ensures Valid() && blocks == old(blocks) + [Own(html, text)]
    {
      htmlBlocks := htmlBlocks + [html];
      textBlocks := textBlocks + [text];
      blocks := blocks + [Own(html, text)];
    }

    /** The blocks and the row still pending are the arrangement of what has been taken in. */
    ghost predicate Holds(cs: seq<Component>, n: nat)
      reads this
      requires n <= |cs|
    {
      && Valid() && (pending != [] <==> InRun(cs, n))
      && blocks + PendingRow(pending) == Arranged(cs, n)
    }

    method Take(cs: seq<Component>, n: nat)
      requires n < |cs| && Holds(cs, n)
      modifies this
      ensures Holds(cs, n + 1)
    {
      match cs[n] {
        case Nothing =>
        case Break => Flush();
        case Body(html, text) =>
          Flush();
          Push(html, text);
        case Button(link) =>
          RowGrows(blocks, pending, link);
          pending := pending + [link];
      }
    }
  }

  /** The action row that pending buttons will make. */
  function PendingRow(pending: seq<Link>): seq<Block> {
    if pending == [] then [] else [Actions(pending)]
  }

  lemma RowGrows(blocks: seq<Block>, pending: seq<Link>, l: Link)
    ensures JoinRow(blocks + PendingRow(pending), pending != [], l) == blocks + PendingRow(pending + [l])
  {
    var all := blocks + PendingRow(pending);
    if pending == [] {
      assert all == blocks && pending + [l] == [l];
    } else {
      assert all[..|all| - 1] == blocks;
    }
  }

  // ----- What the arrangement holds -----

  /** A way to list what is in blocks that goes block by block. */
  predicate AppendsAt(items: seq<Block> -> seq<Item>, blocks: seq<Block>, b: Block) {
    items(blocks + [b]) == items(blocks) + ItemsIn(b)
  }

  ghost predicate Appends(items: seq<Block> -> seq<Item>) {
    items([]) == [] && forall blocks, b :: AppendsAt(items, blocks, b)
  }

  lemma ItemsAppend()
    ensures Appends(ItemsOf)
  {
    forall blocks, b ensures AppendsAt(ItemsOf, blocks, b) {
      BlocksAppend(blocks, b);
    }
  }

  lemma RowItems(items: seq<Block> -> seq<Item>, blocks: seq<Block>, inRun: bool, l: Link)
    requires Appends(items)
    ensures items(JoinRow(blocks, inRun, l)) == items(blocks) + [Clickable(l)]
  {
    if inRun && blocks != [] && blocks[|blocks| - 1].Actions? {
      var head, last := blocks[..|blocks| - 1], blocks[|blocks| - 1];
      assert blocks == head + [last];
      assert AppendsAt(items, head, last) && AppendsAt(items, head, Actions(last.links + [l]));
      ClickablesAppend(items(head), last.links, l);
    } else {
      assert AppendsAt(items, blocks, Actions([l]));
      ClickablesAppend(items(blocks), [], l);
      assert [] + [l] == [l] && items(blocks) + Clickables([]) == items(blocks);
    }
  }

  lemma PlaceItems(items: seq<Block> -> seq<Item>, blocks: seq<Block>, inRun: bool, c: Component)
    requires Appends(items)
    ensures items(Place(blocks, inRun, c)) == items(blocks) + ItemOf(c)
  {
    match c
    case Button(l) => RowItems(items, blocks, inRun, l);
    case Body(html, text) => assert AppendsAt(items, blocks, Own(html, text));
    case _ =>
  }

  lemma {:induction false} ArrangedItems(items: seq<Block> -> seq<Item>, cs: seq<Component>, n: nat)
    requires Appends(items) && n <= |cs|
    ensures items(Arranged(cs, n)) == Items(cs, n)
  {
    if n > 0 {
      ArrangedItems(items, cs, n - 1);
      PlaceItems(items, Arranged(cs, n - 1), InRun(cs, n - 1), cs[n - 1]);
    }
  }

  /** Buttons and blocks are all there, in order, each once. */
  lemma ArrangedHoldsAll(cs: seq<Component>)
    ensures ItemsOf(Arranged(cs, |cs|)) == Items(cs, |cs|)
  {
    ItemsAppend();
    ArrangedItems(ItemsOf, cs, |cs|);
  }

  predicate EndsInRow(blocks: seq<Block>) {
    blocks != [] && blocks[|blocks| - 1].Actions?
  }

  lemma PlaceRows(blocks: seq<Block>, inRun: bool, c: Component)
    requires Rows(blocks) && (inRun ==> EndsInRow(blocks))
    ensures Rows(Place(blocks, inRun, c))
    ensures ActionRows(Place(blocks, inRun, c)) == ActionRows(blocks) + if c.Button? && !inRun then 1 else 0
    ensures c.Button? || (c.Nothing? && inRun) ==> EndsInRow(Place(blocks, inRun, c))
  {
    match c
    case Button(l) =>
      if inRun {
        BlocksAppend(blocks[..|blocks| - 1], Actions(blocks[|blocks| - 1].links + [l]));
      } else {
        BlocksAppend(blocks, Actions([l]));
      }
    case Body(html, text) => BlocksAppend(blocks, Own(html, text));
    case _ =>
  }

  /** There are as many action rows as runs of buttons, none empty, and a run going on is the last. */
  lemma {:induction false} RowPerRun(cs: seq<Component>, n: nat)
    requires n <= |cs|
    ensures ActionRows(Arranged(cs, n)) == Runs(cs, n) && Rows(Arranged(cs, n))
    ensures InRun(cs, n) ==> EndsInRow(Arranged(cs, n))
  {
    if n > 0 {
      RowPerRun(cs, n - 1);
      PlaceRows(Arranged(cs, n - 1), InRun(cs, n - 1), cs[n - 1]);
    }
  }

  datatype Outcome = Blocks(html: seq<Str>, text: seq<Str>) | EmptyAfterRender

  /** Blocks written out as the two paired lists. */
  function Written(f: Format, blocks: seq<Block>): Outcome {
    if blocks == [] then EmptyAfterRender else Blocks(HtmlOf(f, blocks), PlainOf(f, blocks))
  }

  /**
   The blocks of a surface before any truncation: HTML and text correspond one to one, and they are
   the arrangement of the components.
   */
  method RenderBlocks(cs: seq<Component>, format: Format) returns (r: Outcome)
    ensures r == Written(format, Arranged(cs, |cs|))
  {
    var b := new Builder(format);
    for i := 0 to |cs|
      invariant fresh(b) && b.format == format && b.Holds(cs, i)
    {
      b.Take(cs, i);
    }
    b.Flush();
    assert b.blocks == Arranged(cs, |cs|);
    if b.htmlBlocks == [] {
      return EmptyAfterRender;
    }
    return Blocks(b.htmlBlocks, b.textBlocks);
  }

  /** A surface renders to nothing exactly if no component brings anything. */
  lemma EmptyIffNothing(cs: seq<Component>)
    ensures Arranged(cs, |cs|) == [] <==> Items(cs, |cs|) == []
  {
    ArrangedHoldsAll(cs);
    RowPerRun(cs, |cs|);
    var blocks := Arranged(cs, |cs|);
    if blocks != [] {
      assert ItemsIn(blocks[|blocks| - 1]) != [];
    }
  }

  // ----- Truncation -----

  function Total(blocks: seq<Str>): nat {
    if blocks == [] then 0 else Total(blocks[..|blocks| - 1]) + |blocks[|blocks| - 1]|
  }

  /** `s`, or the longest part of it that fits `max` bytes and ends between characters. */
  ghost predicate IsCut(s: Str, max: nat, out: Str) {
    if |s| <= max then out == s
    else |out| <= |s| && out == s[..|out|] && LastBoundary(s, max, |out|)
  }

  method TruncateToBoundary(s: Str, max: nat) returns (out: Str)
    ensures IsCut(s, max, out)
  {
    if |s| <= max {
      return s;
    }
    var end := FloorBoundary(s, max);
    out := s[..end];
  }

  lemma TotalNext(blocks: seq<Str>, k: nat)
    requires k < |blocks|
    ensures Total(blocks[..k + 1]) == Total(blocks[..k]) + |blocks[k]|
  {
    assert blocks[..k + 1][..k] == blocks[..k];
  }

  /** How many leading blocks fit the budget: `k` do, one more does not. */
  ghost predicate Fitting(blocks: seq<Str>, budget: nat, k: nat) {
    k <= |blocks| && Total(blocks[..k]) <= budget && (k < |blocks| ==> Total(blocks[..k + 1]) > budget)
  }

  method CountFitting(blocks: seq<Str>, budget: nat) returns (kept: nat)
    ensures Fitting(blocks, budget, kept)
  {
    kept := 0;
    var running := 0;
    while kept < |blocks|
      invariant kept <= |blocks| && running == Total(blocks[..kept]) <= budget
    {
      TotalNext(blocks, kept);
      if running + |blocks[kept]| > budget {
        break;
      }
      running := running + |blocks[kept]|;
      kept := kept + 1;
    }
  }

  /**
   What truncation leaves of paired blocks: the leading ones that fit, or the first one cut; and the
   same number of text blocks.
   */
  ghost predicate Trimmed(html: seq<Str>, text: seq<Str>, budget: nat, k: nat, keptHtml: seq<Str>, keptText: seq<Str>)
    requires |html| == |text| && html != []
  {
    && Fitting(html, budget, k)
    && (k >= 2 ==> keptHtml == html[..k] && keptText == text[..k])
    && (k < 2 ==> |keptHtml| == 1 == |keptText|
                  && IsCut(html[0], budget, keptHtml[0]) && IsCut(text[0], budget, keptText[0]))
  }

  method TruncateBlocks(html: seq<Str>, text: seq<Str>)
    returns (keptHtml: seq<Str>, keptText: seq<Str>, truncated: bool)
    requires |html| == |text| && html != []
    ensures IsTruncated(html, text, keptHtml, keptText, truncated)
  {
    var total := SumLengths(html);
    if total <= HTML_MAX_BYTES {
      return html, text, false;
    }
    truncated := true;
    var fitting := CountFitting(html, BUDGET);
    var kept := if fitting > 1 then fitting else 1;
    keptHtml, keptText := html[..kept], text[..kept];
    if kept == 1 {
      var first := TruncateToBoundary(keptHtml[0], BUDGET);
      keptHtml := [first];
      first := TruncateToBoundary(keptText[0], BUDGET);
      keptText := [first];
    }
    assert Trimmed(html, text, BUDGET, fitting, keptHtml, keptText);
  }

  method SumLengths(blocks: seq<Str>) returns (total: nat)
    ensures total == Total(blocks)
  {
    total := 0;
    for i := 0 to |blocks|
      invariant total == Total(blocks[..i])
    {
      TotalNext(blocks, i);
      total := total + |blocks[i]|;
    }
    assert blocks[..|blocks|] == blocks;
  }

  /** After truncation blocks are still paired, and the HTML blocks leave room for the sentinel. */
  lemma TrimmedFits(html: seq<Str>, text: seq<Str>, budget: nat, k: nat, keptHtml: seq<Str>, keptText: seq<Str>)
    requires |html| == |text| && html != [] && Trimmed(html, text, budget, k, keptHtml, keptText)
    ensures |keptHtml| == |keptText| >= 1 && Total(keptHtml) <= budget
    ensures forall i :: 0 < i < |keptHtml| ==> keptHtml[i] == html[i] && keptText[i] == text[i]
    ensures |keptHtml[0]| <= |html[0]| && keptHtml[0] == html[0][..|keptHtml[0]|]
  {
    if k < 2 {
      assert keptHtml[..0] == [];
      assert Total(keptHtml) == |keptHtml[0]|;
    }
  }

  // ----- The whole body -----

  const NEWLINE: Str := [10]
  const NOTE_HEAD := "<p style=\"color:#999\"><em>[truncated "
  const NOTE_MIDDLE := " message exceeded the email "
  const NOTE_END := "size limit]</em></p>"
  const NOTE_TAIL := NOTE_MIDDLE + NOTE_END
  const NOTE := NOTE_HEAD + "\U{2014}" + NOTE_TAIL

  lemma NoteHeadBytes()
    ensures |Utf8(NOTE_HEAD)| == 37
  {
    var s := NOTE_HEAD;
    assert |s| == 37;
    assert forall i :: 0 <= i < |s| ==> s[i] < '\U{80}';
    Utf8Ascii(s);
  }

  lemma NoteMiddleBytes()
    ensures |Utf8(NOTE_MIDDLE)| == 28
  {
    var s := NOTE_MIDDLE;
    assert |s| == 28;
    assert forall i :: 0 <= i < |s| ==> s[i] < '\U{80}';
    Utf8Ascii(s);
  }

  lemma NoteEndBytes()
    ensures |Utf8(NOTE_END)| == 20
  {
    var s := NOTE_END;
    assert |s| == 20;
    assert forall i :: 0 <= i < |s| ==> s[i] < '\U{80}';
    Utf8Ascii(s);
  }

  lemma NoteTailBytes()
    ensures |Utf8(NOTE_TAIL)| == 48
  {
    NoteMiddleBytes();
    NoteEndBytes();
    Utf8Concat(NOTE_MIDDLE, NOTE_END);
  }

  /** The note about dropped blocks has the length the budget reserves for it. */
  lemma NoteBytes()
    ensures |Utf8(NOTE)| == SENTINEL_BYTES
  {
    NoteHeadBytes();
    NoteTailBytes();
    var dash := "\U{2014}";
    DashBytes(dash);
    Utf8Concat(NOTE_HEAD, dash);
    Utf8Concat(NOTE_HEAD + dash, NOTE_TAIL);
  }

  function JoinLines(blocks: seq<Str>): Str {
    if |blocks| == 0 then []
    else if |blocks| == 1 then blocks[0]
    else JoinLines(blocks[..|blocks| - 1]) + NEWLINE + blocks[|blocks| - 1]
  }

  lemma {:induction false} JoinLinesLength(blocks: seq<Str>)
    requires blocks != []
    ensures |JoinLines(blocks)| == Total(blocks) + |blocks| - 1
  {
    if |blocks| > 1 {
      JoinLinesLength(blocks[..|blocks| - 1]);
    } else {
      assert blocks[..0] == [];
      assert Total(blocks) == Total(blocks[..0]) + |blocks[0]|;
    }
  }

  /** What stands between the body tags: the blocks on lines of their own, and the note if some are missing. */
  function BodyText(blocks: seq<Str>, truncated: bool): Str {
    JoinLines(blocks) + if truncated then NEWLINE + Utf8(NOTE) else []
  }

  /** The outcome of truncating paired blocks. */
  ghost predicate IsTruncated(html: seq<Str>, text: seq<Str>, keptHtml: seq<Str>, keptText: seq<Str>, truncated: bool)
    requires |html| == |text| && html != []
  {
    && (truncated <==> Total(html) > HTML_MAX_BYTES)
    && (!truncated ==> keptHtml == html && keptText == text)
    && (truncated ==> exists k :: Trimmed(html, text, BUDGET, k, keptHtml, keptText))
  }

  /** The blocks to be rendered leave room for the newlines as well. */
  ghost predicate LeavesRoom(html: seq<Str>)
    requires html != []
  {
    if Total(html) <= HTML_MAX_BYTES then Total(html) + |html| - 1 <= HTML_MAX_BYTES
    else if |html[0]| > BUDGET then !IsBoundary(html[0], BUDGET)
    else forall k :: k >= 1 && Fitting(html, BUDGET, k) ==> Total(html[..k]) + k <= BUDGET
  }

  lemma TotalOne(b: Str)
    ensures Total([b]) == |b|
  {
    assert [b][..0] == [];
  }

  lemma {:induction false} TotalPrefix(blocks: seq<Str>, j: nat, k: nat)
    requires j <= k <= |blocks|
    ensures Total(blocks[..j]) <= Total(blocks[..k])
    decreases k - j
  {
    if j < k {
      TotalPrefix(blocks, j, k - 1);
      TotalNext(blocks, k - 1);
    }
  }

  /** Only one number of leading blocks fits and cannot be raised. */
  lemma FittingIsUnique(blocks: seq<Str>, budget: nat, j: nat, k: nat)
    requires Fitting(blocks, budget, j) && Fitting(blocks, budget, k)
    ensures j == k
  {
    if j < k { TotalPrefix(blocks, j + 1, k); }
    if k < j { TotalPrefix(blocks, k + 1, j); }
  }

  lemma FirstFits(html: seq<Str>, k: nat)
    requires html != [] && Fitting(html, BUDGET, k)
    ensures k >= 1 <==> |html[0]| <= BUDGET
  {
    TotalOne(html[0]);
    assert html[..1] == [html[0]] && html[..0] == [];
    if k >= 1 { TotalPrefix(html, 1, k); }
  }

  /** A cut block stops short of the budget exactly if the budget falls inside a character. */
  lemma CutLength(s: Str, out: Str)
    requires |s| > BUDGET && IsCut(s, BUDGET, out)
    ensures |out| + 1 <= BUDGET <==> !IsBoundary(s, BUDGET)
  {
  }

  lemma TrimmedLeavesRoom(html: seq<Str>, text: seq<Str>, k: nat, keptHtml: seq<Str>, keptText: seq<Str>)
    requires |html| == |text| && html != [] && Total(html) > HTML_MAX_BYTES
    requires Trimmed(html, text, BUDGET, k, keptHtml, keptText)
    ensures Total(keptHtml) + |keptHtml| <= BUDGET <==> LeavesRoom(html)
  {
    FirstFits(html, k);
    if k == 0 {
      TotalOne(keptHtml[0]);
      assert keptHtml == [keptHtml[0]];
      CutLength(html[0], keptHtml[0]);
    } else {
      assert keptHtml == html[..k] by {
        if k == 1 { assert keptHtml == [html[0]] == html[..1]; }
      }
      assert Fitting(html, BUDGET, k);
      forall j | j >= 1 && Fitting(html, BUDGET, j) ensures j == k {
        FittingIsUnique(html, BUDGET, j, k);
      }
    }
  }

  /**
   The ceiling counts blocks but not the newlines between them and before the note. The body stays
   within it exactly if the blocks leave room for those too.
   */
  lemma BodyWithinCeiling(html: seq<Str>, text: seq<Str>, keptHtml: seq<Str>, keptText: seq<Str>, truncated: bool)
    requires |html| == |text| && html != []
    requires IsTruncated(html, text, keptHtml, keptText, truncated)
    ensures |BodyText(keptHtml, truncated)| <= HTML_MAX_BYTES <==> LeavesRoom(html)
  {
    if truncated {
      var k :| Trimmed(html, text, BUDGET, k, keptHtml, keptText);
      TrimmedFits(html, text, BUDGET, k, keptHtml, keptText);
      TrimmedLeavesRoom(html, text, k, keptHtml, keptText);
    }
    JoinLinesLength(keptHtml);
    NoteBytes();
  }

  /** Two blocks that just fit make a body one byte over the ceiling. */
  lemma TwoBlocksOver(a: Str, b: Str, text: seq<Str>, keptHtml: seq<Str>, keptText: seq<Str>, truncated: bool)
    requires |a| + |b| == HTML_MAX_BYTES && |text| == 2
    requires IsTruncated([a, b], text, keptHtml, keptText, truncated)
    ensures !truncated && |BodyText(keptHtml, truncated)| == HTML_MAX_BYTES + 1
  {
    assert [a, b][..1] == [a] && [a, b][..2] == [a, b];
    TotalOne(a);
    TotalNext([a, b], 1);
    JoinLinesLength([a, b]);
  }

  /** One oversized block of one-byte characters is cut to a body one byte over the ceiling. */
  lemma OneBlockOver(a: Str, t: Str, keptHtml: seq<Str>, keptText: seq<Str>, truncated: bool)
    requires |a| > HTML_MAX_BYTES && (forall i :: 0 <= i < |a| ==> a[i] < 128)
    requires IsTruncated([a], [t], keptHtml, keptText, truncated)
    ensures truncated && |BodyText(keptHtml, truncated)| == HTML_MAX_BYTES + 1
  {
    TotalOne(a);
    var k :| Trimmed([a], [t], BUDGET, k, keptHtml, keptText);
    FirstFits([a], k);
    assert IsBoundary(a, BUDGET);
    CutLength(a, keptHtml[0]);
    assert keptHtml == [keptHtml[0]];
    TotalOne(keptHtml[0]);
    JoinLinesLength(keptHtml);
    NoteBytes();
  }
}
