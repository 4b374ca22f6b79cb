/**
 A surface rendered as one Discord message: text under the content cap, and controls in at most five
 rows. Whether a control's correlation token fits is part of the input, since the token codec is a
 separate crate.
 */
module DiscordRender {
  import opened Text
  import opened TextCap
  import opened Escape

  const BUTTONS_PER_ROW := 5
  const MAX_ROWS := 5
  const MAX_BUTTONS := 25
  const SELECT_MAX_OPTIONS := 25
  const BUTTON_ONLY_PLACEHOLDER := "Choose an option:"

  datatype Button = Button(caption: string, customId: string)
  datatype Menu = Menu(prompt: string, customId: string, options: seq<(string, string)>)
  datatype Dash = Dash(title: string)

  /** A component; `token` is its correlation token, or none where that would be too long. */
  datatype Component =
    | Conversation(degraded: Option<string>)
    | TextBlock(text: string)
    | Report
    | Sources(labels: seq<string>)
    | Narration(text: string)
    | Diff(lines: string)
    | ButtonControl(caption: string, token: Option<string>)
    | Selection(prompt: string, options: seq<(string, string)>, token: Option<string>)
    | Form(title: string, labels: seq<string>)
    | Dashboard(dash: Dash)

  datatype Row = SelectRow(menu: Menu) | ButtonRow(buttons: seq<Button>)

  // ----- What the components come to -----

  function JoinWith(parts: seq<string>, sep: string): string {
    if |parts| == 0 then "" else if |parts| == 1 then parts[0]
    else JoinWith(parts[..|parts| - 1], sep) + sep + parts[|parts| - 1]
  }

  /** A menu can ship: Discord takes 1 to 25 options, and the token has to fit. */
  predicate Selectable(options: seq<(string, string)>, token: Option<string>) {
    1 <= |options| <= SELECT_MAX_OPTIONS && token.Some?
  }

  /** The text a component contributes. */
  function ChunkOf(c: Component): Option<string> {
    match c
    case Conversation(degraded) => if degraded.Some? then Some(Escaped(degraded.value)) else None
    case TextBlock(text) => Some(Escaped(text))
    case Report => None
    case Sources(labels) => if labels == [] then None else Some("Sources: " + JoinWith(labels, " \U{b7} "))
    case Narration(text) => Some("*" + Escaped(text) + "*")
    case Diff(lines) => Some("```diff\n" + lines + "\n```")
    case ButtonControl(_, _) => None
    case Selection(prompt, options, token) => if Selectable(options, token) then Some(Escaped(prompt)) else None
    case Form(title, labels) =>
      Some("**" + Escaped(title) + "**\n"
           + JoinWith(seq(|labels|, i requires 0 <= i < |labels| => Escaped(labels[i])), ", "))
    case Dashboard(_) => None
  }

  function Chunks(cs: seq<Component>, n: nat): seq<string>
    requires n <= |cs|
  {
    if n == 0 then []
    else
      var chunk := ChunkOf(cs[n - 1]);
      Chunks(cs, n - 1) + if chunk.Some? then [chunk.value] else []
  }

  /** The controls gathered so far, and how many of each kind were let go. */
  datatype Controls = Controls(buttons: seq<Button>, menus: seq<Menu>, dashboard: Option<Dash>,
                               lostButtons: nat, lostMenus: nat, forms: nat, lostDashboards: nat)

  function Queue(g: Controls, c: Component): Controls {
    match c
    case ButtonControl(caption, token) =>
      if |g.buttons| >= MAX_BUTTONS || token.None? then g.(lostButtons := g.lostButtons + 1)
      else g.(buttons := g.buttons + [Button(caption, token.value)])
    case Selection(prompt, options, token) =>
      if !Selectable(options, token) then g.(lostMenus := g.lostMenus + 1)
      else g.(menus := g.menus + [Menu(prompt, token.value, options)])
    case Form(_, _) => g.(forms := g.forms + 1)
    case Dashboard(dash) =>
      if g.dashboard.None? then g.(dashboard := Some(dash)) else g.(lostDashboards := g.lostDashboards + 1)
    case _ => g
  }

  function Queued(cs: seq<Component>, n: nat): Controls
    requires n <= |cs|
  {
    if n == 0 then Controls([], [], None, 0, 0, 0, 0) else Queue(Queued(cs, n - 1), cs[n - 1])
  }

  function Count(cs: seq<Component>, n: nat, p: Component -> bool): nat
    requires n <= |cs|
  {
    if n == 0 then 0 else Count(cs, n - 1, p) + if p(cs[n - 1]) then 1 else 0
  }

  const IS_BUTTON := (c: Component) => c.ButtonControl?
  const IS_SELECTION := (c: Component) => c.Selection?
  const IS_FORM := (c: Component) => c.Form?
  const IS_DASHBOARD := (c: Component) => c.Dashboard?

  predicate ProperMenus(menus: seq<Menu>) {
    forall i :: 0 <= i < |menus| ==> 1 <= |menus[i].options| <= SELECT_MAX_OPTIONS
  }

  function One(b: bool): nat {
    if b then 1 else 0
  }

  /** One component more is one control more of its kind, queued or lost. */
  lemma QueueOne(g: Controls, c: Component)
    requires |g.buttons| <= MAX_BUTTONS && ProperMenus(g.menus)
    ensures var h := Queue(g, c);
            && |h.buttons| <= MAX_BUTTONS && ProperMenus(h.menus)
            && |h.buttons| + h.lostButtons == |g.buttons| + g.lostButtons + One(c.ButtonControl?)
            && |h.menus| + h.lostMenus == |g.menus| + g.lostMenus + One(c.Selection?)
            && One(h.dashboard.Some?) + h.lostDashboards == One(g.dashboard.Some?) + g.lostDashboards + One(c.Dashboard?)
            && h.forms == g.forms + One(c.Form?)
  {
  }

  lemma CountNext(cs: seq<Component>, n: nat, p: Component -> bool)
    requires 0 < n <= |cs|
    ensures Count(cs, n, p) == Count(cs, n - 1, p) + One(p(cs[n - 1]))
  {
  }

  lemma CountsNext(cs: seq<Component>, n: nat)
    requires 0 < n <= |cs|
    ensures Count(cs, n, IS_BUTTON) == Count(cs, n - 1, IS_BUTTON) + One(cs[n - 1].ButtonControl?)
    ensures Count(cs, n, IS_SELECTION) == Count(cs, n - 1, IS_SELECTION) + One(cs[n - 1].Selection?)
    ensures Count(cs, n, IS_DASHBOARD) == Count(cs, n - 1, IS_DASHBOARD) + One(cs[n - 1].Dashboard?)
    ensures Count(cs, n, IS_FORM) == Count(cs, n - 1, IS_FORM) + One(cs[n - 1].Form?)
  {
    CountNext(cs, n, IS_BUTTON);
    CountNext(cs, n, IS_SELECTION);
    CountNext(cs, n, IS_DASHBOARD);
    CountNext(cs, n, IS_FORM);
  }

  /** Every control is queued or counted as lost. */
  lemma {:induction false} QueueCounts(cs: seq<Component>, n: nat)
    requires n <= |cs|
    ensures var g := Queued(cs, n);
            && |g.buttons| <= MAX_BUTTONS && ProperMenus(g.menus)
            && |g.buttons| + g.lostButtons == Count(cs, n, IS_BUTTON)
            && |g.menus| + g.lostMenus == Count(cs, n, IS_SELECTION)
            && One(g.dashboard.Some?) + g.lostDashboards == Count(cs, n, IS_DASHBOARD)
            && g.forms == Count(cs, n, IS_FORM)
  {
    if n > 0 {
      QueueCounts(cs, n - 1);
      QueueOne(Queued(cs, n - 1), cs[n - 1]);
      CountsNext(cs, n);
    }
  }

  // ----- Rows -----

  /** Buttons in rows of five, the last one shorter. */
  function Chunked(buttons: seq<Button>): (rows: seq<seq<Button>>)
    ensures forall i :: 0 <= i < |rows| ==> 1 <= |rows[i]| <= BUTTONS_PER_ROW
  {
    if buttons == [] then []
    else if |buttons| <= BUTTONS_PER_ROW then [buttons]
    else [buttons[..BUTTONS_PER_ROW]] + Chunked(buttons[BUTTONS_PER_ROW..])
  }

  function ButtonsIn(rows: seq<Row>): seq<Button> {
    if rows == [] then []
    else ButtonsIn(rows[..|rows| - 1]) + if rows[|rows| - 1].ButtonRow? then rows[|rows| - 1].buttons else []
  }

  function MenusIn(rows: seq<Row>): seq<Menu> {
    if rows == [] then []
    else MenusIn(rows[..|rows| - 1]) + if rows[|rows| - 1].SelectRow? then [rows[|rows| - 1].menu] else []
  }

  /** At most five rows, menus first, each with one menu or one to five buttons. */
  ghost predicate Grid(rows: seq<Row>, menus: nat) {
    && menus <= |rows| <= MAX_ROWS
    && (forall i :: 0 <= i < |rows| ==> (rows[i].SelectRow? <==> i < menus))
    && (forall i :: menus <= i < |rows| ==> 1 <= |rows[i].buttons| <= BUTTONS_PER_ROW)
    && (forall i :: 0 <= i < menus ==> 1 <= |rows[i].menu.options| <= SELECT_MAX_OPTIONS)
  }

  lemma RowsAppend(rows: seq<Row>, r: Row)
    ensures ButtonsIn(rows + [r]) == ButtonsIn(rows) + if r.ButtonRow? then r.buttons else []
    ensures MenusIn(rows + [r]) == MenusIn(rows) + if r.SelectRow? then [r.menu] else []
  {
    assert (rows + [r])[..|rows + [r]| - 1] == rows;
  }

  /** The first `i` menus have been placed or counted as lost. */
  ghost predicate MenusPlaced(menus: seq<Menu>, i: nat, rows: seq<Row>, lost: nat)
    requires i <= |menus|
  {
    && Grid(rows, |rows|) && |rows| == Least(i, MAX_ROWS) && lost == i - |rows|
    && MenusIn(rows) == menus[..|rows|] && ButtonsIn(rows) == []
  }

  lemma PlaceMenu(menus: seq<Menu>, i: nat, rows: seq<Row>, lost: nat)
    requires i < |menus| && ProperMenus(menus) && MenusPlaced(menus, i, rows, lost) && |rows| < MAX_ROWS
    ensures MenusPlaced(menus, i + 1, rows + [SelectRow(menus[i])], lost)
  {
    RowsAppend(rows, SelectRow(menus[i]));
    assert menus[..i + 1] == menus[..i] + [menus[i]];
  }

  /** Menus into rows while there is room. */
  method PlaceMenus(menus: seq<Menu>) returns (rows: seq<Row>, lost: nat)
    requires ProperMenus(menus)
    ensures MenusPlaced(menus, |menus|, rows, lost)
  {
    rows, lost := [], 0;
    for i := 0 to |menus|
      invariant MenusPlaced(menus, i, rows, lost)
    {
      if |rows| == MAX_ROWS {
        lost := lost + 1;
      } else {
        PlaceMenu(menus, i, rows, lost);
        rows := rows + [SelectRow(menus[i])];
      }
    }
  }

  /** The buttons of the first `k` rows. */
  function Flat(rows: seq<seq<Button>>, k: nat): seq<Button>
    requires k <= |rows|
  {
    if k == 0 then [] else Flat(rows, k - 1) + rows[k - 1]
  }

  lemma {:induction false} FlatOfCons(row: seq<Button>, rows: seq<seq<Button>>, k: nat)
    requires k <= |rows|
    ensures Flat([row] + rows, k + 1) == row + Flat(rows, k)
  {
    if k > 0 {
      FlatOfCons(row, rows, k - 1);
    } else {
      assert Flat([row] + rows, 0) == [];
    }
  }

  lemma FirstRows(buttons: seq<Button>, k: nat)
    requires k > 0 && |buttons| > BUTTONS_PER_ROW
    ensures var first, rest := buttons[..BUTTONS_PER_ROW], buttons[BUTTONS_PER_ROW..];
            first + rest[..Least(BUTTONS_PER_ROW * (k - 1), |rest|)] == buttons[..Least(BUTTONS_PER_ROW * k, |buttons|)]
  {
  }

  /** The first `k` rows hold the first `5k` buttons. */
  lemma {:induction false} ChunkedIsPrefix(buttons: seq<Button>, k: nat)
    requires k <= |Chunked(buttons)|
    ensures Flat(Chunked(buttons), k) == buttons[..Least(BUTTONS_PER_ROW * k, |buttons|)]
    decreases |buttons|
  {
    if k > 0 && buttons != [] {
      if |buttons| <= BUTTONS_PER_ROW {
        assert k == 1;
        assert Flat([buttons], 1) == Flat([buttons], 0) + buttons;
      } else {
        ChunkedIsPrefix(buttons[BUTTONS_PER_ROW..], k - 1);
        FlatOfCons(buttons[..BUTTONS_PER_ROW], Chunked(buttons[BUTTONS_PER_ROW..]), k - 1);
        FirstRows(buttons, k);
      }
    }
  }

  lemma {:induction false} ChunkedCount(buttons: seq<Button>)
    ensures BUTTONS_PER_ROW * |Chunked(buttons)| >= |buttons|
    ensures |Chunked(buttons)| * BUTTONS_PER_ROW < |buttons| + BUTTONS_PER_ROW
    decreases |buttons|
  {
    if |buttons| > BUTTONS_PER_ROW {
      ChunkedCount(buttons[BUTTONS_PER_ROW..]);
    }
  }

  /** The first `i` button rows have been placed after the menu rows, or counted as lost. */
  ghost predicate Placed(menuRows: seq<Row>, chunks: seq<seq<Button>>, i: nat, rows: seq<Row>, lost: nat)
    requires i <= |chunks|
  {
    && Grid(rows, |menuRows|) && MenusIn(rows) == MenusIn(menuRows)
    && |rows| == |menuRows| + Least(i, MAX_ROWS - |menuRows|)
    && ButtonsIn(rows) == Flat(chunks, |rows| - |menuRows|)
    && |Flat(chunks, i)| == |ButtonsIn(rows)| + lost
  }

  lemma GridAppend(rows: seq<Row>, menus: nat, row: seq<Button>)
    requires Grid(rows, menus) && |rows| < MAX_ROWS && 1 <= |row| <= BUTTONS_PER_ROW
    ensures Grid(rows + [ButtonRow(row)], menus)
  {
  }

  lemma PlaceRow(menuRows: seq<Row>, chunks: seq<seq<Button>>, i: nat, rows: seq<Row>, lost: nat)
    requires i < |chunks| && Placed(menuRows, chunks, i, rows, lost) && 1 <= |chunks[i]| <= BUTTONS_PER_ROW
    requires |rows| < MAX_ROWS
    ensures Placed(menuRows, chunks, i + 1, rows + [ButtonRow(chunks[i])], lost)
  {
    RowsAppend(rows, ButtonRow(chunks[i]));
    GridAppend(rows, |menuRows|, chunks[i]);
    assert i == |rows| - |menuRows|;
    assert Flat(chunks, i + 1) == Flat(chunks, i) + chunks[i];
  }

  lemma AllPlaced(menuRows: seq<Row>, buttons: seq<Button>, rows: seq<Row>, lost: nat)
    requires |menuRows| <= MAX_ROWS && Placed(menuRows, Chunked(buttons), |Chunked(buttons)|, rows, lost)
    ensures ButtonsIn(rows) == buttons[..Least(|buttons|, BUTTONS_PER_ROW * (MAX_ROWS - |menuRows|))]
    ensures |ButtonsIn(rows)| + lost == |buttons|
  {
    ChunkedCount(buttons);
    ChunkedIsPrefix(buttons, |Chunked(buttons)|);
    ChunkedIsPrefix(buttons, |rows| - |menuRows|);
  }

  /** Button rows after the menu rows, while there is room. */
  method PlaceButtons(menuRows: seq<Row>, buttons: seq<Button>) returns (rows: seq<Row>, lost: nat)
    requires Grid(menuRows, |menuRows|) && ButtonsIn(menuRows) == []
    ensures Grid(rows, |menuRows|) && MenusIn(rows) == MenusIn(menuRows)
    ensures ButtonsIn(rows) == buttons[..Least(|buttons|, BUTTONS_PER_ROW * (MAX_ROWS - |menuRows|))]
    ensures |ButtonsIn(rows)| + lost == |buttons|
  {
    var chunks := Chunked(buttons);
    rows, lost := menuRows, 0;
    for i := 0 to |chunks|
      invariant Placed(menuRows, chunks, i, rows, lost)
    {
      if |rows| == MAX_ROWS {
        lost := lost + |chunks[i]|;
      } else {
        PlaceRow(menuRows, chunks, i, rows, lost);
        rows := rows + [ButtonRow(chunks[i])];
      }
    }
    AllPlaced(menuRows, buttons, rows, lost);
  }

  // ----- The message -----

  datatype Layout = Layout(rows: seq<Row>, dashboard: Option<Dash>, deferredButtons: nat,
                           deferredSelections: nat, deferredForms: nat, deferredDashboards: nat)
  datatype Outcome = Message(content: Str, truncated: bool, layout: Layout) | EmptyAfterRender

  /** The chunks that ship: a message of bare buttons gets a line of its own. */
  function Shown(chunks: seq<string>, g: Controls): seq<string> {
    if chunks == [] && g.buttons != [] && g.dashboard.None? then [BUTTON_ONLY_PLACEHOLDER] else chunks
  }

  function Encoded(chunks: seq<string>): (b: seq<Str>)
    ensures |b| == |chunks|
  {
    seq(|chunks|, i requires 0 <= i < |chunks| => Utf8(chunks[i]))
  }

  /**
   Nothing is lost without being counted: of each kind of control, shipped plus deferred is all there
   were. The rows form a grid, and what ships is a prefix of what was queued, in order.
   */
  ghost predicate Conserves(cs: seq<Component>, l: Layout) {
    var g := Queued(cs, |cs|);
    var menus := Least(|g.menus|, MAX_ROWS);
    && Grid(l.rows, menus)
    && MenusIn(l.rows) == g.menus[..menus]
    && ButtonsIn(l.rows) == g.buttons[..Least(|g.buttons|, BUTTONS_PER_ROW * (MAX_ROWS - menus))]
    && |ButtonsIn(l.rows)| + l.deferredButtons == Count(cs, |cs|, IS_BUTTON)
    && |MenusIn(l.rows)| + l.deferredSelections == Count(cs, |cs|, IS_SELECTION)
    && One(l.dashboard.Some?) + l.deferredDashboards == Count(cs, |cs|, IS_DASHBOARD)
    && l.deferredForms == Count(cs, |cs|, IS_FORM)
    && l.dashboard == g.dashboard
  }

  /** The pass over the components: their text, and their controls. */
  method Collect(cs: seq<Component>) returns (chunks: seq<string>, g: Controls)
    ensures chunks == Chunks(cs, |cs|) && g == Queued(cs, |cs|)
  {
    chunks, g := [], Controls([], [], None, 0, 0, 0, 0);
    for i := 0 to |cs|
      invariant chunks == Chunks(cs, i) && g == Queued(cs, i)
    {
      var chunk := ChunkOf(cs[i]);
      if chunk.Some? {
        chunks := chunks + [chunk.value];
      }
      g := Queue(g, cs[i]);
    }
  }

  /** The controls laid out. */
  method LayOut(cs: seq<Component>, g: Controls) returns (l: Layout)
    requires g == Queued(cs, |cs|)
    ensures Conserves(cs, l)
  {
    QueueCounts(cs, |cs|);
    var menuRows, lostMenus := PlaceMenus(g.menus);
    var rows, lostButtons := PlaceButtons(menuRows, g.buttons);
    l := Layout(rows, g.dashboard, g.lostButtons + lostButtons, g.lostMenus + lostMenus, g.forms, g.lostDashboards);
  }

  /** The text of the message. */
  method Content(chunks: seq<string>) returns (content: Str, truncated: bool)
    ensures Capped(Encoded(chunks), DISCORD_CONTENT_MAX_BYTES, Utf8(TRUNCATION_SENTINEL), content, truncated)
  {
    SentinelBytes();
    content, truncated := CapText(Encoded(chunks), DISCORD_CONTENT_MAX_BYTES, Utf8(TRUNCATION_SENTINEL));
  }

  predicate NothingToShow(chunks: seq<string>, g: Controls) {
    chunks == [] && g.buttons == [] && g.menus == [] && g.dashboard.None?
  }

  /** The text that ships, before the cap. */
  function ShownText(cs: seq<Component>): seq<Str> {
    Encoded(Shown(Chunks(cs, |cs|), Queued(cs, |cs|)))
  }

  /** What rendering comes to: an error exactly if there is nothing to show, else controls and capped text. */
  ghost predicate Renders(cs: seq<Component>, r: Outcome) {
    && (r.EmptyAfterRender? <==> NothingToShow(Chunks(cs, |cs|), Queued(cs, |cs|)))
    && (r.Message? ==>
          && Conserves(cs, r.layout)
          && Capped(ShownText(cs), DISCORD_CONTENT_MAX_BYTES, Utf8(TRUNCATION_SENTINEL), r.content, r.truncated))
  }

  /** A surface as a Discord message, or an error if there is nothing to show. */
  method Render(cs: seq<Component>) returns (r: Outcome)
    ensures Renders(cs, r)
  {
    var chunks, g := Collect(cs);
    if NothingToShow(chunks, g) {
      return EmptyAfterRender;
    }
    var content, truncated := Content(Shown(chunks, g));
    var layout := LayOut(cs, g);
    r := Message(content, truncated, layout);
  }

  // ----- Prompts and menus -----

  /** For each menu queued, in order, which chunk its prompt is. */
  function PromptChunks(cs: seq<Component>, n: nat): seq<nat>
    requires n <= |cs|
  {
    if n == 0 then []
    else PromptChunks(cs, n - 1) + if Asks(cs[n - 1]) then [|Chunks(cs, n - 1)|] else []
  }

  /** A selection that can ship. */
  predicate Asks(c: Component) {
    c.Selection? && Selectable(c.options, c.token)
  }

  lemma ChunksNext(cs: seq<Component>, n: nat)
    requires 0 < n <= |cs|
    ensures Chunks(cs, n - 1) <= Chunks(cs, n)
    ensures Asks(cs[n - 1]) ==> Chunks(cs, n) == Chunks(cs, n - 1) + [Escaped(cs[n - 1].prompt)]
  {
  }

  lemma MenusNext(cs: seq<Component>, n: nat)
    requires 0 < n <= |cs|
    ensures Queued(cs, n).menus == Queued(cs, n - 1).menus +
              if Asks(cs[n - 1]) then [Menu(cs[n - 1].prompt, cs[n - 1].token.value, cs[n - 1].options)] else []
  {
  }

  /** Each queued menu has a prompt chunk of its own, in order. */
  ghost predicate PromptsStand(cs: seq<Component>, n: nat)
    requires n <= |cs|
  {
    var at, menus, chunks := PromptChunks(cs, n), Queued(cs, n).menus, Chunks(cs, n);
    && |at| == |menus|
    && (forall i :: 0 <= i < |at| ==> at[i] < |chunks| && chunks[at[i]] == Escaped(menus[i].prompt))
    && (forall i, j :: 0 <= i < j < |at| ==> at[i] < at[j])
  }

  lemma {:induction false} PromptOfMenu(cs: seq<Component>, n: nat)
    requires n <= |cs|
    ensures PromptsStand(cs, n)
  {
    if n > 0 {
      PromptOfMenu(cs, n - 1);
      ChunksNext(cs, n);
      MenusNext(cs, n);
    }
  }

  /** The prompt of queued menu `i` ends within the cap, or within what the sentinel leaves of it. */
  predicate PromptFits(cs: seq<Component>, i: nat)
    requires i < |PromptChunks(cs, |cs|)| && PromptChunks(cs, |cs|)[i] < |ShownText(cs)|
  {
    || |Join(ShownText(cs))| <= DISCORD_CONTENT_MAX_BYTES
    || |Join(ShownText(cs)[..PromptChunks(cs, |cs|)[i] + 1])| <= REPLY_BUDGET
  }

  /** The chunk of menu `i`'s prompt among those that ship. */
  lemma PromptChunkShown(cs: seq<Component>, i: nat)
    requires i < |Queued(cs, |cs|).menus|
    ensures i < |PromptChunks(cs, |cs|)| && PromptChunks(cs, |cs|)[i] < |ShownText(cs)|
    ensures ShownText(cs)[PromptChunks(cs, |cs|)[i]] == Utf8(Escaped(Queued(cs, |cs|).menus[i].prompt))
  {
    PromptOfMenu(cs, |cs|);
    var chunks, g := Chunks(cs, |cs|), Queued(cs, |cs|);
    assert PromptChunks(cs, |cs|)[i] < |chunks|;
    assert Shown(chunks, g) == chunks;
  }

  lemma MenuShips(cs: seq<Component>, l: Layout, i: nat)
    requires Conserves(cs, l) && i < |Queued(cs, |cs|).menus|
    ensures if i < MAX_ROWS then i < |MenusIn(l.rows)| && MenusIn(l.rows)[i] == Queued(cs, |cs|).menus[i]
            else |MenusIn(l.rows)| == MAX_ROWS
  {
  }

  lemma PromptIsWhole(cs: seq<Component>, content: Str, truncated: bool, i: nat)
    requires Capped(ShownText(cs), DISCORD_CONTENT_MAX_BYTES, Utf8(TRUNCATION_SENTINEL), content, truncated)
    requires i < |PromptChunks(cs, |cs|)| && PromptChunks(cs, |cs|)[i] < |ShownText(cs)|
    ensures ShowsWhole(BodyOf(content, truncated, Utf8(TRUNCATION_SENTINEL)), ShownText(cs), PromptChunks(cs, |cs|)[i])
            <==> PromptFits(cs, i)
  {
    SentinelBytes();
    WholeChunks(ShownText(cs), DISCORD_CONTENT_MAX_BYTES, Utf8(TRUNCATION_SENTINEL), content, truncated,
                PromptChunks(cs, |cs|)[i]);
  }

  /**
   Of every menu queued, in order: it ships exactly if it is among the first five, and its prompt is
   whole in the message exactly if the text was not cut or the prompt ends before the cut.
   */
  lemma PromptsAndMenus(cs: seq<Component>, r: Outcome, i: nat)
    requires Renders(cs, r) && r.Message? && i < |Queued(cs, |cs|).menus|
    ensures i < |PromptChunks(cs, |cs|)| && PromptChunks(cs, |cs|)[i] < |ShownText(cs)|
    ensures if i < MAX_ROWS
            then i < |MenusIn(r.layout.rows)| && MenusIn(r.layout.rows)[i] == Queued(cs, |cs|).menus[i]
            else |MenusIn(r.layout.rows)| == MAX_ROWS
    ensures ShowsWhole(BodyOf(r.content, r.truncated, Utf8(TRUNCATION_SENTINEL)), ShownText(cs), PromptChunks(cs, |cs|)[i])
            <==> PromptFits(cs, i)
  {
    PromptChunkShown(cs, i);
    MenuShips(cs, r.layout, i);
    PromptIsWhole(cs, r.content, r.truncated, i);
  }

  /** A text and then a selection. */
  predicate TextThenAsk(cs: seq<Component>) {
    |cs| == 2 && cs[0].TextBlock? && Asks(cs[1])
  }

  lemma TextThenAskParts(cs: seq<Component>)
    requires TextThenAsk(cs)
    ensures Chunks(cs, 2) == [Escaped(cs[0].text), Escaped(cs[1].prompt)]
    ensures PromptChunks(cs, 2) == [1] && |Queued(cs, 2).menus| == 1
  {
    assert Chunks(cs, 1) == Chunks(cs, 0) + [Escaped(cs[0].text)];
    ChunksNext(cs, 2);
    assert !Asks(cs[0]);
    assert PromptChunks(cs, 1) == PromptChunks(cs, 0) == [];
    MenusNext(cs, 1);
    MenusNext(cs, 2);
  }

  lemma LongTextCutsPrompt(cs: seq<Component>)
    requires TextThenAsk(cs) && |Utf8(Escaped(cs[0].text))| > DISCORD_CONTENT_MAX_BYTES
    ensures PromptChunks(cs, 2) == [1] && |ShownText(cs)| == 2 && !PromptFits(cs, 0)
  {
    TextThenAskParts(cs);
    var all := ShownText(cs);
    JoinPrefix(all, 1);
    assert all[..1] == [all[0]] && all[..2] == all;
  }

  /** A long text before a selection: the menu ships, its prompt does not. */
  lemma MenuWithoutPrompt(cs: seq<Component>, r: Outcome)
    requires TextThenAsk(cs) && |Utf8(Escaped(cs[0].text))| > DISCORD_CONTENT_MAX_BYTES && Renders(cs, r)
    ensures r.Message? && |MenusIn(r.layout.rows)| == 1
    ensures PromptChunks(cs, 2) == [1] && |ShownText(cs)| == 2
    ensures !ShowsWhole(BodyOf(r.content, r.truncated, Utf8(TRUNCATION_SENTINEL)), ShownText(cs), 1)
  {
    TextThenAskParts(cs);
    LongTextCutsPrompt(cs);
    PromptsAndMenus(cs, r, 0);
  }

  /** Six selections that can ship. */
  predicate SixAsks(cs: seq<Component>) {
    |cs| == 6 && forall i :: 0 <= i < |cs| ==> Asks(cs[i])
  }

  lemma {:induction false} AskParts(cs: seq<Component>, n: nat)
    requires n <= |cs| && forall i :: 0 <= i < |cs| ==> Asks(cs[i])
    ensures |Queued(cs, n).menus| == n && |Chunks(cs, n)| == n && |PromptChunks(cs, n)| == n
    ensures forall i :: 0 <= i < n ==> Asks(cs[i]) && Chunks(cs, n)[i] == Escaped(cs[i].prompt)
    ensures forall i :: 0 <= i < n ==> PromptChunks(cs, n)[i] == i
  {
    if n > 0 {
      AskParts(cs, n - 1);
      ChunksNext(cs, n);
      MenusNext(cs, n);
    }
  }

  /** Six selections whose prompts fit the cap together: the sixth prompt stands whole in the text, without its menu. */
  lemma PromptWithoutMenu(cs: seq<Component>, r: Outcome)
    requires SixAsks(cs) && Renders(cs, r) && |Join(ShownText(cs))| <= DISCORD_CONTENT_MAX_BYTES
    ensures r.Message? && |MenusIn(r.layout.rows)| == 5
    ensures |ShownText(cs)| == 6 && Asks(cs[5]) && ShownText(cs)[5] == Utf8(Escaped(cs[5].prompt))
    ensures ShowsWhole(BodyOf(r.content, r.truncated, Utf8(TRUNCATION_SENTINEL)), ShownText(cs), 5)
  {
    AskParts(cs, 6);
    assert Shown(Chunks(cs, 6), Queued(cs, 6)) == Chunks(cs, 6);
    PromptsAndMenus(cs, r, 5);
  }

  // ----- A first chunk that is cut -----

  /** The message's text without the sentinel. */
  function Body(r: Outcome): Str
    requires r.Message?
  {
    BodyOf(r.content, r.truncated, Utf8(TRUNCATION_SENTINEL))
  }

  /** The body is some of the chunks, each whole. */
  ghost predicate WholeOnly(body: Str, chunks: seq<Str>) {
    exists k: nat :: 0 < k <= |chunks| && body == Join(chunks[..k])
  }

  /** The truncation behind a truncated message. */
  lemma TruncationOf(cs: seq<Component>, r: Outcome) returns (k: nat)
    requires Renders(cs, r) && r.Message? && r.truncated
    ensures ShownText(cs) != [] && Truncated(ShownText(cs), REPLY_BUDGET, k, Body(r))
  {
    SentinelBytes();
    k := TruncationBehind(ShownText(cs), DISCORD_CONTENT_MAX_BYTES, Utf8(TRUNCATION_SENTINEL), r.content);
  }

  lemma WholeIsShort(chunks: seq<Str>, k: nat)
    requires 0 < k <= |chunks|
    ensures |chunks[0]| <= |Join(chunks[..k])|
  {
    JoinGrows(chunks, 1, k);
    assert chunks[..1] == [chunks[0]];
  }

  /** A truncated message ends between chunks exactly if the first chunk fits beside the sentinel. */
  lemma OnlyTheFirstIsCut(cs: seq<Component>, r: Outcome)
    requires Renders(cs, r) && r.Message? && r.truncated
    ensures ShownText(cs) != [] && (WholeOnly(Body(r), ShownText(cs)) <==> |ShownText(cs)[0]| <= REPLY_BUDGET)
  {
    var chunks := ShownText(cs);
    var k := TruncationOf(cs, r);
    if WholeOnly(Body(r), chunks) {
      var n: nat :| 0 < n <= |chunks| && Body(r) == Join(chunks[..n]);
      WholeIsShort(chunks, n);
    }
    assert chunks[..1] == [chunks[0]];
  }

  /** Otherwise as many of its characters are kept as fit, and not all. */
  lemma FirstChunkIsCut(cs: seq<Component>, r: Outcome, first: string) returns (kept: nat)
    requires Renders(cs, r) && r.Message? && r.truncated && ShownText(cs) != [] && ShownText(cs)[0] == Utf8(first)
    requires |Utf8(first)| > REPLY_BUDGET
    ensures Keeps(first, kept) && kept < |first| && Body(r) == Utf8(first[..kept])
  {
    var k := TruncationOf(cs, r);
    if k > 0 {
      WholeIsShort(ShownText(cs), k);
    }
    kept := CutKeepsTheMost(first, REPLY_BUDGET, |Body(r)|);
    assert first[..|first|] == first;
  }

  /** A text cut there ends in a stray backslash exactly if an escaped character's backslash would be byte 1940. */
  lemma CutTextDangles(cs: seq<Component>, r: Outcome, raw: string) returns (t: string)
    requires Renders(cs, r) && r.Message? && r.truncated && ShownText(cs) != [] && ShownText(cs)[0] == Utf8(Escaped(raw))
    requires |Utf8(Escaped(raw))| > REPLY_BUDGET
    ensures Body(r) == Utf8(t) && (ReadMarkdown(t).dangling <==> PairAtBudget(raw))
  {
    var kept := FirstChunkIsCut(cs, r, Escaped(raw));
    t := Escaped(raw)[..kept];
    ReplyDangles(raw, kept);
  }

  /** A chunk cut there loses its last character, so a narration's emphasis and a diff's fence are left open. */
  lemma CutChunkStaysOpen(cs: seq<Component>, r: Outcome, inner: string, mark: char) returns (t: string)
    requires Renders(cs, r) && r.Message? && r.truncated && ShownText(cs) != []
    requires ShownText(cs)[0] == Utf8(inner + [mark]) && |Utf8(inner + [mark])| > REPLY_BUDGET
    ensures Body(r) == Utf8(t) && t <= inner
  {
    var kept := FirstChunkIsCut(cs, r, inner + [mark]);
    t := (inner + [mark])[..kept];
  }
}
