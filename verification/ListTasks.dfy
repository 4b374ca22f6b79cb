/**
 Listing tasks in pages. A page token is the base64 of `ListTasks:` and an offset; a client that
 follows the tokens sees every matching task once.
 */
module ListTasks {
  import opened Text
  import Base64

  const PAGE_SIZE_DEFAULT := 20
  const PAGE_SIZE_MAX := 100
  const LIST_MAX := 1000
  const USIZE := 0x1_0000_0000_0000_0000
  const CURSOR_PREFIX := "ListTasks:"

  // ----- Tokens -----

  predicate IsAscii(s: string) {
    forall i :: 0 <= i < |s| ==> s[i] < '\U{80}'
  }

  function AsciiBytes(s: string): (b: seq<nat>)
    requires IsAscii(s)
    ensures Base64.AllBelow(b, 256)
  {
    seq(|s|, i requires 0 <= i < |s| => s[i] as int)
  }

  /** The text of bytes that are all ASCII. No other text parses as a cursor, so none is modelled. */
  function AsciiText(b: seq<nat>): Option<string> {
    if forall i :: 0 <= i < |b| ==> b[i] < 128
    then Some(seq(|b|, i requires 0 <= i < |b| && b[i] < 128 => b[i] as char))
    else None
  }

  function CursorText(offset: nat): (s: string)
    ensures IsAscii(s)
  {
    CURSOR_PREFIX + Digits(offset)
  }

  function EncodeCursor(offset: nat): string {
    Base64.EncodeUrl(AsciiBytes(CursorText(offset)))
  }

  function ParseCursorText(s: string): Option<int> {
    if CURSOR_PREFIX <= s then ParseInt(s[|CURSOR_PREFIX|..], 0, USIZE - 1) else None
  }

  function DecodeCursor(token: string): (r: Option<int>)
    ensures r.Some? ==> 0 <= r.value < USIZE
  {
    match Base64.DecodeUrl(token)
    case None => None
    case Some(bytes) =>
      match AsciiText(bytes)
      case None => None
      case Some(s) => ParseCursorText(s)
  }

  lemma AsciiRoundTrip(s: string)
    requires IsAscii(s)
    ensures AsciiText(AsciiBytes(s)) == Some(s)
  {
    var b := AsciiBytes(s);
    forall i | 0 <= i < |b| ensures b[i] < 128 && b[i] as char == s[i] {
      assert s[i] < '\U{80}';
    }
    assert AsciiText(b).value == s;
  }

  lemma CursorTextParses(offset: nat)
    requires offset < USIZE
    ensures ParseCursorText(CursorText(offset)) == Some(offset)
  {
    assert CursorText(offset)[|CURSOR_PREFIX|..] == Digits(offset);
    ParseDigits(Digits(offset), 0, USIZE - 1);
  }

  /** Decoding inverts encoding. */
  lemma CursorRoundTrip(offset: nat)
    requires offset < USIZE
    ensures DecodeCursor(EncodeCursor(offset)) == Some(offset)
  {
    var s := CursorText(offset);
    Base64.UrlRoundTrip(AsciiBytes(s));
    AsciiRoundTrip(s);
    CursorTextParses(offset);
  }

  /** No text at all is not a cursor. */
  lemma EmptyIsNoCursor()
    ensures DecodeCursor("") == None
  {
    Base64.UrlRoundTrip([]);
    assert Base64.EncodeUrl([]) == "";
  }

  /** How offsets become tokens and back; the gateway's way is `GATEWAY`. */
  datatype Cursors = Cursors(encode: nat -> string, decode: string -> Option<int>)

  const GATEWAY := Cursors(EncodeCursor, DecodeCursor)

  predicate Token(c: Cursors, offset: nat) {
    c.encode(offset) != "" && c.decode(c.encode(offset)) == Some(offset)
  }

  /** Tokens are not empty and decode to the offset they were made from. */
  ghost predicate Inverts(c: Cursors) {
    forall n: nat :: n < USIZE ==> Token(c, n)
  }

  lemma GatewayInverts()
    ensures Inverts(GATEWAY)
  {
    forall n: nat | n < USIZE ensures Token(GATEWAY, n) {
      CursorRoundTrip(n);
      EmptyIsNoCursor();
    }
  }

  // ----- One page -----

  datatype Request = Request(pageSize: Option<string>, pageToken: Option<string>)
  datatype Page<T> = Page(tasks: seq<T>, next: string, size: nat, total: nat)
  datatype Reply<T> = Listed(page: Page<T>) | BadPageSize | BadPageToken

  /** An absent parameter and an empty one are the same. */
  function Given(p: Option<string>): Option<string> {
    if p == Some("") then None else p
  }

  function PageSizeOf(r: Request): Option<int> {
    match Given(r.pageSize)
    case None => Some(PAGE_SIZE_DEFAULT)
    case Some(s) =>
      var n := ParseInt(s, 0, USIZE - 1);
      if n.Some? && 1 <= n.value <= PAGE_SIZE_MAX then n else None
  }

  function OffsetOf(c: Cursors, r: Request): Option<int> {
    match Given(r.pageToken)
    case None => Some(0)
    case Some(t) => c.decode(t)
  }

  /** The page at `offset`; the sum that decides on a further page is a machine word. */
  function PageAt<T>(c: Cursors, all: seq<T>, offset: nat, size: nat): Page<T> {
    var from := Least(offset, |all|);
    var to := Least(offset + size, |all|);
    var sum := (offset + size) % USIZE;
    Page(all[from..to], if sum < |all| then c.encode(sum) else "", size, |all|)
  }

  function List<T>(c: Cursors, all: seq<T>, r: Request): Reply<T> {
    var size := PageSizeOf(r);
    var offset := OffsetOf(c, r);
    if size.None? then BadPageSize
    else if offset.None? || offset.value < 0 then BadPageToken
    else Listed(PageAt(c, all, offset.value, if size.value >= 0 then size.value else 0))
  }

  // ----- Following the tokens -----

  /** The `k`-th request asks for `sizes(k)` tasks. */
  ghost predicate Sizes(sizes: nat -> nat) {
    forall k :: 1 <= sizes(k) <= PAGE_SIZE_MAX
  }

  function RequestFor(size: nat, token: string): Request {
    Request(Some(Digits(size)), Some(token))
  }

  lemma RequestReads(size: nat, token: string)
    requires 1 <= size <= PAGE_SIZE_MAX
    ensures PageSizeOf(RequestFor(size, token)) == Some(size)
  {
    ParseDigits(Digits(size), 0, USIZE - 1);
  }

  /** The offset of a token, or of the first request, which has none. */
  function Offset(c: Cursors, token: string): nat {
    var n := c.decode(token);
    if token != "" && n.Some? && n.value >= 0 then n.value else 0
  }

  predicate IsToken(c: Cursors, token: string) {
    token == "" || (c.decode(token).Some? && c.decode(token).value >= 0)
  }

  /** A page in the middle of the list: where it ends and what its token says. */
  lemma NextOffset<T>(c: Cursors, all: seq<T>, offset: nat, size: nat)
    requires Inverts(c) && offset <= |all| && 1 <= size <= PAGE_SIZE_MAX && |all| + PAGE_SIZE_MAX < USIZE
    ensures var p := PageAt(c, all, offset, size);
            && (p.next == "" <==> offset + size >= |all|)
            && (p.next != "" ==> IsToken(c, p.next) && Offset(c, p.next) == offset + size)
            && p.tasks == all[offset..Least(offset + size, |all|)]
  {
    assert Token(c, offset + size);
  }

  /**
   All tasks a client collects from `token` on, one page after another until there is no token. By
   `RequestLists` the page is the one the reply to the `k`-th request holds.
   */
  ghost function Collect<T>(c: Cursors, all: seq<T>, token: string, sizes: nat -> nat, k: nat): seq<T>
    requires Inverts(c) && Sizes(sizes) && IsToken(c, token)
    requires Offset(c, token) <= |all| && |all| + PAGE_SIZE_MAX < USIZE
    decreases |all| - Offset(c, token)
  {
    var offset, size := Offset(c, token), sizes(k);
    NextOffset(c, all, offset, size);
    var page := PageAt(c, all, offset, size);
    if page.next == "" then page.tasks else page.tasks + Collect(c, all, page.next, sizes, k + 1)
  }

  /** A request with a page size and a token is answered with the page at the token's offset. */
  lemma RequestLists<T>(c: Cursors, all: seq<T>, token: string, size: nat)
    requires 1 <= size <= PAGE_SIZE_MAX && IsToken(c, token)
    ensures List(c, all, RequestFor(size, token)) == Listed(PageAt(c, all, Offset(c, token), size))
  {
    RequestReads(size, token);
  }

  lemma {:induction false} CollectsTheRest<T>(c: Cursors, all: seq<T>, token: string, sizes: nat -> nat, k: nat)
    requires Inverts(c) && Sizes(sizes) && IsToken(c, token)
    requires Offset(c, token) <= |all| && |all| + PAGE_SIZE_MAX < USIZE
    ensures Collect(c, all, token, sizes, k) == all[Offset(c, token)..]
    decreases |all| - Offset(c, token)
  {
    var offset, size := Offset(c, token), sizes(k);
    NextOffset(c, all, offset, size);
    var next := PageAt(c, all, offset, size).next;
    if next != "" {
      CollectsTheRest(c, all, next, sizes, k + 1);
      assert all[offset..] == all[offset..offset + size] + all[offset + size..];
    }
  }

  /**
   Whatever page sizes a client picks, following the tokens comes to an end and yields every task
   once, in order.
   */
  lemma PagesCoverTheList<T>(all: seq<T>, sizes: nat -> nat)
    requires Sizes(sizes) && |all| <= LIST_MAX
    ensures Inverts(GATEWAY) && Collect(GATEWAY, all, "", sizes, 0) == all
  {
    GatewayInverts();
    Everything(GATEWAY, all, sizes);
  }

  lemma Everything<T>(c: Cursors, all: seq<T>, sizes: nat -> nat)
    requires Inverts(c) && Sizes(sizes) && |all| + PAGE_SIZE_MAX < USIZE
    ensures Collect(c, all, "", sizes, 0) == all
  {
    CollectsTheRest(c, all, "", sizes, 0);
  }

  /** A token with an offset past the list gives an empty page, and no further token short of wrap-around. */
  lemma PastTheEnd<T>(c: Cursors, all: seq<T>, offset: nat, size: nat)
    requires |all| <= offset < USIZE && 1 <= size <= PAGE_SIZE_MAX && |all| + PAGE_SIZE_MAX < USIZE
    requires forall n: nat :: n < USIZE ==> c.encode(n) != ""
    ensures PageAt(c, all, offset, size).tasks == []
    ensures PageAt(c, all, offset, size).next == "" <==> offset + size < USIZE || offset + size - USIZE >= |all|
  {
  }

  // ----- The list itself -----

  function Filter<T>(s: seq<T>, p: T -> bool): seq<T> {
    if s == [] then []
    else Filter(s[..|s| - 1], p) + if p(s[|s| - 1]) then [s[|s| - 1]] else []
  }

  function Take<T>(s: seq<T>, n: nat): seq<T> {
    if |s| <= n then s else s[..n]
  }

  /** The memory backend: of the owner's rows, newest first, the ones asked for, at most `LIST_MAX`. */
  function MemoryList<T>(rows: seq<T>, p: T -> bool): seq<T> {
    Take(Filter(rows, p), LIST_MAX)
  }

  /** The SQLite backend limits the rows first and picks the ones asked for from those. */
  function SqliteList<T>(rows: seq<T>, p: T -> bool): seq<T> {
    Take(Filter(Take(rows, LIST_MAX), p), LIST_MAX)
  }

  lemma {:induction false} FilterSplit<T>(s: seq<T>, n: nat, p: T -> bool)
    requires n <= |s|
    ensures Filter(s, p) == Filter(s[..n], p) + Filter(s[n..], p)
    decreases |s|
  {
    if n == |s| {
      assert s[..n] == s;
    } else {
      var last := |s| - 1;
      FilterSplit(s[..last], n, p);
      assert s[..last][..n] == s[..n] && s[..last][n..] == s[n..][..last - n];
      assert s[n..][last - n] == s[last];
    }
  }

  lemma {:induction false} FilterShrinks<T>(s: seq<T>, p: T -> bool)
    ensures |Filter(s, p)| <= |s|
  {
    if s != [] {
      FilterShrinks(s[..|s| - 1], p);
    }
  }

  /**
   The backends agree exactly if no row past the first `LIST_MAX` is asked for, or all of the first
   `LIST_MAX` are. Otherwise the SQLite list misses tasks it was asked for.
   */
  lemma BackendsAgree<T>(rows: seq<T>, p: T -> bool)
    ensures SqliteList(rows, p) <= MemoryList(rows, p)
    ensures SqliteList(rows, p) == MemoryList(rows, p) <==>
              |rows| <= LIST_MAX || Filter(rows[LIST_MAX..], p) == [] || |Filter(rows[..LIST_MAX], p)| == LIST_MAX
  {
    if |rows| > LIST_MAX {
      var first, rest := Filter(rows[..LIST_MAX], p), Filter(rows[LIST_MAX..], p);
      FilterSplit(rows, LIST_MAX, p);
      FilterShrinks(rows[..LIST_MAX], p);
      assert SqliteList(rows, p) == first;
      assert MemoryList(rows, p) == Take(first + rest, LIST_MAX);
      if |first| < LIST_MAX && rest != [] {
        assert |MemoryList(rows, p)| > |first|;
      }
    }
  }

  lemma {:induction false} FilterNone<T>(s: seq<T>, p: T -> bool)
    requires forall i :: 0 <= i < |s| ==> !p(s[i])
    ensures Filter(s, p) == []
  {
    if s != [] {
      FilterNone(s[..|s| - 1], p);
    }
  }

  /** The oldest of 1001 rows is the one asked for: the memory list has it and the SQLite list is empty. */
  lemma BackendsDiffer<T>(rows: seq<T>, p: T -> bool)
    requires |rows| == LIST_MAX + 1 && (forall i :: 0 <= i < LIST_MAX ==> !p(rows[i])) && p(rows[LIST_MAX])
    ensures SqliteList(rows, p) == [] && MemoryList(rows, p) == [rows[LIST_MAX]]
  {
    var newer := rows[..LIST_MAX];
    FilterNone(newer, p);
    assert Take(rows, LIST_MAX) == newer;
    assert Filter(rows, p) == Filter(newer, p) + [rows[LIST_MAX]];
  }
}
