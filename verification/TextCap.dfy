/**
 Text under a byte cap, as the Discord, Gemini and email mappers share it. A Rust string is its UTF-8
 bytes here, so that byte budgets and character boundaries are the real ones.
 */
module TextCap {
  import opened Text

  type Str = seq<nat>

  // ----- UTF-8 -----

  function Utf8Char(c: char): (b: Str)
    ensures |b| == Utf8Size(c)
    ensures !IsContinuation(b[0])
    ensures forall i :: 0 < i < |b| ==> IsContinuation(b[i])
  {
    var n := c as int;
    if n < 0x80 then [n]
    else if n < 0x800 then [0xC0 + n / 64, 0x80 + n % 64]
    else if n < 0x10000 then [0xE0 + n / 4096, 0x80 + n / 64 % 64, 0x80 + n % 64]
    else [0xF0 + n / 262144, 0x80 + n / 4096 % 64, 0x80 + n / 64 % 64, 0x80 + n % 64]
  }

  predicate IsContinuation(b: nat) {
    0x80 <= b < 0xC0
  }

  /** The encodings of the characters, one after another. */
  function Flatten<T>(encode: char -> seq<T>, s: string): seq<T> {
    if s == "" then [] else encode(s[0]) + Flatten(encode, s[1..])
  }

  function Utf8(s: string): Str {
    Flatten(Utf8Char, s)
  }

  /** The bytes are the encoding of some text. */
  ghost predicate IsText(b: Str) {
    exists s :: b == Utf8(s)
  }

  /** `str::is_char_boundary`, for an index within the string. */
  predicate IsBoundary(b: Str, at: nat)
    requires at <= |b|
  {
    at == 0 || at == |b| || !IsContinuation(b[at])
  }

  lemma {:induction false} FlattenConcat<T>(encode: char -> seq<T>, s: string, t: string)
    ensures Flatten(encode, s + t) == Flatten(encode, s) + Flatten(encode, t)
  {
    if s == "" {
      assert s + t == t;
    } else {
      FlattenConcat(encode, s[1..], t);
      assert (s + t)[1..] == s[1..] + t && (s + t)[0] == s[0];
    }
  }

  lemma Utf8Concat(s: string, t: string)
    ensures Utf8(s + t) == Utf8(s) + Utf8(t)
  {
    FlattenConcat(Utf8Char, s, t);
  }

  lemma TextConcat(a: Str, b: Str)
    requires IsText(a) && IsText(b)
    ensures IsText(a + b)
  {
    var s :| a == Utf8(s);
    var t :| b == Utf8(t);
    Utf8Concat(s, t);
  }

  lemma {:induction false} Utf8Bounds(s: string)
    ensures |s| <= |Utf8(s)| <= 4 * |s|
  {
    if s != "" {
      Utf8Bounds(s[1..]);
    }
  }

  /** The bytes are as many as `ByteLen` counts. */
  lemma {:induction false} Utf8Length(s: string)
    ensures |Utf8(s)| == ByteLen(s)
  {
    if s != "" {
      Utf8Length(s[1..]);
    }
  }

  lemma Utf8Ascii(s: string)
    requires forall i :: 0 <= i < |s| ==> s[i] < '\U{80}'
    ensures |Utf8(s)| == |s|
  {
    Utf8Length(s);
    AsciiLength(s);
  }

  lemma DashBytes(s: string)
    requires s == "\U{2014}"
    ensures |Utf8(s)| == 3
  {
    var c := s[0];
    assert c == '\U{2014}' && s[1..] == "" && Utf8Size(c) == 3;
    assert Utf8(s) == Utf8Char(c) + Utf8("");
  }

  /** A longer prefix has more bytes. */
  lemma Utf8PrefixGrows(s: string, j: nat, k: nat)
    requires j < k <= |s|
    ensures |Utf8(s[..j])| < |Utf8(s[..k])|
  {
    assert s[..k] == s[..j] + s[j..k];
    Utf8Concat(s[..j], s[j..k]);
    Utf8Bounds(s[j..k]);
  }

  /** At a boundary the bytes before it are whole characters. */
  lemma {:induction false} BoundaryIsBetweenCharacters(s: string, at: nat) returns (k: nat)
    requires at <= |Utf8(s)| && IsBoundary(Utf8(s), at)
    ensures k <= |s| && Utf8(s)[..at] == Utf8(s[..k])
  {
    if at == 0 {
      k := 0;
    } else {
      var first, rest := Utf8Char(s[0]), Utf8(s[1..]);
      assert Utf8(s) == first + rest;
      if at < |first| {
        assert false;
      }
      assert at - |first| < |rest| ==> rest[at - |first|] == Utf8(s)[at];
      k := BoundaryIsBetweenCharacters(s[1..], at - |first|);
      k := k + 1;
      assert s[..k][1..] == s[1..][..k - 1] && s[..k][0] == s[0];
      assert Utf8(s)[..at] == first + rest[..at - |first|];
    }
  }

  /** Every place between characters is a boundary. */
  lemma {:induction false} BetweenCharactersIsBoundary(s: string, k: nat)
    requires k <= |s|
    ensures |Utf8(s[..k])| <= |Utf8(s)| && IsBoundary(Utf8(s), |Utf8(s[..k])|)
  {
    Utf8Concat(s[..k], s[k..]);
    assert s == s[..k] + s[k..];
    if k < |s| {
      assert Utf8(s[k..])[0] == Utf8Char(s[k])[0];
    } else {
      assert s[k..] == "";
    }
  }

  lemma CutIsText(b: Str, at: nat)
    requires IsText(b) && at <= |b| && IsBoundary(b, at)
    ensures IsText(b[..at])
  {
    var s :| b == Utf8(s);
    var _ := BoundaryIsBetweenCharacters(s, at);
  }

  // ----- Cutting -----

  /** `end` is the last boundary not past `max`. */
  ghost predicate LastBoundary(b: Str, max: nat, end: nat)
    requires max <= |b|
  {
    end <= max && IsBoundary(b, end) && forall e :: end < e <= max ==> !IsBoundary(b, e)
  }

  /** Step back from `max` to a character boundary. */
  method FloorBoundary(b: Str, max: nat) returns (end: nat)
    requires max <= |b|
    ensures LastBoundary(b, max, end)
  {
    end := max;
    while end > 0 && !IsBoundary(b, end)
      invariant end <= max && forall e :: end < e <= max ==> !IsBoundary(b, e)
    {
      end := end - 1;
    }
  }

  /** The last boundary leaves as many whole characters as fit: one more would not. */
  lemma CutKeepsTheMost(s: string, max: nat, end: nat) returns (k: nat)
    requires max <= |Utf8(s)| && LastBoundary(Utf8(s), max, end)
    ensures k <= |s| && Utf8(s)[..end] == Utf8(s[..k])
    ensures k < |s| ==> |Utf8(s[..k + 1])| > max
  {
    k := BoundaryIsBetweenCharacters(s, end);
    if k < |s| {
      BetweenCharactersIsBoundary(s, k + 1);
      assert s[..k + 1] == s[..k] + [s[k]];
      Utf8Concat(s[..k], [s[k]]);
      assert |Utf8([s[k]])| >= 1;
    }
  }

  // ----- Chunks -----

  const SEPARATOR: Str := [10, 10]

  function Join(chunks: seq<Str>): Str {
    if |chunks| == 0 then []
    else if |chunks| == 1 then chunks[0]
    else Join(chunks[..|chunks| - 1]) + SEPARATOR + chunks[|chunks| - 1]
  }

  lemma JoinAppend(head: seq<Str>, c: Str)
    ensures Join(head + [c]) == if head == [] then c else Join(head) + SEPARATOR + c
  {
    assert (head + [c])[..|head|] == head;
  }

  lemma JoinNext(chunks: seq<Str>, k: nat)
    requires k < |chunks|
    ensures Join(chunks[..k + 1]) == if k == 0 then chunks[0] else Join(chunks[..k]) + SEPARATOR + chunks[k]
  {
    assert chunks[..k + 1] == chunks[..k] + [chunks[k]];
    JoinAppend(chunks[..k], chunks[k]);
  }

  lemma JoinedLength(head: seq<Str>, c: Str)
    ensures |Join(head + [c])| == |Join(head)| + (if head == [] then 0 else 2) + |c|
  {
    JoinAppend(head, c);
  }

  lemma {:induction false} JoinPrefix(chunks: seq<Str>, k: nat)
    requires k <= |chunks|
    ensures Join(chunks[..k]) <= Join(chunks)
    decreases |chunks| - k
  {
    if k < |chunks| {
      JoinPrefix(chunks, k + 1);
      JoinNext(chunks, k);
    } else {
      assert chunks[..k] == chunks;
    }
  }

  lemma SeparatorIsText()
    ensures IsText(SEPARATOR)
  {
    assert "\n\n"[1..] == "\n" && "\n"[1..] == "";
    assert Utf8("\n") == [10];
    assert Utf8("\n\n") == SEPARATOR;
  }

  lemma {:induction false} JoinIsText(chunks: seq<Str>)
    requires forall i :: 0 <= i < |chunks| ==> IsText(chunks[i])
    ensures IsText(Join(chunks))
  {
    if |chunks| == 0 {
      assert Utf8("") == [];
    } else if |chunks| > 1 {
      var n := |chunks| - 1;
      JoinIsText(chunks[..n]);
      SeparatorIsText();
      TextConcat(Join(chunks[..n]), SEPARATOR);
      TextConcat(Join(chunks[..n]) + SEPARATOR, chunks[n]);
    }
  }

  /** `k` is the number of whole chunks that fit: `k` do, and one more does not. */
  predicate KeepsWhole(chunks: seq<Str>, budget: nat, k: nat) {
    && k <= |chunks| && |Join(chunks[..k])| <= budget
    && (k < |chunks| ==> |Join(chunks[..k + 1])| > budget)
  }

  /** What is left of the chunks under a budget: the longest run of whole ones, or a cut first one. */
  ghost predicate Truncated(chunks: seq<Str>, budget: nat, k: nat, body: Str)
    requires chunks != []
  {
    && KeepsWhole(chunks, budget, k)
    && (k > 0 ==> body == Join(chunks[..k]))
    && (k == 0 ==> |chunks[0]| > budget && |body| <= |chunks[0]| && body == chunks[0][..|body|]
                   && LastBoundary(chunks[0], budget, |body|))
  }

  ghost predicate IsTruncation(chunks: seq<Str>, budget: nat, body: Str)
    requires chunks != []
  {
    exists k: nat :: Truncated(chunks, budget, k, body)
  }

  /** The bytes of the first `n` chunks joined, as they are added up. */
  function JoinSize(chunks: seq<Str>, n: nat): nat
    requires n <= |chunks|
  {
    if n == 0 then 0 else JoinSize(chunks, n - 1) + (if n == 1 then 0 else 2) + |chunks[n - 1]|
  }

  lemma {:induction false} JoinSizeIs(chunks: seq<Str>, n: nat)
    requires n <= |chunks|
    ensures |Join(chunks[..n])| == JoinSize(chunks, n)
  {
    if n > 0 {
      JoinSizeIs(chunks, n - 1);
      JoinedLength(chunks[..n - 1], chunks[n - 1]);
      assert chunks[..n] == chunks[..n - 1] + [chunks[n - 1]];
    }
  }

  method AcceptWhole(chunks: seq<Str>, budget: nat) returns (accepted: seq<Str>)
    ensures |accepted| <= |chunks| && accepted == chunks[..|accepted|] && JoinSize(chunks, |accepted|) <= budget
    ensures |accepted| < |chunks| ==> JoinSize(chunks, |accepted| + 1) > budget
  {
    accepted := [];
    var total := 0;
    var i := 0;
    while i < |chunks|
      invariant 0 <= i <= |chunks| && accepted == chunks[..i] && total == JoinSize(chunks, i) <= budget
    {
      var sep := if accepted == [] then 0 else 2;
      if total + sep + |chunks[i]| > budget {
        break;
      }
      total := total + sep + |chunks[i]|;
      accepted := accepted + [chunks[i]];
      i := i + 1;
    }
  }

  /** The longest run of whole chunks that fits, separators counted. */
  method TakeWhole(chunks: seq<Str>, budget: nat) returns (accepted: seq<Str>)
    ensures |accepted| <= |chunks| && accepted == chunks[..|accepted|] && KeepsWhole(chunks, budget, |accepted|)
  {
    accepted := AcceptWhole(chunks, budget);
    JoinSizeIs(chunks, |accepted|);
    if |accepted| < |chunks| {
      JoinSizeIs(chunks, |accepted| + 1);
    }
  }

  lemma Witness(chunks: seq<Str>, budget: nat, k: nat, body: Str)
    requires chunks != [] && Truncated(chunks, budget, k, body)
    ensures IsTruncation(chunks, budget, body)
  {
  }

  method TruncateChunks(chunks: seq<Str>, budget: nat) returns (body: Str)
    requires chunks != []
    ensures IsTruncation(chunks, budget, body)
  {
    var accepted := TakeWhole(chunks, budget);
    if accepted != [] {
      body := Join(accepted);
    } else {
      assert chunks[..1] == [chunks[0]];
      var end := FloorBoundary(chunks[0], budget);
      body := chunks[0][..end];
    }
    Witness(chunks, budget, |accepted|, body);
  }

  /** The joined chunks if they fit the limit, else what fits of them beside the sentinel. */
  ghost predicate Capped(chunks: seq<Str>, limit: nat, sentinel: Str, out: Str, truncated: bool) {
    && |sentinel| <= limit
    && (truncated <==> |Join(chunks)| > limit)
    && (!truncated ==> out == Join(chunks))
    && (truncated ==> chunks != [] && |sentinel| <= |out| <= limit && out[|out| - |sentinel|..] == sentinel
                      && IsTruncation(chunks, limit - |sentinel|, out[..|out| - |sentinel|]))
  }

  method CapText(chunks: seq<Str>, limit: nat, sentinel: Str) returns (out: Str, truncated: bool)
    requires |sentinel| <= limit
    ensures Capped(chunks, limit, sentinel, out, truncated)
  {
    var joined := Join(chunks);
    if |joined| <= limit {
      return joined, false;
    }
    var body := TruncateChunks(chunks, limit - |sentinel|);
    out, truncated := body + sentinel, true;
    assert out[..|out| - |sentinel|] == body;
  }

  lemma CleanPrefixAt(chunks: seq<Str>, budget: nat, k: nat, body: Str)
    requires chunks != [] && Truncated(chunks, budget, k, body)
    requires forall i :: 0 <= i < |chunks| ==> IsText(chunks[i])
    ensures |body| <= budget && body <= Join(chunks) && IsText(body)
  {
    if k > 0 {
      JoinPrefix(chunks, k);
      JoinIsText(chunks[..k]);
    } else {
      JoinPrefix(chunks, 1);
      assert chunks[..1] == [chunks[0]];
      CutIsText(chunks[0], |body|);
    }
  }

  /** A truncated body is a prefix of the whole text, ends between characters, and fits. */
  lemma TruncatedIsCleanPrefix(chunks: seq<Str>, budget: nat, body: Str)
    requires chunks != [] && IsTruncation(chunks, budget, body)
    requires forall i :: 0 <= i < |chunks| ==> IsText(chunks[i])
    ensures |body| <= budget && body <= Join(chunks) && IsText(body)
  {
    var k: nat :| Truncated(chunks, budget, k, body);
    CleanPrefixAt(chunks, budget, k, body);
  }

  // ----- Which chunks are still whole -----

  lemma JoinGrows(chunks: seq<Str>, j: nat, k: nat)
    requires j <= k <= |chunks|
    ensures Join(chunks[..j]) <= Join(chunks[..k])
  {
    JoinPrefix(chunks[..k], j);
    assert chunks[..k][..j] == chunks[..j];
  }

  /** The text without the sentinel. */
  function BodyOf(out: Str, truncated: bool, sentinel: Str): Str {
    if truncated && |sentinel| <= |out| then out[..|out| - |sentinel|] else out
  }

  /** The truncation behind a text that was cut. */
  lemma TruncationBehind(chunks: seq<Str>, limit: nat, sentinel: Str, out: Str) returns (k: nat)
    requires Capped(chunks, limit, sentinel, out, true)
    ensures chunks != [] && Truncated(chunks, limit - |sentinel|, k, BodyOf(out, true, sentinel))
  {
    var body := BodyOf(out, true, sentinel);
    assert IsTruncation(chunks, limit - |sentinel|, body);
    k :| Truncated(chunks, limit - |sentinel|, k, body);
  }

  /** Chunk `c` stands whole in the body, after the chunks before it. */
  predicate ShowsWhole(body: Str, chunks: seq<Str>, c: nat)
    requires c < |chunks|
  {
    Join(chunks[..c + 1]) <= body
  }

  lemma WholeAt(chunks: seq<Str>, budget: nat, k: nat, body: Str, c: nat)
    requires c < |chunks| && Truncated(chunks, budget, k, body)
    ensures ShowsWhole(body, chunks, c) <==> c < k
    ensures |Join(chunks[..c + 1])| <= budget <==> c < k
  {
    if c < k {
      JoinGrows(chunks, c + 1, k);
    } else {
      JoinGrows(chunks, k + 1, c + 1);
    }
  }

  /** A chunk is whole exactly if nothing was cut, or it and all before it fit beside the sentinel. */
  lemma WholeChunks(chunks: seq<Str>, limit: nat, sentinel: Str, out: Str, truncated: bool, c: nat)
    requires c < |chunks| && Capped(chunks, limit, sentinel, out, truncated)
    ensures ShowsWhole(BodyOf(out, truncated, sentinel), chunks, c) <==>
              |Join(chunks)| <= limit || |Join(chunks[..c + 1])| <= limit - |sentinel|
  {
    if truncated {
      var body := out[..|out| - |sentinel|];
      var k: nat :| Truncated(chunks, limit - |sentinel|, k, body);
      WholeAt(chunks, limit - |sentinel|, k, body, c);
    } else {
      JoinPrefix(chunks, c + 1);
    }
  }
}
