/** The string operations the source takes from the Rust standard library, and decimal numerals. */
module Text {

  datatype Option<+T> = None | Some(value: T)

  // ----- Trimming and splitting -----

  /** Unicode White_Space, as `str::trim` uses it. */
  predicate IsWhitespace(c: char) {
    || '\U{9}' <= c <= '\U{D}' || c == ' ' || c == '\U{85}' || c == '\U{A0}' || c == '\U{1680}'
    || '\U{2000}' <= c <= '\U{200A}' || c == '\U{2028}' || c == '\U{2029}' || c == '\U{202F}'
    || c == '\U{205F}' || c == '\U{3000}'
  }

  function TrimStart(s: string): string {
    if s != "" && IsWhitespace(s[0]) then TrimStart(s[1..]) else s
  }

  function TrimEnd(s: string): string {
    if s != "" && IsWhitespace(s[|s| - 1]) then TrimEnd(s[..|s| - 1]) else s
  }

  function Trim(s: string): string {
    TrimEnd(TrimStart(s))
  }

  predicate NoneIn(p: char -> bool, s: string) {
    forall i :: 0 <= i < |s| ==> !p(s[i])
  }

  /** Everything before and after the first character that satisfies `p`. */
  function SplitOnce(s: string, p: char -> bool): Option<(string, string)> {
    if s == "" then None
    else if p(s[0]) then Some(("", s[1..]))
    else match SplitOnce(s[1..], p)
      case None => None
      case Some((before, after)) => Some(([s[0]] + before, after))
  }

  /** All pieces between occurrences of `c`; never empty. */
  function Split(s: string, c: char): (pieces: seq<string>)
    ensures |pieces| >= 1
    decreases |s|
  {
    match SplitOnce(s, x => x == c)
    case None => [s]
    case Some((before, after)) => SplitOnceShrinks(s, x => x == c); [before] + Split(after, c)
  }

  /** Index of the last character that satisfies `p`. */
  function RFind(s: string, p: char -> bool): (r: Option<nat>)
    ensures r.Some? ==> r.value < |s| && p(s[r.value])
  {
    if s == "" then None
    else if p(s[|s| - 1]) then Some(|s| - 1)
    else RFind(s[..|s| - 1], p)
  }

  lemma SplitOnceShrinks(s: string, p: char -> bool)
    ensures SplitOnce(s, p).Some? ==> |SplitOnce(s, p).value.1| < |s|
  {
  }

  lemma {:induction false} SplitOnceAt(before: string, c: char, after: string, p: char -> bool)
    requires NoneIn(p, before) && p(c)
    ensures SplitOnce(before + [c] + after, p) == Some((before, after))
  {
    var s := before + [c] + after;
    if before == "" {
      assert s[1..] == after;
    } else {
      assert s[1..] == before[1..] + [c] + after && s[0] == before[0];
      SplitOnceAt(before[1..], c, after, p);
      assert [before[0]] + before[1..] == before;
    }
  }

  lemma {:induction false} SplitOnceNone(s: string, p: char -> bool)
    requires NoneIn(p, s)
    ensures SplitOnce(s, p) == None
  {
    if s != "" { SplitOnceNone(s[1..], p); }
  }

  /** Adding characters without a separator at the end does not move the split. */
  lemma {:induction false} SplitOnceAppend(s: string, tail: string, p: char -> bool)
    requires NoneIn(p, tail)
    ensures SplitOnce(s + tail, p)
         == match SplitOnce(s, p) case None => None case Some((a, b)) => Some((a, b + tail))
  {
    if s == "" {
      assert s + tail == tail;
      SplitOnceNone(tail, p);
    } else {
      assert (s + tail)[1..] == s[1..] + tail;
      SplitOnceAppend(s[1..], tail, p);
    }
  }

  lemma SplitAt(before: string, c: char, after: string)
    requires c !in before
    ensures Split(before + [c] + after, c) == [before] + Split(after, c)
  {
    SplitOnceAt(before, c, after, x => x == c);
  }

  lemma SplitNone(s: string, c: char)
    requires c !in s
    ensures Split(s, c) == [s]
  {
    SplitOnceNone(s, x => x == c);
  }

  lemma {:induction false} RFindAt(before: string, c: char, after: string, p: char -> bool)
    requires NoneIn(p, after) && p(c)
    ensures RFind(before + [c] + after, p) == Some(|before|)
    decreases |after|
  {
    var s := before + [c] + after;
    if after == "" {
      assert s[|s| - 1] == c;
    } else {
      assert s[|s| - 1] == after[|after| - 1];
      assert s[..|s| - 1] == before + [c] + after[..|after| - 1];
      RFindAt(before, c, after[..|after| - 1], p);
    }
  }

  /** Text that starts and ends in a visible character is its own trimming. */
  lemma TrimNothing(s: string)
    requires s != "" && !IsWhitespace(s[0]) && !IsWhitespace(s[|s| - 1])
    ensures Trim(s) == s
  {
  }

  /** A visible last character makes trimming a matter of the start only. */
  lemma {:induction false} TrimVisibleEnd(s: string, tail: string)
    requires tail != "" && NoneIn(IsWhitespace, tail)
    ensures Trim(s + tail) == TrimStart(s) + tail
  {
    if s != "" && IsWhitespace(s[0]) {
      assert (s + tail)[1..] == s[1..] + tail;
      TrimVisibleEnd(s[1..], tail);
    } else {
      assert s == "" ==> s + tail == tail;
      assert (s + tail)[|s + tail| - 1] == tail[|tail| - 1];
    }
  }

  predicate EndsWith(s: string, tail: string) {
    |tail| <= |s| && s[|s| - |tail|..] == tail
  }

  // ----- Numbers -----

  function Least(a: int, b: int): int {
    if a <= b then a else b
  }

  function Pow2(w: nat): (p: nat)
    ensures p >= 1
  {
    if w == 0 then 1 else 2 * Pow2(w - 1)
  }

  // ----- Lengths in bytes -----

  /** Bytes of one character in UTF-8. */
  function Utf8Size(c: char): nat {
    if c < '\U{80}' then 1 else if c < '\U{800}' then 2 else if c < '\U{10000}' then 3 else 4
  }

  /** `str::len`. */
  function ByteLen(s: string): nat {
    if s == "" then 0 else Utf8Size(s[0]) + ByteLen(s[1..])
  }

  lemma {:induction false} AsciiLength(s: string)
    requires forall i :: 0 <= i < |s| ==> s[i] < '\U{80}'
    ensures ByteLen(s) == |s|
  {
    if s != "" { AsciiLength(s[1..]); }
  }

  // ----- Decimal numerals -----

  predicate IsDigit(c: char) {
    '0' <= c <= '9'
  }

  predicate AllDigits(s: string) {
    forall i :: 0 <= i < |s| ==> IsDigit(s[i])
  }

  function DigitValue(c: char): (v: nat)
    requires IsDigit(c)
    ensures v <= 9
  {
    (c - '0') as nat
  }

  /** The number a digit string denotes; leading zeros do not count. */
  function ValueOf(s: string): nat
    requires AllDigits(s)
  {
    if s == "" then 0 else 10 * ValueOf(s[..|s| - 1]) + DigitValue(s[|s| - 1])
  }

  function Digits(n: nat): (s: string)
    ensures s != "" && AllDigits(s)
    ensures ValueOf(s) == n
  {
    var last := ['0' + (n % 10) as char];
    if n < 10 then last else
    var front := Digits(n / 10);
    assert (front + last)[..|front + last| - 1] == front;
    front + last
  }

  function Zeros(n: nat): (s: string)
    ensures |s| == n && AllDigits(s)
  {
    seq(n, _ => '0')
  }

  /** `{n:0width}`: zero-padded to `width` characters, the sign included. */
  function PadInt(n: int, width: nat): string {
    var digits := Digits(if n < 0 then -n else n);
    var sign := if n < 0 then "-" else "";
    sign + Zeros(if |sign| + |digits| < width then width - |sign| - |digits| else 0) + digits
  }

  lemma {:induction false} LeadingZeros(k: nat, s: string)
    requires AllDigits(s)
    ensures AllDigits(Zeros(k) + s) && ValueOf(Zeros(k) + s) == ValueOf(s)
    decreases k + |s|
  {
    var z := Zeros(k) + s;
    if s == "" {
      assert z == Zeros(k);
      if k > 0 {
        assert Zeros(k)[..k - 1] == Zeros(k - 1) + "";
        LeadingZeros(k - 1, "");
      }
    } else {
      assert z[..|z| - 1] == Zeros(k) + s[..|s| - 1];
      LeadingZeros(k, s[..|s| - 1]);
    }
  }

  /** A non-negative padded number is a non-empty digit string that denotes the number. */
  lemma PadIntDigits(n: nat, width: nat)
    ensures var s := PadInt(n, width); s != "" && AllDigits(s) && ValueOf(s) == n
  {
    var digits := Digits(n);
    var k := if |digits| < width then width - |digits| else 0;
    LeadingZeros(k, digits);
    assert PadInt(n, width) == Zeros(k) + digits;
  }

  /** `str::parse` of an integer type with values `lo..=hi`: an optional sign, then digits. */
  function ParseInt(s: string, lo: int, hi: int): Option<int> {
    if s == "" || s == "+" || s == "-" then None
    else
      var negative := s[0] == '-' && lo < 0;
      var body := if negative || s[0] == '+' then s[1..] else s;
      if !AllDigits(body) then None
      else
        var magnitude: int := ValueOf(body);
        var v := if negative then -magnitude else magnitude;
        if lo <= v <= hi then Some(v) else None
  }

  lemma ParseDigits(s: string, lo: int, hi: int)
    requires s != "" && AllDigits(s) && lo <= 0
    ensures ParseInt(s, lo, hi) == if ValueOf(s) <= hi then Some(ValueOf(s)) else None
  {
    assert IsDigit(s[0]);
  }
}
