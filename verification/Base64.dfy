/**
 Base64 as RFC 4648 defines it and the gateway uses it: the padded standard alphabet of section 4 for
 file contents, the unpadded URL-safe one of section 5 for cursors. Decoding is strict, as the engines
 are: no stray symbols, exact padding, and zero bits after the last byte.
 */
module Base64 {
  import opened Text

  datatype Alphabet = Standard | UrlSafe

  predicate AllBelow(s: seq<nat>, n: nat) {
    forall i :: 0 <= i < |s| ==> s[i] < n
  }

  // ----- Numbers as bit strings, most significant bit first -----

  function Bits(n: nat, w: nat): (bits: seq<bool>)
    ensures |bits| == w
  {
    if w == 0 then [] else Bits(n / 2, w - 1) + [n % 2 == 1]
  }

  function Number(bits: seq<bool>): (n: nat)
    ensures n < Pow2(|bits|)
  {
    if bits == [] then 0 else 2 * Number(bits[..|bits| - 1]) + if bits[|bits| - 1] then 1 else 0
  }

  lemma {:induction false} NumberOfBits(n: nat, w: nat)
    requires n < Pow2(w)
    ensures Number(Bits(n, w)) == n
  {
    if w > 0 {
      NumberOfBits(n / 2, w - 1);
      assert Bits(n, w)[..w - 1] == Bits(n / 2, w - 1);
    }
  }

  lemma {:induction false} BitsOfNumber(bits: seq<bool>)
    ensures Bits(Number(bits), |bits|) == bits
  {
    if bits != [] {
      BitsOfNumber(bits[..|bits| - 1]);
    }
  }

  // ----- Cutting a bit string into groups of `w` -----

  function Unpack(w: nat, s: seq<nat>): (bits: seq<bool>)
    ensures |bits| == |s| * w
  {
    if s == [] then [] else
      assert |s| * w == w + (|s| - 1) * w;
      Bits(s[0], w) + Unpack(w, s[1..])
  }

  function Pack(w: nat, bits: seq<bool>): (s: seq<nat>)
    requires w > 0
    ensures AllBelow(s, Pow2(w))
    decreases |bits|
  {
    if |bits| < w then [] else [Number(bits[..w])] + Pack(w, bits[w..])
  }

  lemma PackFirst(w: nat, head: seq<bool>, rest: seq<bool>)
    requires w > 0 && |head| == w
    ensures Pack(w, head + rest) == [Number(head)] + Pack(w, rest)
  {
    assert (head + rest)[..w] == head && (head + rest)[w..] == rest;
  }

  lemma {:induction false} PackOfUnpack(w: nat, s: seq<nat>)
    requires w > 0 && AllBelow(s, Pow2(w))
    ensures Pack(w, Unpack(w, s)) == s
  {
    if s != [] {
      PackOfUnpack(w, s[1..]);
      NumberOfBits(s[0], w);
      PackFirst(w, Bits(s[0], w), Unpack(w, s[1..]));
      assert s == [s[0]] + s[1..];
    }
  }

  lemma UnpackFirst(w: nat, x: nat, rest: seq<nat>)
    ensures Unpack(w, [x] + rest) == Bits(x, w) + Unpack(w, rest)
  {
    assert ([x] + rest)[1..] == rest;
  }

  lemma {:induction false} UnpackOfPack(w: nat, bits: seq<bool>, n: nat)
    requires w > 0 && |bits| == n * w
    ensures Unpack(w, Pack(w, bits)) == bits && |Pack(w, bits)| == n
    decreases n
  {
    if n > 0 {
      assert n * w == w + (n - 1) * w;
      var head, rest := bits[..w], bits[w..];
      UnpackOfPack(w, rest, n - 1);
      BitsOfNumber(head);
      assert bits == head + rest;
      PackFirst(w, head, rest);
      UnpackFirst(w, Number(head), Pack(w, rest));
    } else {
      assert bits == [];
    }
  }

  // ----- Bytes to sextets: the same bits, regrouped, with zeros to fill the last sextet -----

  function ZeroBits(n: nat): seq<bool> {
    seq(n, i => false)
  }

  /** Bits missing from the last sextet of `n` bytes. */
  function Fill(n: nat): nat {
    if n % 3 == 0 then 0 else if n % 3 == 1 then 4 else 2
  }

  function Sextets(b: seq<nat>): (s: seq<nat>)
    ensures AllBelow(s, 64)
  {
    PowersOfTwo();
    Pack(6, Unpack(8, b) + ZeroBits(Fill(|b|)))
  }

  /** A lone last sextet is refused, and so are bits set after the last whole byte. */
  function Bytes(s: seq<nat>): (r: Option<seq<nat>>)
    ensures r.Some? ==> AllBelow(r.value, 256)
  {
    var bits := Unpack(6, s);
    var whole := |s| * 6 / 8 * 8;
    if |s| % 4 == 1 || bits[whole..] != ZeroBits(|bits| - whole) then None
    else PowersOfTwo(); Some(Pack(8, bits[..whole]))
  }

  lemma PowersOfTwo()
    ensures Pow2(6) == 64 && Pow2(8) == 256
  {
    assert Pow2(2) == 4 && Pow2(4) == 16;
  }

  /** How many sextets `n` bytes make, and how many bytes those make. */
  lemma Counts(n: nat, k: nat)
    requires n * 8 + Fill(n) == k * 6
    ensures k * 6 / 8 == n && k % 4 != 1
  {
    var q, r := n / 3, n % 3;
    assert n == 3 * q + r;
    assert k == 4 * q + if r == 0 then 0 else if r == 1 then 2 else 3;
  }

  lemma BitCount(n: nat) returns (k: nat)
    ensures n * 8 + Fill(n) == k * 6
  {
    var q, r := n / 3, n % 3;
    assert n == 3 * q + r;
    k := 4 * q + if r == 0 then 0 else if r == 1 then 2 else 3;
  }

  lemma BytesOfSextets(b: seq<nat>)
    requires AllBelow(b, 256)
    ensures Bytes(Sextets(b)) == Some(b) && |Sextets(b)| % 4 != 1
  {
    PowersOfTwo();
    var k := BitCount(|b|);
    Counts(|b|, k);
    var body := Unpack(8, b);
    var bits := body + ZeroBits(Fill(|b|));
    UnpackOfPack(6, bits, k);
    assert bits[..|b| * 8] == body && bits[|b| * 8..] == ZeroBits(Fill(|b|));
    PackOfUnpack(8, b);
  }

  lemma SextetsOfBytes(s: seq<nat>)
    requires AllBelow(s, 64) && Bytes(s).Some?
    ensures Sextets(Bytes(s).value) == s && |Bytes(s).value| == |s| * 6 / 8
  {
    PowersOfTwo();
    var n := |s| * 6 / 8;
    var bits := Unpack(6, s);
    UnpackOfPack(8, bits[..n * 8], n);
    FillOf(|s|);
    assert bits == bits[..n * 8] + ZeroBits(Fill(n));
    PackOfUnpack(6, s);
  }

  lemma FillOf(k: nat)
    requires k % 4 != 1
    ensures k * 6 - k * 6 / 8 * 8 == Fill(k * 6 / 8)
  {
    var q, r := k / 4, k % 4;
    assert k == 4 * q + r;
    assert k * 6 / 8 == 3 * q + r * 6 / 8;
  }

  // ----- Sextets to symbols -----

  function Symbol(a: Alphabet, v: nat): char
    requires v < 64
  {
    if v < 26 then ('A' as int + v) as char
    else if v < 52 then ('a' as int + v - 26) as char
    else if v < 62 then ('0' as int + v - 52) as char
    else if v == 62 then (if a.Standard? then '+' else '-')
    else if a.Standard? then '/' else '_'
  }

  function SymbolValue(a: Alphabet, c: char): (v: Option<nat>)
    ensures v.Some? ==> v.value < 64 && Symbol(a, v.value) == c
  {
    if 'A' <= c <= 'Z' then Some(c as int - 'A' as int)
    else if 'a' <= c <= 'z' then Some(c as int - 'a' as int + 26)
    else if '0' <= c <= '9' then Some(c as int - '0' as int + 52)
    else if c == (if a.Standard? then '+' else '-') then Some(62)
    else if c == (if a.Standard? then '/' else '_') then Some(63)
    else None
  }

  lemma SymbolRoundTrip(a: Alphabet, v: nat)
    requires v < 64
    ensures SymbolValue(a, Symbol(a, v)) == Some(v)
  {
  }

  function Symbols(a: Alphabet, s: seq<nat>): (t: string)
    requires AllBelow(s, 64)
    ensures |t| == |s|
  {
    seq(|s|, i requires 0 <= i < |s| => Symbol(a, s[i]))
  }

  function Values(a: Alphabet, t: string): (s: Option<seq<nat>>)
    ensures s.Some? ==> AllBelow(s.value, 64) && Symbols(a, s.value) == t
  {
    if t == "" then Some([])
    else
      var v := SymbolValue(a, t[0]);
      var rest := Values(a, t[1..]);
      if v.None? || rest.None? then None else Some([v.value] + rest.value)
  }

  lemma {:induction false} ValuesOfSymbols(a: Alphabet, s: seq<nat>)
    requires AllBelow(s, 64)
    ensures Values(a, Symbols(a, s)) == Some(s)
  {
    if s != [] {
      SymbolRoundTrip(a, s[0]);
      ValuesOfSymbols(a, s[1..]);
      assert Symbols(a, s)[1..] == Symbols(a, s[1..]);
      assert s == [s[0]] + s[1..];
    }
  }

  // ----- Whole texts -----

  /** Section 5, no padding. */
  function EncodeUrl(b: seq<nat>): string
    requires AllBelow(b, 256)
  {
    Symbols(UrlSafe, Sextets(b))
  }

  function DecodeUrl(t: string): Option<seq<nat>> {
    match Values(UrlSafe, t)
    case None => None
    case Some(s) => Bytes(s)
  }

  /** The number of `=` after `n` sextets. */
  function PadCount(n: nat): nat {
    (4 - n % 4) % 4
  }

  function Pad(n: nat): string {
    if n == 0 then "" else if n == 1 then "=" else "=="
  }

  /** Section 4, padded to a whole number of groups. */
  function Encode(b: seq<nat>): string
    requires AllBelow(b, 256)
  {
    Symbols(Standard, Sextets(b)) + Pad(PadCount(|Sextets(b)|))
  }

  /** The character `k` places before the end is the padding character. */
  predicate PadAt(t: string, k: nat) {
    1 <= k <= |t| && t[|t| - k] == '='
  }

  /** How many `=` end the text, at most two. */
  function TrailingPad(t: string): (n: nat)
    ensures n <= 2 && n <= |t|
  {
    if PadAt(t, 1) && PadAt(t, 2) then 2 else if PadAt(t, 1) then 1 else 0
  }

  lemma EndsInPad(t: string)
    ensures t[|t| - TrailingPad(t)..] == Pad(TrailingPad(t))
  {
  }

  function Decode(t: string): Option<seq<nat>> {
    if |t| % 4 != 0 then None
    else
      match Body(t)
      case None => None
      case Some(s) => Bytes(s)
  }

  lemma UrlRoundTrip(b: seq<nat>)
    requires AllBelow(b, 256)
    ensures DecodeUrl(EncodeUrl(b)) == Some(b)
  {
    ValuesOfSymbols(UrlSafe, Sextets(b));
    BytesOfSextets(b);
  }

  /** Only an encoding decodes. */
  lemma UrlDecodesOnlyEncodings(t: string)
    requires DecodeUrl(t).Some?
    ensures AllBelow(DecodeUrl(t).value, 256) && EncodeUrl(DecodeUrl(t).value) == t
  {
    SextetsOfBytes(Values(UrlSafe, t).value);
  }

  /** A symbol is never the padding character, and always visible ASCII. */
  lemma NoPadInside(s: seq<nat>)
    requires AllBelow(s, 64)
    ensures '=' !in Symbols(Standard, s)
    ensures forall i :: 0 <= i < |s| ==> ' ' < Symbols(Standard, s)[i] < '\U{7F}'
  {
  }

  lemma PadAfter(body: string, n: nat, k: nat)
    requires '=' !in body && n <= 2 && k >= 1
    ensures PadAt(body + Pad(n), k) <==> k <= n
  {
    var t, pad := body + Pad(n), Pad(n);
    if k <= n {
      assert t[|t| - k] == pad[n - k];
    } else if k <= |t| {
      assert t[|t| - k] == body[|t| - k];
    }
  }

  lemma TrailingPadOf(body: string, n: nat)
    requires '=' !in body && n <= 2
    ensures TrailingPad(body + Pad(n)) == n
  {
    PadAfter(body, n, 1);
    PadAfter(body, n, 2);
  }

  /** Decoding a padded text of sextets is decoding the sextets. */
  lemma DecodePadded(s: seq<nat>, n: nat)
    requires AllBelow(s, 64) && n <= 2 && (|s| + n) % 4 == 0
    ensures Decode(Symbols(Standard, s) + Pad(n)) == Bytes(s)
  {
    var body := Symbols(Standard, s);
    var t := body + Pad(n);
    NoPadInside(s);
    TrailingPadOf(body, n);
    assert |t| == |s| + n;
    assert t[..|t| - n] == body;
    ValuesOfSymbols(Standard, s);
  }

  lemma PadFits(n: nat)
    requires n % 4 != 1
    ensures PadCount(n) <= 2 && (n + PadCount(n)) % 4 == 0
  {
  }

  lemma RoundTrip(b: seq<nat>)
    requires AllBelow(b, 256)
    ensures Decode(Encode(b)) == Some(b)
  {
    BytesOfSextets(b);
    PadFits(|Sextets(b)|);
    DecodePadded(Sextets(b), PadCount(|Sextets(b)|));
  }

  /** The sextets of a text's symbols, without its padding. */
  function Body(t: string): Option<seq<nat>> {
    Values(Standard, t[..|t| - TrailingPad(t)])
  }

  /** A text whose body has values is the symbols of those, and padding. */
  lemma BodyAndPad(t: string)
    requires Body(t).Some?
    ensures t == Symbols(Standard, Body(t).value) + Pad(TrailingPad(t))
  {
    EndsInPad(t);
    assert t == t[..|t| - TrailingPad(t)] + t[|t| - TrailingPad(t)..];
  }

  /** Only the canonical padded encoding decodes. */
  lemma DecodesOnlyEncodings(t: string)
    requires Decode(t).Some?
    ensures AllBelow(Decode(t).value, 256) && Encode(Decode(t).value) == t
  {
    BodyAndPad(t);
    PadFromLength(|t|, TrailingPad(t));
    BodyIsEncoded(Body(t).value, TrailingPad(t));
  }

  lemma BodyIsEncoded(s: seq<nat>, n: nat)
    requires AllBelow(s, 64) && Bytes(s).Some? && PadCount(|s|) == n
    ensures AllBelow(Bytes(s).value, 256) && Encode(Bytes(s).value) == Symbols(Standard, s) + Pad(n)
  {
    SextetsOfBytes(s);
    PaddedIsEncoded(s, Bytes(s).value, n);
  }

  lemma PaddedIsEncoded(s: seq<nat>, b: seq<nat>, n: nat)
    requires AllBelow(s, 64) && AllBelow(b, 256) && Sextets(b) == s && PadCount(|s|) == n
    ensures Encode(b) == Symbols(Standard, s) + Pad(n)
  {
  }

  lemma PadFromLength(len: nat, n: nat)
    requires len % 4 == 0 && n <= 2 && n <= len
    ensures PadCount(len - n) == n
  {
  }

  /** The decoded size, from the text alone. */
  lemma DecodedSize(t: string)
    requires Decode(t).Some?
    ensures |Decode(t).value| == |t| / 4 * 3 - TrailingPad(t)
  {
    BodyAndPad(t);
    SextetsOfBytes(Body(t).value);
    BytesInText(|t|, TrailingPad(t));
  }

  lemma BytesInText(len: nat, n: nat)
    requires len % 4 == 0 && n <= 2 && n <= len
    ensures (len - n) * 6 / 8 == len / 4 * 3 - n
  {
    var q := len / 4;
    assert len == 4 * q && (len - n) * 6 == 8 * (3 * q - n) + 2 * n;
  }
}
