/** Escaping Discord Markdown, and capping a plain reply. */
module Escape {
  import opened Text
  import opened TextCap

  predicate IsMeta(c: char) {
    || c == '\\' || c == '*' || c == '_' || c == '~' || c == '`' || c == '>' || c == '|' || c == '#'
    || c == '-' || c == '+' || c == '.' || c == '!' || c == '[' || c == ']' || c == '(' || c == ')'
  }

  function EscapeChar(c: char): string {
    if IsMeta(c) then ['\\', c] else [c]
  }

  /** A backslash before every active character. */
  function Escaped(s: string): string {
    Flatten(EscapeChar, s)
  }

  lemma EscapedConcat(a: string, b: string)
    ensures Escaped(a + b) == Escaped(a) + Escaped(b)
  {
    FlattenConcat(EscapeChar, a, b);
  }

  lemma EscapedOne(c: char)
    ensures Escaped([c]) == EscapeChar(c)
  {
    assert [c][1..] == "";
    assert Flatten(EscapeChar, [c]) == EscapeChar(c) + Flatten(EscapeChar, "");
  }

  /** The last character's escape comes last. */
  lemma EscapedLast(s: string, n: nat)
    requires |s| == n + 1
    ensures Escaped(s) == Escaped(s[..n]) + EscapeChar(s[n])
  {
    EscapedConcat(s[..n], [s[n]]);
    EscapedOne(s[n]);
    assert s == s[..n] + [s[n]];
  }

  method MdEscape(s: string) returns (out: string)
    ensures out == Escaped(s)
  {
    out := "";
    for i := 0 to |s|
      invariant out == Escaped(s[..i])
    {
      EscapedLast(s[..i + 1], i);
      assert s[..i + 1][..i] == s[..i];
      if IsMeta(s[i]) {
        out := out + ['\\'];
        out := out + [s[i]];
      } else {
        out := out + [s[i]];
      }
    }
    assert s[..|s|] == s;
  }

  // ----- Reading Markdown -----

  /** Emphasis, strikethrough, spoilers and code. */
  predicate IsInline(c: char) {
    c == '*' || c == '_' || c == '~' || c == '|' || c == '`'
  }

  /** Quotes, headings, lists and subtext. */
  predicate IsLineMark(c: char) {
    c == '>' || c == '#' || c == '-' || c == '+' || c == '.'
  }

  /** Links and embeds. */
  predicate IsLink(c: char) {
    c == '[' || c == ']' || c == '(' || c == ')' || c == '!'
  }

  /** Mentions, channels, emoji and timestamps. */
  predicate IsTag(c: char) {
    c == '<' || c == '@' || c == ':'
  }

  /** The characters that can take effect in a Discord message. */
  predicate IsMarkup(c: char) {
    IsInline(c) || IsLineMark(c) || IsLink(c) || IsTag(c)
  }

  predicate HasTag(s: string) {
    exists i :: 0 <= i < |s| && IsTag(s[i])
  }

  /** A backslash escapes ASCII punctuation and nothing else. */
  predicate IsPunctuation(c: char) {
    '!' <= c <= '/' || ':' <= c <= '@' || '[' <= c <= '`' || '{' <= c <= '~'
  }

  /** What a Markdown reader makes of a text: an escaped character stands for itself. */
  datatype Read = Read(shown: string, active: bool, dangling: bool)

  /** One more character. `active`: some character took effect as markup. `dangling`: a backslash waits. */
  function ReadChar(r: Read, c: char): Read {
    if r.dangling then Read(r.shown + (if IsPunctuation(c) then [c] else ['\\', c]), r.active, false)
    else if c == '\\' then Read(r.shown, r.active, true)
    else Read(r.shown + [c], r.active || IsMarkup(c), false)
  }

  function ReadMarkdown(t: string): Read {
    if t == "" then Read("", false, false) else ReadChar(ReadMarkdown(t[..|t| - 1]), t[|t| - 1])
  }

  lemma ReadAppend(t: string, c: char)
    ensures ReadMarkdown(t + [c]) == ReadChar(ReadMarkdown(t), c)
  {
    assert (t + [c])[..|t + [c]| - 1] == t;
  }

  lemma MetaIsPunctuation(c: char)
    ensures IsMeta(c) ==> IsPunctuation(c)
    ensures IsMarkup(c) ==> IsMeta(c) || IsTag(c)
    ensures IsMeta(c) ==> !IsTag(c)
  {
  }

  /** After a complete text, the escape of a character shows that character, which has no effect unless it is a tag's. */
  lemma ReadEscape(head: string, c: char)
    requires !ReadMarkdown(head).dangling
    ensures ReadMarkdown(head + EscapeChar(c))
         == Read(ReadMarkdown(head).shown + [c], ReadMarkdown(head).active || IsTag(c), false)
  {
    MetaIsPunctuation(c);
    if IsMeta(c) {
      ReadAppend(head, '\\');
      ReadAppend(head + ['\\'], c);
      assert head + EscapeChar(c) == head + ['\\'] + [c];
    } else {
      ReadAppend(head, c);
    }
  }

  lemma HasTagLast(s: string, n: nat)
    requires |s| == n + 1
    ensures HasTag(s) <==> HasTag(s[..n]) || IsTag(s[n])
  {
    if HasTag(s[..n]) {
      var i :| 0 <= i < n && IsTag(s[..n][i]);
      assert IsTag(s[i]);
    }
    if HasTag(s) && !IsTag(s[n]) {
      var i :| 0 <= i < |s| && IsTag(s[i]);
      assert IsTag(s[..n][i]);
    }
  }

  /**
   An escaped text shows exactly the original. Some of it takes effect exactly if the original holds a
   tag's character, which is not escaped.
   */
  lemma {:induction false} EscapedShowsOriginal(s: string)
    ensures ReadMarkdown(Escaped(s)) == Read(s, HasTag(s), false)
  {
    if s != "" {
      var n := |s| - 1;
      EscapedShowsOriginal(s[..n]);
      EscapedLast(s, n);
      ReadEscape(Escaped(s[..n]), s[n]);
      HasTagLast(s, n);
      assert s == s[..n] + [s[n]];
    }
  }

  lemma EscapingIsInvertible(s: string, t: string)
    requires Escaped(s) == Escaped(t)
    ensures s == t
  {
    EscapedShowsOriginal(s);
    EscapedShowsOriginal(t);
  }

  /** A prefix of an escaped text is an escaped prefix, with one stray backslash if it splits a pair. */
  lemma {:induction false} PrefixOfEscaped(s: string, k: nat) returns (j: nat)
    requires k <= |Escaped(s)|
    ensures j <= |s|
    ensures Escaped(s)[..k] == Escaped(s[..j])
            || (j < |s| && IsMeta(s[j]) && Escaped(s)[..k] == Escaped(s[..j]) + ['\\'])
    decreases |s|
  {
    if k == |Escaped(s)| {
      j := |s|;
      assert s[..j] == s;
    } else {
      var n := |s| - 1;
      EscapedLast(s, n);
      var head := Escaped(s[..n]);
      if k <= |head| {
        j := PrefixOfEscaped(s[..n], k);
        assert s[..n][..j] == s[..j];
        assert Escaped(s)[..k] == head[..k];
      } else {
        j := n;
        assert Escaped(s)[..k] == head + ['\\'];
      }
    }
  }

  /** However an escaped text is cut, what is left shows a prefix of the original, in which only tags take effect. */
  lemma CutShowsPrefix(s: string, k: nat) returns (j: nat)
    requires k <= |Escaped(s)|
    ensures j <= |s| && ReadMarkdown(Escaped(s)[..k]).shown == s[..j]
    ensures ReadMarkdown(Escaped(s)[..k]).active <==> HasTag(s[..j])
  {
    j := PrefixOfEscaped(s, k);
    EscapedShowsOriginal(s[..j]);
    ReadAppend(Escaped(s[..j]), '\\');
  }

  /** Position `k` of the escaped text is between a backslash and the character it escapes. */
  ghost predicate SplitsPair(s: string, k: nat) {
    exists j :: 0 <= j < |s| && IsMeta(s[j]) && k == |Escaped(s[..j])| + 1
  }

  lemma DanglingCutSplits(s: string, k: nat)
    requires k <= |Escaped(s)| && ReadMarkdown(Escaped(s)[..k]).dangling
    ensures SplitsPair(s, k)
  {
    var j := PrefixOfEscaped(s, k);
    EscapedShowsOriginal(s[..j]);
    assert |Escaped(s)[..k]| == k;
  }

  lemma SplitDangles(s: string, k: nat, j: nat)
    requires k <= |Escaped(s)| && j < |s| && IsMeta(s[j]) && k == |Escaped(s[..j])| + 1
    ensures ReadMarkdown(Escaped(s)[..k]).dangling
  {
    var head := Escaped(s[..j]);
    EscapedPrefix(s, j);
    assert Escaped(s)[..k] == head + ['\\'];
    EscapedShowsOriginal(s[..j]);
    ReadAppend(head, '\\');
  }

  /** The cut leaves a stray backslash exactly if it splits a pair. */
  lemma CutDangles(s: string, k: nat)
    requires k <= |Escaped(s)|
    ensures ReadMarkdown(Escaped(s)[..k]).dangling <==> SplitsPair(s, k)
  {
    if ReadMarkdown(Escaped(s)[..k]).dangling {
      DanglingCutSplits(s, k);
    }
    if SplitsPair(s, k) {
      var j :| 0 <= j < |s| && IsMeta(s[j]) && k == |Escaped(s[..j])| + 1;
      SplitDangles(s, k, j);
    }
  }

  /** The escape of a character stands right after the escape of what precedes it. */
  lemma {:induction false} EscapedPrefix(s: string, i: nat)
    requires i < |s|
    ensures Escaped(s[..i]) + EscapeChar(s[i]) <= Escaped(s)
    decreases |s|
  {
    var n := |s| - 1;
    EscapedLast(s, n);
    if i < n {
      EscapedPrefix(s[..n], i);
      assert s[..n][..i] == s[..i];
    }
  }

  // ----- Capping a reply -----

  const DISCORD_CONTENT_MAX_BYTES := 2000
  const SENTINEL_HEAD := "\n\n*(truncated "
  const SENTINEL_TAIL := " exceeded Discord's 2000-byte content cap)*"
  const TRUNCATION_SENTINEL := SENTINEL_HEAD + "\U{2014}" + SENTINEL_TAIL

  /** What the sentinel leaves of the cap. */
  const REPLY_BUDGET := 1940

  lemma HeadBytes()
    ensures |Utf8(SENTINEL_HEAD)| == 14
  {
    var s := SENTINEL_HEAD;
    assert |s| == 14;
    assert forall i :: 0 <= i < |s| ==> s[i] < '\U{80}';
    Utf8Ascii(s);
  }

  lemma TailBytes()
    ensures |Utf8(SENTINEL_TAIL)| == 43
  {
    var s := SENTINEL_TAIL;
    assert |s| == 43;
    assert forall i :: 0 <= i < |s| ==> s[i] < '\U{80}';
    Utf8Ascii(s);
  }

  lemma SentinelBytes()
    ensures |Utf8(TRUNCATION_SENTINEL)| == DISCORD_CONTENT_MAX_BYTES - REPLY_BUDGET
  {
    HeadBytes();
    TailBytes();
    var dash := "\U{2014}";
    DashBytes(dash);
    Utf8Concat(SENTINEL_HEAD, dash);
    Utf8Concat(SENTINEL_HEAD + dash, SENTINEL_TAIL);
  }

  /** A text under a limit: whole, or as many whole characters as fit beside the sentinel. */
  ghost predicate Clamped(text: string, limit: nat, sentinel: Str, out: Str, kept: nat) {
    && |out| <= limit && kept <= |text|
    && (|Utf8(text)| <= limit ==> out == Utf8(text))
    && (|Utf8(text)| > limit ==> out == Utf8(text[..kept]) + sentinel)
    && (|Utf8(text)| > limit && kept < |text| ==> |Utf8(text[..kept + 1])| + |sentinel| > limit)
  }

  method Clamp(text: string, limit: nat, sentinel: Str) returns (out: Str)
    requires |sentinel| <= limit
    ensures exists kept: nat :: Clamped(text, limit, sentinel, out, kept)
  {
    var bytes := Utf8(text);
    if |bytes| <= limit {
      assert Clamped(text, limit, sentinel, bytes, 0);
      return bytes;
    }
    var budget := limit - |sentinel|;
    var end := FloorBoundary(bytes, budget);
    ghost var kept := CutKeepsTheMost(text, budget, end);
    out := bytes[..end] + sentinel;
    assert Clamped(text, limit, sentinel, out, kept);
  }

  /** A plain reply, escaped and capped. */
  method ClampPlainText(raw: string) returns (out: Str)
    ensures exists kept: nat :: Clamped(Escaped(raw), DISCORD_CONTENT_MAX_BYTES, Utf8(TRUNCATION_SENTINEL), out, kept)
  {
    var text := MdEscape(raw);
    SentinelBytes();
    out := Clamp(text, DISCORD_CONTENT_MAX_BYTES, Utf8(TRUNCATION_SENTINEL));
  }

  // ----- Where the cap cuts -----

  /** A reply's escape reaches byte 1939 right before a character that is escaped. */
  ghost predicate PairAtBudget(raw: string) {
    exists j :: 0 <= j < |raw| && IsMeta(raw[j]) && |Utf8(Escaped(raw[..j]))| + 1 == REPLY_BUDGET
  }

  /** The bytes up to and past the backslash of an escaped character. */
  lemma PairBytes(raw: string, j: nat)
    requires j < |raw| && IsMeta(raw[j])
    ensures var text, at := Escaped(raw), |Escaped(raw[..j])|;
            && at + 2 <= |text|
            && |Utf8(text[..at + 1])| == |Utf8(Escaped(raw[..j]))| + 1
            && |Utf8(text[..at + 2])| == |Utf8(Escaped(raw[..j]))| + 2
  {
    var text, head := Escaped(raw), Escaped(raw[..j]);
    EscapedPrefix(raw, j);
    var pair := EscapeChar(raw[j]);
    assert text[..|head| + 1] == head + [pair[0]];
    assert text[..|head| + 2] == head + pair;
    Utf8Concat(head, [pair[0]]);
    Utf8Concat(head, pair);
    MetaIsPunctuation(raw[j]);
    Utf8Ascii([pair[0]]);
    Utf8Ascii(pair);
  }

  /** Which characters a reply over the cap keeps. */
  ghost predicate Keeps(text: string, kept: nat) {
    && kept <= |text| && |Utf8(text[..kept])| <= REPLY_BUDGET
    && (kept < |text| ==> |Utf8(text[..kept + 1])| > REPLY_BUDGET)
  }

  lemma ClampedKeeps(text: string, out: Str, kept: nat)
    requires Clamped(text, DISCORD_CONTENT_MAX_BYTES, Utf8(TRUNCATION_SENTINEL), out, kept)
    requires |Utf8(text)| > DISCORD_CONTENT_MAX_BYTES
    ensures Keeps(text, kept) && out == Utf8(text[..kept] + TRUNCATION_SENTINEL)
  {
    SentinelBytes();
    Utf8Concat(text[..kept], TRUNCATION_SENTINEL);
  }

  lemma PairAtBudgetDangles(raw: string, kept: nat, j: nat)
    requires Keeps(Escaped(raw), kept)
    requires j < |raw| && IsMeta(raw[j]) && |Utf8(Escaped(raw[..j]))| + 1 == REPLY_BUDGET
    ensures kept == |Escaped(raw[..j])| + 1
  {
    var text, at := Escaped(raw), |Escaped(raw[..j])| + 1;
    PairBytes(raw, j);
    if kept < at && kept + 1 < at {
      Utf8PrefixGrows(text, kept + 1, at);
    } else if kept > at {
      Utf8PrefixGrows(text, at, kept);
    }
  }

  lemma DanglingIsPairAtBudget(raw: string, kept: nat, j: nat)
    requires Keeps(Escaped(raw), kept)
    requires j < |raw| && IsMeta(raw[j]) && kept == |Escaped(raw[..j])| + 1
    ensures |Utf8(Escaped(raw[..j]))| + 1 == REPLY_BUDGET
  {
    PairBytes(raw, j);
  }

  /**
   A reply over the cap ends in a stray backslash, just before the sentinel, exactly if an escaped
   character's backslash would be byte 1940.
   */
  lemma ReplyDangles(raw: string, kept: nat)
    requires Keeps(Escaped(raw), kept)
    ensures ReadMarkdown(Escaped(raw)[..kept]).dangling <==> PairAtBudget(raw)
  {
    CutDangles(raw, kept);
    if SplitsPair(raw, kept) {
      var j :| 0 <= j < |raw| && IsMeta(raw[j]) && kept == |Escaped(raw[..j])| + 1;
      DanglingIsPairAtBudget(raw, kept, j);
    }
    if PairAtBudget(raw) {
      var j :| 0 <= j < |raw| && IsMeta(raw[j]) && |Utf8(Escaped(raw[..j]))| + 1 == REPLY_BUDGET;
      PairAtBudgetDangles(raw, kept, j);
    }
  }

  // ----- What a capped reply shows -----

  /** `read` takes one more character as the reader does. */
  ghost predicate ReadsOn(read: string -> Read, t: string, c: char) {
    read(t + [c]) == ReadChar(read(t), c)
  }

  lemma {:induction false} ReadPlainBy(read: string -> Read, t: string, more: string, n: nat)
    requires forall u, c :: ReadsOn(read, u, c)
    requires n <= |more| && !read(t).dangling && '\\' !in more
    ensures read(t + more[..n]).shown == read(t).shown + more[..n] && !read(t + more[..n]).dangling
  {
    if n == 0 {
      assert t + more[..n] == t && read(t).shown + more[..n] == read(t).shown;
    } else {
      ReadPlainBy(read, t, more, n - 1);
      assert ReadsOn(read, t + more[..n - 1], more[n - 1]);
      assert more[..n] == more[..n - 1] + [more[n - 1]];
      assert t + more[..n] == t + more[..n - 1] + [more[n - 1]];
    }
  }

  lemma ReadPlain(t: string, more: string)
    requires !ReadMarkdown(t).dangling && '\\' !in more
    ensures ReadMarkdown(t + more).shown == ReadMarkdown(t).shown + more && !ReadMarkdown(t + more).dangling
  {
    forall u, c ensures ReadsOn(ReadMarkdown, u, c) {
      ReadAppend(u, c);
    }
    ReadPlainBy(ReadMarkdown, t, more, |more|);
    assert more[..|more|] == more;
  }

  lemma ReadAfterStrayBy(read: string -> Read, t: string, more: string)
    requires forall u, c :: ReadsOn(read, u, c)
    requires read(t).dangling && more != "" && !IsPunctuation(more[0]) && '\\' !in more
    ensures read(t + more).shown == read(t).shown + "\\" + more
  {
    var c, rest := more[0], more[1..];
    assert ReadsOn(read, t, c);
    ReadPlainBy(read, t + [c], rest, |rest|);
    assert rest[..|rest|] == rest && t + more == t + [c] + rest;
    assert read(t).shown + "\\" + more == read(t).shown + ['\\', c] + rest;
  }

  lemma ReadAfterStray(t: string, more: string)
    requires ReadMarkdown(t).dangling && more != "" && !IsPunctuation(more[0]) && '\\' !in more
    ensures ReadMarkdown(t + more).shown == ReadMarkdown(t).shown + "\\" + more
  {
    forall u, c ensures ReadsOn(ReadMarkdown, u, c) {
      ReadAppend(u, c);
    }
    ReadAfterStrayBy(ReadMarkdown, t, more);
  }

  lemma SentinelIsPlain(s: string)
    requires s == TRUNCATION_SENTINEL
    ensures s != "" && s[0] == '\n' && !IsPunctuation(s[0]) && '\\' !in s
  {
    assert '\\' !in SENTINEL_HEAD && '\\' !in SENTINEL_TAIL;
    assert s[0] == SENTINEL_HEAD[0] == '\n';
  }

  /** A capped reply shows a prefix of the reply, the stray backslash if there is one, and the sentinel. */
  lemma CappedReplyShows(raw: string, kept: nat) returns (j: nat)
    requires Keeps(Escaped(raw), kept)
    ensures j <= |raw|
    ensures ReadMarkdown(Escaped(raw)[..kept] + TRUNCATION_SENTINEL).shown
            == raw[..j] + (if PairAtBudget(raw) then "\\" else "") + TRUNCATION_SENTINEL
  {
    var t, s := Escaped(raw)[..kept], TRUNCATION_SENTINEL;
    j := CutShowsPrefix(raw, kept);
    ReplyDangles(raw, kept);
    SentinelIsPlain(s);
    if PairAtBudget(raw) {
      ReadAfterStray(t, s);
    } else {
      ReadPlain(t, s);
      assert raw[..j] + "" == raw[..j];
    }
  }

  /** The reply that is sent, read by a client. */
  lemma CappedReply(raw: string, out: Str) returns (t: string, j: nat)
    requires |Utf8(Escaped(raw))| > DISCORD_CONTENT_MAX_BYTES
    requires exists kept: nat :: Clamped(Escaped(raw), DISCORD_CONTENT_MAX_BYTES, Utf8(TRUNCATION_SENTINEL), out, kept)
    ensures out == Utf8(t) && j <= |raw|
    ensures ReadMarkdown(t).shown == raw[..j] + (if PairAtBudget(raw) then "\\" else "") + TRUNCATION_SENTINEL
  {
    var kept: nat :| Clamped(Escaped(raw), DISCORD_CONTENT_MAX_BYTES, Utf8(TRUNCATION_SENTINEL), out, kept);
    ClampedKeeps(Escaped(raw), out, kept);
    t := Escaped(raw)[..kept] + TRUNCATION_SENTINEL;
    j := CappedReplyShows(raw, kept);
  }

  // ----- A reply that ends in a stray backslash -----

  lemma {:induction false} PlainIsItsEscape(s: string)
    requires forall i :: 0 <= i < |s| ==> !IsMeta(s[i])
    ensures Escaped(s) == s
  {
    if s != "" {
      PlainIsItsEscape(s[..|s| - 1]);
      EscapedLast(s, |s| - 1);
      assert s == s[..|s| - 1] + [s[|s| - 1]];
    }
  }

  lemma {:induction false} StarsDouble(s: string)
    requires forall i :: 0 <= i < |s| ==> s[i] == '*'
    ensures |Escaped(s)| == 2 * |s| && forall i :: 0 <= i < |Escaped(s)| ==> Escaped(s)[i] < '\U{80}'
  {
    if s != "" {
      StarsDouble(s[..|s| - 1]);
      EscapedLast(s, |s| - 1);
    }
  }

  /** 1939 letters and 31 asterisks: over the cap, and cut between a backslash and its asterisk. */
  lemma StrayBackslash(a: string, stars: string)
    requires |a| == 1939 && forall i :: 0 <= i < |a| ==> a[i] == 'a'
    requires |stars| == 31 && forall i :: 0 <= i < |stars| ==> stars[i] == '*'
    ensures |Utf8(Escaped(a + stars))| > DISCORD_CONTENT_MAX_BYTES && PairAtBudget(a + stars)
  {
    EscapedConcat(a, stars);
    PlainIsItsEscape(a);
    StarsDouble(stars);
    Utf8Concat(a, Escaped(stars));
    Utf8Ascii(a);
    Utf8Ascii(Escaped(stars));
    var raw := a + stars;
    assert raw[..1939] == a && IsMeta(raw[1939]);
  }

  // ----- Mentions -----

  /** The text holds `word` from position `i` on. */
  predicate HoldsAt(t: string, word: string, i: nat) {
    i + |word| <= |t| && t[i..i + |word|] == word
  }

  ghost predicate Mentions(t: string, word: string) {
    exists i: nat :: HoldsAt(t, word, i)
  }

  lemma HeldChar(t: string, word: string, i: nat, k: nat)
    requires HoldsAt(t, word, i) && k < |word|
    ensures word[k] == t[i + k]
  {
    assert t[i..i + |word|][k] == t[i + k];
  }

  lemma {:induction false} PlainPrefix(word: string, t: string)
    requires word <= Escaped(t) && forall i :: 0 <= i < |word| ==> !IsMeta(word[i])
    ensures word <= t
    decreases |word|
  {
    if word != "" {
      assert Escaped(t) == EscapeChar(t[0]) + Escaped(t[1..]);
      assert Escaped(t)[0] == word[0];
      assert !IsMeta(t[0]);
      assert word[1..] <= Escaped(t[1..]);
      PlainPrefix(word[1..], t[1..]);
    }
  }

  predicate IsPlain(word: string) {
    word != "" && forall i :: 0 <= i < |word| ==> !IsMeta(word[i])
  }

  /** A plain word stands in the escaped text right after the escape of what precedes it. */
  lemma PlainWordAt(raw: string, word: string, i: nat)
    requires IsPlain(word) && HoldsAt(raw, word, i)
    ensures Escaped(raw[..i + |word|]) == Escaped(raw[..i]) + word <= Escaped(raw)
  {
    var before, after := raw[..i], raw[i + |word|..];
    assert raw[..i + |word|] == before + word && raw == before + word + after;
    EscapedConcat(before + word, after);
    EscapedConcat(before, word);
    PlainIsItsEscape(word);
  }

  lemma AfterStray(raw: string, i: nat, j: nat)
    requires i < |Escaped(raw)| && j < |raw| && IsMeta(raw[j]) && Escaped(raw)[..i] == Escaped(raw[..j]) + ['\\']
    ensures IsMeta(Escaped(raw)[i])
  {
    EscapedPrefix(raw, j);
    assert |Escaped(raw)[..i]| == i;
    assert Escaped(raw)[i] == (Escaped(raw[..j]) + EscapeChar(raw[j]))[i];
  }

  /** Where a plain word of the escaped text comes from. */
  lemma MentionOrigin(raw: string, word: string, i: nat) returns (j: nat)
    requires IsPlain(word) && HoldsAt(Escaped(raw), word, i)
    ensures HoldsAt(raw, word, j) && |Escaped(raw[..j + |word|])| == i + |word|
  {
    var text := Escaped(raw);
    j := PrefixOfEscaped(raw, i);
    var head := Escaped(raw[..j]);
    assert text[i] == word[0] by { assert text[i..i + |word|][0] == word[0]; }
    if text[..i] != head {
      AfterStray(raw, i, j);
    }
    assert text[..i] == head;
    EscapedConcat(raw[..j], raw[j..]);
    assert raw == raw[..j] + raw[j..];
    assert text[i..] == Escaped(raw[j..]);
    assert word == text[i..][..|word|];
    PlainPrefix(word, raw[j..]);
    assert raw[j..j + |word|] == raw[j..][..|word|];
    PlainWordAt(raw, word, j);
  }

  /** Escaping neither hides nor makes a plain word. */
  lemma MentionsSurvive(raw: string, word: string)
    requires IsPlain(word)
    ensures Mentions(Escaped(raw), word) <==> Mentions(raw, word)
  {
    if Mentions(raw, word) {
      var i: nat :| HoldsAt(raw, word, i);
      PlainWordAt(raw, word, i);
      assert HoldsAt(Escaped(raw), word, |Escaped(raw[..i])|);
    }
    if Mentions(Escaped(raw), word) {
      var i: nat :| HoldsAt(Escaped(raw), word, i);
      var j := MentionOrigin(raw, word, i);
    }
  }

  /** The raw text holds the word early enough to be kept by the cap. */
  ghost predicate MentionsEarly(raw: string, word: string) {
    exists i: nat :: HoldsAt(raw, word, i) && |Utf8(Escaped(raw[..i + |word|]))| <= REPLY_BUDGET
  }

  /** A prefix is kept exactly if its bytes fit. */
  lemma KeptIffFits(text: string, kept: nat, e: nat)
    requires Keeps(text, kept) && e <= |text|
    ensures e <= kept <==> |Utf8(text[..e])| <= REPLY_BUDGET
  {
    if e < kept {
      Utf8PrefixGrows(text, e, kept);
    } else if e > kept + 1 {
      Utf8PrefixGrows(text, kept + 1, e);
    }
  }

  lemma EarlyIsKept(raw: string, word: string, kept: nat, i: nat)
    requires IsPlain(word) && Keeps(Escaped(raw), kept)
    requires HoldsAt(raw, word, i) && |Utf8(Escaped(raw[..i + |word|]))| <= REPLY_BUDGET
    ensures Mentions(Escaped(raw)[..kept], word)
  {
    var text, at := Escaped(raw), |Escaped(raw[..i])|;
    PlainWordAt(raw, word, i);
    assert text[..at + |word|] == Escaped(raw[..i + |word|]);
    KeptIffFits(text, kept, at + |word|);
    assert text[..kept][at..at + |word|] == text[..at + |word|][at..] == word;
    assert HoldsAt(text[..kept], word, at);
  }

  lemma KeptIsEarly(raw: string, word: string, kept: nat, p: nat)
    requires IsPlain(word) && Keeps(Escaped(raw), kept) && HoldsAt(Escaped(raw)[..kept], word, p)
    ensures MentionsEarly(raw, word)
  {
    var text := Escaped(raw);
    assert text[p..p + |word|] == text[..kept][p..p + |word|];
    var j := MentionOrigin(raw, word, p);
    PlainWordAt(raw, word, j);
    assert text[..p + |word|] == Escaped(raw[..j + |word|]);
    KeptIffFits(text, kept, p + |word|);
  }

  lemma KeptMentions(raw: string, word: string, kept: nat)
    requires IsPlain(word) && Keeps(Escaped(raw), kept)
    ensures Mentions(Escaped(raw)[..kept], word) <==> MentionsEarly(raw, word)
  {
    if MentionsEarly(raw, word) {
      var i: nat :| HoldsAt(raw, word, i) && |Utf8(Escaped(raw[..i + |word|]))| <= REPLY_BUDGET;
      EarlyIsKept(raw, word, kept, i);
    }
    if Mentions(Escaped(raw)[..kept], word) {
      var p: nat :| HoldsAt(Escaped(raw)[..kept], word, p);
      KeptIsEarly(raw, word, kept, p);
    }
  }

  /** A word without a newline does not reach over one. */
  lemma MentionsOfTwo(a: string, b: string, word: string)
    requires word != "" && '\n' !in word && b != "" && b[0] == '\n'
    ensures Mentions(a + b, word) <==> Mentions(a, word) || Mentions(b, word)
  {
    var t := a + b;
    if Mentions(a, word) {
      var i: nat :| HoldsAt(a, word, i);
      assert t[i..i + |word|] == a[i..i + |word|];
      assert HoldsAt(t, word, i);
    }
    if Mentions(b, word) {
      var i: nat :| HoldsAt(b, word, i);
      assert t[|a| + i..|a| + i + |word|] == b[i..i + |word|];
      assert HoldsAt(t, word, |a| + i);
    }
    if Mentions(t, word) {
      var i: nat :| HoldsAt(t, word, i);
      MentionOnOneSide(a, b, word, i);
    }
  }

  lemma AcrossIsNewline(a: string, b: string, word: string, i: nat)
    requires HoldsAt(a + b, word, i) && i <= |a| < i + |word| && b != "" && b[0] == '\n'
    ensures '\n' in word
  {
    HeldChar(a + b, word, i, |a| - i);
  }

  lemma MentionOnOneSide(a: string, b: string, word: string, i: nat)
    requires word != "" && '\n' !in word && b != "" && b[0] == '\n' && HoldsAt(a + b, word, i)
    ensures Mentions(a, word) || Mentions(b, word)
  {
    var t := a + b;
    if i + |word| <= |a| {
      assert a[i..i + |word|] == t[i..i + |word|];
      assert HoldsAt(a, word, i);
    } else if i >= |a| {
      assert b[i - |a|..i - |a| + |word|] == t[i..i + |word|];
      assert HoldsAt(b, word, i - |a|);
    } else {
      AcrossIsNewline(a, b, word, i);
    }
  }

  /**
   The reply that is sent holds a plain word of one line, such as a mention, exactly if the tool's text
   holds it and the cap keeps it, or if it is in the sentinel. So `@everyone` gets through.
   */
  lemma MentionsInReply(raw: string, word: string, out: Str) returns (t: string)
    requires IsPlain(word) && '\n' !in word
    requires exists kept: nat :: Clamped(Escaped(raw), DISCORD_CONTENT_MAX_BYTES, Utf8(TRUNCATION_SENTINEL), out, kept)
    ensures out == Utf8(t)
    ensures Mentions(t, word) <==>
              if |Utf8(Escaped(raw))| <= DISCORD_CONTENT_MAX_BYTES then Mentions(raw, word)
              else MentionsEarly(raw, word) || Mentions(TRUNCATION_SENTINEL, word)
  {
    var text, s := Escaped(raw), TRUNCATION_SENTINEL;
    var kept: nat :| Clamped(text, DISCORD_CONTENT_MAX_BYTES, Utf8(TRUNCATION_SENTINEL), out, kept);
    if |Utf8(text)| <= DISCORD_CONTENT_MAX_BYTES {
      t := text;
      MentionsSurvive(raw, word);
    } else {
      ClampedKeeps(text, out, kept);
      t := text[..kept] + s;
      KeptMentions(raw, word, kept);
      SentinelIsPlain(s);
      MentionsOfTwo(text[..kept], s, word);
    }
  }

  // ----- A mention that is sent, and one that is not -----

  lemma EveryoneIsPlain(word: string)
    requires word == "@everyone"
    ensures IsPlain(word) && '\n' !in word && Escaped(word) == word && |Utf8(word)| == 9
  {
    PlainIsItsEscape(word);
    Utf8Ascii(word);
  }

  lemma SentinelHoldsNoAt(word: string, s: string)
    requires s == TRUNCATION_SENTINEL && word != "" && word[0] == '@'
    ensures !Mentions(s, word)
  {
    assert '@' !in SENTINEL_HEAD && '@' !in SENTINEL_TAIL;
    assert '@' !in s;
    forall i: nat ensures !HoldsAt(s, word, i) {
      if HoldsAt(s, word, i) {
        HeldChar(s, word, i, 0);
      }
    }
  }

  /** `@everyone` alone is sent as it is. */
  lemma EveryoneIsSent(word: string, out: Str)
    requires word == "@everyone"
    requires exists kept: nat :: Clamped(Escaped(word), DISCORD_CONTENT_MAX_BYTES, Utf8(TRUNCATION_SENTINEL), out, kept)
    ensures out == Utf8(word)
  {
    EveryoneIsPlain(word);
  }

  /** After 3000 letters it is cut off. */
  lemma LateEveryoneIsCut(a: string, word: string, out: Str) returns (t: string)
    requires |a| == 3000 && (forall i :: 0 <= i < |a| ==> a[i] == 'a') && word == "@everyone"
    requires exists kept: nat ::
               Clamped(Escaped(a + word), DISCORD_CONTENT_MAX_BYTES, Utf8(TRUNCATION_SENTINEL), out, kept)
    ensures Mentions(a + word, word) && out == Utf8(t) && !Mentions(t, word)
  {
    var raw := a + word;
    EveryoneIsPlain(word);
    PlainIsItsEscape(a);
    EscapedConcat(a, word);
    Utf8Concat(a, word);
    Utf8Ascii(a);
    t := MentionsInReply(raw, word, out);
    SentinelHoldsNoAt(word, TRUNCATION_SENTINEL);
    assert HoldsAt(raw, word, 3000);
    if MentionsEarly(raw, word) {
      var i: nat :| HoldsAt(raw, word, i) && |Utf8(Escaped(raw[..i + |word|]))| <= REPLY_BUDGET;
      LettersHoldNoAt(a, word, i);
    }
  }

  /** A word that begins with `@` stands after the letters, past what the cap keeps. */
  lemma LettersHoldNoAt(a: string, word: string, i: nat)
    requires |a| == 3000 && (forall k :: 0 <= k < |a| ==> a[k] == 'a') && word != "" && word[0] == '@'
    requires HoldsAt(a + word, word, i)
    ensures |Utf8(Escaped((a + word)[..i + |word|]))| > REPLY_BUDGET
  {
    var raw := a + word;
    HeldChar(raw, word, i, 0);
    assert i >= |a|;
    assert raw[..i + |word|] == a + raw[|a|..i + |word|];
    EscapedConcat(a, raw[|a|..i + |word|]);
    PlainIsItsEscape(a);
    Utf8Concat(a, Escaped(raw[|a|..i + |word|]));
    Utf8Ascii(a);
  }
}
