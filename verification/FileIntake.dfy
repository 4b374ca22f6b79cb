/**
 A turn's files: what the A2A intake admits, refuses and counts, and how events come to point at the
 entries made from their uploads.
 */
module FileIntake {
  import opened Text
  import Base64

  const MAX_A2UI_EVENTS := 8
  const MAX_CLIENT_FILES := 10
  const MAX_CLIENT_FILE_BYTES := 10 * 1024 * 1024
  const MAX_CLIENT_FILES_TOTAL_BYTES := 25 * 1024 * 1024

  datatype Source = FromPart | FromUpload
  datatype Refusal = TooLarge | Invalid | LinkOnly

  /** One file as it arrives: base64 text, or the reason it has no usable content. */
  datatype Payload = Inline(b64: string) | Unusable(reason: Refusal)
  datatype Upload = Upload(source: Source, name: Option<string>, payload: Payload)

  datatype Content = Stored(size: nat, b64: string) | Refused(error: Refusal)
  datatype Entry = Entry(source: Source, name: Option<string>, content: Content)
  datatype Listed = File(entry: Entry) | TooMany(count: nat)

  // ----- One file -----

  /** What the turn and the file limit leave. */
  function Room(total: nat): nat
    requires total <= MAX_CLIENT_FILES_TOTAL_BYTES
  {
    var left := MAX_CLIENT_FILES_TOTAL_BYTES - total;
    if MAX_CLIENT_FILE_BYTES <= left then MAX_CLIENT_FILE_BYTES else left
  }

  /** The verdict on one base64 text, from the encoded length where that is enough. */
  function Decoded(text: string, total: nat): Content
    requires total <= MAX_CLIENT_FILES_TOTAL_BYTES
  {
    var b64 := Trim(text);
    if ByteLen(b64) / 4 * 3 > Room(total) + 3 then Refused(TooLarge)
    else
      match Base64.Decode(b64)
      case None => Refused(Invalid)
      case Some(bytes) => if |bytes| > Room(total) then Refused(TooLarge) else Stored(|bytes|, b64)
  }

  function ContentOf(p: Payload, total: nat): Content
    requires total <= MAX_CLIENT_FILES_TOTAL_BYTES
  {
    match p
    case Inline(b64) => Decoded(b64, total)
    case Unusable(reason) => Refused(reason)
  }

  function EntryOf(u: Upload, total: nat): Entry
    requires total <= MAX_CLIENT_FILES_TOTAL_BYTES
  {
    Entry(u.source, u.name, ContentOf(u.payload, total))
  }

  function SizeOf(c: Content): nat {
    if c.Stored? then c.size else 0
  }

  lemma {:induction false} ValuesAreAscii(t: string)
    requires Base64.Values(Base64.Standard, t).Some?
    ensures forall i :: 0 <= i < |t| ==> t[i] < '\U{80}'
  {
    if t != "" {
      ValuesAreAscii(t[1..]);
      assert forall i :: 0 < i < |t| ==> t[i] == t[1..][i - 1];
    }
  }

  lemma PaddedIsAscii(t: string, n: nat)
    requires n <= |t| && t[|t| - n..] == Base64.Pad(n)
    requires Base64.Values(Base64.Standard, t[..|t| - n]).Some?
    ensures ByteLen(t) == |t|
  {
    var body := t[..|t| - n];
    ValuesAreAscii(body);
    assert t == body + Base64.Pad(n);
    AsciiLength(t);
  }

  lemma DecodableBody(t: string)
    requires Base64.Decode(t).Some?
    ensures Base64.Values(Base64.Standard, t[..|t| - Base64.TrailingPad(t)]).Some?
  {
  }

  lemma DecodableIsAscii(t: string)
    requires Base64.Decode(t).Some?
    ensures ByteLen(t) == |t|
  {
    DecodableBody(t);
    PaddedIsAscii(t, Base64.TrailingPad(t));
  }

  /**
   The length shortcut refines decoding: a valid text is refused as too large exactly if its bytes do
   not fit the room, and otherwise stored whole; an invalid one is never stored.
   */
  lemma ShortcutRefinesDecoding(text: string, total: nat)
    requires total <= MAX_CLIENT_FILES_TOTAL_BYTES
    ensures var b := Base64.Decode(Trim(text));
            Decoded(text, total) ==
            if b.None? then Refused(if ByteLen(Trim(text)) / 4 * 3 > Room(total) + 3 then TooLarge else Invalid)
            else if |b.value| > Room(total) then Refused(TooLarge)
            else Stored(|b.value|, Trim(text))
  {
    var t := Trim(text);
    if Base64.Decode(t).Some? {
      DecodableIsAscii(t);
      Base64.DecodedSize(t);
    }
  }

  // ----- A sequence of files -----

  datatype Intake = Intake(files: seq<Entry>, total: nat, overflow: nat)

  /** The intake after the first `n` of these uploads. */
  function After(uploads: seq<Upload>, n: nat): (s: Intake)
    requires n <= |uploads|
    ensures s.total <= MAX_CLIENT_FILES_TOTAL_BYTES
  {
    if n == 0 then Intake([], 0, 0)
    else
      var s := After(uploads, n - 1);
      var u := uploads[n - 1];
      if |s.files| >= MAX_CLIENT_FILES then s.(overflow := s.overflow + 1)
      else
        var e := EntryOf(u, s.total);
        Intake(s.files + [e], s.total + SizeOf(e.content), s.overflow)
  }

  function Admitted(uploads: seq<Upload>): Intake {
    After(uploads, |uploads|)
  }

  /** The stored bytes of the first `n` entries. */
  function Sizes(files: seq<Entry>, n: nat): nat
    requires n <= |files|
  {
    if n == 0 then 0 else Sizes(files, n - 1) + SizeOf(files[n - 1].content)
  }

  lemma {:induction false} SizesPrefix(head: seq<Entry>, files: seq<Entry>, n: nat)
    requires n <= |head| && head <= files
    ensures Sizes(head, n) == Sizes(files, n)
  {
    if n > 0 {
      SizesPrefix(head, files, n - 1);
    }
  }

  lemma {:induction false} OneEntryEachAfter(uploads: seq<Upload>, n: nat)
    requires n <= |uploads|
    ensures var s := After(uploads, n);
            && |s.files| == (if n <= MAX_CLIENT_FILES then n else MAX_CLIENT_FILES)
            && |s.files| + s.overflow == n
            && s.total == Sizes(s.files, |s.files|)
  {
    if n > 0 {
      OneEntryEachAfter(uploads, n - 1);
      if n <= MAX_CLIENT_FILES {
        SizesPrefix(After(uploads, n - 1).files, After(uploads, n).files, n - 1);
      }
    }
  }

  /** The first ten uploads get an entry each, in order; the rest are counted. */
  lemma OneEntryEach(uploads: seq<Upload>)
    ensures var s := Admitted(uploads);
            && |s.files| == (if |uploads| <= MAX_CLIENT_FILES then |uploads| else MAX_CLIENT_FILES)
            && |s.files| + s.overflow == |uploads|
            && s.total == Sizes(s.files, |s.files|)
  {
    OneEntryEachAfter(uploads, |uploads|);
  }

  /** What comes later is not seen. */
  lemma {:induction false} AfterPrefix(uploads: seq<Upload>, more: seq<Upload>, n: nat)
    requires n <= |uploads|
    ensures After(uploads + more, n) == After(uploads, n)
  {
    if n > 0 {
      AfterPrefix(uploads, more, n - 1);
    }
  }

  /** One more upload. */
  lemma AdmittedAppend(head: seq<Upload>, u: Upload)
    ensures var s := Admitted(head);
            Admitted(head + [u]) ==
            if |s.files| >= MAX_CLIENT_FILES then s.(overflow := s.overflow + 1)
            else Intake(s.files + [EntryOf(u, s.total)], s.total + SizeOf(ContentOf(u.payload, s.total)), s.overflow)
  {
    AfterPrefix(head, [u], |head|);
  }

  /** What one more upload makes of the intake `s`. */
  function Next(s: Intake, u: Upload): Intake
    requires s.total <= MAX_CLIENT_FILES_TOTAL_BYTES
  {
    if |s.files| >= MAX_CLIENT_FILES then s.(overflow := s.overflow + 1)
    else Intake(s.files + [EntryOf(u, s.total)], s.total + SizeOf(ContentOf(u.payload, s.total)), s.overflow)
  }

  lemma AdmitNext(log: seq<Upload>, u: Upload, s: Intake)
    requires Admitted(log) == s
    ensures s.total <= MAX_CLIENT_FILES_TOTAL_BYTES && Admitted(log + [u]) == Next(s, u)
    ensures |s.files| == if |log| <= MAX_CLIENT_FILES then |log| else MAX_CLIENT_FILES
  {
    AdmittedAppend(log, u);
    OneEntryEach(log);
  }

  /** Later uploads never disturb an entry. */
  lemma {:induction false} EntriesStay(uploads: seq<Upload>, n: nat)
    requires n <= |uploads|
    ensures After(uploads, n).files <= Admitted(uploads).files
    decreases |uploads| - n
  {
    if n < |uploads| {
      EntriesStay(uploads, n + 1);
    }
  }

  /** Entry `i` is made from upload `i`, under the room left by the entries before it. */
  lemma EntryOfUpload(uploads: seq<Upload>, i: nat)
    requires i < |uploads| && i < MAX_CLIENT_FILES
    ensures i < |Admitted(uploads).files|
    ensures Sizes(Admitted(uploads).files, i) <= MAX_CLIENT_FILES_TOTAL_BYTES
    ensures Admitted(uploads).files[i] == EntryOf(uploads[i], Sizes(Admitted(uploads).files, i))
  {
    OneEntryEachAfter(uploads, i);
    EntriesStay(uploads, i + 1);
    EntriesStay(uploads, i);
    SizesPrefix(After(uploads, i).files, Admitted(uploads).files, i);
  }

  /** The list handed on: the entries, then one marker if any were left out. */
  function Listing(s: Intake): seq<Listed> {
    var files := seq(|s.files|, i requires 0 <= i < |s.files| => File(s.files[i]));
    if s.overflow > 0 then files + [TooMany(s.overflow)] else files
  }

  /** At most ten entries and one marker, the marker last and exact; stored bytes within every limit. */
  lemma ListingWithinLimits(uploads: seq<Upload>)
    ensures var l := Listing(Admitted(uploads));
            && |l| <= MAX_CLIENT_FILES + 1
            && (forall i :: 0 <= i < |l| ==> (l[i].TooMany? <==> i == MAX_CLIENT_FILES))
            && (|l| > MAX_CLIENT_FILES <==> |uploads| > MAX_CLIENT_FILES)
            && (|l| > MAX_CLIENT_FILES ==> l[MAX_CLIENT_FILES].count == |uploads| - MAX_CLIENT_FILES)
    ensures Sizes(Admitted(uploads).files, |Admitted(uploads).files|) <= MAX_CLIENT_FILES_TOTAL_BYTES
  {
    OneEntryEach(uploads);
  }

  // ----- Uploads inside an event -----

  /**
   A context file: the payload of its inline data if it has any (`DataUri` of that value), and its
   link, if it has one.
   */
  datatype Picked = NotObject | Object(data: Option<Payload>, fileName: Option<string>, file: Option<int>)

  predicate Carries(p: Picked) {
    p.Object? && p.data.Some?
  }

  function UploadOf(p: Picked): Upload
    requires Carries(p)
  {
    Upload(FromUpload, p.fileName, p.data.value)
  }

  /** What one context file offers. */
  function UploadIn(p: Picked): seq<Upload> {
    if Carries(p) then [UploadOf(p)] else []
  }

  /** A context file with its data moved out, when `at` uploads were offered before it. */
  function Link(p: Picked, at: nat): Picked {
    if !Carries(p) then p
    else Object(None, p.fileName, if at < MAX_CLIENT_FILES then Some(at) else p.file)
  }

  /** The uploads the first `i` files of a context carry, in order. */
  function UploadsTo(picked: seq<Picked>, i: nat): seq<Upload>
    requires i <= |picked|
  {
    if i == 0 then [] else UploadsTo(picked, i - 1) + UploadIn(picked[i - 1])
  }

  function UploadsIn(picked: seq<Picked>): seq<Upload> {
    UploadsTo(picked, |picked|)
  }

  /** How many of the first `j` context files carry data. */
  function CarriedBefore(picked: seq<Picked>, j: nat): nat
    requires j <= |picked|
  {
    |UploadsTo(picked, j)|
  }

  /** The first `i` files of a context with their data moved out; `n` uploads were offered before it. */
  function LinkedTo(picked: seq<Picked>, n: nat, i: nat): (r: seq<Picked>)
    requires i <= |picked|
    ensures |r| == i
  {
    if i == 0 then [] else LinkedTo(picked, n, i - 1) + [Link(picked[i - 1], n + CarriedBefore(picked, i - 1))]
  }

  function Linked(picked: seq<Picked>, n: nat): (r: seq<Picked>)
    ensures |r| == |picked|
  {
    LinkedTo(picked, n, |picked|)
  }

  lemma {:induction false} LinkedToAt(picked: seq<Picked>, n: nat, i: nat, j: nat)
    requires j < i <= |picked|
    ensures LinkedTo(picked, n, i)[j] == Link(picked[j], n + CarriedBefore(picked, j))
    decreases i
  {
    if j < i - 1 {
      LinkedToAt(picked, n, i - 1, j);
    }
  }

  /** The first `i` files of the context `was` have been taken, the rest not. */
  ghost predicate TakenSoFar(log: seq<Upload>, files: seq<Picked>, before: seq<Upload>, was: seq<Picked>, i: nat)
    requires i <= |was|
  {
    log == before + UploadsTo(was, i) && files == LinkedTo(was, |before|, i) + was[i..]
  }

  lemma ReplaceNext(done: seq<Picked>, rest: seq<Picked>, x: Picked)
    requires rest != []
    ensures (done + rest)[|done| := x] == done + [x] + rest[1..]
  {
  }

  lemma TakenNext(log: seq<Upload>, files: seq<Picked>, before: seq<Upload>, was: seq<Picked>, i: nat)
    requires i < |was| == |files| && TakenSoFar(log, files, before, was, i)
    ensures files[i] == was[i]
    ensures TakenSoFar(log + UploadIn(was[i]), files[i := Link(was[i], |log|)], before, was, i + 1)
  {
    ReplaceNext(LinkedTo(was, |before|, i), was[i..], Link(was[i], |log|));
    assert was[i..][1..] == was[i + 1..];
    assert before + UploadsTo(was, i) + UploadIn(was[i]) == before + (UploadsTo(was, i) + UploadIn(was[i]));
  }

  lemma {:induction false} UploadsToAt(picked: seq<Picked>, i: nat, j: nat)
    requires j < i <= |picked| && Carries(picked[j])
    ensures CarriedBefore(picked, j) < |UploadsTo(picked, i)|
    ensures UploadsTo(picked, i)[CarriedBefore(picked, j)] == UploadOf(picked[j])
    decreases i
  {
    if j < i - 1 {
      UploadsToAt(picked, i - 1, j);
    }
  }

  /** Entry `n` was made from this context file, under the room left by the entries before it. */
  predicate MadeFrom(files: seq<Entry>, n: nat, p: Picked)
    requires Carries(p)
  {
    && n < |files| && Sizes(files, n) <= MAX_CLIENT_FILES_TOTAL_BYTES
    && files[n] == EntryOf(UploadOf(p), Sizes(files, n))
  }

  /** File `j` is linked to number `n`, and upload `n` is its own data. */
  predicate LinkedToOwn(linked: seq<Picked>, all: seq<Upload>, was: Picked, j: nat, n: nat)
    requires Carries(was)
  {
    j < |linked| && linked[j] == Object(None, was.fileName, Some(n)) && n < |all| && all[n] == UploadOf(was)
  }

  /** A link written by the gateway names the very upload, whatever was offered before or comes after. */
  lemma LinkNamesOwnUpload(before: seq<Upload>, picked: seq<Picked>, after: seq<Upload>, j: nat, n: nat,
                           linked: seq<Picked>, all: seq<Upload>)
    requires linked == Linked(picked, |before|) && all == before + UploadsIn(picked) + after
    requires j < |picked| && Carries(picked[j])
    requires n == |before| + CarriedBefore(picked, j) < MAX_CLIENT_FILES
    ensures LinkedToOwn(linked, all, picked[j], j, n)
  {
    LinkedToAt(picked, |before|, |picked|, j);
    UploadsToAt(picked, |picked|, j);
    NumberedAlike(linked, before, UploadsIn(picked), after, all, picked[j], j, CarriedBefore(picked, j));
  }

  lemma NumberedAlike(linked: seq<Picked>, before: seq<Upload>, mine: seq<Upload>, after: seq<Upload>, all: seq<Upload>,
                      was: Picked, j: nat, c: nat)
    requires all == before + mine + after && Carries(was) && c < |mine| && mine[c] == UploadOf(was)
    requires |before| + c < MAX_CLIENT_FILES && j < |linked| && linked[j] == Link(was, |before| + c)
    ensures LinkedToOwn(linked, all, was, j, |before| + c)
  {
    assert all[|before| + c] == mine[c];
  }

  /** And the entry of that number was made from it. */
  lemma LinkNamesOwnEntry(linked: seq<Picked>, all: seq<Upload>, was: Picked, j: nat, n: nat)
    requires Carries(was) && LinkedToOwn(linked, all, was, j, n) && n < MAX_CLIENT_FILES
    ensures MadeFrom(Admitted(all).files, n, was)
  {
    EntryOfUpload(all, n);
  }

  /** After the intake a context file has no link, or one to the entry made from it, number `at`. */
  predicate LinkIsOwn(p: Picked, at: nat) {
    var f := Link(p, at);
    f.Object? && (f.file == None || (Carries(p) && at < MAX_CLIENT_FILES && f.file == Some(at)))
  }

  /** That holds exactly if the file was admitted or the client sent no link of its own. */
  lemma OwnLinkCondition(picked: seq<Picked>, n: nat, j: nat)
    requires j < |picked| && picked[j].Object?
    ensures var at := n + CarriedBefore(picked, j);
            && Linked(picked, n)[j] == Link(picked[j], at)
            && (LinkIsOwn(picked[j], at) <==> picked[j].file == None || (Carries(picked[j]) && at < MAX_CLIENT_FILES))
  {
    LinkedToAt(picked, n, |picked|, j);
    LinkCondition(picked[j], n + CarriedBefore(picked, j));
  }

  lemma LinkCondition(p: Picked, at: nat)
    requires p.Object?
    ensures LinkIsOwn(p, at) <==> p.file == None || (Carries(p) && at < MAX_CLIENT_FILES)
  {
  }

  /** A file that carries no data keeps the link the client sent, here to the entry of the file before it. */
  lemma StrayLink(first: Payload)
    ensures var picked := [Object(Some(first), None, None), Object(None, None, Some(0))];
            && Linked(picked, 0)[1] == Object(None, None, Some(0)) && !LinkIsOwn(picked[1], 1)
            && |Admitted(UploadsIn(picked)).files| == 1
  {
    var picked := [Object(Some(first), None, None), Object(None, None, Some(0))];
    assert UploadsTo(picked, 1) == UploadsTo(picked, 0) + UploadIn(picked[0]) == [UploadOf(picked[0])];
    assert UploadsTo(picked, 2) == UploadsTo(picked, 1) + UploadIn(picked[1]) == UploadsTo(picked, 1);
    LinkedToAt(picked, 0, 2, 1);
    LinkCondition(picked[1], 1);
    OneEntryEach(UploadsIn(picked));
  }

  // ----- From a client's bytes to the stored entry -----

  datatype InlineData = NotText | Uri(uri: string)

  /** The payload of `data:...;base64,...`; anything else is invalid. */
  function DataUri(d: InlineData): Payload {
    if d.Uri? && "data:" <= d.uri then
      match SplitOnce(d.uri[5..], x => x == ',')
      case Some((head, data)) => if EndsWith(head, ";base64") then Inline(data) else Unusable(Invalid)
      case None => Unusable(Invalid)
    else Unusable(Invalid)
  }

  lemma EncodedIsVisible(b: seq<nat>)
    requires Base64.AllBelow(b, 256)
    ensures Trim(Base64.Encode(b)) == Base64.Encode(b)
  {
    var t := Base64.Encode(b);
    var s := Base64.Sextets(b);
    if t != "" {
      Base64.NoPadInside(s);
      var pad := Base64.Pad(Base64.PadCount(|s|));
      forall i | 0 <= i < |t| ensures !IsWhitespace(t[i]) {
        assert i >= |s| ==> t[i] == pad[i - |s|];
      }
      TrimNothing(t);
    }
  }

  lemma DataUriPayload(mediaType: string, data: string)
    requires ',' !in mediaType
    ensures DataUri(Uri("data:" + mediaType + ";base64," + data)) == Inline(data)
  {
    var head := mediaType + ";base64";
    var uri := "data:" + mediaType + ";base64," + data;
    assert uri[5..] == head + [','] + data;
    SplitOnceAt(head, ',', data, x => x == ',');
    assert head[|head| - 7..] == ";base64";
  }

  /** A file a client encodes as a base64 data URI, and that fits, is stored with exactly its bytes. */
  lemma UploadSurvives(mediaType: string, b: seq<nat>, total: nat)
    requires Base64.AllBelow(b, 256) && ',' !in mediaType
    requires total <= MAX_CLIENT_FILES_TOTAL_BYTES && |b| <= Room(total)
    ensures var uri := "data:" + mediaType + ";base64," + Base64.Encode(b);
            ContentOf(DataUri(Uri(uri)), total) == Stored(|b|, Base64.Encode(b))
    ensures Base64.Decode(Base64.Encode(b)) == Some(b)
  {
    DataUriPayload(mediaType, Base64.Encode(b));
    EncodedIsStored(b, total);
    Base64.RoundTrip(b);
  }

  lemma EncodedIsStored(b: seq<nat>, total: nat)
    requires Base64.AllBelow(b, 256) && total <= MAX_CLIENT_FILES_TOTAL_BYTES && |b| <= Room(total)
    ensures Decoded(Base64.Encode(b), total) == Stored(|b|, Base64.Encode(b))
  {
    Base64.RoundTrip(b);
    EncodedIsVisible(b);
    ShortcutRefinesDecoding(Base64.Encode(b), total);
  }

  // ----- The intake as the turn's parts drive it -----

  /** The intake object. The ghost log is every file offered to it. */
  class Collector {
    var files: seq<Entry>
    var total: nat
    var overflow: nat
    ghost var log: seq<Upload>

    ghost predicate Valid()
      reads this
    {
      Admitted(log) == Intake(files, total, overflow)
    }

    constructor ()
      ensures Valid() && log == []
    {
      files, total, overflow, log := [], 0, 0, [];
    }

    /** The content of one text; only what is stored counts toward the turn. */
    method Decode(text: string) returns (c: Content)
      requires total <= MAX_CLIENT_FILES_TOTAL_BYTES
      modifies this`total
      ensures c == Decoded(text, old(total))
      ensures total == old(total) + SizeOf(c) <= MAX_CLIENT_FILES_TOTAL_BYTES
    {
      var b64 := Trim(text);
      var left := MAX_CLIENT_FILES_TOTAL_BYTES - total;
      var room := if MAX_CLIENT_FILE_BYTES <= left then MAX_CLIENT_FILE_BYTES else left;
      if ByteLen(b64) / 4 * 3 > room + 3 {
        return Refused(TooLarge);
      }
      var bytes := Base64.Decode(b64);
      if bytes.None? {
        return Refused(Invalid);
      }
      var size := |bytes.value|;
      if size > room {
        return Refused(TooLarge);
      }
      total := total + size;
      return Stored(size, b64);
    }

    method Judge(p: Payload) returns (c: Content)
      requires total <= MAX_CLIENT_FILES_TOTAL_BYTES
      modifies this`total
      ensures c == ContentOf(p, old(total))
      ensures total == old(total) + SizeOf(c) <= MAX_CLIENT_FILES_TOTAL_BYTES
    {
      match p {
        case Inline(b64) => c := Decode(b64);
        case Unusable(reason) => c := Refused(reason);
      }
    }

    /** The index of the new entry, or none past the limit. */
    method Admit(u: Upload) returns (index: Option<nat>)
      requires Valid()
      modifies this
      ensures Valid() && log == old(log) + [u]
      ensures index == if |old(log)| < MAX_CLIENT_FILES then Some(|old(log)|) else None
    {
      AdmitNext(log, u, Intake(files, total, overflow));
      if |files| >= MAX_CLIENT_FILES {
        overflow := overflow + 1;
        log := log + [u];
        return None;
      }
      var content := Judge(u.payload);
      files := files + [Entry(u.source, u.name, content)];
      log := log + [u];
      return Some(|files| - 1);
    }

    /** Move the data of one context file into the intake. */
    method TakeUpload(p: Picked) returns (r: Picked)
      requires Valid()
      modifies this
      ensures Valid() && log == old(log) + UploadIn(p)
      ensures r == Link(p, |old(log)|)
    {
      r := p;
      if p.Object? && p.data.Some? {
        var index := Admit(Upload(FromUpload, p.fileName, p.data.value));
        r := Object(None, p.fileName, if index.Some? then Some(index.value as int) else p.file);
      }
    }

    method TakeUploadAt(picked: array<Picked>, i: nat, ghost before: seq<Upload>, ghost was: seq<Picked>)
      requires Valid() && i < |was| == picked.Length && TakenSoFar(log, picked[..], before, was, i)
      modifies this, picked
      ensures Valid() && TakenSoFar(log, picked[..], before, was, i + 1)
    {
      ghost var all := picked[..];
      TakenNext(log, all, before, was, i);
      var linked := TakeUpload(picked[i]);
      picked[i] := linked;
      assert picked[..] == all[i := linked];
    }

    /** Move the uploads of a context into the intake, in place. */
    method TakeUploads(picked: array<Picked>)
      requires Valid()
      modifies this, picked
      ensures Valid() && log == old(log) + UploadsIn(old(picked[..]))
      ensures picked[..] == Linked(old(picked[..]), |old(log)|)
    {
      ghost var before, was := log, picked[..];
      for i := 0 to picked.Length
        invariant Valid() && TakenSoFar(log, picked[..], before, was, i)
      {
        TakeUploadAt(picked, i, before, was);
      }
    }

    method Finish() returns (l: seq<Listed>)
      requires Valid()
      ensures l == Listing(Admitted(log))
    {
      l := seq(|files|, i requires 0 <= i < |files| reads this => File(files[i]));
      if overflow > 0 {
        l := l + [TooMany(overflow)];
      }
    }
  }

  // ----- A whole message -----

  /** A part's file fields: whether it has a file object at all, its bytes if they are text, a link. */
  datatype FileFields = FileFields(present: bool, bytes: Option<string>, linked: bool, name: Option<string>)

  /** An event's context: its files, and everything else in it. */
  datatype EventContext = EventContext(files: seq<Picked>, rest: string)

  function LinkedContext(c: EventContext, n: nat): EventContext {
    c.(files := Linked(c.files, n))
  }

  datatype Message = Message(isEvent: bool, context: EventContext)
  datatype Part = FilePart(fields: FileFields) | DataPart(messages: seq<Message>) | OtherPart

  function PartUpload(f: FileFields): Upload {
    Upload(FromPart, f.name,
           if f.present && f.bytes.Some? then Inline(f.bytes.value)
           else if f.present && f.linked then Unusable(LinkOnly)
           else Unusable(Invalid))
  }

  /** What a message brings, in arrival order: files, and events with the files they carry. */
  datatype Item = FileItem(upload: Upload) | EventItem(context: EventContext)

  function EventIn(m: Message): seq<Item> {
    if m.isEvent then [EventItem(m.context)] else []
  }

  function EventItems(messages: seq<Message>): seq<Item> {
    if messages == [] then [] else EventItems(messages[..|messages| - 1]) + EventIn(messages[|messages| - 1])
  }

  function ItemsOf(p: Part): seq<Item> {
    match p
    case FilePart(f) => [FileItem(PartUpload(f))]
    case DataPart(messages) => EventItems(messages)
    case OtherPart => []
  }

  function Items(parts: seq<Part>): seq<Item> {
    if parts == [] then [] else Items(parts[..|parts| - 1]) + ItemsOf(parts[|parts| - 1])
  }

  function Events(items: seq<Item>): seq<EventContext> {
    if items == [] then []
    else
      var last := items[|items| - 1];
      Events(items[..|items| - 1]) + if last.EventItem? then [last.context] else []
  }

  function Files(items: seq<Item>): seq<Upload> {
    if items == [] then []
    else
      var last := items[|items| - 1];
      Files(items[..|items| - 1]) + if last.FileItem? then [last.upload] else []
  }

  /** Drop every event after the eighth. */
  function Kept(items: seq<Item>): seq<Item> {
    if items == [] then []
    else
      var head := Kept(items[..|items| - 1]);
      var last := items[|items| - 1];
      if last.EventItem? && |Events(head)| == MAX_A2UI_EVENTS then head else head + [last]
  }

  /** Every file offered to the intake, in order. */
  function Offered(items: seq<Item>): seq<Upload> {
    if items == [] then []
    else
      var last := items[|items| - 1];
      Offered(items[..|items| - 1]) + if last.FileItem? then [last.upload] else UploadsIn(last.context.files)
  }

  /** The events with their data moved out. */
  function LinkedEvents(items: seq<Item>): seq<EventContext> {
    if items == [] then []
    else
      var head := items[..|items| - 1];
      var last := items[|items| - 1];
      LinkedEvents(head) + if last.EventItem? then [LinkedContext(last.context, |Offered(head)|)] else []
  }

  /** What is kept is every file and the first eight events, in order. */
  lemma {:induction false} KeptIsFirstEight(items: seq<Item>)
    ensures Files(Kept(items)) == Files(items)
    ensures var all := Events(items);
            Events(Kept(items)) == if |all| <= MAX_A2UI_EVENTS then all else all[..MAX_A2UI_EVENTS]
  {
    if items != [] {
      var n := |items| - 1;
      KeptIsFirstEight(items[..n]);
      var head := Kept(items[..n]);
      assert (head + [items[n]])[..|head|] == head;
    }
  }

  lemma KeptAppend(items: seq<Item>, x: Item)
    ensures Kept(items + [x]) ==
            if x.EventItem? && |Events(Kept(items))| == MAX_A2UI_EVENTS then Kept(items) else Kept(items) + [x]
  {
    assert (items + [x])[..|items + [x]| - 1] == items;
  }

  lemma TailAppend(items: seq<Item>, x: Item)
    ensures Offered(items + [x]) == Offered(items) + if x.FileItem? then [x.upload] else UploadsIn(x.context.files)
    ensures LinkedEvents(items + [x]) == LinkedEvents(items) + if x.EventItem? then [LinkedContext(x.context, |Offered(items)|)] else []
    ensures Events(items + [x]) == Events(items) + if x.EventItem? then [x.context] else []
  {
    assert (items + [x])[..|items + [x]| - 1] == items;
  }

  lemma {:induction false} AsManyLinkedEvents(items: seq<Item>)
    ensures |LinkedEvents(items)| == |Events(items)|
  {
    if items != [] {
      AsManyLinkedEvents(items[..|items| - 1]);
    }
  }

  function UploadsOf(i: Item): seq<Upload> {
    if i.FileItem? then [i.upload] else UploadsIn(i.context.files)
  }

  /** Uploads offered by the first `e` items. */
  function OfferedBefore(items: seq<Item>, e: nat): nat
    requires e <= |items|
  {
    if e == 0 then 0 else OfferedBefore(items, e - 1) + |UploadsOf(items[e - 1])|
  }

  /** Events among the first `e` items. */
  function EventsBefore(items: seq<Item>, e: nat): nat
    requires e <= |items|
  {
    if e == 0 then 0 else EventsBefore(items, e - 1) + if items[e - 1].EventItem? then 1 else 0
  }

  lemma {:induction false} BeforePrefix(head: seq<Item>, items: seq<Item>, e: nat)
    requires e <= |head| && head <= items
    ensures OfferedBefore(head, e) == OfferedBefore(items, e) && EventsBefore(head, e) == EventsBefore(items, e)
  {
    if e > 0 {
      BeforePrefix(head, items, e - 1);
    }
  }

  lemma {:induction false} BeforeAll(items: seq<Item>)
    ensures |Offered(items)| == OfferedBefore(items, |items|) && |LinkedEvents(items)| == EventsBefore(items, |items|)
  {
    if items != [] {
      var n := |items| - 1;
      BeforeAll(items[..n]);
      BeforePrefix(items[..n], items, n);
    }
  }

  /** The uploads of `c` stand after `before` and before `after`, and it is linked as context `k` from there. */
  ghost predicate StandsIn(all: seq<Upload>, linked: seq<EventContext>, k: nat, c: EventContext, before: seq<Upload>, after: seq<Upload>) {
    && all == before + UploadsIn(c.files) + after
    && k < |linked| && linked[k] == LinkedContext(c, |before|)
  }

  /** Where event `e` and its uploads stand. */
  ghost predicate StandsAt(items: seq<Item>, e: nat, before: seq<Upload>, after: seq<Upload>)
    requires e < |items| && items[e].EventItem?
  {
    && StandsIn(Offered(items), LinkedEvents(items), EventsBefore(items, e), items[e].context, before, after)
    && |before| == OfferedBefore(items, e)
  }

  lemma StandsInMore(all: seq<Upload>, linked: seq<EventContext>, k: nat, c: EventContext, before: seq<Upload>, after: seq<Upload>,
                     more: seq<Upload>, others: seq<EventContext>)
    requires StandsIn(all, linked, k, c, before, after)
    ensures StandsIn(all + more, linked + others, k, c, before, after + more)
  {
    Regroup(before, UploadsIn(c.files), after, more);
  }

  lemma Regroup(a: seq<Upload>, b: seq<Upload>, c: seq<Upload>, d: seq<Upload>)
    ensures a + b + c + d == a + b + (c + d)
  {
  }

  lemma StandsInLast(all: seq<Upload>, linked: seq<EventContext>, c: EventContext)
    ensures StandsIn(all + UploadsIn(c.files), linked + [LinkedContext(c, |all|)], |linked|, c, all, [])
  {
    assert all + UploadsIn(c.files) + [] == all + UploadsIn(c.files);
  }

  lemma StandsLast(head: seq<Item>, x: Item)
    requires x.EventItem?
    ensures StandsAt(head + [x], |head|, Offered(head), [])
  {
    TailAppend(head, x);
    BeforeAll(head);
    BeforePrefix(head, head + [x], |head|);
    StandsInLast(Offered(head), LinkedEvents(head), x.context);
  }

  lemma StandsStill(head: seq<Item>, x: Item, e: nat, before: seq<Upload>, after: seq<Upload>)
    requires e < |head| && head[e].EventItem? && StandsAt(head, e, before, after)
    ensures StandsAt(head + [x], e, before, after + UploadsOf(x))
  {
    TailAppend(head, x);
    BeforePrefix(head, head + [x], e);
    StandsInMore(Offered(head), LinkedEvents(head), EventsBefore(head, e), head[e].context, before, after, UploadsOf(x),
                 if x.EventItem? then [LinkedContext(x.context, |Offered(head)|)] else []);
  }

  /** An event's context is linked from the count of uploads before it, and its own uploads come next. */
  lemma {:induction false} EventAt(items: seq<Item>, e: nat) returns (before: seq<Upload>, after: seq<Upload>)
    requires e < |items| && items[e].EventItem?
    ensures StandsAt(items, e, before, after)
    decreases |items|
  {
    var n := |items| - 1;
    var head, x := items[..n], items[n];
    assert items == head + [x];
    if e == n {
      before, after := Offered(head), [];
      StandsLast(head, x);
    } else {
      before, after := EventAt(head, e);
      StandsStill(head, x, e, before, after);
      after := after + UploadsOf(x);
    }
  }

  lemma EventItemsAppend(items: seq<Item>, messages: seq<Message>, k: nat)
    requires k < |messages|
    ensures items + EventItems(messages[..k + 1]) == items + EventItems(messages[..k]) + EventIn(messages[k])
  {
    assert messages[..k + 1][..k] == messages[..k];
  }

  /** Once eight events are kept, a message changes nothing. */
  lemma KeptSkips(head: seq<Item>, m: Message)
    requires |Events(Kept(head))| == MAX_A2UI_EVENTS
    ensures Kept(head + EventIn(m)) == Kept(head)
  {
    if m.isEvent {
      KeptAppend(head, EventItem(m.context));
    } else {
      assert head + EventIn(m) == head;
    }
  }

  /** A message more keeps `p`. */
  ghost predicate KeptBy(p: seq<Item> -> bool, seen: seq<Item>, m: Message) {
    p(seen) ==> p(seen + EventIn(m))
  }

  lemma {:induction false} StaysTrue(p: seq<Item> -> bool, items: seq<Item>, messages: seq<Message>, k: nat, n: nat)
    requires k <= n <= |messages| && p(items + EventItems(messages[..k])) && forall seen, m :: KeptBy(p, seen, m)
    ensures p(items + EventItems(messages[..n]))
    decreases n - k
  {
    if k < n {
      StaysTrue(p, items, messages, k, n - 1);
      EventItemsAppend(items, messages, n - 1);
      assert KeptBy(p, items + EventItems(messages[..n - 1]), messages[n - 1]);
    }
  }

  lemma KeptFull(items: seq<Item>, messages: seq<Message>, k: nat, n: nat, done: seq<Item>)
    requires k <= n <= |messages| && Kept(items + EventItems(messages[..k])) == done && |Events(done)| == MAX_A2UI_EVENTS
    ensures Kept(items + EventItems(messages[..n])) == done
  {
    var p := (seen: seq<Item>) => Kept(seen) == done;
    forall seen, m ensures KeptBy(p, seen, m) {
      if Kept(seen) == done {
        KeptSkips(seen, m);
      }
    }
    StaysTrue(p, items, messages, k, n);
  }

  /** The collector and the events hold exactly what was kept of `items`. */
  ghost predicate Took(log: seq<Upload>, events: seq<EventContext>, items: seq<Item>) {
    log == Offered(Kept(items)) && events == LinkedEvents(Kept(items))
  }

  /** One event: its context is copied, and the copy's uploads moved out. */
  method TakeEvent(context: EventContext, intake: Collector, ghost items: seq<Item>) returns (linked: EventContext)
    requires intake.Valid() && intake.log == Offered(items)
    modifies intake
    ensures intake.Valid() && intake.log == Offered(items + [EventItem(context)])
    ensures LinkedEvents(items + [EventItem(context)]) == LinkedEvents(items) + [linked]
  {
    var files := context.files;
    var copy := new Picked[|files|](i requires 0 <= i < |files| => files[i]);
    assert copy[..] == files;
    TailAppend(items, EventItem(context));
    intake.TakeUploads(copy);
    linked := EventContext(copy[..], context.rest);
  }

  /** One message: an event is taken unless eight are held, and then the part is done. */
  method TakeMessage(m: Message, intake: Collector, events: seq<EventContext>, ghost items: seq<Item>)
    returns (all: seq<EventContext>, full: bool)
    requires intake.Valid() && Took(intake.log, events, items)
    modifies intake
    ensures intake.Valid() && full == (m.isEvent && |Events(Kept(items))| == MAX_A2UI_EVENTS)
    ensures Took(intake.log, all, if full then items else items + EventIn(m))
  {
    all, full := events, false;
    if m.isEvent {
      AsManyLinkedEvents(Kept(items));
      KeptAppend(items, EventItem(m.context));
      if |events| == MAX_A2UI_EVENTS {
        full := true;
      } else {
        var linked := TakeEvent(m.context, intake, Kept(items));
        all := events + [linked];
      }
    } else {
      assert items + EventIn(m) == items;
    }
  }

  /** The events of one data part, until eight are held. */
  method TakeEvents(messages: seq<Message>, intake: Collector, events: seq<EventContext>, ghost items: seq<Item>)
    returns (all: seq<EventContext>)
    requires intake.Valid() && Took(intake.log, events, items)
    modifies intake
    ensures intake.Valid() && Took(intake.log, all, items + EventItems(messages))
  {
    all := events;
    ghost var seen := items;
    for k := 0 to |messages|
      invariant intake.Valid() && seen == items + EventItems(messages[..k]) && Took(intake.log, all, seen)
    {
      var full;
      all, full := TakeMessage(messages[k], intake, all, seen);
      if full {
        KeptFull(items, messages, k, |messages|, Kept(seen));
        assert messages[..|messages|] == messages;
        return;
      }
      seen := seen + EventIn(messages[k]);
      EventItemsAppend(items, messages, k);
    }
    assert messages[..|messages|] == messages;
  }

  /** One part: a file is offered, a data part's events are taken, anything else is ignored. */
  method TakePart(p: Part, intake: Collector, events: seq<EventContext>, ghost items: seq<Item>)
    returns (all: seq<EventContext>)
    requires intake.Valid() && Took(intake.log, events, items)
    modifies intake
    ensures intake.Valid() && Took(intake.log, all, items + ItemsOf(p))
  {
    all := events;
    match p {
      case FilePart(fields) =>
        KeptAppend(items, FileItem(PartUpload(fields)));
        TailAppend(Kept(items), FileItem(PartUpload(fields)));
        var _ := intake.Admit(PartUpload(fields));
      case DataPart(messages) =>
        all := TakeEvents(messages, intake, events, items);
      case OtherPart =>
        assert items + ItemsOf(p) == items;
    }
  }

  lemma ItemsAppend(parts: seq<Part>, k: nat)
    requires k < |parts|
    ensures Items(parts[..k + 1]) == Items(parts[..k]) + ItemsOf(parts[k])
  {
    assert parts[..k + 1][..k] == parts[..k];
  }

  // ----- What is handed on -----

  /** An event's context as it is handed on: whole, or only the files' links if it is too big. */
  datatype Context = Whole(context: EventContext) | LinksOnly(links: seq<Option<int>>)

  const MAX_LINKS := MAX_CLIENT_FILES + 1

  function SentLink(p: Picked): Option<int> {
    if p.Object? then p.file else None
  }

  /** `within` says whether a context fits the byte budget of an event. */
  function Projected(within: EventContext -> bool, c: EventContext): Context {
    if within(c) then Whole(c)
    else
      var n := Least(|c.files|, MAX_LINKS);
      LinksOnly(seq(n, i requires 0 <= i < n => SentLink(c.files[i])))
  }

  /** The link of file `j` that a receiver of the context finds. */
  function LinkIn(c: Context, j: nat): Option<int> {
    match c
    case Whole(context) => if j < |context.files| then SentLink(context.files[j]) else None
    case LinksOnly(links) => if j < |links| then links[j] else None
  }

  /** A link gets through exactly if the context fits, the file is among the first eleven, or it has none. */
  lemma LinkGetsThrough(within: EventContext -> bool, c: EventContext, j: nat)
    requires j < |c.files|
    ensures LinkIn(Projected(within, c), j) == SentLink(c.files[j]) <==>
              within(c) || j < MAX_LINKS || SentLink(c.files[j]) == None
  {
  }

  /** What comes of a message's kept items. */
  ghost predicate TakenFrom(items: seq<Item>, within: EventContext -> bool, events: seq<Context>, files: seq<Listed>) {
    && |events| == |LinkedEvents(items)| && files == Listing(Admitted(Offered(items)))
    && forall k :: 0 <= k < |events| ==> events[k] == Projected(within, LinkedEvents(items)[k])
  }

  /**
   The files and events of a message: every file part and every upload of the first eight events is
   offered in arrival order, and each event's context is linked to the entries and cut to its budget.
   */
  method ClientInput(parts: seq<Part>, within: EventContext -> bool) returns (events: seq<Context>, files: seq<Listed>)
    ensures TakenFrom(Kept(Items(parts)), within, events, files)
  {
    var intake := new Collector();
    var contexts: seq<EventContext> := [];
    ghost var seen: seq<Item> := [];
    for k := 0 to |parts|
      invariant intake.Valid() && fresh(intake)
      invariant seen == Items(parts[..k]) && Took(intake.log, contexts, seen)
    {
      contexts := TakePart(parts[k], intake, contexts, seen);
      ItemsAppend(parts, k);
      seen := seen + ItemsOf(parts[k]);
    }
    assert parts[..|parts|] == parts;
    files := intake.Finish();
    events := seq(|contexts|, k requires 0 <= k < |contexts| => Projected(within, contexts[k]));
  }

  /** File `j` of event `e` is the upload with this number, counted over the whole message. */
  function UploadNumber(items: seq<Item>, e: nat, j: nat): nat
    requires e < |items| && items[e].EventItem? && j <= |items[e].context.files|
  {
    OfferedBefore(items, e) + CarriedBefore(items[e].context.files, j)
  }

  /** In context `k` as linked, file `j` of `c` is linked to number `n`, and upload `n` is its own data. */
  ghost predicate LinksTo(linked: seq<EventContext>, all: seq<Upload>, k: nat, c: EventContext, j: nat, n: nat)
    requires j < |c.files| && Carries(c.files[j])
  {
    k < |linked| && |linked[k].files| == |c.files| && LinkedToOwn(linked[k].files, all, c.files[j], j, n)
  }

  lemma LinkedInMessage(items: seq<Item>, e: nat, j: nat)
    requires e < |items| && items[e].EventItem? && j < |items[e].context.files| && Carries(items[e].context.files[j])
    requires UploadNumber(items, e, j) < MAX_CLIENT_FILES
    ensures LinksTo(LinkedEvents(items), Offered(items), EventsBefore(items, e), items[e].context, j, UploadNumber(items, e, j))
  {
    var before, after := EventAt(items, e);
    FromStand(LinkedEvents(items), Offered(items), EventsBefore(items, e), items[e].context, j, UploadNumber(items, e, j),
              before, after);
  }

  lemma FromStand(linked: seq<EventContext>, all: seq<Upload>, k: nat, c: EventContext, j: nat, n: nat, before: seq<Upload>,
                  after: seq<Upload>)
    requires k < |linked| && linked[k] == LinkedContext(c, |before|) && all == before + UploadsIn(c.files) + after
    requires j < |c.files| && Carries(c.files[j]) && n == |before| + CarriedBefore(c.files, j) < MAX_CLIENT_FILES
    ensures LinksTo(linked, all, k, c, j, n)
  {
    LinkNamesOwnUpload(before, c.files, after, j, n, linked[k].files, all);
  }

  /** Entry `n` of the list handed on was made from `was`. */
  ghost predicate ListsEntryOf(files: seq<Listed>, all: seq<Upload>, n: nat, was: Picked)
    requires Carries(was)
  {
    && n < |files| && files[n].File? && n < |Admitted(all).files| && files[n].entry == Admitted(all).files[n]
    && MadeFrom(Admitted(all).files, n, was)
  }

  lemma ListedFrom(files: seq<Listed>, all: seq<Upload>, linked: seq<Picked>, j: nat, n: nat, was: Picked)
    requires files == Listing(Admitted(all)) && Carries(was) && LinkedToOwn(linked, all, was, j, n) && n < MAX_CLIENT_FILES
    ensures ListsEntryOf(files, all, n, was)
  {
    LinkNamesOwnEntry(linked, all, was, j, n);
  }

  /**
   In what `ClientInput` returns for any message (`items` its kept items), the link of an uploaded file
   of any event taken names the entry made from that very upload, unless the event's context was too
   big and the file is past its eleventh.
   */
  lemma LinksInMessage(items: seq<Item>, within: EventContext -> bool, events: seq<Context>, files: seq<Listed>, e: nat, j: nat)
    requires TakenFrom(items, within, events, files)
    requires e < |items| && items[e].EventItem? && j < |items[e].context.files| && Carries(items[e].context.files[j])
    requires UploadNumber(items, e, j) < MAX_CLIENT_FILES
    ensures EventsBefore(items, e) < |events|
    ensures var n, context := UploadNumber(items, e, j), events[EventsBefore(items, e)];
            && ListsEntryOf(files, Offered(items), n, items[e].context.files[j])
            && (context.Whole? || j < MAX_LINKS <==> LinkIn(context, j) == Some(n))
  {
    LinkedInMessage(items, e, j);
    var linked := LinkedEvents(items)[EventsBefore(items, e)];
    LinkGetsThrough(within, linked, j);
    ListedFrom(files, Offered(items), linked.files, j, UploadNumber(items, e, j), items[e].context.files[j]);
  }
}
