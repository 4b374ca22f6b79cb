/** A surface as a Gemini answer: text chunks under a byte cap, and controls counted as deferred. */
module GeminiAnswer {
  import opened TextCap

  const GEMINI_TEXT_MAX_BYTES := 8000
  const TRUNCATION_SENTINEL := "\n\n[truncated \U{2014} content exceeded Gemini's 8000-byte cap]"

  /** What a component comes to here: text, nothing, or a control the answer cannot host. */
  datatype Component = Chunk(text: Str) | Silent | Button | Selection | Form

  datatype Answer = EmptyAfterRender
                  | Answer(text: Str, truncated: bool, deferredButtons: nat, deferredSelections: nat, deferredForms: nat)

  function Chunks(cs: seq<Component>, n: nat): seq<Str>
    requires n <= |cs|
  {
    if n == 0 then [] else Chunks(cs, n - 1) + if cs[n - 1].Chunk? then [cs[n - 1].text] else []
  }

  function Count(cs: seq<Component>, n: nat, c: Component): nat
    requires n <= |cs|
  {
    if n == 0 then 0 else Count(cs, n - 1, c) + if cs[n - 1] == c then 1 else 0
  }

  lemma SentinelFits()
    ensures |Utf8(TRUNCATION_SENTINEL)| <= GEMINI_TEXT_MAX_BYTES
  {
    Utf8Bounds(TRUNCATION_SENTINEL);
  }

  method Collect(cs: seq<Component>) returns (chunks: seq<Str>, buttons: nat, selections: nat, forms: nat)
    ensures chunks == Chunks(cs, |cs|)
    ensures buttons == Count(cs, |cs|, Button) && selections == Count(cs, |cs|, Selection) && forms == Count(cs, |cs|, Form)
  {
    chunks, buttons, selections, forms := [], 0, 0, 0;
    for i := 0 to |cs|
      invariant chunks == Chunks(cs, i)
      invariant buttons == Count(cs, i, Button) && selections == Count(cs, i, Selection) && forms == Count(cs, i, Form)
    {
      match cs[i] {
        case Chunk(text) => chunks := chunks + [text];
        case Silent =>
        case Button => buttons := buttons + 1;
        case Selection => selections := selections + 1;
        case Form => forms := forms + 1;
      }
    }
  }

  /** Every control is counted, and the text is the joined chunks or what fits of them beside the sentinel. */
  method Render(cs: seq<Component>) returns (a: Answer)
    ensures a.EmptyAfterRender? <==> Chunks(cs, |cs|) == []
    ensures a.Answer? ==> Capped(Chunks(cs, |cs|), GEMINI_TEXT_MAX_BYTES, Utf8(TRUNCATION_SENTINEL), a.text, a.truncated)
    ensures a.Answer? ==> a.deferredButtons == Count(cs, |cs|, Button)
                          && a.deferredSelections == Count(cs, |cs|, Selection) && a.deferredForms == Count(cs, |cs|, Form)
  {
    var chunks, buttons, selections, forms := Collect(cs);
    SentinelFits();
    if chunks == [] {
      return EmptyAfterRender;
    }
    var text, truncated := CapText(chunks, GEMINI_TEXT_MAX_BYTES, Utf8(TRUNCATION_SENTINEL));
    a := Answer(text, truncated, buttons, selections, forms);
  }
}
