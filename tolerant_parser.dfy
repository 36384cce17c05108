/** The tolerant parser `try_parse_json_like_string` (backend/src/lg_helpers.py): strip
    a Markdown code fence, then try a strict JSON parse, then the widest `{...}` or
    `[...]` span, then a Python-literal parse, and otherwise keep the trimmed text.
    The two library parsers are parameters. */
module TolerantParser {
  import opened Wrappers
  import opened Text
  import opened Models

  /** What a library parser does with a text: it returns a value, rejects the text
      with the exception the source catches at that step (`json.JSONDecodeError`;
      `ValueError` or `SyntaxError` for `ast.literal_eval`), or raises something
      else (`TypeError` from `ast.literal_eval("{[1]: 2}")`, a `RecursionError`). */
  datatype ParseOutcome = Parsed(value: Value) | Invalid | Crashed

  /** `json.loads` and `ast.literal_eval`, as partial functions on text. */
  datatype Parsers = Parsers(jsonLoads: string -> ParseOutcome, literalEval: string -> ParseOutcome)

  const Fence := "```"

  predicate IsAsciiLetter(c: char)
  {
    'a' <= c <= 'z' || 'A' <= c <= 'Z'
  }

  /** The length of the `[a-zA-Z]*` run at the start of `s`. */
  function LetterRun(s: string): (n: nat)
    ensures n <= |s|
    ensures forall k :: 0 <= k < n ==> IsAsciiLetter(s[k])
    ensures n < |s| ==> !IsAsciiLetter(s[n])
    decreases |s|
  {
    if |s| > 0 && IsAsciiLetter(s[0]) then 1 + LetterRun(s[1..]) else 0
  }

  /** The length of the match of `^```[a-zA-Z]*\n?` on a text that starts with a fence. */
  function OpeningFenceLength(text: string): (k: nat)
    requires StartsWith(text, Fence)
    ensures 3 <= k <= |text|
  {
    var k := 3 + LetterRun(text[3..]);
    if k < |text| && text[k] == '\n' then k + 1 else k
  }

  /** `re.sub(r"^```[a-zA-Z]*\n?|```$", "", text)` on a text that starts with a fence:
      the opening fence with its language tag goes, and so does a fence that ends the
      text (or precedes its final newline, where `$` also matches) after it. */
  function RemoveFences(text: string): string
    requires StartsWith(text, Fence)
  {
    var k := OpeningFenceLength(text);
    var n := |text|;
    if n >= k + 4 && text[n - 1] == '\n' && text[n - 4..n - 1] == Fence then text[k..n - 4] + "\n"
    else if n >= k + 3 && text[n - 3..] == Fence then text[k..n - 3]
    else text[k..]
  }

  /** The text every parse attempt sees: stripped, and with a surrounding fence removed
      when it starts with one. */
  function CleanText(s: string): (r: string)
    ensures Trimmed(r)
  {
    var text := Strip(s);
    if StartsWith(text, Fence) then Strip(RemoveFences(text)) else text
  }

  predicate IsOpener(c: char)
  {
    c == '{' || c == '['
  }

  function Closer(c: char): char
  {
    if c == '{' then '}' else ']'
  }

  /** Position `p` can start a match of `(\{.*\})|(\[.*\])`: an opening bracket with a
      closing bracket of its kind somewhere after it. */
  predicate OpensSpan(text: string, p: int)
  {
    0 <= p < |text| && IsOpener(text[p]) && Closer(text[p]) in text[p + 1..]
  }

  /** `text[i..j+1]` is the greedy match starting at `i`: it runs to the last closer. */
  predicate SpanAt(text: string, i: int, j: int)
  {
    OpensSpan(text, i) && i < j < |text| && text[j] == Closer(text[i])
    && forall k :: j < k < |text| ==> text[k] != Closer(text[i])
  }

  function FindSpanFrom(text: string, p: nat): (r: Option<(nat, nat)>)
    requires p <= |text|
    ensures r.None? ==> forall q :: p <= q < |text| ==> !OpensSpan(text, q)
    ensures r.Some? ==> p <= r.value.0 && SpanAt(text, r.value.0, r.value.1)
    ensures r.Some? ==> forall q :: p <= q < r.value.0 ==> !OpensSpan(text, q)
    decreases |text| - p
  {
    if p == |text| then None
    else if OpensSpan(text, p) then
      var c := Closer(text[p]);
      var k :| p < k < |text| && text[k] == c;
      var j := LastIndexOf(text, c);
      assert j >= k;
      Some((p, j))
    else FindSpanFrom(text, p + 1)
  }

  /** `re.search(r"(\{.*\})|(\[.*\])", text, re.DOTALL)`: the earliest position that
      opens a span, extended to the last closer of its kind; `None` when no position does. */
  function FindSpan(text: string): (r: Option<(nat, nat)>)
    ensures r.None? <==> forall q :: 0 <= q < |text| ==> !OpensSpan(text, q)
    ensures r.Some? ==> SpanAt(text, r.value.0, r.value.1)
    ensures r.Some? ==> forall q :: 0 <= q < r.value.0 ==> !OpensSpan(text, q)
  {
    FindSpanFrom(text, 0)
  }

  /** The strict parse of the embedded span, or `Invalid` when there is no span. */
  function SpanOutcome(text: string, parsers: Parsers): ParseOutcome
  {
    match FindSpan(text)
    case None => Invalid
    case Some((i, j)) => parsers.jsonLoads(text[i..j + 1])
  }

  /** `try_parse_json_like_string(s)`. A non-string passes through; otherwise the first
      of strict parse, span parse and literal parse that succeeds wins, the trimmed
      text is the fallback, and an unexpected exception returns the input unchanged. */
  function TryParseJsonLike(input: Value, parsers: Parsers): (r: Value)
    ensures !input.Str? ==> r == input
    ensures input.Str? ==>
      var text := CleanText(input.s);
      r == input || r == Str(text)
      || parsers.jsonLoads(text) == Parsed(r)
      || SpanOutcome(text, parsers) == Parsed(r)
      || parsers.literalEval(text) == Parsed(r)
  {
    if !input.Str? then input
    else
      var text := CleanText(input.s);
      match parsers.jsonLoads(text)
      case Parsed(v) => v
      case Crashed => input
      case Invalid =>
        match SpanOutcome(text, parsers)
        case Parsed(v) => v
        case Crashed => input
        case Invalid =>
          match parsers.literalEval(text)
          case Parsed(v) => v
          case Crashed => input
          case Invalid => Str(text)
  }

  /** No parser raises an unexpected exception on `text`. */
  predicate NoCrash(text: string, parsers: Parsers)
  {
    parsers.jsonLoads(text) != Crashed && SpanOutcome(text, parsers) != Crashed
    && parsers.literalEval(text) != Crashed
  }

  /** Ordering: a strict parse of the cleaned text wins over every later strategy. */
  lemma StrictParseFirst(s: string, parsers: Parsers, v: Value)
    requires parsers.jsonLoads(CleanText(s)) == Parsed(v)
    ensures TryParseJsonLike(Str(s), parsers) == v
  {
  }

  /** Ordering: when the strict parse rejects the text, a parsable span is returned
      before the literal parse is tried. */
  lemma SpanParseSecond(s: string, parsers: Parsers, i: nat, j: nat, v: Value)
    requires parsers.jsonLoads(CleanText(s)) == Invalid
    requires FindSpan(CleanText(s)) == Some((i, j))
    requires parsers.jsonLoads(CleanText(s)[i..j + 1]) == Parsed(v)
    ensures TryParseJsonLike(Str(s), parsers) == v
  {
    SpanOutcomeOfSpan(CleanText(s), parsers, i, j, v);
  }

  lemma SpanOutcomeOfSpan(text: string, parsers: Parsers, i: nat, j: nat, v: Value)
    requires FindSpan(text) == Some((i, j))
    requires parsers.jsonLoads(text[i..j + 1]) == Parsed(v)
    ensures SpanOutcome(text, parsers) == Parsed(v)
  {
  }

  /** Ordering: when both JSON attempts reject the text, a literal parse is returned
      before the fallback. */
  lemma LiteralEvalThird(s: string, parsers: Parsers, v: Value)
    requires parsers.jsonLoads(CleanText(s)) == Invalid
    requires SpanOutcome(CleanText(s), parsers) == Invalid
    requires parsers.literalEval(CleanText(s)) == Parsed(v)
    ensures TryParseJsonLike(Str(s), parsers) == v
  {
  }

  /** An unexpected exception in the first attempt that does not reject the text returns
      the original, uncleaned input. */
  lemma CrashReturnsInput(s: string, parsers: Parsers)
    requires
      var t := CleanText(s);
      parsers.jsonLoads(t) == Crashed
      || (parsers.jsonLoads(t) == Invalid && SpanOutcome(t, parsers) == Crashed)
      || (parsers.jsonLoads(t) == Invalid && SpanOutcome(t, parsers) == Invalid
          && parsers.literalEval(t) == Crashed)
    ensures TryParseJsonLike(Str(s), parsers) == Str(s)
  {
  }

  /** Fallback: when every strategy rejects the text, the trimmed text is returned. */
  lemma TrimmedTextLast(s: string, parsers: Parsers)
    requires parsers.jsonLoads(CleanText(s)) == Invalid
    requires SpanOutcome(CleanText(s), parsers) == Invalid
    requires parsers.literalEval(CleanText(s)) == Invalid
    ensures TryParseJsonLike(Str(s), parsers) == Str(CleanText(s))
  {
  }

  /** A text without any bracket has no span. */
  lemma NoBracketNoSpan(text: string)
    requires '{' !in text && '[' !in text
    ensures FindSpan(text) == None
  {
    forall q | 0 <= q < |text|
      ensures !OpensSpan(text, q)
    {
      assert text[q] in text;
    }
  }

  /** The cleaned text of a fenced block with an optional language tag is its content. */
  lemma {:induction false} CleanFencedBlock(lang: string, c: string)
    requires forall k :: 0 <= k < |lang| ==> IsAsciiLetter(lang[k])
    requires Trimmed(c)
    ensures CleanText(Fence + lang + "\n" + c + "\n" + Fence) == c
  {
    hide RemoveFences;
    var w := Fence + lang + "\n" + c + "\n" + Fence;
    assert w[0] == '`' && w[|w| - 1] == '`';
    StripOfTrimmed(w);
    FencesOfBlock(lang, c);
    StripTrailingSpaces(c, "\n");
  }

  /** Removing the fences of such a block leaves the content and its final newline. */
  lemma FencesOfBlock(lang: string, c: string)
    requires forall k :: 0 <= k < |lang| ==> IsAsciiLetter(lang[k])
    ensures StartsWith(Fence + lang + "\n" + c + "\n" + Fence, Fence)
    ensures RemoveFences(Fence + lang + "\n" + c + "\n" + Fence) == c + "\n"
  {
    hide Strip;
    var w := Fence + lang + "\n" + c + "\n" + Fence;
    var n := |w|;
    assert w[..3] == Fence;
    var tail := w[3..];
    assert tail == lang + "\n" + c + "\n" + Fence;
    assert tail[|lang|] == '\n';
    assert forall k :: 0 <= k < |lang| ==> tail[k] == lang[k];
    LetterRunOfTag(tail, lang);
    assert OpeningFenceLength(w) == |lang| + 4;
    assert w[n - 3..] == Fence;
    assert w[|lang| + 4..n - 3] == c + "\n";
  }


  lemma {:induction false} LetterRunOfTag(s: string, lang: string)
    requires |lang| < |s| && !IsAsciiLetter(s[|lang|])
    requires forall k :: 0 <= k < |lang| ==> s[k] == lang[k] && IsAsciiLetter(lang[k])
    ensures LetterRun(s) == |lang|
    decreases |lang|
  {
    if |lang| > 0 {
      LetterRunOfTag(s[1..], lang[1..]);
    }
  }

  /** A clean text needs no further cleaning. */
  lemma CleanTextOfClean(t: string)
    requires Trimmed(t) && !StartsWith(t, Fence)
    ensures CleanText(t) == t
  {
    StripOfTrimmed(t);
  }

  /** Fence stripping: a fenced block with a language tag parses as its content parsed
      alone, provided no parser raises an unexpected exception on that content (in
      that case each call returns its own input). */
  lemma FencedBlockParsesAsContent(lang: string, c: string, parsers: Parsers)
    requires forall k :: 0 <= k < |lang| ==> IsAsciiLetter(lang[k])
    requires Trimmed(c) && !StartsWith(c, Fence)
    requires NoCrash(c, parsers)
    ensures TryParseJsonLike(Str(Fence + lang + "\n" + c + "\n" + Fence), parsers)
         == TryParseJsonLike(Str(c), parsers)
  {
    hide CleanText, SpanOutcome;
    CleanFencedBlock(lang, c);
    CleanTextOfClean(c);
  }

  /** Re-parsing the fallback text gives the same text back, as long as cleaning did not
      leave a fence at its start. */
  lemma FallbackIsStable(s: string, parsers: Parsers)
    requires parsers.jsonLoads(CleanText(s)) == Invalid
    requires SpanOutcome(CleanText(s), parsers) == Invalid
    requires parsers.literalEval(CleanText(s)) == Invalid
    requires !StartsWith(CleanText(s), Fence)
    ensures TryParseJsonLike(Str(s), parsers) == Str(CleanText(s))
    ensures TryParseJsonLike(TryParseJsonLike(Str(s), parsers), parsers) == Str(CleanText(s))
  {
    CleanTextOfClean(CleanText(s));
  }

  /** A value that `json.loads` reads back from a clean text (no surrounding whitespace
      or fence) is what the tolerant parser returns for that text. */
  lemma CleanJsonRoundTrip(t: string, v: Value, parsers: Parsers)
    requires Trimmed(t) && !StartsWith(t, Fence)
    requires parsers.jsonLoads(t) == Parsed(v)
    ensures TryParseJsonLike(Str(t), parsers) == v
  {
    CleanTextOfClean(t);
  }

  /** The first pass over a block whose content begins with a second fence. */
  lemma CleanNestedFenceOnce()
    ensures CleanText("```\n```abc```") == "```abc"
  {
    hide RemoveFences, Strip;
    var w := "```\n```abc```";
    StripOfTrimmed(w);
    NestedFenceRemoval();
    StripOfTrimmed("```abc");
  }

  /** The fences of that block: the opening one with its newline, and the closing one. */
  lemma NestedFenceRemoval()
    ensures StartsWith("```\n```abc```", Fence)
    ensures RemoveFences("```\n```abc```") == "```abc"
  {
    hide Strip;
    var w := "```\n```abc```";
    assert w[..3] == Fence;
    assert w[3] == '\n';
    assert LetterRun(w[3..]) == 0;
    assert OpeningFenceLength(w) == 4;
    assert w[12] != '\n';
    assert w[10..] == Fence;
    assert w[4..10] == "```abc";
  }

  /** The second pass removes the inner fence together with the text it reads as a tag. */
  lemma CleanInnerFence()
    ensures CleanText("```abc") == ""
  {
    var t := "```abc";
    StripOfTrimmed(t);
    assert t[..3] == Fence;
    assert t[3..] == "abc";
    assert LetterRun("abc") == 3 by {
      assert "abc"[1..] == "bc";
      assert "bc"[1..] == "c";
      assert "c"[1..] == "";
    }
    assert OpeningFenceLength(t) == 6;
  }

  /** Cleaning is not idempotent in general: a block whose content itself begins with a
      fence loses that second fence and its tag on a second pass. */
  lemma CleaningTwiceDiffers()
    ensures CleanText(CleanText("```\n```abc```")) != CleanText("```\n```abc```")
  {
    CleanNestedFenceOnce();
    CleanInnerFence();
  }

  /** Scenario: a fenced JSON array is parsed as the array. */
  lemma FencedArrayScenario(parsers: Parsers, v: Value)
    requires parsers.jsonLoads("[{\"a\":1}]") == Parsed(v)
    ensures TryParseJsonLike(Str("```json\n[{\"a\":1}]\n```"), parsers) == v
  {
    hide CleanText, SpanOutcome;
    assert "```json\n[{\"a\":1}]\n```" == Fence + "json" + "\n" + "[{\"a\":1}]" + "\n" + Fence;
    CleanFencedBlock("json", "[{\"a\":1}]");
  }

  /** Scenario: text with no structure comes back unchanged. */
  lemma PlainTextScenario(parsers: Parsers)
    requires parsers.jsonLoads("no json here") == Invalid
    requires parsers.literalEval("no json here") == Invalid
    ensures TryParseJsonLike(Str("no json here"), parsers) == Str("no json here")
  {
    hide TryParseJsonLike, RemoveFences, FindSpan, Strip;
    var t := "no json here";
    StripOfTrimmed(t);
    assert !StartsWith(t, Fence);
    assert CleanText(t) == t;
    NoBracketNoSpan(t);
    TrimmedTextLast(t, parsers);
  }
}
