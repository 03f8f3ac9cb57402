/**
 * Turning the model's reply into an analysis record (`generateAnalysisWithGemini`)
 * and the title fallback (`generateIdeaTitle`). The remote calls are inputs:
 * a reply is `Ok(text)` (the `text` getter may be `undefined`) or `Err(message)`.
 */
module Analysis {
  import opened Wrappers
  import opened JsString
  import opened Json

  /** The title shown when the title request fails. */
  const FallbackTitle := "My Startup Idea"

  /** The message of the error raised when a detected JSON span does not decode. */
  const ParseFailureMessage := "Failed to parse analysis response"

  /** `generateIdeaTitle`: the reply's text as it came (possibly `undefined`), or the fallback title on any error. */
  function IdeaTitle(reply: Result<Option<string>, string>): (title: Option<string>)
    ensures reply.Err? ==> title == Some(FallbackTitle)
    ensures reply.Ok? ==> title == reply.value
  {
    match reply
    case Ok(text) => text
    case Err(_) => Some(FallbackTitle)
  }

  /** The thirteen keys of an analysis record, in the order the fallback fills them. */
  const Sections: seq<string> := [
    "problemAnalysis", "targetMarket", "businessModel",
    "legalConsiderations", "growthStrategy", "competitorAnalysis",
    "fundingRequirements", "ideaUniqueValue", "targetMarketSize", "topCompetitorName",
    "estimatedFundingRequirements", "fundingAllocation", "marketAnalysisScore"
  ]

  lemma SectionsShape()
    ensures |Sections| == 13
    ensures forall i, j :: 0 <= i < j < |Sections| ==> Sections[i] != Sections[j]
  {
  }

  // ---------------------------------------------------------------- JSON span

  /** The half-open range `text[start..end]` taken as JSON text. */
  datatype Span = Span(start: nat, end: nat)

  /** Some `{` comes strictly before some `}`. */
  predicate HasBracePair(text: string) {
    exists i, j :: 0 <= i < j < |text| && text[i] == '{' && text[j] == '}'
  }

  /**
   * `jsonStart = text.indexOf('{')`, `jsonEnd = text.lastIndexOf('}') + 1`;
   * a span exists when `jsonStart >= 0 && jsonEnd > jsonStart`.
   */
  function FindJsonSpan(text: string): Option<Span> {
    var jsonStart := IndexOf(text, '{');
    var jsonEnd := LastIndexOf(text, '}') + 1;
    if jsonStart >= 0 && jsonEnd > jsonStart then Some(Span(jsonStart, jsonEnd)) else None
  }

  /**
   * A span is found exactly when some `{` precedes some `}`; it then runs from
   * the first `{` through the last `}`, so no brace of either kind lies outside it.
   */
  lemma FindJsonSpanSpec(text: string)
    ensures FindJsonSpan(text).Some? <==> HasBracePair(text)
    ensures FindJsonSpan(text).Some? ==> var sp := FindJsonSpan(text).value;
      && sp.start + 2 <= sp.end <= |text|
      && text[sp.start] == '{' && text[sp.end - 1] == '}'
      && '{' !in text[..sp.start] && '}' !in text[sp.end..]
  {
    var jsonStart := IndexOf(text, '{');
    var jsonEnd := LastIndexOf(text, '}') + 1;
    if jsonStart >= 0 && jsonEnd > jsonStart {
      assert FindJsonSpan(text) == Some(Span(jsonStart, jsonEnd));
      assert text[jsonStart] == '{' && text[jsonEnd - 1] == '}';
      assert jsonStart < jsonEnd - 1;
      assert HasBracePair(text);
    } else {
      assert FindJsonSpan(text) == None;
      NoBracePair(text);
    }
  }

  /** When `indexOf('{')` is missing or not before `lastIndexOf('}')`, no `{` precedes any `}`. */
  lemma NoBracePair(text: string)
    requires !(IndexOf(text, '{') >= 0 && LastIndexOf(text, '}') + 1 > IndexOf(text, '{'))
    ensures !HasBracePair(text)
  {
    var jsonStart, last := IndexOf(text, '{'), LastIndexOf(text, '}');
    forall i, j | 0 <= i < j < |text| && text[i] == '{'
      ensures text[j] != '}'
    {
      assert text[i] in text;
      if text[i] in text[..jsonStart] {
      } else {
        assert last < jsonStart <= i;
        assert text[last + 1..][j - last - 1] == text[j];
      }
    }
  }

  lemma IndexOfAt(s: string, c: char, p: nat)
    requires p < |s| && s[p] == c && c !in s[..p]
    ensures IndexOf(s, c) == p
  {
    var r := IndexOf(s, c);
    assert s[p] in s;
    assert forall k :: 0 <= k < p ==> s[..p][k] == s[k];
    assert forall k :: 0 <= k < r ==> s[..r][k] == s[k];
  }

  lemma LastIndexOfAt(s: string, c: char, p: nat)
    requires p < |s| && s[p] == c && c !in s[p + 1..]
    ensures LastIndexOf(s, c) == p
  {
    var r := LastIndexOf(s, c);
    assert s[p] in s;
    assert forall k :: p + 1 <= k < |s| ==> s[p + 1..][k - p - 1] == s[k];
    assert forall k :: r + 1 <= k < |s| ==> s[r + 1..][k - r - 1] == s[k];
  }

  /**
   * A JSON object surrounded by prose that has no `{` before it and no `}`
   * after it is found exactly, prose ignored.
   */
  lemma ProseAroundObjectIsIgnored(before: string, obj: string, after: string)
    requires |obj| >= 2 && obj[0] == '{' && obj[|obj| - 1] == '}'
    requires '{' !in before && '}' !in after
    ensures FindJsonSpan(before + obj + after) == Some(Span(|before|, |before| + |obj|))
    ensures (before + obj + after)[|before|..|before| + |obj|] == obj
  {
    var text := before + obj + after;
    FirstBraceAfterProse(before, obj, after);
    LastBraceBeforeProse(before, obj, after);
    var jsonStart, jsonEnd := IndexOf(text, '{'), LastIndexOf(text, '}') + 1;
    assert jsonStart == |before| && jsonEnd == |before| + |obj| > jsonStart;
    assert FindJsonSpan(text) == Some(Span(jsonStart, jsonEnd));
  }

  lemma FirstBraceAfterProse(before: string, obj: string, after: string)
    requires |obj| >= 1 && obj[0] == '{' && '{' !in before
    ensures IndexOf(before + obj + after, '{') == |before|
  {
    var text := before + obj + after;
    assert text[..|before|] == before;
    IndexOfAt(text, '{', |before|);
  }

  lemma LastBraceBeforeProse(before: string, obj: string, after: string)
    requires |obj| >= 1 && obj[|obj| - 1] == '}' && '}' !in after
    ensures LastIndexOf(before + obj + after, '}') == |before| + |obj| - 1
    ensures (before + obj + after)[|before|..|before| + |obj|] == obj
  {
    var text := before + obj + after;
    var q := |before| + |obj| - 1;
    assert text[q + 1..] == after;
    LastIndexOfAt(text, '}', q);
  }

  // ---------------------------------------------------------------- section labels

  /** `section.replace(/([A-Z])/g, ' $1')`: a space before every ASCII capital. */
  function SpaceBeforeCapitals(s: string): string {
    if s == [] then []
    else (if IsUpperAscii(s[0]) then [' ', s[0]] else [s[0]]) + SpaceBeforeCapitals(s[1..])
  }

  /** The alternative spelling of a section name in the fallback pattern: `target Market` for `targetMarket`. */
  function Label(section: string): string {
    Trim(SpaceBeforeCapitals(section))
  }

  /** `s` with every space removed. */
  function RemoveSpaces(s: string): string {
    if s == [] then [] else (if s[0] == ' ' then [] else [s[0]]) + RemoveSpaces(s[1..])
  }

  lemma {:induction false} RemoveSpacesAppend(a: string, b: string)
    ensures RemoveSpaces(a + b) == RemoveSpaces(a) + RemoveSpaces(b)
  {
    if a == [] {
      assert a + b == b;
    } else {
      assert (a + b)[1..] == a[1..] + b;
      RemoveSpacesAppend(a[1..], b);
    }
  }

  /** Inserting spaces and removing them again gives back a space-free name. */
  lemma {:induction false} RemoveInsertedSpaces(s: string)
    requires ' ' !in s
    ensures RemoveSpaces(SpaceBeforeCapitals(s)) == s
  {
    if s != [] {
      var head := if IsUpperAscii(s[0]) then [' ', s[0]] else [s[0]];
      RemoveSpacesAppend(head, SpaceBeforeCapitals(s[1..]));
      assert s == [s[0]] + s[1..];
      RemoveInsertedSpaces(s[1..]);
      assert RemoveSpaces(head) == [s[0]] by {
        if IsUpperAscii(s[0]) { assert head[1..] == [s[0]]; }
      }
    }
  }

  /** Every character of the spaced form is a character of `s` or an inserted space, and each capital has a space before it. */
  lemma {:induction false} SpaceBeforeCapitalsChars(s: string)
    ensures forall p :: 0 <= p < |SpaceBeforeCapitals(s)| ==> SpaceBeforeCapitals(s)[p] == ' ' || SpaceBeforeCapitals(s)[p] in s
    ensures forall p :: 0 <= p < |SpaceBeforeCapitals(s)| && IsUpperAscii(SpaceBeforeCapitals(s)[p]) ==> p > 0 && SpaceBeforeCapitals(s)[p - 1] == ' '
  {
    if s != [] {
      SpaceBeforeCapitalsChars(s[1..]);
      var head := if IsUpperAscii(s[0]) then [' ', s[0]] else [s[0]];
      var x := SpaceBeforeCapitals(s);
      assert x == head + SpaceBeforeCapitals(s[1..]);
      forall p | 0 <= p < |x|
        ensures x[p] == ' ' || x[p] in s
        ensures IsUpperAscii(x[p]) ==> p > 0 && x[p - 1] == ' '
      {
        if p >= |head| {
          assert x[p] == SpaceBeforeCapitals(s[1..])[p - |head|];
          if p - |head| > 0 {
            assert x[p - 1] == SpaceBeforeCapitals(s[1..])[p - |head| - 1];
          }
          assert s == [s[0]] + s[1..];
          assert x[p] == ' ' || x[p] in s[1..];
        }
      }
    }
  }

  /** In the spaced form of a space-free name, every space is one inserted right before a capital. */
  lemma {:induction false} SpacesPrecedeCapitals(s: string)
    requires ' ' !in s
    ensures forall p :: 0 <= p < |SpaceBeforeCapitals(s)| && SpaceBeforeCapitals(s)[p] == ' ' ==>
      p + 1 < |SpaceBeforeCapitals(s)| && IsUpperAscii(SpaceBeforeCapitals(s)[p + 1])
  {
    if s != [] {
      SpacesPrecedeCapitals(s[1..]);
      var head := if IsUpperAscii(s[0]) then [' ', s[0]] else [s[0]];
      var rest := SpaceBeforeCapitals(s[1..]);
      var x := SpaceBeforeCapitals(s);
      assert x == head + rest;
      forall p | 0 <= p < |x| && x[p] == ' '
        ensures p + 1 < |x| && IsUpperAscii(x[p + 1])
      {
        if p >= |head| {
          assert x[p] == rest[p - |head|];
          assert x[p + 1] == rest[p - |head| + 1];
        } else {
          assert s[0] in s;
        }
      }
    }
  }

  /** The spaced form of a non-empty name ends with the name's last character. */
  lemma {:induction false} SpaceBeforeCapitalsLast(s: string)
    requires s != []
    ensures SpaceBeforeCapitals(s) != []
    ensures SpaceBeforeCapitals(s)[|SpaceBeforeCapitals(s)| - 1] == s[|s| - 1]
  {
    if |s| > 1 {
      SpaceBeforeCapitalsLast(s[1..]);
    }
  }

  /**
   * For a name that neither starts nor ends with whitespace, trimming removes
   * exactly the space inserted before a leading capital, if there is one.
   */
  lemma LabelForm(s: string)
    requires s != [] && !IsSpace(s[0]) && !IsSpace(s[|s| - 1])
    ensures Label(s) == if IsUpperAscii(s[0]) then SpaceBeforeCapitals(s)[1..] else SpaceBeforeCapitals(s)
  {
    var x := SpaceBeforeCapitals(s);
    SpaceBeforeCapitalsLast(s);
    if IsUpperAscii(s[0]) {
      assert x[0] == ' ' && x[1] == s[0];
      assert IsSpace(x[0]);
      TrimOfUnpaddedEnd(x, 1);
    } else {
      assert x[0] == s[0];
      TrimOfUnpaddedEnd(x, 0);
    }
  }

  /**
   * For a name without whitespace, removing the spaces of its label gives the
   * name back, every capital after the first character of the label has a
   * space before it, and every space of the label comes right before a capital
   * and not at its start: the label is the name with exactly one space before
   * each capital but a leading one.
   */
  lemma LabelIsSpacedName(s: string)
    requires forall k :: 0 <= k < |s| ==> !IsSpace(s[k])
    ensures RemoveSpaces(Label(s)) == s
    ensures forall k :: 0 < k < |Label(s)| && IsUpperAscii(Label(s)[k]) ==> Label(s)[k - 1] == ' '
    ensures forall k :: 0 <= k < |Label(s)| && Label(s)[k] == ' ' ==>
      0 < k && k + 1 < |Label(s)| && IsUpperAscii(Label(s)[k + 1])
  {
    if s == [] {
      assert Label(s) == [];
    } else {
      var x := SpaceBeforeCapitals(s);
      LabelForm(s);
      assert IsSpace(' ');
      assert ' ' !in s;
      RemoveInsertedSpaces(s);
      SpaceBeforeCapitalsChars(s);
      SpacesPrecedeCapitals(s);
      if IsUpperAscii(s[0]) {
        assert x[0] == ' ' && x[1] == s[0];
        SpacingAfterLeadingSpace(x);
      } else {
        assert x[0] == s[0];
        SpacingAsIs(x);
      }
    }
  }

  /** A spaced form that starts with a character other than a space keeps its spacing facts as they are. */
  lemma SpacingAsIs(x: string)
    requires x != [] && x[0] != ' '
    requires forall p :: 0 <= p < |x| && IsUpperAscii(x[p]) ==> p > 0 && x[p - 1] == ' '
    requires forall p :: 0 <= p < |x| && x[p] == ' ' ==> p + 1 < |x| && IsUpperAscii(x[p + 1])
    ensures forall k :: 0 <= k < |x| && x[k] == ' ' ==> 0 < k && k + 1 < |x| && IsUpperAscii(x[k + 1])
  {
  }

  /** Dropping the space before a leading capital keeps the spacing facts, shifted by one. */
  lemma SpacingAfterLeadingSpace(x: string)
    requires |x| >= 2 && x[0] == ' ' && IsUpperAscii(x[1])
    requires forall p :: 0 <= p < |x| && IsUpperAscii(x[p]) ==> p > 0 && x[p - 1] == ' '
    requires forall p :: 0 <= p < |x| && x[p] == ' ' ==> p + 1 < |x| && IsUpperAscii(x[p + 1])
    ensures forall k :: 0 < k < |x[1..]| && IsUpperAscii(x[1..][k]) ==> x[1..][k - 1] == ' '
    ensures forall k :: 0 <= k < |x[1..]| && x[1..][k] == ' ' ==> 0 < k && k + 1 < |x[1..]| && IsUpperAscii(x[1..][k + 1])
  {
    var t := x[1..];
    forall k | 0 < k < |t| && IsUpperAscii(t[k]) ensures t[k - 1] == ' ' {
      assert t[k] == x[k + 1] && t[k - 1] == x[k];
    }
    forall k | 0 <= k < |t| && t[k] == ' ' ensures 0 < k && k + 1 < |t| && IsUpperAscii(t[k + 1]) {
      assert t[k] == x[k + 1];
      assert t[k + 1] == x[k + 2];
    }
  }

  lemma {:induction false} SpaceBeforeCapitalsAppend(a: string, b: string)
    ensures SpaceBeforeCapitals(a + b) == SpaceBeforeCapitals(a) + SpaceBeforeCapitals(b)
  {
    if a == [] {
      assert a + b == b;
    } else {
      assert (a + b)[1..] == a[1..] + b;
      SpaceBeforeCapitalsAppend(a[1..], b);
    }
  }

  lemma {:induction false} SpaceBeforeNoCapitals(s: string)
    requires forall k :: 0 <= k < |s| ==> !IsUpperAscii(s[k])
    ensures SpaceBeforeCapitals(s) == s
  {
    if s != [] {
      SpaceBeforeNoCapitals(s[1..]);
    }
  }

  /** The label of `targetMarket` is `target Market`. */
  lemma TargetMarketLabel()
    ensures Label("targetMarket") == "target Market"
  {
    TargetMarketSpaced();
    TargetMarketUnpadded();
  }

  lemma TargetMarketSpaced()
    ensures SpaceBeforeCapitals("targetMarket") == "target Market"
  {
    TargetMarketPieces();
    SpaceBeforeCapitalsAppend("target", "Market");
    TargetSpaced();
    MarketSpaced();
  }

  lemma TargetMarketPieces()
    ensures "targetMarket" == "target" + "Market"
    ensures "target Market" == "target" + " Market"
  {
  }

  lemma TargetSpaced()
    ensures SpaceBeforeCapitals("target") == "target"
  {
    SpaceBeforeNoCapitals("target");
  }

  lemma MarketSpaced()
    ensures SpaceBeforeCapitals("Market") == " Market"
  {
    SpaceBeforeNoCapitals("arket");
    assert "Market"[1..] == "arket";
    assert " Market" == [' ', 'M'] + "arket";
  }

  lemma TargetMarketUnpadded()
    ensures Trim("target Market") == "target Market"
  {
    TrimUnpadded("target Market");
  }

  // ---------------------------------------------------------------- fallback

  /** The fallback pattern for one section, as an oracle: given the reply text, the section name and its label, the captured block (group 1) or no match. */
  type Matcher = (string, string, string) -> Option<string>

  /** What the fallback stores for one section: the trimmed block, or `No <section> provided`. */
  function SectionValue(text: string, section: string, matches: Matcher): (v: string)
    ensures matches(text, section, Label(section)).None? ==> v == "No " + section + " provided"
    ensures matches(text, section, Label(section)).Some? ==> v == Trim(matches(text, section, Label(section)).value)
  {
    match matches(text, section, Label(section))
    case Some(block) => Trim(block)
    case None => "No " + section + " provided"
  }

  /** The fields the fallback has written once it has handled `sections`, in order. */
  function FallbackFields(text: string, sections: seq<string>, matches: Matcher): seq<(string, Json)> {
    if sections == [] then []
    else
      var last := sections[|sections| - 1];
      FallbackFields(text, sections[..|sections| - 1], matches) + [(last, JString(SectionValue(text, last, matches)))]
  }

  /** The fallback writes one field per section, in order, keyed by the section. */
  lemma {:induction false} FallbackFieldsAt(text: string, sections: seq<string>, matches: Matcher)
    ensures |FallbackFields(text, sections, matches)| == |sections|
    ensures forall k :: 0 <= k < |sections| ==>
      FallbackFields(text, sections, matches)[k] == (sections[k], JString(SectionValue(text, sections[k], matches)))
  {
    if sections != [] {
      FallbackFieldsAt(text, sections[..|sections| - 1], matches);
    }
  }

  /**
   * The fallback record has exactly the given section keys, in order (the
   * thirteen `Sections` in the service), and each value is the trimmed match or
   * exactly `No <section> provided`.
   */
  lemma FallbackRecordShape(text: string, sections: seq<string>, matches: Matcher)
    ensures Keys(FallbackFields(text, sections, matches)) == sections
    ensures forall k :: 0 <= k < |sections| ==>
      var v := FallbackFields(text, sections, matches)[k].1;
      match matches(text, sections[k], Label(sections[k]))
      case Some(block) => v == JString(Trim(block))
      case None => v == JString("No " + sections[k] + " provided")
  {
    FallbackFieldsAt(text, sections, matches);
  }

  /**
   * The `for (const section of sections)` loop filling the record (called with
   * `Sections`). Each `analysis[section] = value` is an append, which is what
   * property assignment does when no section repeats, as `SectionsShape` shows
   * for `Sections`.
   */
  method FillSections(text: string, sections: seq<string>, matches: Matcher) returns (analysis: seq<(string, Json)>)
    ensures analysis == FallbackFields(text, sections, matches)
  {
    analysis := [];
    var i := 0;
    while i < |sections|
      invariant 0 <= i <= |sections|
      invariant analysis == FallbackFields(text, sections[..i], matches)
    {
      var section := sections[i];
      var value := match matches(text, section, Label(section))
        case Some(block) => Trim(block)
        case None => "No " + section + " provided";
      analysis := analysis + [(section, JString(value))];
      assert sections[..i + 1][..i] == sections[..i];
      i := i + 1;
    }
    assert sections[..i] == sections;
  }

  // ---------------------------------------------------------------- the whole parse

  /** An API failure is rethrown as it came; a span that does not decode becomes the parse error. */
  datatype AnalysisError = ApiError(message: string) | ParseFailure

  function Message(e: AnalysisError): string {
    match e
    case ApiError(m) => m
    case ParseFailure => ParseFailureMessage
  }

  /**
   * `generateAnalysisWithGemini` after the remote call. An undefined reply text
   * makes `text.indexOf` throw inside the inner `try`, hence a parse failure.
   */
  method GenerateAnalysis(reply: Result<Option<string>, string>, decode: Decoder, matches: Matcher)
    returns (r: Result<Json, AnalysisError>)
    ensures reply.Err? ==> r == Err(ApiError(reply.error))
    ensures reply == Ok(None) ==> r == Err(ParseFailure)
    ensures reply.Ok? && reply.value.Some? ==>
      var text := reply.value.value;
      match FindJsonSpan(text)
      case Some(sp) =>
        r == (match decode(text[sp.start..sp.end]) case Some(v) => Ok(v) case None => Err(ParseFailure))
      case None =>
        r == Ok(JObject(FallbackFields(text, Sections, matches)))
  {
    if reply.Err? {
      return Err(ApiError(reply.error));
    }
    if reply.value.None? {
      return Err(ParseFailure);
    }
    var text := reply.value.value;
    var span := FindJsonSpan(text);
    if span.Some? {
      var decoded := decode(text[span.value.start..span.value.end]);
      if decoded.Some? {
        r := Ok(decoded.value);
      } else {
        r := Err(ParseFailure);
      }
    } else {
      var analysis := FillSections(text, Sections, matches);
      r := Ok(JObject(analysis));
    }
  }
}
