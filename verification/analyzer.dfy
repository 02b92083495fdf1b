/**
 * `analyzeRegulationForCompany`: normalises the uploaded text, asks the
 * language-model provider for a briefing, validates its reply defensively,
 * and falls back to a deterministic briefing whenever there is no usable reply.
 *
 * The provider call and `JSON.parse` are not modelled: the provider's outcome
 * and a partial parse function are inputs.
 */
module Analyzer {
  import opened Wrappers
  import opened Text
  import opened Json
  import opened Risk
  import OnboardingStore

  type PolicySnapshot = OnboardingStore.PolicySnapshot

  const DefaultTitle: string := "Uploaded regulation"
  const ExcerptLimit: nat := 16000
  const TokenLimit: nat := 80
  const DefaultExcerpt: string := "New EU mandate uploaded."
  const DefaultAction: string := "Assign an owner to review this mandate."

  /** The normalised input handed to the provider and to the fallback. */
  datatype Context = Context(
    title: string,
    companyName: string,
    sectors: seq<string>,
    policies: seq<PolicySnapshot>,
    excerpt: string)

  /** `RegulationAnalysis`. */
  datatype Analysis = Analysis(
    title: string,
    summary: string,
    actionItems: seq<string>,
    notifiedTeams: seq<string>,
    riskLevel: RiskLevel)

  /** What the provider call yields: no API key configured, an exception, or a
      response whose text may be missing. */
  datatype ProviderOutcome = NoApiKey | ProviderThrows | Replied(text: Option<string>)

  /** What `analyzeRegulationForCompany` yields: the "Regulation text is empty"
      error, an analysis, or a reply whose title or summary is not a string (it is
      passed on untyped and makes the insert that follows fail). */
  datatype Outcome = EmptyText | Analyzed(analysis: Analysis) | UntypedReply

  // ---------------------------------------------------------------------------
  // Normalisation
  // ---------------------------------------------------------------------------

  /** `options.title?.trim() || "Uploaded regulation"`. */
  function NormalizedTitle(title: Option<string>): (r: string)
    ensures title.Some? && Trim(title.value) != "" ==> r == Trim(title.value)
    ensures title.None? || Trim(title.value) == "" ==> r == DefaultTitle
    ensures r != ""
  {
    match title
    case Some(t) => if Trim(t) != "" then Trim(t) else DefaultTitle
    case None => DefaultTitle
  }

  /** The normalised context, or None for text that is empty after trimming. */
  function Normalize(title: Option<string>, text: string, companyName: string, sectors: seq<string>,
                     policies: seq<PolicySnapshot>): (r: Option<Context>)
    ensures r.None? <==> forall k :: 0 <= k < |text| ==> IsSpace(text[k])
    ensures r.Some? ==> r.value == Context(NormalizedTitle(title), companyName, sectors, policies, r.value.excerpt)
    ensures r.Some? ==> var e := r.value.excerpt;
      && e != "" && !IsSpace(e[0])
      && |e| == (if |Trim(text)| <= ExcerptLimit then |Trim(text)| else ExcerptLimit)
      && e == Trim(text)[..|e|]
  {
    TrimEmptyIffBlank(text);
    var trimmed := Trim(text);
    if trimmed == "" then None
    else
      var e := Take(trimmed, ExcerptLimit);
      assert e != "" && e[0] == trimmed[0];
      Some(Context(NormalizedTitle(title), companyName, sectors, policies, e))
  }

  // ---------------------------------------------------------------------------
  // The fallback briefing
  // ---------------------------------------------------------------------------

  /** `excerpt.split(/\s+/).slice(0, 80).join(" ")`. */
  function ShortExcerpt(excerpt: string): (r: string)
    ensures excerpt == "" ==> r == ""
    ensures excerpt != "" && !IsSpace(excerpt[0]) ==> r != ""
    ensures |SplitSpaces(excerpt)| <= TokenLimit ==> r == CollapseSpaces(excerpt)
    ensures |r| <= |CollapseSpaces(excerpt)| && r == CollapseSpaces(excerpt)[..|r|]
    ensures |r| < |CollapseSpaces(excerpt)| ==> CollapseSpaces(excerpt)[|r|] == ' '
    ensures SpaceCount(r) + 1 == (if |SplitSpaces(excerpt)| <= TokenLimit then |SplitSpaces(excerpt)| else TokenLimit)
  {
    var tokens := Take(SplitSpaces(excerpt), TokenLimit);
    JoinSplitSpaces(excerpt);
    JoinPrefix(" ", SplitSpaces(excerpt), |tokens|);
    JoinSpaceCount(tokens);
    assert excerpt != "" && !IsSpace(excerpt[0]) ==> Join(" ", tokens) != "" by {
      if excerpt != "" && !IsSpace(excerpt[0]) { JoinNonEmpty(" ", tokens); }
    }
    Join(" ", tokens)
  }

  function ReviewLine(p: PolicySnapshot): string
  {
    "Review " + p.area + " controls with " + (if p.ownerTeam != "" then p.ownerTeam else "policy owner") + "."
  }

  function ReviewLines(ps: seq<PolicySnapshot>): (r: seq<string>)
    ensures |r| == |ps| && forall i :: 0 <= i < |ps| ==> r[i] == ReviewLine(ps[i])
  {
    if ps == [] then [] else [ReviewLine(ps[0])] + ReviewLines(ps[1..])
  }

  /** The fallback's action items: one review line for each of the first three
      policies, or the single default line when there are none. */
  function FallbackActions(policies: seq<PolicySnapshot>): (r: seq<string>)
    ensures 1 <= |r| <= 3
    ensures policies == [] ==> r == [DefaultAction]
    ensures policies != [] ==>
      |r| == (if |policies| < 3 then |policies| else 3) && forall i :: 0 <= i < |r| ==> r[i] == ReviewLine(policies[i])
  {
    var baseline := ReviewLines(Take(policies, 3));
    if |baseline| > 0 then baseline else [DefaultAction]
  }

  /** The team a policy points at: its owner team, else its area. */
  function Label(p: PolicySnapshot): string
  {
    if p.ownerTeam != "" then p.ownerTeam else p.area
  }

  function Labels(ps: seq<PolicySnapshot>): (r: seq<string>)
    ensures |r| == |ps| && forall i :: 0 <= i < |ps| ==> r[i] == Label(ps[i])
  {
    if ps == [] then [] else [Label(ps[0])] + Labels(ps[1..])
  }

  /** The non-blank entries, in order. */
  function NonBlank(xs: seq<string>): (r: seq<string>)
    ensures |r| <= |xs|
    ensures forall x :: x in r <==> x in xs && Trim(x) != ""
  {
    if xs == [] then []
    else
      var rest := NonBlank(xs[1..]);
      assert forall x :: x in xs <==> x == xs[0] || x in xs[1..];
      if Trim(xs[0]) != "" then [xs[0]] + rest else rest
  }

  /** The blank filter keeps the original order: it distributes over concatenation. */
  lemma {:induction false} NonBlankAppend(a: seq<string>, b: seq<string>)
    ensures NonBlank(a + b) == NonBlank(a) + NonBlank(b)
  {
    if a == [] {
      assert a + b == b;
    } else {
      assert (a + b)[0] == a[0];
      assert (a + b)[1..] == a[1..] + b;
      NonBlankAppend(a[1..], b);
    }
  }

  /** The fallback's notified teams: the first three non-blank policy labels, or
      else the first three sectors. */
  function FallbackTeams(sectors: seq<string>, policies: seq<PolicySnapshot>): (r: seq<string>)
    ensures |r| <= 3
    ensures NonBlank(Labels(policies)) != [] ==>
      r != [] && |r| <= |NonBlank(Labels(policies))| && r == NonBlank(Labels(policies))[..|r|]
    ensures NonBlank(Labels(policies)) != [] ==> forall x :: x in r ==> Trim(x) != ""
    ensures NonBlank(Labels(policies)) == [] ==> |r| <= |sectors| && r == sectors[..|r|]
    ensures |r| < 3 ==> r == NonBlank(Labels(policies)) || (NonBlank(Labels(policies)) == [] && r == sectors)
    ensures NonBlank(Labels(policies)) != [] ==>
      |r| == (if |NonBlank(Labels(policies))| < 3 then |NonBlank(Labels(policies))| else 3)
    ensures NonBlank(Labels(policies)) == [] ==> |r| == (if |sectors| < 3 then |sectors| else 3)
  {
    var labels := Take(NonBlank(Labels(policies)), 3);
    if |labels| > 0 then labels else Take(sectors, 3)
  }

  /** `buildFallbackAnalysis`. */
  function BuildFallback(ctx: Context): (a: Analysis)
    ensures a.riskLevel == MEDIUM && a.title == ctx.title
    ensures 1 <= |a.actionItems| <= 3 && |a.notifiedTeams| <= 3
    ensures a.actionItems == FallbackActions(ctx.policies)
    ensures a.notifiedTeams == FallbackTeams(ctx.sectors, ctx.policies)
    ensures ShortExcerpt(ctx.excerpt) != "" ==>
      a.summary == ctx.companyName + " monitoring highlights: " + ShortExcerpt(ctx.excerpt)
    ensures ShortExcerpt(ctx.excerpt) == "" ==>
      a.summary == ctx.companyName + " monitoring highlights: " + DefaultExcerpt
  {
    var short := ShortExcerpt(ctx.excerpt);
    Analysis(
      ctx.title,
      ctx.companyName + " monitoring highlights: " + (if short != "" then short else DefaultExcerpt),
      FallbackActions(ctx.policies),
      FallbackTeams(ctx.sectors, ctx.policies),
      MEDIUM)
  }

  /** On a normalised context the excerpt is never blank, so the fallback summary
      always quotes it and never uses the default sentence; when the excerpt has
      at most 80 tokens the quote is the excerpt with each whitespace run
      collapsed to one space. */
  lemma FallbackSummaryQuotesExcerpt(title: Option<string>, text: string, companyName: string,
                                     sectors: seq<string>, policies: seq<PolicySnapshot>)
    requires Normalize(title, text, companyName, sectors, policies).Some?
    ensures
      var ctx := Normalize(title, text, companyName, sectors, policies).value;
      && BuildFallback(ctx).summary == companyName + " monitoring highlights: " + ShortExcerpt(ctx.excerpt)
      && ShortExcerpt(ctx.excerpt) != ""
      && (|SplitSpaces(ctx.excerpt)| <= TokenLimit ==>
            BuildFallback(ctx).summary == companyName + " monitoring highlights: " + CollapseSpaces(ctx.excerpt))
  {
  }

  // ---------------------------------------------------------------------------
  // The provider reply
  // ---------------------------------------------------------------------------

  /** A fence starts at index j of t. */
  predicate FenceAt(t: string, j: int)
  {
    0 <= j && j + 3 <= |t| && t[j] == '`' && t[j + 1] == '`' && t[j + 2] == '`'
  }

  /** The first index at or after `from` where a closing fence starts. */
  function FirstFence(t: string, from: nat): (r: Option<nat>)
    ensures r.Some? ==> from <= r.value && FenceAt(t, r.value)
    ensures r.Some? ==> forall j :: from <= j < r.value ==> !FenceAt(t, j)
    ensures r.None? ==> forall j :: from <= j ==> !FenceAt(t, j)
    decreases |t| - from
  {
    if from + 3 > |t| then None
    else if FenceAt(t, from) then Some(from)
    else FirstFence(t, from + 1)
  }

  /** Where the captured block of a fenced reply starts: after the opening fence,
      an optional "json" in any case, and the whitespace that follows. */
  function CaptureStart(t: string): (p: nat)
    requires FenceAt(t, 0)
    ensures OpenEnd(t) <= p <= |t|
    ensures forall k :: OpenEnd(t) <= k < p ==> IsSpace(t[k])
    ensures p == |t| || !IsSpace(t[p])
  {
    TrimStartDropsSpaces(t[OpenEnd(t)..]);
    |t| - |TrimStart(t[OpenEnd(t)..])|
  }

  /** The end of the opening fence, with the "json" tag when it is there. */
  function OpenEnd(t: string): (r: nat)
    ensures r == 3 || r == 7
    ensures r <= |t| || (r == 3 && |t| < 3)
  {
    if |t| >= 7 && Lower(t[3..7]) == "json" then 7 else 3
  }

  /** `extractJsonBlock`: the trimmed reply, or the trimmed contents of its leading
      fenced block (up to the first closing fence) when those are non-empty. */
  function ExtractJsonBlock(payload: string): (r: string)
    ensures !FenceAt(Trim(payload), 0) ==> r == Trim(payload)
    ensures r == [] || (!IsSpace(r[0]) && !IsSpace(r[|r| - 1]))
  {
    var t := Trim(payload);
    if FenceAt(t, 0) then FencedBlock(t) else t
  }

  /** The first fence at or after `p` starts at `q`. */
  predicate FirstFenceAt(t: string, p: int, q: int)
  {
    p <= q && FenceAt(t, q) && forall j :: p <= j < q ==> !FenceAt(t, j)
  }

  /** The block of a reply that starts with a fence: the trimmed text up to the
      first closing fence, or the whole reply when that is empty or missing. */
  function FencedBlock(t: string): (r: string)
    requires FenceAt(t, 0) && !IsSpace(t[|t| - 1])
    ensures r == [] || (!IsSpace(r[0]) && !IsSpace(r[|r| - 1]))
    ensures forall q :: FirstFenceAt(t, CaptureStart(t), q) && CaptureStart(t) < q ==>
      r == Trim(t[CaptureStart(t)..q])
    ensures (forall q :: FirstFenceAt(t, CaptureStart(t), q) ==> q == CaptureStart(t)) ==> r == t
  {
    var p := CaptureStart(t);
    FirstFenceIff(t, p);
    match FirstFence(t, p)
    case Some(q) => if t[p..q] != "" then Trim(t[p..q]) else t
    case None => t
  }

  /** `FirstFence` finds exactly the first fence. */
  lemma FirstFenceIff(t: string, p: nat)
    ensures forall q :: FirstFenceAt(t, p, q) <==> FirstFence(t, p) == Some(q)
  {
    forall q | FirstFenceAt(t, p, q)
      ensures FirstFence(t, p) == Some(q)
    {
    }
  }

  /** A reply made of an opening fence, an optional "json" tag in any case,
      whitespace, a block holding no fence of its own (none that runs into the
      closing one either), a closing fence and any trailing text, with any
      whitespace in front, yields exactly the trimmed block. */
  lemma ExtractFencedBlock(lead: string, tag: string, ws: string, body: string, tail: string)
    requires forall k :: 0 <= k < |lead| ==> IsSpace(lead[k])
    requires tag == "" || Lower(tag) == "json"
    requires forall k :: 0 <= k < |ws| ==> IsSpace(ws[k])
    requires body != "" && !IsSpace(body[0])
    requires tag == "" && ws == "" ==> |body| < 4 || Lower(body[..4]) != "json"
    requires forall k :: 0 <= k < |body| ==> !FenceAt(body + "```", k)
    ensures ExtractJsonBlock(lead + "```" + tag + ws + body + "```" + tail) == Trim(body)
  {
    FencedTrim(lead, tag, ws, body, tail);
    FencedReplyBlock(tag, ws, body, TrimEnd(tail));
  }

  /** The block of the trimmed reply. */
  lemma FencedReplyBlock(tag: string, ws: string, body: string, tail: string)
    requires tag == "" || Lower(tag) == "json"
    requires forall k :: 0 <= k < |ws| ==> IsSpace(ws[k])
    requires body != "" && !IsSpace(body[0])
    requires tag == "" && ws == "" ==> |body| < 4 || Lower(body[..4]) != "json"
    requires forall k :: 0 <= k < |body| ==> !FenceAt(body + "```", k)
    requires tail == "" || !IsSpace(tail[|tail| - 1])
    ensures FenceAt("```" + tag + ws + (body + "```") + tail, 0)
    ensures FencedBlock("```" + tag + ws + (body + "```") + tail) == Trim(body)
  {
    var t := "```" + tag + ws + (body + "```") + tail;
    assert t[0] == '`' && t[1] == '`' && t[2] == '`';
    assert !IsSpace(t[|t| - 1]);
    FencedOpenEnd(tag, ws, body, tail);
    FencedCaptureStart(tag, ws, body, tail);
    var a := "```" + tag + ws;
    FencedClose(a, body, tail);
    assert CaptureStart(t) == |a|;
  }

  /** Trimming the reply leaves the fenced text with the trailing text trimmed. */
  lemma FencedTrim(lead: string, tag: string, ws: string, body: string, tail: string)
    requires forall k :: 0 <= k < |lead| ==> IsSpace(lead[k])
    ensures Trim(lead + "```" + tag + ws + body + "```" + tail)
         == "```" + tag + ws + (body + "```") + TrimEnd(tail)
  {
    var a := "```" + tag + ws + (body + "```");
    assert lead + "```" + tag + ws + body + "```" + tail == lead + (a + tail);
    assert (a + tail)[0] == '`';
    TrimStartSpaces(lead, a + tail);
    assert a[|a| - 1] == '`';
    TrimEndAppend(a, tail);
  }

  /** Trimming the end of `a + b` where `a` ends in a non-space character only
      touches `b`. */
  lemma {:induction false} TrimEndAppend(a: string, b: string)
    requires a != [] && !IsSpace(a[|a| - 1])
    ensures TrimEnd(a + b) == a + TrimEnd(b)
    decreases |b|
  {
    if b == [] {
      assert a + b == a;
    } else {
      assert (a + b)[|a + b| - 1] == b[|b| - 1];
      assert (a + b)[..|a + b| - 1] == a + b[..|b| - 1];
      TrimEndAppend(a, b[..|b| - 1]);
    }
  }

  /** The opening fence ends after the tag. */
  lemma FencedOpenEnd(tag: string, ws: string, body: string, tail: string)
    requires tag == "" || Lower(tag) == "json"
    requires forall k :: 0 <= k < |ws| ==> IsSpace(ws[k])
    requires body != ""
    requires tag == "" && ws == "" ==> |body| < 4 || Lower(body[..4]) != "json"
    ensures OpenEnd("```" + tag + ws + (body + "```") + tail) == 3 + |tag|
  {
    if tag != "" {
      TaggedOpenEnd(tag, ws, body + "```", tail);
    } else if ws != "" {
      SpacedOpenEnd(tag, ws, body + "```", tail);
    } else {
      UntaggedOpenEnd(tag, ws, body, tail);
    }
  }

  lemma TaggedOpenEnd(tag: string, ws: string, b: string, tail: string)
    requires Lower(tag) == "json"
    ensures OpenEnd("```" + tag + ws + b + tail) == 7
  {
    assert ("```" + tag + ws + b + tail)[3..7] == tag;
  }

  lemma SpacedOpenEnd(tag: string, ws: string, b: string, tail: string)
    requires tag == "" && ws != "" && IsSpace(ws[0])
    ensures OpenEnd("```" + tag + ws + b + tail) == 3
  {
    var t := "```" + tag + ws + b + tail;
    assert t[3] == ws[0];
    NotJsonTag(t, 3);
  }

  /** A block right after the opening fence is not a tag unless it starts with "json". */
  lemma UntaggedOpenEnd(tag: string, ws: string, body: string, tail: string)
    requires tag == "" && ws == "" && body != ""
    requires |body| < 4 || Lower(body[..4]) != "json"
    ensures OpenEnd("```" + tag + ws + (body + "```") + tail) == 3
  {
    var t := "```" + tag + ws + (body + "```") + tail;
    if |body| >= 4 {
      assert t[3..7] == body[..4];
    } else {
      assert t[3 + |body|] == '`';
      NotJsonTag(t, 3 + |body|);
    }
  }

  /** No "json" tag follows the opening fence when one of the next four
      characters is whitespace or a backtick. */
  lemma NotJsonTag(t: string, i: nat)
    requires 3 <= i < 7 && i < |t| && (IsSpace(t[i]) || t[i] == '`')
    ensures OpenEnd(t) == 3
  {
    if |t| >= 7 {
      assert Lower(t[3..7])[i - 3] == LowerChar(t[i]);
    }
  }

  /** The capture starts right after the whitespace that follows the tag. */
  lemma FencedCaptureStart(tag: string, ws: string, body: string, tail: string)
    requires forall k :: 0 <= k < |ws| ==> IsSpace(ws[k])
    requires body != "" && !IsSpace(body[0])
    requires FenceAt("```" + tag + ws + (body + "```") + tail, 0)
    requires OpenEnd("```" + tag + ws + (body + "```") + tail) == 3 + |tag|
    ensures CaptureStart("```" + tag + ws + (body + "```") + tail) == 3 + |tag| + |ws|
  {
    var t := "```" + tag + ws + (body + "```") + tail;
    assert t[3 + |tag|..] == ws + (body + "```" + tail);
    TrimStartSpaces(ws, body + "```" + tail);
  }

  /** The first fence after the capture start is the closing one. */
  lemma FencedClose(a: string, body: string, tail: string)
    requires forall k :: 0 <= k < |body| ==> !FenceAt(body + "```", k)
    ensures FirstFenceAt(a + (body + "```") + tail, |a|, |a| + |body|)
    ensures (a + (body + "```") + tail)[|a|..|a| + |body|] == body
  {
    var b := body + "```";
    var t := a + b + tail;
    assert forall i :: |a| <= i < |a| + |b| ==> t[i] == b[i - |a|];
    assert FenceAt(b, |body|);
    forall j | |a| <= j < |a| + |body|
      ensures !FenceAt(t, j)
    {
      assert !FenceAt(b, j - |a|);
    }
  }

  /** The reply object is usable: it has a truthy summary and two array fields. */
  predicate Acceptable(v: Value)
  {
    && v.Obj?
    && (match Field(v, "summary") case Some(s) => Truthy(s) case None => false)
    && (match Field(v, "actionItems") case Some(Arr(_)) => true case _ => false)
    && (match Field(v, "notifiedTeams") case Some(Arr(_)) => true case _ => false)
  }

  /** `filter((item) => typeof item === "string" && item.length > 0)`. */
  function NonEmptyStrings(items: seq<Value>): (r: seq<string>)
    ensures |r| <= |items|
    ensures forall x :: x in r <==> x != "" && Str(x) in items
  {
    if items == [] then []
    else
      var rest := NonEmptyStrings(items[1..]);
      assert forall x :: Str(x) in items <==> Str(x) == items[0] || Str(x) in items[1..];
      if items[0].Str? && items[0].s != "" then [items[0].s] + rest else rest
  }

  /** The kept entries stay in their original order: the filter distributes over
      concatenation. */
  lemma {:induction false} NonEmptyStringsAppend(a: seq<Value>, b: seq<Value>)
    ensures NonEmptyStrings(a + b) == NonEmptyStrings(a) + NonEmptyStrings(b)
  {
    if a == [] {
      assert a + b == b;
    } else {
      assert (a + b)[0] == a[0];
      assert (a + b)[1..] == a[1..] + b;
      NonEmptyStringsAppend(a[1..], b);
    }
  }

  /** The result of validating a parsed reply. */
  datatype Reply = NoReply | Typed(analysis: Analysis) | Untyped

  /** `parsed.title ?? "Uploaded regulation"`, when that is a string. */
  function ReplyTitle(v: Value): Option<string>
  {
    match Field(v, "title")
    case None => Some(DefaultTitle)
    case Some(Null) => Some(DefaultTitle)
    case Some(Str(s)) => Some(s)
    case Some(_) => None
  }

  /** The strict comparison `parsed.riskLevel === "HIGH" || … === "MEDIUM"`. */
  function ReplyRisk(v: Value): (r: RiskLevel)
    ensures r == HIGH <==> Field(v, "riskLevel") == Some(Str("HIGH"))
    ensures r == MEDIUM <==> Field(v, "riskLevel") == Some(Str("MEDIUM"))
  {
    match Field(v, "riskLevel")
    case Some(Str(s)) => Risk.Normalize(s)
    case _ => LOW
  }

  /** The analysis built from a usable reply object. */
  function FromReply(v: Value): (r: Reply)
    requires Acceptable(v)
    ensures r != NoReply
    ensures r.Typed? <==> Field(v, "summary").value.Str? && ReplyTitle(v).Some?
    ensures r.Typed? ==>
      && r.analysis.summary != ""
      && Field(v, "summary") == Some(Str(r.analysis.summary))
      && Some(r.analysis.title) == ReplyTitle(v)
      && r.analysis.actionItems == NonEmptyStrings(Field(v, "actionItems").value.items)
      && r.analysis.notifiedTeams == NonEmptyStrings(Field(v, "notifiedTeams").value.items)
      && r.analysis.riskLevel == ReplyRisk(v)
  {
    var summary := Field(v, "summary").value;
    var title := ReplyTitle(v);
    if summary.Str? && title.Some? then
      Typed(Analysis(title.value, summary.s,
                     NonEmptyStrings(Field(v, "actionItems").value.items),
                     NonEmptyStrings(Field(v, "notifiedTeams").value.items),
                     ReplyRisk(v)))
    else Untyped
  }

  /** `safeParseAnalysis`: no reply text, a reply that does not parse, or a parsed
      value that is not a usable object gives NoReply. */
  function SafeParseAnalysis(payload: Option<string>, parse: string -> Option<Value>): (r: Reply)
    ensures r == NoReply <==>
      || payload.None?
      || payload.value == ""
      || parse(ExtractJsonBlock(payload.value)).None?
      || !Acceptable(parse(ExtractJsonBlock(payload.value)).value)
    ensures r != NoReply ==> r == FromReply(parse(ExtractJsonBlock(payload.value)).value)
  {
    match payload
    case None => NoReply
    case Some(text) =>
      if text == "" then NoReply
      else
        match parse(ExtractJsonBlock(text))
        case None => NoReply
        case Some(v) => if Acceptable(v) then FromReply(v) else NoReply
  }

  /** `analyzeRegulationForCompany`. */
  function Analyze(title: Option<string>, text: string, companyName: string, sectors: seq<string>,
                   policies: seq<PolicySnapshot>, provider: ProviderOutcome,
                   parse: string -> Option<Value>): (r: Outcome)
    ensures r == EmptyText <==> forall k :: 0 <= k < |text| ==> IsSpace(text[k])
    ensures r != EmptyText ==>
      var ctx := Normalize(title, text, companyName, sectors, policies).value;
      match provider
      case NoApiKey => r == Analyzed(BuildFallback(ctx))
      case ProviderThrows => r == Analyzed(BuildFallback(ctx))
      case Replied(reply) =>
        match SafeParseAnalysis(reply, parse)
        case NoReply => r == Analyzed(BuildFallback(ctx))
        case Typed(a) => r == Analyzed(a)
        case Untyped => r == UntypedReply
  {
    match Normalize(title, text, companyName, sectors, policies)
    case None => EmptyText
    case Some(ctx) =>
      match provider
      case NoApiKey => Analyzed(BuildFallback(ctx))
      case ProviderThrows => Analyzed(BuildFallback(ctx))
      case Replied(reply) =>
        match SafeParseAnalysis(reply, parse)
        case NoReply => Analyzed(BuildFallback(ctx))
        case Typed(a) => Analyzed(a)
        case Untyped => UntypedReply
  }

  /** An analysis from the fallback (no API key or a failing provider) has risk
      MEDIUM, the normalised title, one to three action items and at most three
      notified teams. */
  lemma AnalyzeFallbackShape(title: Option<string>, text: string, companyName: string, sectors: seq<string>,
                             policies: seq<PolicySnapshot>, provider: ProviderOutcome, parse: string -> Option<Value>)
    requires provider.NoApiKey? || provider.ProviderThrows?
    ensures
      var r := Analyze(title, text, companyName, sectors, policies, provider, parse);
      r.Analyzed? ==>
        && r.analysis.riskLevel == MEDIUM
        && r.analysis.title == NormalizedTitle(title)
        && 1 <= |r.analysis.actionItems| <= 3
        && |r.analysis.notifiedTeams| <= 3
  {
  }

  /** An analysis taken from a typed provider reply has a non-empty summary and
      lists of non-empty strings. */
  lemma AnalyzeReplyShape(title: Option<string>, text: string, companyName: string, sectors: seq<string>,
                          policies: seq<PolicySnapshot>, reply: Option<string>, parse: string -> Option<Value>)
    requires SafeParseAnalysis(reply, parse).Typed?
    ensures
      var r := Analyze(title, text, companyName, sectors, policies, Replied(reply), parse);
      r.Analyzed? ==>
        && r.analysis.summary != ""
        && (forall x :: x in r.analysis.actionItems ==> x != "")
        && (forall x :: x in r.analysis.notifiedTeams ==> x != "")
  {
  }

}
