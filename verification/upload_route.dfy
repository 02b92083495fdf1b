/**
 * POST of the regulation upload route: the request gates in their fixed order,
 * then text extraction, analysis and creation of the briefing record.
 *
 * The PDF parser is not modelled: what it yields is an input.
 */
module UploadRoute {
  import opened Wrappers
  import opened Text
  import opened Json
  import opened Http
  import opened Risk
  import opened Insights
  import Analyzer
  import OnboardingStore

  const MaxPdfBytes: nat := 8 * 1024 * 1024

  /** The `file` entry of the form: not a Blob, or a Blob with its MIME type
      ("" when unknown) and size in bytes. */
  datatype FileField = NotBlob | Blob(mimeType: string, size: nat)

  /** The parsed form data: the file and the `title` entry when it is a string. */
  datatype Form = Form(file: FileField, title: Option<string>)

  /** What the PDF parser does: throws, or yields a result whose `text` may be missing. */
  datatype Extraction = ExtractThrows | Extracted(text: Option<string>)

  /** The checks made before any work on the file, in order; None lets the request through. */
  function Gate(session: Option<Session>, form: Option<Form>, membership: Option<string>,
                profile: Option<OnboardingStore.OnboardingProfile>): (r: Option<(nat, string)>)
    ensures session.None? ==> r == Some((401, "Unauthorized"))
    ensures r.None? <==>
      && session.Some? && form.Some? && form.value.file.Blob?
      && (form.value.file.mimeType == "" || form.value.file.mimeType == "application/pdf")
      && form.value.file.size <= MaxPdfBytes
      && membership.Some? && profile.Some?
    ensures r.Some? ==> r.value.0 == 401 || r.value.0 == 400
    ensures session.Some? && r.Some? ==> r.value.0 == 400
    ensures session.Some? && form.None? ==> r == Some((400, "Invalid form data"))
    ensures session.Some? && form.Some? && !form.value.file.Blob? ==> r == Some((400, "Missing PDF file"))
    ensures session.Some? && form.Some? && form.value.file.Blob? &&
            form.value.file.mimeType != "" && form.value.file.mimeType != "application/pdf" ==>
      r == Some((400, "Only PDF files are supported"))
    ensures session.Some? && form.Some? && form.value.file.Blob? &&
            (form.value.file.mimeType == "" || form.value.file.mimeType == "application/pdf") &&
            form.value.file.size > MaxPdfBytes ==>
      r == Some((400, "PDF too large (limit 8MB)"))
    ensures r == Some((400, "No company associated with account")) <==>
      && session.Some? && form.Some? && form.value.file.Blob?
      && (form.value.file.mimeType == "" || form.value.file.mimeType == "application/pdf")
      && form.value.file.size <= MaxPdfBytes
      && membership.None?
    ensures r == Some((400, "Complete onboarding first")) <==>
      && session.Some? && form.Some? && form.value.file.Blob?
      && (form.value.file.mimeType == "" || form.value.file.mimeType == "application/pdf")
      && form.value.file.size <= MaxPdfBytes
      && membership.Some? && profile.None?
  {
    if session.None? then Some((401, "Unauthorized"))
    else if form.None? then Some((400, "Invalid form data"))
    else if !form.value.file.Blob? then Some((400, "Missing PDF file"))
    else if form.value.file.mimeType != "" && form.value.file.mimeType != "application/pdf" then
      Some((400, "Only PDF files are supported"))
    else if form.value.file.size > MaxPdfBytes then Some((400, "PDF too large (limit 8MB)"))
    else if membership.None? then Some((400, "No company associated with account"))
    else if profile.None? then Some((400, "Complete onboarding first"))
    else None
  }

  /** The file checks come before the membership and profile checks: a bad file is
      reported whatever the caller's company and profile. */
  lemma FileChecksFirst(session: Session, file: FileField, title: Option<string>,
                        m1: Option<string>, p1: Option<OnboardingStore.OnboardingProfile>,
                        m2: Option<string>, p2: Option<OnboardingStore.OnboardingProfile>)
    requires !file.Blob? || (file.mimeType != "" && file.mimeType != "application/pdf") || file.size > MaxPdfBytes
    ensures Gate(Some(session), Some(Form(file, title)), m1, p1) == Gate(Some(session), Some(Form(file, title)), m2, p2)
    ensures Gate(Some(session), Some(Form(file, title)), m1, p1).Some?
  {
  }

  /** A file of exactly 8 MiB passes the size check; one byte more does not. */
  lemma SizeLimitInclusive(session: Session, mimeType: string, title: Option<string>, companyId: string,
                           profile: OnboardingStore.OnboardingProfile)
    requires mimeType == "" || mimeType == "application/pdf"
    ensures Gate(Some(session), Some(Form(Blob(mimeType, 8388608), title)), Some(companyId), Some(profile)).None?
    ensures Gate(Some(session), Some(Form(Blob(mimeType, 8388609), title)), Some(companyId), Some(profile))
         == Some((400, "PDF too large (limit 8MB)"))
  {
  }

  /** What follows the gates: an error response, or a record to create. */
  datatype Decision = Respond(status: nat, error: string) | CreateFrom(companyId: string, analysis: Analyzer.Analysis)

  /** The decision for a request: gates, extraction, analysis. */
  function Decide(session: Option<Session>, form: Option<Form>, membership: Option<string>,
                  profile: Option<OnboardingStore.OnboardingProfile>, extraction: Extraction,
                  provider: Analyzer.ProviderOutcome, parse: string -> Option<Value>): (d: Decision)
    ensures d.CreateFrom? ==> Gate(session, form, membership, profile).None? && d.companyId == membership.value
  {
    match Gate(session, form, membership, profile)
    case Some((status, error)) => Respond(status, error)
    case None =>
      match extraction
      case ExtractThrows => Respond(500, "Failed to analyze PDF")
      case Extracted(raw) =>
        var text := match raw case Some(t) => Trim(t) case None => "";
        if text == "" then Respond(400, "Could not extract text from PDF")
        else
          var p := profile.value;
          AfterAnalysis(membership.value,
                        Analyzer.Analyze(form.value.title, text, p.companyName, p.sectors, p.policySnapshots, provider, parse))
  }

  /** What the analyzer's outcome leads to: a record for an analysis, otherwise 500. */
  function AfterAnalysis(companyId: string, outcome: Analyzer.Outcome): (d: Decision)
    ensures d.CreateFrom? <==> outcome.Analyzed?
    ensures d.CreateFrom? ==> d == CreateFrom(companyId, outcome.analysis)
    ensures d.Respond? ==> d == Respond(500, "Failed to analyze PDF")
  {
    match outcome
    case Analyzed(a) => CreateFrom(companyId, a)
    case EmptyText => Respond(500, "Failed to analyze PDF")
    case UntypedReply => Respond(500, "Failed to analyze PDF")
  }

  /** A rejected gate answers with its own status and message; an extraction that
      throws answers 500; extracted text that is missing or blank answers 400; a
      record is created only from the analysis of the trimmed extracted text, for
      the membership's company. */
  lemma DecideSteps(session: Option<Session>, form: Option<Form>, membership: Option<string>,
                    profile: Option<OnboardingStore.OnboardingProfile>, extraction: Extraction,
                    provider: Analyzer.ProviderOutcome, parse: string -> Option<Value>)
    ensures
      var g := Gate(session, form, membership, profile);
      var d := Decide(session, form, membership, profile, extraction, provider, parse);
      && (g.Some? ==> d == Respond(g.value.0, g.value.1))
      && (g.None? && extraction.ExtractThrows? ==> d == Respond(500, "Failed to analyze PDF"))
      && (g.None? && extraction.Extracted? && (extraction.text.None? || Trim(extraction.text.value) == "") ==>
            d == Respond(400, "Could not extract text from PDF"))
      && (d.CreateFrom? ==>
            && extraction.Extracted? && extraction.text.Some?
            && Analyzer.Analyze(form.value.title, Trim(extraction.text.value), profile.value.companyName,
                                profile.value.sectors, profile.value.policySnapshots, provider, parse)
               == Analyzer.Analyzed(d.analysis))
  {
  }

  /** Extracted text is already trimmed and non-blank when it reaches the analyzer,
      so the analyzer's empty-text error cannot occur; only an untyped provider
      reply makes the request fail after extraction. */
  lemma AnalysisAfterExtraction(session: Session, form: Form, companyId: string,
                                profile: OnboardingStore.OnboardingProfile, text: string,
                                provider: Analyzer.ProviderOutcome, parse: string -> Option<Value>)
    requires Gate(Some(session), Some(form), Some(companyId), Some(profile)).None?
    requires Trim(text) != ""
    ensures
      var d := Decide(Some(session), Some(form), Some(companyId), Some(profile), Extracted(Some(text)), provider, parse);
      var a := Analyzer.Analyze(form.title, Trim(text), profile.companyName, profile.sectors, profile.policySnapshots, provider, parse);
      && a != Analyzer.EmptyText
      && (d.Respond? <==> a == Analyzer.UntypedReply)
      && (d.Respond? ==> d == Respond(500, "Failed to analyze PDF"))
  {
    var t := Trim(text);
    var a := Analyzer.Analyze(form.title, t, profile.companyName, profile.sectors, profile.policySnapshots, provider, parse);
    NonBlankAnalyzed(form.title, t, profile.companyName, profile.sectors, profile.policySnapshots, provider, parse);
    assert Decide(Some(session), Some(form), Some(companyId), Some(profile), Extracted(Some(text)), provider, parse)
        == AfterAnalysis(companyId, a);
  }

  lemma NonBlankAnalyzed(title: Option<string>, t: string, companyName: string, sectors: seq<string>,
                         policies: seq<Analyzer.PolicySnapshot>, provider: Analyzer.ProviderOutcome, parse: string -> Option<Value>)
    requires t != [] && !IsSpace(t[0])
    ensures Analyzer.Analyze(title, t, companyName, sectors, policies, provider, parse) != Analyzer.EmptyText
  {
  }

  /** POST. `membership` is the company id of some membership of the caller (the
      lookup picks no particular one); the profile comes from the onboarding store. */
  method Post(briefings: BriefingStore, onboarding: OnboardingStore.Store, session: Option<Session>,
              form: Option<Form>, membership: Option<string>, extraction: Extraction,
              provider: Analyzer.ProviderOutcome, parse: string -> Option<Value>,
              now: Timestamp, freshId: string) returns (r: Response<SerializedInsight>)
    requires briefings.Valid()
    requires forall x :: x in briefings.records ==> x.id != freshId
    modifies briefings
    ensures briefings.Valid()
    ensures
      var profile := if session.Some? then onboarding.GetProfile(session.value.sub) else None;
      match Decide(session, form, membership, profile, extraction, provider, parse)
      case Respond(status, error) =>
        r == Fail(status, error) && briefings.records == old(briefings.records)
      case CreateFrom(companyId, a) =>
        && briefings.records == old(briefings.records) +
             [NewRecord(freshId, companyId, a.title, a.summary, a.riskLevel, a.actionItems, a.notifiedTeams, now)]
        && r == Ok(SerializedInsight(freshId, companyId, a.title, a.summary, a.actionItems, a.notifiedTeams,
                                     a.riskLevel, "NEW", None, now, now))
  {
    var profile := if session.Some? then onboarding.GetProfile(session.value.sub) else None;
    var d := Decide(session, form, membership, profile, extraction, provider, parse);
    match d
    case Respond(status, error) =>
      r := Fail(status, error);
    case CreateFrom(companyId, a) =>
      var rec := briefings.Create(companyId, a.title, a.summary, a.riskLevel, a.actionItems, a.notifiedTeams, now, freshId);
      NewRecordRoundTrip(freshId, companyId, a.title, a.summary, a.riskLevel, a.actionItems, a.notifiedTeams, now);
      r := Ok(Serialize(rec));
  }
}
