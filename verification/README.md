# PolicyMind core in Dafny

PolicyMind turns regulation text into briefings for a company's compliance
teams. A signed-in user first completes onboarding. That saves a company
profile: name, sectors, regulator feeds, policy snapshots, risk stance and
summary cadence. The user can then upload a regulation PDF. Its text is
analysed against the profile, either by an AI provider or by a
deterministic fallback, and stored as a briefing. Briefings are listed per
company, and a briefing can be mailed to the owners of the policies it
concerns. A Python backend fetches Federal Register documents, tags them with
taxonomy domains, and scores and buckets them for a company. Two scripts
generate placeholder company profiles and a fine-tuning dataset.

The model has one module per core file:

| module | file | form |
|---|---|---|
| `Text`, `Wrappers`, `Json`, `Http` | shared string, option, JSON-value and response vocabulary | pure |
| `Risk`, `Insights` | `src/lib/insights.ts` | pure functions, plus the class `BriefingStore` for the briefing table |
| `InsightsRoute` | `src/app/api/insights/route.ts` | pure |
| `OnboardingStore` | `src/lib/onboarding-store.ts` | pure mappings, plus the class `Store` for companies and memberships |
| `OnboardingRoute` | `src/app/api/onboarding/route.ts` | validation loop as a method; POST changes the store |
| `Analyzer` | `src/lib/regulation-analyzer.ts` | pure |
| `UploadRoute` | `src/app/api/regulations/upload/route.ts` | POST changes the briefing store |
| `PreviewRoute` | `src/app/api/notifications/preview/route.ts` | pure |
| `Relevance`, `Sorting` | `backend/app/services/relevance.py` | loops as methods over spec functions |
| `Ingest` | `backend/app/services/ingest.py` | loops as methods |
| `CompanyProfiles` | `scripts/generate_company_profiles.py` | loops as methods |
| `Dataset` | `scripts/prepare_dataset.py` | loop as a method, cleanup as functions |

These things are inputs to the model, not part of it:
- the session, the request body and the form data;
- the database rows a lookup returns;
- what the PDF parser, the AI provider, the JSON parser and the mail transport do;
- the clock and freshly assigned ids.

Database tables the routes change are class fields (`BriefingStore.records`,
`Store.companies`, `Store.members`). Every method that changes a table states
the whole new table: unchanged on an error answer, and otherwise the exact rows
written.

## Model

| member | source | states |
|---|---|---|
| Risk.Normalize | src/lib/insights.ts:41-46 | "HIGH" and "MEDIUM" are kept; every other stored string, in either direction of the iff, becomes LOW |
| Risk.NormalizeName | src/lib/insights.ts:41-46 | a level's stored name normalises back to that level; a value survives normalisation unchanged iff it is one of the three names |
| Json.StringEntries | src/lib/insights.ts:36 | the filter keeps exactly the string entries of the array |
| Json.StringEntriesAppend | src/lib/onboarding-store.ts:176 | the string filter keeps input order (it distributes over concatenation) |
| Json.StringEntriesOfStrs | src/lib/onboarding-store.ts:171-177 | a list of strings stored as a JSON array reads back unchanged |
| Insights.ParseStringArray | src/lib/insights.ts:33-39 | a falsy or non-array value gives no entries; an array gives its string entries in order |
| Insights.Serialize | src/lib/insights.ts:17-31 | ids, title, summary and status are copied; archivedAt is null iff the row is not archived; the risk is normalised; each list is `parseStringArray` of its column: exactly the string entries of an array, in order, and empty otherwise |
| Insights.NewRecordRoundTrip | src/lib/insights.ts:17-31 | a freshly created row serialises back to exactly what was written, with status NEW and archivedAt null |
| Insights.Select | src/app/api/insights/route.ts:28-32 | a row is selected iff it belongs to the company and its archivedAt presence matches the requested view |
| Insights.ViewsPartition | src/app/api/insights/route.ts:28-32 | the active and archived views of a company split its rows between them with nothing lost or repeated |
| Insights.BriefingStore.constructor | src/app/api/insights/route.ts:28-34 | an empty briefing table is valid |
| Insights.BriefingStore.Find | src/app/api/notifications/preview/route.ts:40-43 | no row is found iff no row has the id; a found row is stored and has that id |
| Insights.BriefingStore.Create | src/app/api/regulations/upload/route.ts:72-81 | appends exactly the new row under a fresh id, keeps ids unique, and a later lookup of that id finds it |
| Insights.BriefingStore.List | src/app/api/insights/route.ts:28-34 | lists exactly the company's rows of the view, each once, newest first by createdAt (active) or archivedAt (archived) |
| InsightsRoute.IncludeArchivedCases | src/app/api/insights/route.ts:16-17 | the archived view is chosen exactly for "1" and for "true" in any mix of cases |
| InsightsRoute.Get | src/app/api/insights/route.ts:9-37 | 401 iff there is no session; an empty list when the caller has no membership; otherwise the serialized listing of the requested view |
| InsightsRoute.GetReturnsOwnView | src/app/api/insights/route.ts:28-36 | every listed briefing belongs to the caller's company and is in the requested view |
| OnboardingStore.FromEntriesKeys | src/lib/onboarding-store.ts:210-212 | the record built from entries has exactly the entries' keys |
| OnboardingStore.FromEntriesAt | src/lib/onboarding-store.ts:210-212 | with distinct keys, each entry's key reads its own value |
| OnboardingStore.InvertRecord | src/lib/onboarding-store.ts:207-213 | the inverted record's keys are exactly the values of the input's entries |
| OnboardingStore.InvertRecordInverts | src/lib/onboarding-store.ts:207-213 | for a one-to-one record, the inverse has exactly the record's values as keys, and the record and its inverse undo each other |
| OnboardingStore.RiskLookup | src/lib/onboarding-store.ts:34-38 | the stance table knows exactly "conservative", "balanced" and "aggressive", and its inverse (line 49) maps codes back to stances in both directions |
| OnboardingStore.SummaryLookup | src/lib/onboarding-store.ts:40-50 | the cadence table knows exactly "weekly", "biweekly" and "monthly", and it and its inverse undo each other |
| OnboardingStore.NotificationLookup | src/lib/onboarding-store.ts:51-55 | every channel code reads back as "gmail" |
| OnboardingStore.Read | src/lib/onboarding-store.ts:149-151 | a record lookup yields an own entry iff the key is one, an inherited `Object.prototype` member iff the key names one and is not an own entry, and otherwise undefined |
| OnboardingStore.BuildCompanyPayload | src/lib/onboarding-store.ts:141-154 | name, country, band and the three JSON columns are copied; the channel is always EMAIL; a stance or cadence is an own table entry iff the literal is one the tables know, and an inherited member iff the literal names an `Object.prototype` member |
| OnboardingStore.ParseStringArray | src/lib/onboarding-store.ts:171-177 | a non-array gives no entries; an array gives its string entries in order |
| OnboardingStore.SnapshotOf | src/lib/onboarding-store.ts:185-200 | an entry is kept iff it is an object with string area, maturity and ownerTeam; a non-string ownerContact becomes "" |
| OnboardingStore.SnapshotsFromAppend | src/lib/onboarding-store.ts:184-204 | the reduce keeps input order (it distributes over concatenation) |
| OnboardingStore.ParsePolicySnapshots | src/lib/onboarding-store.ts:179-205 | a non-array gives no snapshots; an array gives the well-formed entries, in order |
| OnboardingStore.SnapshotsRoundTrip | src/lib/onboarding-store.ts:179-205 | snapshots stored as JSON read back unchanged |
| OnboardingStore.ToOnboardingProfile | src/lib/onboarding-store.ts:156-169 | name, country, employee band and updatedAt are copied, and the channel is always "gmail" |
| OnboardingStore.CreatedProfileRoundTrip | src/lib/onboarding-store.ts:79-94 | a company created from a submission reads back as that submission (string lists filtered, well-formed snapshots, known stance and cadence); an unknown stance or focus reads back as null, under the assumption that an undefined enum column is stored as null (see Left out) |
| OnboardingStore.UpdatedProfileRoundTrip | src/lib/onboarding-store.ts:70-77 | a company updated from a submission reads back as that submission |
| OnboardingStore.WellTypedProfileRoundTrip | src/lib/onboarding-store.ts:141-169 | a submission of plain strings, well-formed snapshots and known literals reads back field for field |
| OnboardingStore.Earliest | src/lib/onboarding-store.ts:64-68 | none iff the user has no membership; otherwise one of the user's memberships with the smallest createdAt |
| OnboardingStore.EarliestAppend | src/lib/onboarding-store.ts:83-91 | the membership created with a user's first company is that user's earliest |
| OnboardingStore.Store.constructor | src/lib/onboarding-store.ts:97-109 | an empty store is consistent and knows no profile |
| OnboardingStore.Store.GetProfile | src/lib/onboarding-store.ts:97-109 | null iff the user has no membership or the earliest membership's company is missing; otherwise the profile of the earliest membership's company |
| OnboardingStore.Store.Save | src/lib/onboarding-store.ts:57-95 | throws, changing nothing, iff the payload holds an inherited member for the stance or cadence; otherwise updates the earliest membership's company in place, or else creates a company with an OWNER membership; the store stays consistent; the result reads back as the submission, and a following get returns it |
| OnboardingRoute.FirstUnfilled | src/app/api/onboarding/route.ts:19-23 | none iff every required key holds a non-empty string; otherwise the first key that does not |
| OnboardingRoute.ValidationOf | src/app/api/onboarding/route.ts:9-38 | throws iff the body is null; accepts iff every required string is filled and the three fields are arrays; otherwise names the first failing check |
| OnboardingRoute.ValidatePayload | src/app/api/onboarding/route.ts:9-38 | the validation loop and array checks reach that verdict |
| OnboardingRoute.FirstFailingKeyReported | src/app/api/onboarding/route.ts:19-23 | the first missing required key, in the listed order, is the one reported |
| OnboardingRoute.EmptyRequiredStringRejected | src/app/api/onboarding/route.ts:19-23 | an empty string in a required field is rejected |
| OnboardingRoute.ArrayChecksAfterStrings | src/app/api/onboarding/route.ts:19-35 | array errors are reported only when every required string is present, in the order sectors, regulator feeds, policy snapshots |
| OnboardingRoute.EnumsAndContentsUnchecked | src/app/api/onboarding/route.ts:9-38 | enum values and array contents are not validated: any non-empty stance, channel and cadence also pass |
| OnboardingRoute.PayloadToInput | src/app/api/onboarding/route.ts:65 | each of the accepted body's six strings and three arrays becomes the same field of the submitted profile, unchanged |
| OnboardingRoute.DecidePost | src/app/api/onboarding/route.ts:51-68 | 401 iff there is no session; saved iff the body parses and validates, for the caller; 400 with the validation message iff it is rejected |
| OnboardingRoute.Get | src/app/api/onboarding/route.ts:40-49 | 401 iff there is no session; otherwise the stored profile or null |
| OnboardingRoute.Post | src/app/api/onboarding/route.ts:51-68 | error answers leave the store unchanged; an accepted body whose write the database rejects answers 500 and changes nothing; otherwise the store holds exactly the saved rows and a following GET returns the submission |
| Analyzer.NormalizedTitle | src/lib/regulation-analyzer.ts:27-33 | the trimmed title when non-blank, else "Uploaded regulation"; never empty |
| Analyzer.Normalize | src/lib/regulation-analyzer.ts:22-33 | none iff the text is blank; otherwise the normalised title, company, sectors, policies and the trimmed text as excerpt |
| Analyzer.ShortExcerpt | src/lib/regulation-analyzer.ts:90 | empty for an empty excerpt and non-empty for one starting with a non-space character; it is always a prefix of the excerpt with each whitespace run collapsed to one space, holding exactly min(80, number of pieces) - 1 spaces, and where it stops short of the collapsed excerpt the next character there is a space, so it is exactly the first 80 pieces of the whitespace split (all of them when there are fewer) joined by single spaces |
| Analyzer.FallbackActions | src/lib/regulation-analyzer.ts:91 | one to three items: a review line for each of the first three policies, or the default line without policies |
| Analyzer.NonBlank | src/lib/regulation-analyzer.ts:92-95 | keeps exactly the entries that are not blank |
| Analyzer.NonBlankAppend | src/lib/regulation-analyzer.ts:92-95 | the blank filter keeps input order (it distributes over concatenation) |
| Analyzer.FallbackTeams | src/lib/regulation-analyzer.ts:92-95 | exactly the first three (or all, if fewer) non-blank policy labels, or, when there are none, exactly the first three (or all) sectors |
| Analyzer.BuildFallback | src/lib/regulation-analyzer.ts:83-104 | risk MEDIUM, the normalised title, the fallback actions and teams, and a summary quoting the short excerpt when there is one |
| Analyzer.FallbackSummaryQuotesExcerpt | src/lib/regulation-analyzer.ts:97-103 | on normalised input the fallback summary always quotes a non-empty excerpt |
| Analyzer.ExtractJsonBlock | src/lib/regulation-analyzer.ts:106-115 | a reply not starting with a fence is returned trimmed; the result never has whitespace at its ends |
| Analyzer.CaptureStart | src/lib/regulation-analyzer.ts:109 | the capture starts after the opening fence and its optional "json" tag, skipping exactly the whitespace run that follows |
| Analyzer.FencedBlock | src/lib/regulation-analyzer.ts:108-113 | when the first fence after the capture start leaves a non-empty capture, the result is that capture trimmed; when there is no such fence or the capture is empty, the whole trimmed reply |
| Analyzer.ExtractFencedBlock | src/lib/regulation-analyzer.ts:106-115 | a reply made of leading whitespace, an opening fence, an optional "json" tag in any case, any whitespace, a block with no fence of its own (lone or double backticks allowed), a closing fence and any trailing text yields exactly the trimmed block |
| Analyzer.NonEmptyStrings | src/lib/regulation-analyzer.ts:73-74 | keeps exactly the non-empty string entries |
| Analyzer.NonEmptyStringsAppend | src/lib/regulation-analyzer.ts:73-74 | the filter keeps input order |
| Analyzer.ReplyRisk | src/lib/regulation-analyzer.ts:75 | HIGH or MEDIUM iff the reply's riskLevel is exactly that string, else LOW |
| Analyzer.FromReply | src/lib/regulation-analyzer.ts:70-76 | a usable reply is typed iff its summary and title are strings; a typed analysis has that title, summary, checked risk and filtered lists |
| Analyzer.SafeParseAnalysis | src/lib/regulation-analyzer.ts:62-81 | no result iff the text is missing, does not parse, or is not an object with a truthy summary and two arrays; otherwise the reply read from it |
| Analyzer.Analyze | src/lib/regulation-analyzer.ts:15-60 | the empty-text error iff the text is blank; without a key, on a provider error or an unusable reply, the fallback analysis; a typed reply is taken as it is |
| Analyzer.AnalyzeFallbackShape | src/lib/regulation-analyzer.ts:35-37 | without an API key or on a failing provider the result is the MEDIUM fallback with one to three actions and at most three teams |
| Analyzer.AnalyzeReplyShape | src/lib/regulation-analyzer.ts:39-57 | an analysis taken from a typed reply has a non-empty summary and lists of non-empty strings |
| UploadRoute.Gate | src/app/api/regulations/upload/route.ts:15-51 | 401 "Unauthorized" without a session; the request passes iff the form parsed, the file is a blob, the type is empty or PDF, the size is at most 8 MiB, and there is a membership and a profile; with a session every refusal is 400, carrying the message of the first failing check in source order ("Invalid form data", "Missing PDF file", "Only PDF files are supported", "PDF too large (limit 8MB)", "No company associated with account", "Complete onboarding first") |
| UploadRoute.FileChecksFirst | src/app/api/regulations/upload/route.ts:27-51 | a bad file is rejected the same way whatever the caller's membership and profile |
| UploadRoute.SizeLimitInclusive | src/app/api/regulations/upload/route.ts:35-37 | a file of exactly 8 MiB passes and one byte more is "PDF too large" |
| UploadRoute.Decide | src/app/api/regulations/upload/route.ts:12-87 | a record is created only after every gate has passed, for the membership's company |
| UploadRoute.AfterAnalysis | src/app/api/regulations/upload/route.ts:64-87 | a record is created iff the analyzer produced an analysis; any other outcome answers 500 |
| UploadRoute.DecideSteps | src/app/api/regulations/upload/route.ts:15-87 | a failing gate answers with its own status and message; a parser error 500; missing or blank text 400; a record only from the analysis of the trimmed text |
| UploadRoute.AnalysisAfterExtraction | src/app/api/regulations/upload/route.ts:58-70 | text that passed extraction is never "empty" to the analyzer; only an untyped provider reply fails the request afterwards |
| UploadRoute.Post | src/app/api/regulations/upload/route.ts:12-88 | error answers leave the briefing table unchanged; otherwise exactly one new row is appended and its serialisation is returned |
| PreviewRoute.IsValidEmailIffShape | src/app/api/notifications/preview/route.ts:162-165 | the check accepts exactly local@domain.suffix with non-empty parts free of whitespace and '@' |
| PreviewRoute.TrimValidEmail | src/app/api/notifications/preview/route.ts:139-145 | a valid address is unchanged by trimming |
| PreviewRoute.NormalizeTargetsMembers | src/app/api/notifications/preview/route.ts:135-137 | the targets are exactly the non-blank trimmed, lower-cased notified teams |
| PreviewRoute.MatchesSomeIff | src/app/api/notifications/preview/route.ts:147-159 | a snapshot matches iff its area or owner team overlaps some target |
| PreviewRoute.MatchOwnerContacts | src/app/api/notifications/preview/route.ts:130-160 | nothing without snapshots; at most one contact per snapshot; every returned contact is a valid address |
| PreviewRoute.UntargetedContacts | src/app/api/notifications/preview/route.ts:130-145 | without targets, the contacts are exactly the snapshots' trimmed owner contacts that are valid; without snapshots there are none |
| PreviewRoute.MatchedContactsAreOwners | src/app/api/notifications/preview/route.ts:147-159 | with targets, a contact is returned iff it is the valid owner contact of a snapshot that matches a target |
| PreviewRoute.Dedup | src/app/api/notifications/preview/route.ts:126-127 | no repeats, and exactly the input's elements |
| PreviewRoute.DedupOrderIff | src/app/api/notifications/preview/route.ts:126-127 | one kept element precedes another iff it occurs first in the input |
| PreviewRoute.DedupKeepsBlocks | src/app/api/notifications/preview/route.ts:126-127 | deduplicating a + b puts every element of a before every element that is only in b |
| PreviewRoute.TrimmedEntries | src/app/api/notifications/preview/route.ts:119-122 | configured addresses are exactly the non-blank trimmed comma-separated entries |
| PreviewRoute.Fallback | src/app/api/notifications/preview/route.ts:125 | the caller's address iff it is non-empty |
| PreviewRoute.ResolveRecipients | src/app/api/notifications/preview/route.ts:114-128 | no recipient twice, and the caller's non-empty address is always one |
| PreviewRoute.Merge | src/app/api/notifications/preview/route.ts:126-127 | exactly the union of the three lists, with no repeats |
| PreviewRoute.RecipientsMembers | src/app/api/notifications/preview/route.ts:114-128 | a recipient iff a matched owner contact, a configured address or the caller |
| PreviewRoute.RecipientsOrder | src/app/api/notifications/preview/route.ts:126-127 | owner contacts come before configured addresses, which come before the caller |
| PreviewRoute.ActionLines | src/app/api/notifications/preview/route.ts:83-85 | the action items, or the single default line when there are none |
| PreviewRoute.Notified | src/app/api/notifications/preview/route.ts:87 | the teams joined with ", ", or the default when there are none |
| PreviewRoute.TextLines | src/app/api/notifications/preview/route.ts:89-96 | summary, a blank line, the heading, a bullet per action, a blank line, and the loop-in line |
| PreviewRoute.BuildNotificationMessage | src/app/api/notifications/preview/route.ts:82-112 | the subject names company, title and risk; the text and HTML bodies are built from the same action lines and notified teams |
| PreviewRoute.MessageListsEveryAction | src/app/api/notifications/preview/route.ts:89-105 | every action line appears in the text body after a bullet and in the HTML body as a list item |
| PreviewRoute.Decide | src/app/api/notifications/preview/route.ts:10-62 | 401 without a session; the handler throws exactly when a session exists and the body is JSON null (reading `insightId` of null); otherwise 400 without an insight id, 400 without a company, 404 unless the briefing exists and belongs to the caller's company, and for the caller's own briefing the outcome of composing its mail |
| PreviewRoute.Compose | src/app/api/notifications/preview/route.ts:45-70 | a mail is sent iff the resolved recipients are non-empty, else 400; the mail goes to those recipients, none twice, with the subject, text and HTML of the built message |
| PreviewRoute.SentMailContents | src/app/api/notifications/preview/route.ts:45-79 | the sent mail goes to the resolved recipients, none twice, and carries the subject, text and HTML built from the serialized briefing and the company name |
| PreviewRoute.CallerEmailSuffices | src/app/api/notifications/preview/route.ts:55-62 | a caller with an email always has a recipient, so a found own briefing is always mailed |
| PreviewRoute.Respond | src/app/api/notifications/preview/route.ts:64-79 | a stop answers its status and error; the answer is 500 exactly when the handler threw or the transport threw; it is 200 exactly when a mail was sent, with channel "Email", the mail's recipients and subject, and the transport's message id, preview URL and transport name |
| Relevance.ExpandCompanyDomains | backend/app/services/relevance.py:57-63 | the loop builds the expansion set |
| Relevance.ExpandedMembers | backend/app/services/relevance.py:57-63 | the expansion holds exactly the labels and the synonyms of the labels |
| Relevance.ExpandedContainsLabels | backend/app/services/relevance.py:59-60 | every label is in its own expansion |
| Relevance.OverlapRatio | backend/app/services/relevance.py:111-113 | between 0 and 1, and 0 iff no hit domain is a company domain |
| Relevance.ListCompanies | backend/app/services/relevance.py:66-67 | one name per stored company, in stored order |
| Relevance.SearchCompanies | backend/app/services/relevance.py:70-72 | at most one name per company, each a listed name |
| Relevance.SearchMember | backend/app/services/relevance.py:70-72 | a name is found iff a stored company's lower-cased name contains the lower-cased, stripped term |
| Relevance.SearchKeepsOrder | backend/app/services/relevance.py:70-72 | search keeps stored order |
| Relevance.BlankSearchListsAll | backend/app/services/relevance.py:66-72 | a blank term finds every company, in stored order |
| Relevance.GetCompanyProfile | backend/app/services/relevance.py:75-79 | the KeyError iff no name matches case-insensitively; otherwise the first match |
| Relevance.ScoreKeywords | backend/app/services/relevance.py:87-93 | the hits per taxonomy domain and their total, which is zero iff no domain was hit |
| Relevance.KeywordTotalZero | backend/app/services/relevance.py:91-93 | only domains with a hit are recorded, so the total is zero iff none was recorded |
| Relevance.DomainHitsMember | backend/app/services/relevance.py:89-92 | a domain is recorded, with exactly its occurring keywords, iff one of its keywords occurs |
| Relevance.DomainHitsSound | backend/app/services/relevance.py:89-92 | every recorded hit lists occurring keywords of its taxonomy domain |
| Relevance.Bucket | backend/app/services/relevance.py:164-169 | high iff the score is at least 0.7, medium iff it is in [0.5, 0.7), low below 0.5 |
| Relevance.BucketMonotone | backend/app/services/relevance.py:164-169 | a higher score never lands in a lower bucket |
| Relevance.ScoringText | backend/app/services/relevance.py:161 | the text, else the title, else "", cut to 4000 characters |
| Relevance.BatchScore | backend/app/services/relevance.py:155-184 | one entry per document, a permutation of the per-document entries, ordered by score, highest first |
| Relevance.BatchBuckets | backend/app/services/relevance.py:162-182 | each entry comes from one document and carries the bucket of its own score |
| Sorting.SortDesc | backend/app/services/relevance.py:183 | sorted by key, highest first, and a permutation of the input |
| Sorting.SortDescSameElements | backend/app/services/relevance.py:183 | sorting keeps exactly the elements it is given |
| Ingest.TagDomains | backend/app/services/ingest.py:52-58 | the tagging loop records each taxonomy domain once, in order, when one of its keywords matches |
| Ingest.FetchDocuments | backend/app/services/ingest.py:25-67 | no documents on a failed request; otherwise the kept items among the first `limit`, in order, each tagged |
| Ingest.SliceTo | backend/app/services/ingest.py:42 | Python's `[:limit]`, including a negative limit |
| Ingest.AtMostLimit | backend/app/services/ingest.py:42 | a non-negative limit bounds the number of documents |
| Ingest.Collect | backend/app/services/ingest.py:42-66 | at most one document per examined item |
| Ingest.CollectKeepsOrder | backend/app/services/ingest.py:42-66 | documents keep item order |
| Ingest.CollectMember | backend/app/services/ingest.py:42-66 | a document is produced iff it is built from a kept item |
| Ingest.KeptIff | backend/app/services/ingest.py:41-50 | an item is kept iff the industry has no keywords or a lower-cased keyword occurs in the lower-cased title and body |
| Ingest.NoIndustryKeepsAll | backend/app/services/ingest.py:41-50 | without industry keywords every item becomes a document |
| Ingest.TagsMember | backend/app/services/ingest.py:52-58 | a domain is tagged iff one of its keywords occurs in the combined text |
| Ingest.TagsNoDup | backend/app/services/ingest.py:54-58 | no domain is tagged twice |
| CompanyProfiles.AssignFrom | scripts/generate_company_profiles.py:36-42 | the keyword loop yields the matched domains, or "GeneralTech" when none matched |
| CompanyProfiles.AssignDomains | scripts/generate_company_profiles.py:36-42 | the same with the script's keyword table |
| CompanyProfiles.GenerateProfiles | scripts/generate_company_profiles.py:33-54 | one profile per list line, in order |
| CompanyProfiles.ProfilesAt | scripts/generate_company_profiles.py:33-54 | profile k is the profile of line k |
| CompanyProfiles.MatchedDomainsMember | scripts/generate_company_profiles.py:38-40 | a domain is matched iff one of its keywords occurs in the lower-cased name |
| CompanyProfiles.MatchedDomainsNoDup | scripts/generate_company_profiles.py:38-40 | matched domains do not repeat when the table's names are distinct |
| CompanyProfiles.DomainsFromShape | scripts/generate_company_profiles.py:36-42 | a profile always has a domain; "GeneralTech" appears iff nothing matched and then alone; no repeats |
| CompanyProfiles.DomainsForShape | scripts/generate_company_profiles.py:14-31 | the script's table has that shape |
| CompanyProfiles.ProfileOf | scripts/generate_company_profiles.py:43-53 | the stripped name is the profile name and appears in the description; the fixed jurisdiction, industry and data categories; the assigned, non-empty domains |
| Dataset.StripTags | scripts/prepare_dataset.py:15-18 | tag substitution never lengthens the text |
| Dataset.StripTagsTagFree | scripts/prepare_dataset.py:15-18 | no tag survives the substitution |
| Dataset.NoTagLeft | scripts/prepare_dataset.py:15-18 | after a '<' of the output, no '>' closes a tag |
| Dataset.TagBecomesSpace | scripts/prepare_dataset.py:15-18 | a tag becomes exactly one space |
| Dataset.Clean | scripts/prepare_dataset.py:17-19 | the cleaned text has no whitespace at its ends and no two whitespace characters in a row |
| Dataset.PromptParts | scripts/prepare_dataset.py:27 | the prompt names the title and the industry and ends with the excerpt |
| Dataset.ExampleOf | scripts/prepare_dataset.py:25-30 | the placeholder answer; an instruction naming the title (default "Untitled") and industry (default "general") and ending with the first 5000 characters of the cleaned text (default "") |
| Dataset.Examples | scripts/prepare_dataset.py:21-30 | one example per document, in order, each the example of its document and with the placeholder answer |
| Dataset.BuildExamples | scripts/prepare_dataset.py:21-30 | the loop builds those examples |
| Text.TrimEmptyIffBlank | src/lib/regulation-analyzer.ts:22-25 | a string trims to "" iff it is all whitespace |
| Text.TrimTwice | src/lib/regulation-analyzer.ts:27-33 | trimming is idempotent |
| Text.JoinSplitOn | src/app/api/notifications/preview/route.ts:119-122 | splitting on a character and joining with it gives back the input |
| Text.JoinSplitSpaces | src/lib/regulation-analyzer.ts:90 | splitting on whitespace runs and joining with one space collapses each run |
| Text.ContainsAnyLowerIff | backend/app/services/ingest.py:48 | some lower-cased keyword occurs iff the text contains the lower-cased form of one of the keywords |

## Left out

- Authentication (`auth0.getSession`), Prisma, the AI provider, `pdf-parse`, the mail transport and the HTTP client are not modelled. Their results are inputs: a session, a membership, a stored row, the provider reply, the extracted text, the send outcome, the fetch response.
- `ensureUserRecord` of src/lib/onboarding-store.ts: it upserts the user row and affects no value the model computes.
- `extractResponseText` of src/lib/regulation-analyzer.ts: the provider's reply text is an input (`ProviderOutcome`).
- The PATCH and DELETE handlers of the insight detail route are not part of this model.
- Timestamps are opaque values, and their ISO rendering is not modelled. `new Date()` and `date.today()` are parameters.
- Whitespace (`\s`, `trim`, `strip`) and case folding (`toLowerCase`, `lower`) are modelled on ASCII only.
- Relevance.BatchScore: the weighted score (embeddings, cosine similarity, recency, `round(…, 4)`) is a scorer parameter. Only the bucketing, text choice and ordering are modelled.
- Relevance.ScoreKeywords: each domain's hits are a set. The order in which a keyword set is iterated is not modelled.
- Sorting.SortDesc: the stability of Python's sort (equal scores keep their input order) is not stated or proved. Only order by score and permutation are.
- PreviewRoute.UntargetedContacts: states which contacts are returned, not their order (which is snapshot order).
- Ingest.TagsNoDup: assumes distinct taxonomy names, which holds because the names are dictionary keys.
- CompanyProfiles.MatchedDomainsNoDup: same assumption of distinct table names.
- Ingest.FetchDocuments: an item whose `title` is explicitly null, and a `results` entry that is not a dictionary, raise errors in Python. These are not modelled: titles default to "".
- File reading and writing in the two scripts are not modelled. The list lines and source documents are parameters, and the output is the returned sequence.
- Dataset.StripTags: the regular expression is modelled by a left-to-right scan equivalent to `<[^>]+>` for non-overlapping matches.
- Analyzer.Normalize: `slice(0, 16000)` counts UTF-16 code units; the model counts characters, so for text outside the Basic Multilingual Plane the cut falls elsewhere, and the source can split a surrogate pair where the model cannot.
- Dataset.ExampleOf: a document whose `title` or `industry` is JSON null renders "None" in the prompt, and a null `text` makes `clean` raise. The model has only missing fields, which take the defaults.
- OnboardingStore.BuildCompanyPayload: a stance or cadence that is neither a table key nor an `Object.prototype` member is sent as undefined. On update that keeps the stored value. On create the model assumes the column is nullable without a default, so `NewCompany` stores null and the profile reads back a null stance or focus; the database schema is not part of this model, and a column default (stored instead of null) or a required column (the row rejected) is not captured.
- OnboardingStore.Store.Save: the model treats every inherited member as rejected by the database. Which error the ORM raises, and anything else the database may reject, are not modelled.
- Membership lookups without `orderBy` (`findFirst` in the insights, upload and preview routes) return an arbitrary membership. The model takes the company id as an input.
