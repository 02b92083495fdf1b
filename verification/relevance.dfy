/**
 * The keyword side of the relevance scorer in the Python backend: synonym
 * expansion of a company's domain labels, the company list, name search and
 * lookup, the per-domain keyword hits of a policy text, the domain overlap
 * ratio, risk bucketing on a given score and the batch ordering.
 *
 * The company profiles and the taxonomy are parameters (the module loads
 * them from files). The weighted floating-point score (embedding similarity,
 * recency) is a parameter `scorer` of the batch.
 */
module Relevance {
  import opened Wrappers
  import opened Text
  import opened Sorting

  /** A company profile: `name`, `domains` (absent = []) and `description`. */
  datatype Company = Company(name: string, domains: seq<string>, description: string)

  /** One taxonomy domain with its keyword list, in file order. */
  datatype TaxonomyDomain = TaxonomyDomain(name: string, keywords: seq<string>)

  /** A domain whose keywords occur in a text, with the keywords that occur. */
  datatype DomainHit = DomainHit(domain: string, hits: set<string>)

  // ---------------------------------------------------------------------------
  // Synonym expansion
  // ---------------------------------------------------------------------------

  /** `DOMAIN_SYNONYMS.get(d, [])`. */
  function Synonyms(d: string): seq<string>
  {
    if d == "FinTech" then ["FinancialCompliance", "AntiFraud", "Privacy"]
    else if d == "GeneralTech" then ["AIRegulation", "Cybersecurity", "Privacy"]
    else []
  }

  function SetOf(xs: seq<string>): set<string>
  {
    set x | x in xs
  }

  lemma SetOfSnoc(xs: seq<string>, j: nat)
    requires j < |xs|
    ensures SetOf(xs[..j + 1]) == SetOf(xs[..j]) + {xs[j]}
  {
    assert xs[..j + 1] == xs[..j] + [xs[j]];
  }

  /** The set the expansion loop has built after the labels `domains`. */
  function Expanded(domains: seq<string>): set<string>
  {
    if domains == [] then {}
    else
      var d := domains[|domains| - 1];
      Expanded(domains[..|domains| - 1]) + {d} + SetOf(Synonyms(d))
  }

  /** `_expand_company_domains`: each label, then each of its synonyms, is added
      to the set. */
  method ExpandCompanyDomains(domains: seq<string>) returns (expanded: set<string>)
    ensures expanded == Expanded(domains)
  {
    expanded := {};
    var i := 0;
    while i < |domains|
      invariant 0 <= i <= |domains|
      invariant expanded == Expanded(domains[..i])
    {
      var d := domains[i];
      expanded := expanded + {d};
      var synonyms := Synonyms(d);
      var j := 0;
      while j < |synonyms|
        invariant 0 <= j <= |synonyms|
        invariant expanded == Expanded(domains[..i]) + {d} + SetOf(synonyms[..j])
      {
        SetOfSnoc(synonyms, j);
        expanded := expanded + {synonyms[j]};
        j := j + 1;
      }
      assert synonyms[..j] == synonyms;
      assert domains[..i + 1][..i] == domains[..i];
      i := i + 1;
    }
    assert domains[..i] == domains;
  }

  /** The expansion holds exactly the labels and the synonyms of the labels. */
  lemma {:induction false} ExpandedMembers(domains: seq<string>, x: string)
    ensures x in Expanded(domains) <==> x in domains || exists d :: d in domains && x in Synonyms(d)
  {
    if domains != [] {
      var init := domains[..|domains| - 1];
      var d := domains[|domains| - 1];
      assert domains == init + [d];
      ExpandedMembers(init, x);
      if x in Synonyms(d) {
        assert d in domains;
      }
      if exists e :: e in domains && x in Synonyms(e) {
        var e :| e in domains && x in Synonyms(e);
        if e != d {
          assert e in init;
        }
      }
    }
  }

  /** Every input label is in its own expansion. */
  lemma ExpandedContainsLabels(domains: seq<string>, x: string)
    requires x in domains
    ensures x in Expanded(domains)
  {
    ExpandedMembers(domains, x);
  }

  /** `overlap / max(1, len(company_domains))`: the share of the company's
      expanded domains that the text hits. */
  function OverlapRatio(hitDomains: set<string>, companyDomains: set<string>): (r: real)
    ensures 0.0 <= r <= 1.0
    ensures r == 0.0 <==> hitDomains * companyDomains == {}
  {
    var overlap := hitDomains * companyDomains;
    var n := if |companyDomains| < 1 then 1 else |companyDomains|;
    SubsetCard(overlap, companyDomains);
    RatioBounds(|overlap|, n);
    (|overlap| as real) / (n as real)
  }

  lemma RatioBounds(o: nat, n: nat)
    requires 1 <= n && o <= n
    ensures 0.0 <= (o as real) / (n as real) <= 1.0
    ensures (o as real) / (n as real) == 0.0 <==> o == 0
  {
    var q := (o as real) / (n as real);
    assert q * (n as real) == o as real;
  }

  lemma {:induction false} SubsetCard(a: set<string>, b: set<string>)
    requires a <= b
    ensures |a| <= |b|
    decreases |b|
  {
    if a != {} {
      var x :| x in a;
      SubsetCard(a - {x}, b - {x});
    }
  }

  // ---------------------------------------------------------------------------
  // Company list, search and lookup
  // ---------------------------------------------------------------------------

  /** `list_companies`: the names in stored order. */
  function ListCompanies(companies: seq<Company>): (r: seq<string>)
    ensures |r| == |companies|
    ensures forall i :: 0 <= i < |companies| ==> r[i] == companies[i].name
  {
    if companies == [] then [] else [companies[0].name] + ListCompanies(companies[1..])
  }

  /** The names whose lower-cased form contains `t`, in stored order. */
  function NamesContaining(companies: seq<Company>, t: string): (r: seq<string>)
    ensures |r| <= |companies|
  {
    if companies == [] then []
    else
      var c := companies[0];
      (if Contains(Lower(c.name), t) then [c.name] else []) + NamesContaining(companies[1..], t)
  }

  /** `search_companies`: the term is lower-cased and then stripped. It finds
      listed names only, at most one per company. */
  function SearchCompanies(companies: seq<Company>, term: string): (r: seq<string>)
    ensures |r| <= |companies|
    ensures forall x :: x in r ==> x in ListCompanies(companies)
  {
    var r := NamesContaining(companies, Trim(Lower(term)));
    assert forall x :: x in r ==> x in ListCompanies(companies) by {
      forall x | x in r ensures x in ListCompanies(companies) {
        NamesContainingMember(companies, Trim(Lower(term)), x);
        var i :| 0 <= i < |companies| && companies[i].name == x && Contains(Lower(x), Trim(Lower(term)));
        assert ListCompanies(companies)[i] == x;
      }
    }
    r
  }

  /** A name is found iff it is the name of a stored company whose lower-cased
      name contains the normalised term. */
  lemma {:induction false} SearchMember(companies: seq<Company>, term: string, x: string)
    ensures x in SearchCompanies(companies, term) <==>
      exists i :: 0 <= i < |companies| && companies[i].name == x && Contains(Lower(x), Trim(Lower(term)))
  {
    NamesContainingMember(companies, Trim(Lower(term)), x);
  }

  lemma {:induction false} NamesContainingMember(companies: seq<Company>, t: string, x: string)
    ensures x in NamesContaining(companies, t) <==>
      exists i :: 0 <= i < |companies| && companies[i].name == x && Contains(Lower(x), t)
  {
    if companies != [] {
      NamesContainingMember(companies[1..], t, x);
      if exists i :: 0 <= i < |companies| && companies[i].name == x && Contains(Lower(x), t) {
        var i :| 0 <= i < |companies| && companies[i].name == x && Contains(Lower(x), t);
        if i > 0 {
          assert companies[1..][i - 1] == companies[i];
        }
      }
      if exists i :: 0 <= i < |companies[1..]| && companies[1..][i].name == x && Contains(Lower(x), t) {
        var i :| 0 <= i < |companies[1..]| && companies[1..][i].name == x && Contains(Lower(x), t);
        assert companies[i + 1] == companies[1..][i];
      }
    }
  }

  /** Search keeps stored order: it distributes over concatenation. */
  lemma {:induction false} SearchKeepsOrder(a: seq<Company>, b: seq<Company>, term: string)
    ensures SearchCompanies(a + b, term) == SearchCompanies(a, term) + SearchCompanies(b, term)
  {
    NamesContainingAppend(a, b, Trim(Lower(term)));
  }

  lemma {:induction false} NamesContainingAppend(a: seq<Company>, b: seq<Company>, t: string)
    ensures NamesContaining(a + b, t) == NamesContaining(a, t) + NamesContaining(b, t)
  {
    if a == [] {
      assert a + b == b;
    } else {
      assert (a + b)[0] == a[0];
      assert (a + b)[1..] == a[1..] + b;
      NamesContainingAppend(a[1..], b, t);
    }
  }

  /** A blank term (after lower-casing and stripping) finds every company. */
  lemma {:induction false} BlankSearchListsAll(companies: seq<Company>, term: string)
    requires Trim(Lower(term)) == ""
    ensures SearchCompanies(companies, term) == ListCompanies(companies)
  {
    NamesContainingEmpty(companies);
  }

  lemma {:induction false} NamesContainingEmpty(companies: seq<Company>)
    ensures NamesContaining(companies, "") == ListCompanies(companies)
  {
    if companies != [] {
      assert Contains(Lower(companies[0].name), "");
      NamesContainingEmpty(companies[1..]);
    }
  }

  /** Names compared case-insensitively. */
  predicate SameName(c: Company, name: string)
  {
    Lower(c.name) == Lower(name)
  }

  /** `get_company_profile`: the first company with a matching name; None is the
      `KeyError`. */
  function GetCompanyProfile(companies: seq<Company>, name: string): (r: Option<Company>)
    ensures r.None? <==> forall i :: 0 <= i < |companies| ==> !SameName(companies[i], name)
    ensures r.Some? ==>
      exists i ::
        && 0 <= i < |companies| && companies[i] == r.value && SameName(r.value, name)
        && forall j :: 0 <= j < i ==> !SameName(companies[j], name)
  {
    if companies == [] then None
    else if SameName(companies[0], name) then Some(companies[0])
    else
      var r := GetCompanyProfile(companies[1..], name);
      assert forall i :: 1 <= i < |companies| ==> companies[i] == companies[1..][i - 1];
      r
  }

  // ---------------------------------------------------------------------------
  // Keyword hits
  // ---------------------------------------------------------------------------

  /** `[k for k in kws if k in text_lower]` over the keyword set of a domain. */
  function KeywordsIn(keywords: seq<string>, textLower: string): set<string>
  {
    set k | k in keywords && Contains(textLower, k)
  }

  /** What the hit loop has recorded after the domains `taxonomy`. */
  function DomainHits(taxonomy: seq<TaxonomyDomain>, textLower: string): (r: seq<DomainHit>)
    ensures |r| <= |taxonomy|
    ensures forall k :: 0 <= k < |r| ==> r[k].hits != {}
  {
    if taxonomy == [] then []
    else
      var d := taxonomy[|taxonomy| - 1];
      var hits := KeywordsIn(d.keywords, textLower);
      DomainHits(taxonomy[..|taxonomy| - 1], textLower) + (if hits != {} then [DomainHit(d.name, hits)] else [])
  }

  /** `sum(len(v) for v in domain_hits.values())`. */
  function KeywordTotal(hits: seq<DomainHit>): nat
  {
    if hits == [] then 0 else |hits[0].hits| + KeywordTotal(hits[1..])
  }

  /** The keyword part of `score_policy_for_company`: per taxonomy domain, the
      keywords occurring in the lower-cased text, recorded when there are any,
      and their total count. */
  method ScoreKeywords(taxonomy: seq<TaxonomyDomain>, policyText: string)
    returns (hits: seq<DomainHit>, keywordHits: nat)
    ensures hits == DomainHits(taxonomy, Lower(policyText))
    ensures keywordHits == KeywordTotal(hits)
    ensures keywordHits == 0 <==> hits == []
  {
    var textLower := Lower(policyText);
    hits := [];
    var i := 0;
    while i < |taxonomy|
      invariant 0 <= i <= |taxonomy|
      invariant hits == DomainHits(taxonomy[..i], textLower)
    {
      var found := KeywordsIn(taxonomy[i].keywords, textLower);
      if found != {} {
        hits := hits + [DomainHit(taxonomy[i].name, found)];
      }
      assert taxonomy[..i + 1][..i] == taxonomy[..i];
      i := i + 1;
    }
    assert taxonomy[..i] == taxonomy;
    keywordHits := KeywordTotal(hits);
    KeywordTotalZero(hits);
  }

  /** The total is zero exactly when no domain was hit, since only domains with
      at least one keyword are recorded. */
  lemma {:induction false} KeywordTotalZero(hits: seq<DomainHit>)
    requires forall k :: 0 <= k < |hits| ==> hits[k].hits != {}
    ensures KeywordTotal(hits) == 0 <==> hits == []
  {
    if hits != [] {
      assert hits[0].hits != {};
    }
  }

  /** A domain is recorded, with exactly the keywords that occur, iff one of its
      keywords occurs in the text. */
  lemma {:induction false} DomainHitsMember(taxonomy: seq<TaxonomyDomain>, textLower: string, i: int)
    requires 0 <= i < |taxonomy|
    ensures DomainHit(taxonomy[i].name, KeywordsIn(taxonomy[i].keywords, textLower)) in DomainHits(taxonomy, textLower) <==>
      exists k :: k in taxonomy[i].keywords && Contains(textLower, k)
  {
    var n := |taxonomy|;
    var init := taxonomy[..n - 1];
    var found := KeywordsIn(taxonomy[i].keywords, textLower);
    if (exists k :: k in taxonomy[i].keywords && Contains(textLower, k)) {
      var k :| k in taxonomy[i].keywords && Contains(textLower, k);
      assert k in found;
      if i < n - 1 {
        assert init[i] == taxonomy[i];
        DomainHitsMember(init, textLower, i);
      }
    } else {
      assert found == {};
    }
  }

  /** Every recorded hit comes from a taxonomy domain and lists the keywords of
      that domain that occur. */
  lemma {:induction false} DomainHitsSound(taxonomy: seq<TaxonomyDomain>, textLower: string, h: DomainHit)
    requires h in DomainHits(taxonomy, textLower)
    ensures exists i :: 0 <= i < |taxonomy| && h.domain == taxonomy[i].name && h.hits == KeywordsIn(taxonomy[i].keywords, textLower)
  {
    var n := |taxonomy|;
    var init := taxonomy[..n - 1];
    if h in DomainHits(init, textLower) {
      DomainHitsSound(init, textLower, h);
      var i :| 0 <= i < |init| && h.domain == init[i].name && h.hits == KeywordsIn(init[i].keywords, textLower);
      assert taxonomy[i] == init[i];
    } else {
      assert h.domain == taxonomy[n - 1].name;
    }
  }

  // ---------------------------------------------------------------------------
  // Bucketing and the batch
  // ---------------------------------------------------------------------------

  /** The risk labels "high", "medium" and "low". */
  datatype RiskBucket = Low | Medium | High

  function Bucket(score: real): (r: RiskBucket)
    ensures r == High <==> score >= 0.7
    ensures r == Medium <==> 0.5 <= score < 0.7
    ensures r == Low <==> score < 0.5
  {
    if score >= 0.7 then High
    else if score >= 0.5 then Medium
    else Low
  }

  function Rank(b: RiskBucket): nat
  {
    match b
    case Low => 0
    case Medium => 1
    case High => 2
  }

  /** A higher score never lands in a lower bucket. */
  lemma BucketMonotone(s: real, t: real)
    requires s <= t
    ensures Rank(Bucket(s)) <= Rank(Bucket(t))
  {
  }

  /** A document to score: every field may be missing. */
  datatype Doc = Doc(id: Option<string>, title: Option<string>, text: Option<string>,
                     date: Option<string>, url: Option<string>)

  /** One entry of the batch result (the floating-point components besides the
      score are not part of this model). */
  datatype ScoredDoc = ScoredDoc(id: Option<string>, title: Option<string>, score: real, risk: RiskBucket,
                                 domains: seq<string>, keywordHits: nat, url: Option<string>)

  /** `(d.get("text") or d.get("title") or "")[:4000]`. */
  function ScoringText(d: Doc): (r: string)
    ensures |r| <= 4000
    ensures d.text.Some? && d.text.value != "" ==> r == Take(d.text.value, 4000)
    ensures (d.text.None? || d.text.value == "") ==> r == Take(OrElse(d.title, ""), 4000)
  {
    Take(OrElse(d.text, OrElse(d.title, "")), 4000)
  }

  function Names(hits: seq<DomainHit>): (r: seq<string>)
    ensures |r| == |hits|
  {
    seq(|hits|, k requires 0 <= k < |hits| => hits[k].domain)
  }

  /** The result entry of one document; `scorer` stands for the weighted score of
      the text and date. */
  function ScoreOne(taxonomy: seq<TaxonomyDomain>, d: Doc, scorer: (string, Option<string>) -> real): ScoredDoc
  {
    var text := ScoringText(d);
    var hits := DomainHits(taxonomy, Lower(text));
    var score := scorer(text, d.date);
    ScoredDoc(d.id, d.title, score, Bucket(score), Names(hits), KeywordTotal(hits), d.url)
  }

  function ScoreKey(r: ScoredDoc): real
  {
    r.score
  }

  /** `batch_score`: one entry per document, then ordered by score, highest
      first. */
  method BatchScore(taxonomy: seq<TaxonomyDomain>, docs: seq<Doc>, scorer: (string, Option<string>) -> real)
    returns (results: seq<ScoredDoc>)
    ensures |results| == |docs|
    ensures SortedDesc(results, ScoreKey)
    ensures multiset(results) == multiset(seq(|docs|, k requires 0 <= k < |docs| => ScoreOne(taxonomy, docs[k], scorer)))
  {
    var unsorted: seq<ScoredDoc> := [];
    var i := 0;
    while i < |docs|
      invariant 0 <= i <= |docs|
      invariant |unsorted| == i
      invariant forall k :: 0 <= k < i ==> unsorted[k] == ScoreOne(taxonomy, docs[k], scorer)
    {
      var d := docs[i];
      var text := ScoringText(d);
      var hits, keywordHits := ScoreKeywords(taxonomy, text);
      var score := scorer(text, d.date);
      var risk := Bucket(score);
      unsorted := unsorted + [ScoredDoc(d.id, d.title, score, risk, Names(hits), keywordHits, d.url)];
      i := i + 1;
    }
    assert unsorted == seq(|docs|, k requires 0 <= k < |docs| => ScoreOne(taxonomy, docs[k], scorer));
    results := SortDesc(unsorted, ScoreKey);
  }

  /** Every entry of the batch carries the bucket of its own score. */
  lemma BatchBuckets(taxonomy: seq<TaxonomyDomain>, docs: seq<Doc>, scorer: (string, Option<string>) -> real,
                     results: seq<ScoredDoc>, r: ScoredDoc)
    requires multiset(results) == multiset(seq(|docs|, k requires 0 <= k < |docs| => ScoreOne(taxonomy, docs[k], scorer)))
    requires r in results
    ensures r.risk == Bucket(r.score)
    ensures exists k :: 0 <= k < |docs| && r == ScoreOne(taxonomy, docs[k], scorer)
  {
    var all := seq(|docs|, k requires 0 <= k < |docs| => ScoreOne(taxonomy, docs[k], scorer));
    assert r in multiset(results);
    assert r in all;
  }
}
