/**
 * The Federal Register fetch of the Python backend: the examined items are
 * filtered by industry keywords and tagged with the taxonomy domains whose
 * keywords they mention.
 *
 * The HTTP request and JSON decoding are an input: `None` stands for any
 * request, status or decoding failure, `Some(items)` for the `results` array
 * (an absent array is `Some([])`). Today's date is a parameter.
 */
module Ingest {
  import opened Wrappers
  import opened Text
  import Relevance

  type TaxonomyDomain = Relevance.TaxonomyDomain

  /** One entry of the `results` array; `title` is "" when absent. */
  datatype Item = Item(documentNumber: Option<string>, title: string, bodyHtml: Option<string>,
                       abstractText: Option<string>, htmlUrl: Option<string>, publicationDate: Option<string>)

  /** One fetched document. */
  datatype FetchedDoc = FetchedDoc(id: Option<string>, title: string, text: string, url: Option<string>,
                                   date: string, domains: seq<string>)

  /** `INDUSTRY_KEYWORDS.get(industry, [])`. */
  function IndustryKeywords(industry: string): seq<string>
  {
    if industry == "finance" then ["SEC", "investment", "bank"]
    else if industry == "healthcare" then ["Medicare", "Medicaid", "FDA", "health"]
    else if industry == "energy" then ["energy", "oil", "gas", "solar", "wind"]
    else if industry == "technology" then ["cybersecurity", "data", "software", "AI"]
    else []
  }

  /** A missing or empty industry means no industry. */
  predicate HasIndustry(industry: Option<string>)
  {
    industry.Some? && industry.value != ""
  }

  function KeywordsFor(industry: Option<string>): seq<string>
  {
    if HasIndustry(industry) then IndustryKeywords(industry.value) else []
  }

  /** `body_html`, else `abstract`, else "". */
  function Body(item: Item): string
  {
    OrElse(item.bodyHtml, OrElse(item.abstractText, ""))
  }

  /** The item survives the industry filter: there is no industry, the industry
      has no keywords, or some keyword, lower-cased, occurs in the lower-cased
      title and body joined without a separator. */
  predicate Kept(item: Item, industry: Option<string>)
  {
    var keywords := KeywordsFor(industry);
    !(HasIndustry(industry) && keywords != [] && !ContainsAny(Lower(item.title + Body(item)), LowerAll(keywords)))
  }

  /** The domains the tagging loop has recorded after the taxonomy entries
      `taxonomy`: a domain is recorded when one of its keywords, lower-cased,
      occurs in `combinedLower`. */
  function Tags(taxonomy: seq<TaxonomyDomain>, combinedLower: string): (r: seq<string>)
    ensures |r| <= |taxonomy|
  {
    if taxonomy == [] then []
    else
      var d := taxonomy[|taxonomy| - 1];
      Tags(taxonomy[..|taxonomy| - 1], combinedLower) +
        (if ContainsAny(combinedLower, LowerAll(d.keywords)) then [d.name] else [])
  }

  /** The document built from a kept item. */
  function DocOf(item: Item, taxonomy: seq<TaxonomyDomain>, today: string): FetchedDoc
  {
    var body := Body(item);
    FetchedDoc(item.documentNumber, item.title, body, item.htmlUrl, OrElse(item.publicationDate, today),
               Tags(taxonomy, Lower(item.title + " " + body)))
  }

  /** The documents the loop has collected after examining `items`. */
  function Collect(items: seq<Item>, industry: Option<string>, taxonomy: seq<TaxonomyDomain>, today: string): (r: seq<FetchedDoc>)
    ensures |r| <= |items|
  {
    FilterMap(items, item => Kept(item, industry), item => DocOf(item, taxonomy, today))
  }

  /** Python's `xs[:limit]`: a negative limit drops that many from the end. */
  function SliceTo<T>(xs: seq<T>, limit: int): (r: seq<T>)
    ensures limit >= 0 ==> r == Take(xs, limit)
    ensures limit < 0 ==> r == xs[..if |xs| + limit < 0 then 0 else |xs| + limit]
  {
    if limit >= 0 then Take(xs, limit)
    else xs[..if |xs| + limit < 0 then 0 else |xs| + limit]
  }

  /** The tagging loop: each taxonomy domain at most once, in taxonomy order, as
      soon as one of its keywords matches. */
  method TagDomains(taxonomy: seq<TaxonomyDomain>, combinedLower: string) returns (domains: seq<string>)
    ensures domains == Tags(taxonomy, combinedLower)
  {
    domains := [];
    var i := 0;
    while i < |taxonomy|
      invariant 0 <= i <= |taxonomy|
      invariant domains == Tags(taxonomy[..i], combinedLower)
    {
      var d := taxonomy[i];
      var j := 0;
      var matched := false;
      while j < |d.keywords|
        invariant 0 <= j <= |d.keywords|
        invariant !matched ==> forall m :: 0 <= m < j ==> !Contains(combinedLower, Lower(d.keywords[m]))
        invariant matched ==> ContainsAny(combinedLower, LowerAll(d.keywords))
      {
        if Contains(combinedLower, Lower(d.keywords[j])) {
          assert d.keywords[j] in d.keywords;
          ContainsAnyLowerIff(combinedLower, d.keywords);
          matched := true;
          break;
        }
        j := j + 1;
      }
      if matched {
        domains := domains + [d.name];
      } else {
        forall k | k in d.keywords
          ensures !Contains(combinedLower, Lower(k))
        {
          var m :| 0 <= m < |d.keywords| && d.keywords[m] == k;
        }
        ContainsAnyLowerIff(combinedLower, d.keywords);
      }
      assert taxonomy[..i + 1][..i] == taxonomy[..i];
      assert taxonomy[..i + 1][i] == d;
      i := i + 1;
    }
    assert taxonomy[..i] == taxonomy;
  }

  /** `fetch_documents`: no documents on a failed fetch; otherwise the kept items
      among the first `limit`, in order, each tagged. */
  method FetchDocuments(response: Option<seq<Item>>, industry: Option<string>, limit: int,
                        taxonomy: seq<TaxonomyDomain>, today: string) returns (docs: seq<FetchedDoc>)
    ensures response.None? ==> docs == []
    ensures response.Some? ==> docs == Collect(SliceTo(response.value, limit), industry, taxonomy, today)
  {
    if response.None? {
      return [];
    }
    docs := [];
    var keywords := KeywordsFor(industry);
    var items := SliceTo(response.value, limit);
    var i := 0;
    while i < |items|
      invariant 0 <= i <= |items|
      invariant docs == Collect(items[..i], industry, taxonomy, today)
    {
      assert items[..i + 1][..i] == items[..i];
      var item := items[i];
      var title := item.title;
      var body := OrElse(item.bodyHtml, OrElse(item.abstractText, ""));
      if HasIndustry(industry) && keywords != [] && !ContainsAny(Lower(title + body), LowerAll(keywords)) {
        i := i + 1;
        continue;
      }
      var domains := TagDomains(taxonomy, Lower(title + " " + body));
      docs := docs + [FetchedDoc(item.documentNumber, title, body, item.htmlUrl,
                                 OrElse(item.publicationDate, today), domains)];
      i := i + 1;
    }
    assert items[..i] == items;
  }

  /** A non-negative limit bounds the number of documents. */
  lemma AtMostLimit(items: seq<Item>, industry: Option<string>, limit: int, taxonomy: seq<TaxonomyDomain>, today: string)
    requires limit >= 0
    ensures |Collect(SliceTo(items, limit), industry, taxonomy, today)| <= limit
  {
  }

  /** The collected documents keep input order: collecting distributes over
      concatenation. */
  lemma CollectKeepsOrder(a: seq<Item>, b: seq<Item>, industry: Option<string>,
                          taxonomy: seq<TaxonomyDomain>, today: string)
    ensures Collect(a + b, industry, taxonomy, today) == Collect(a, industry, taxonomy, today) + Collect(b, industry, taxonomy, today)
  {
    FilterMapAppend(a, b, item => Kept(item, industry), item => DocOf(item, taxonomy, today));
  }

  /** A document is collected iff it is built from an examined item that is kept. */
  lemma CollectMember(items: seq<Item>, industry: Option<string>, taxonomy: seq<TaxonomyDomain>, today: string, doc: FetchedDoc)
    ensures doc in Collect(items, industry, taxonomy, today) <==>
      exists k :: 0 <= k < |items| && Kept(items[k], industry) && DocOf(items[k], taxonomy, today) == doc
  {
    FilterMapMember(items, item => Kept(item, industry), item => DocOf(item, taxonomy, today), doc);
  }

  /** The industry filter: an item is kept iff the industry is missing, has no
      keywords, or one of its keywords (lower-cased) occurs in the lower-cased
      title and body. */
  lemma KeptIff(item: Item, industry: Option<string>, keywords: seq<string>)
    requires keywords == KeywordsFor(industry)
    ensures Kept(item, industry) <==>
      keywords == [] || exists k :: k in keywords && Contains(Lower(item.title + Body(item)), Lower(k))
  {
    ContainsAnyLowerIff(Lower(item.title + Body(item)), keywords);
  }

  /** With no industry, or one without keywords, every examined item becomes a
      document. */
  lemma NoIndustryKeepsAll(items: seq<Item>, industry: Option<string>, taxonomy: seq<TaxonomyDomain>, today: string)
    requires KeywordsFor(industry) == []
    ensures Collect(items, industry, taxonomy, today) == seq(|items|, k requires 0 <= k < |items| => DocOf(items[k], taxonomy, today))
  {
    FilterMapAll(items, item => Kept(item, industry), item => DocOf(item, taxonomy, today));
  }

  /** A domain is tagged iff some taxonomy entry of that name has a keyword
      whose lower-cased form occurs in the combined text. */
  lemma {:induction false} TagsMember(taxonomy: seq<TaxonomyDomain>, combinedLower: string, name: string)
    ensures name in Tags(taxonomy, combinedLower) <==>
      exists i :: 0 <= i < |taxonomy| && taxonomy[i].name == name && ContainsAny(combinedLower, LowerAll(taxonomy[i].keywords))
  {
    if taxonomy != [] {
      var init := taxonomy[..|taxonomy| - 1];
      TagsMember(init, combinedLower, name);
      if exists i :: 0 <= i < |taxonomy| && taxonomy[i].name == name && ContainsAny(combinedLower, LowerAll(taxonomy[i].keywords)) {
        var i :| 0 <= i < |taxonomy| && taxonomy[i].name == name && ContainsAny(combinedLower, LowerAll(taxonomy[i].keywords));
        if i < |taxonomy| - 1 {
          assert init[i] == taxonomy[i];
        }
      }
    }
  }

  /** Taxonomy domain names are distinct (they are the keys of a dictionary), so
      no domain is tagged twice. */
  lemma {:induction false} TagsNoDup(taxonomy: seq<TaxonomyDomain>, combinedLower: string)
    requires forall i, j :: 0 <= i < j < |taxonomy| ==> taxonomy[i].name != taxonomy[j].name
    ensures NoDup(Tags(taxonomy, combinedLower))
  {
    if taxonomy != [] {
      var n := |taxonomy|;
      var init := taxonomy[..n - 1];
      TagsNoDup(init, combinedLower);
      TagsMember(init, combinedLower, taxonomy[n - 1].name);
      assert forall i :: 0 <= i < |init| ==> init[i].name != taxonomy[n - 1].name by {
        forall i | 0 <= i < |init| ensures init[i].name != taxonomy[n - 1].name {
          assert init[i] == taxonomy[i];
        }
      }
    }
  }
}
