/**
 * The profile generator script: each line of the company list becomes a
 * placeholder profile whose domains are assigned by keyword matching on the
 * lower-cased name. The list lines are a parameter (the script reads them from
 * a file and writes the result as JSON).
 */
module CompanyProfiles {
  import opened Text

  /** One entry of `DOMAIN_KEYWORDS`. */
  datatype KeywordDomain = KeywordDomain(name: string, keywords: seq<string>)

  const DomainKeywords: seq<KeywordDomain> := [
    KeywordDomain("Privacy", ["data", "cloud", "analytics", "platform"]),
    KeywordDomain("Cybersecurity", ["security", "secure", "trust", "darktrace", "bitdefender", "avast"]),
    KeywordDomain("FinTech", ["bank", "pay", "fin", "wise", "revolut", "klarna", "mollie", "mambu"]),
    KeywordDomain("AIRegulation", ["ai", "graphcore", "deepmind", "peak", "tractable", "dataiku"]),
    KeywordDomain("ECommerce", ["shop", "market", "commerce", "back market", "presta", "farfetch", "zalando"])
  ]

  const DefaultDataCategories: seq<string> := ["PII", "UsageMetrics"]

  /** The label given when no keyword domain matches. */
  const GeneralTech: string := "GeneralTech"

  datatype Profile = Profile(name: string, jurisdictions: seq<string>, industry: seq<string>,
                             dataCategories: seq<string>, domains: seq<string>, description: string)

  /** The domains of `table`, in table order, having a keyword that occurs in
      `nameLower`. */
  function MatchedDomains(table: seq<KeywordDomain>, nameLower: string): (r: seq<string>)
    ensures |r| <= |table|
  {
    FilterMap(table, (e: KeywordDomain) => ContainsAny(nameLower, e.keywords), (e: KeywordDomain) => e.name)
  }

  /** The domains assigned to a list line by a keyword table. */
  function DomainsFrom(table: seq<KeywordDomain>, line: string): seq<string>
  {
    var matched := MatchedDomains(table, Lower(line));
    if matched == [] then [GeneralTech] else matched
  }

  /** The domains the script assigns to a list line. */
  function DomainsFor(line: string): seq<string>
  {
    DomainsFrom(DomainKeywords, line)
  }

  /** The table's names are distinct and none is the fallback label. */
  ghost predicate WellFormedTable(table: seq<KeywordDomain>)
  {
    && (forall i, j :: 0 <= i < j < |table| ==> table[i].name != table[j].name)
    && (forall i :: 0 <= i < |table| ==> table[i].name != GeneralTech)
  }

  function Description(name: string): string
  {
    "Placeholder profile for " + name + " auto-generated; please refine domains and data categories."
  }

  /** The profile of one list line: the stripped line as its name and in its
      description, the fixed jurisdiction, industry and data categories, and at
      least one domain. */
  function ProfileOf(line: string): (p: Profile)
    ensures p.name == Trim(line)
    ensures Contains(p.description, Trim(line))
    ensures p.jurisdictions == ["EU"] && p.industry == ["Technology"]
    ensures p.dataCategories == ["PII", "UsageMetrics"]
    ensures p.domains == DomainsFor(line) && p.domains != []
  {
    var name := Trim(line);
    ContainsInMiddle("Placeholder profile for ", name, " auto-generated; please refine domains and data categories.");
    DomainsForShape(line);
    Profile(name, ["EU"], ["Technology"], DefaultDataCategories, DomainsFor(line), Description(name))
  }

  /** The inner loops of the script for one line: each keyword domain whose
      keywords hit the lower-cased line, then "GeneralTech" if none did. */
  method AssignDomains(line: string) returns (domains: seq<string>)
    ensures domains == DomainsFor(line)
  {
    domains := AssignFrom(DomainKeywords, line);
  }

  method AssignFrom(table: seq<KeywordDomain>, line: string) returns (domains: seq<string>)
    ensures domains == DomainsFrom(table, line)
  {
    var nameLower := Lower(line);
    domains := [];
    var i := 0;
    while i < |table|
      invariant 0 <= i <= |table|
      invariant domains == MatchedDomains(table[..i], nameLower)
    {
      var entry := table[i];
      if ContainsAny(nameLower, entry.keywords) {
        domains := domains + [entry.name];
      }
      assert table[..i + 1][..i] == table[..i];
      assert table[..i + 1][i] == entry;
      i := i + 1;
    }
    assert table[..i] == table;
    if domains == [] {
      domains := domains + [GeneralTech];
    }
  }

  /** The profiles of the lines `lines`, in order. */
  function Profiles(lines: seq<string>): (r: seq<Profile>)
    ensures |r| == |lines|
  {
    if lines == [] then [] else Profiles(lines[..|lines| - 1]) + [ProfileOf(lines[|lines| - 1])]
  }

  /** Profile `k` is the profile of line `k`. */
  lemma {:induction false} ProfilesAt(lines: seq<string>, k: int)
    requires 0 <= k < |lines|
    ensures Profiles(lines)[k] == ProfileOf(lines[k])
  {
    if k < |lines| - 1 {
      ProfilesAt(lines[..|lines| - 1], k);
    }
  }

  /** The script's main loop: one profile per list line, in order. */
  method GenerateProfiles(lines: seq<string>) returns (profiles: seq<Profile>)
    ensures profiles == Profiles(lines)
  {
    profiles := [];
    var i := 0;
    while i < |lines|
      invariant 0 <= i <= |lines|
      invariant profiles == Profiles(lines[..i])
    {
      var profile := BuildProfile(lines[i]);
      assert lines[..i + 1][..i] == lines[..i];
      profiles := profiles + [profile];
      i := i + 1;
    }
    assert lines[..i] == lines;
  }

  /** The body of the main loop for one line. */
  method BuildProfile(line: string) returns (profile: Profile)
    ensures profile == ProfileOf(line)
  {
    var domains := AssignDomains(line);
    var name := Trim(line);
    profile := Profile(name, ["EU"], ["Technology"], DefaultDataCategories, domains, Description(name));
  }

  /** A domain is matched iff some table entry of that name has a keyword that
      occurs in the lower-cased name. */
  lemma MatchedDomainsMember(table: seq<KeywordDomain>, nameLower: string, d: string)
    ensures d in MatchedDomains(table, nameLower) <==>
      exists i :: 0 <= i < |table| && table[i].name == d && exists k :: k in table[i].keywords && Contains(nameLower, k)
  {
    FilterMapMember(table, (e: KeywordDomain) => ContainsAny(nameLower, e.keywords), (e: KeywordDomain) => e.name, d);
    forall i | 0 <= i < |table|
      ensures ContainsAny(nameLower, table[i].keywords) <==> exists k :: k in table[i].keywords && Contains(nameLower, k)
    {
      ContainsAnyIff(nameLower, table[i].keywords);
    }
  }

  /** Matched domains follow table order without repeats when the table names
      are distinct. */
  lemma {:induction false} MatchedDomainsNoDup(table: seq<KeywordDomain>, nameLower: string)
    requires forall i, j :: 0 <= i < j < |table| ==> table[i].name != table[j].name
    ensures NoDup(MatchedDomains(table, nameLower))
  {
    if table != [] {
      var n := |table|;
      var init := table[..n - 1];
      MatchedDomainsNoDup(init, nameLower);
      FilterMapMember(init, (e: KeywordDomain) => ContainsAny(nameLower, e.keywords), (e: KeywordDomain) => e.name, table[n - 1].name);
      assert forall i :: 0 <= i < |init| ==> init[i].name != table[n - 1].name by {
        forall i | 0 <= i < |init| ensures init[i].name != table[n - 1].name {
          assert init[i] == table[i];
        }
      }
    }
  }

  /** Every profile has a domain; "GeneralTech" is present iff no keyword domain
      matched, and then it is the only one; the domains never repeat. */
  lemma DomainsFromShape(table: seq<KeywordDomain>, line: string)
    requires WellFormedTable(table)
    ensures DomainsFrom(table, line) != []
    ensures GeneralTech in DomainsFrom(table, line) <==> MatchedDomains(table, Lower(line)) == []
    ensures GeneralTech in DomainsFrom(table, line) ==> DomainsFrom(table, line) == [GeneralTech]
    ensures NoDup(DomainsFrom(table, line))
  {
    MatchedDomainsMember(table, Lower(line), GeneralTech);
    MatchedDomainsNoDup(table, Lower(line));
  }

  /** The script's table is well formed, so its assignments have that shape. */
  lemma DomainsForShape(line: string)
    ensures DomainsFor(line) != []
    ensures GeneralTech in DomainsFor(line) <==> MatchedDomains(DomainKeywords, Lower(line)) == []
    ensures GeneralTech in DomainsFor(line) ==> DomainsFor(line) == [GeneralTech]
    ensures NoDup(DomainsFor(line))
  {
    DomainsFromShape(DomainKeywords, line);
  }
}
