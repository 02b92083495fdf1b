/**
 * POST of the notification preview route: resolves who should receive a
 * briefing, composes the email, and guards the request.
 *
 * The mail transport is not modelled: what sending yields is an input, and the
 * message handed to it is part of the result.
 */
module PreviewRoute {
  import opened Wrappers
  import opened Text
  import opened Json
  import opened Http
  import opened Insights
  import OnboardingStore

  type PolicySnapshot = OnboardingStore.PolicySnapshot

  // ---------------------------------------------------------------------------
  // Email shape
  // ---------------------------------------------------------------------------

  /** `isValidEmail`: /^[^\s@]+@[^\s@]+\.[^\s@]+$/ on a non-empty string. The
      first '@' must have something before it and a valid domain after it. */
  predicate IsValidEmail(s: string)
  {
    && NoSpace(s)
    && match IndexOf(s, '@')
       case None => false
       case Some(i) => i > 0 && ValidDomain(s[i + 1..])
  }

  /** What follows the '@': no further '@' and a '.' with something on both sides. */
  predicate ValidDomain(d: string)
  {
    '@' !in d && 3 <= |d| && '.' in d[1..|d| - 1]
  }

  /** A piece the pattern's `[^\s@]+` matches. */
  ghost predicate Part(x: string)
  {
    x != "" && NoSpace(x) && '@' !in x
  }

  /** The pattern's shape: local part, '@', domain, '.', suffix, each part non-empty
      and free of whitespace and '@'. */
  ghost predicate EmailShape(s: string)
  {
    exists a, b, c :: Part(a) && Part(b) && Part(c) && s == a + "@" + b + "." + c
  }

  /** The check accepts exactly the strings of the pattern's shape. */
  lemma IsValidEmailIffShape(s: string)
    ensures IsValidEmail(s) <==> EmailShape(s)
  {
    if IsValidEmail(s) {
      ValidHasShape(s);
    }
    if EmailShape(s) {
      var a, b, c :| Part(a) && Part(b) && Part(c) && s == a + "@" + b + "." + c;
      ShapeIsValid(a, b, c);
    }
  }

  lemma NoSpaceConcat(x: string, y: string)
    ensures NoSpace(x + y) <==> NoSpace(x) && NoSpace(y)
  {
    if NoSpace(x + y) {
      assert forall k :: 0 <= k < |x| ==> x[k] == (x + y)[k];
      assert forall k :: 0 <= k < |y| ==> y[k] == (x + y)[|x| + k];
    }
  }

  lemma NoAtConcat(x: string, y: string)
    ensures '@' in x + y <==> '@' in x || '@' in y
  {
  }

  lemma ValidHasShape(s: string)
    requires IsValidEmail(s)
    ensures EmailShape(s)
  {
    var i := IndexOf(s, '@').value;
    var a, d := s[..i], s[i + 1..];
    assert s == a + "@" + d;
    var b, c := DomainParts(d);
    assert s == a + "@" + b + "." + c;
    NoSpaceConcat(a + "@" + b + ".", c);
    NoSpaceConcat(a + "@" + b, ".");
    NoSpaceConcat(a + "@", b);
    NoSpaceConcat(a, "@");
    assert Part(a) && Part(b) && Part(c);
  }

  /** Splits a valid domain at its first inner '.'. */
  lemma DomainParts(d: string) returns (b: string, c: string)
    requires ValidDomain(d)
    ensures b != "" && c != "" && '@' !in b && '@' !in c && d == b + "." + c
  {
    var k := 1 + IndexOf(d[1..|d| - 1], '.').value;
    b, c := d[..k], d[k + 1..];
    assert d == b + "." + c;
    NoAtConcat(b + ".", c);
    NoAtConcat(b, ".");
  }

  lemma DomainOfParts(b: string, c: string)
    requires b != "" && c != "" && '@' !in b && '@' !in c
    ensures ValidDomain(b + "." + c)
  {
    var d := b + "." + c;
    NoAtConcat(b + ".", c);
    NoAtConcat(b, ".");
    assert d[1..|d| - 1][|b| - 1] == '.';
  }

  lemma AtSplits(a: string, d: string)
    requires a != "" && '@' !in a
    ensures IndexOf(a + "@" + d, '@') == Some(|a|)
    ensures (a + "@" + d)[|a| + 1..] == d
  {
    var s := a + "@" + d;
    assert s[..|a|] == a;
    IndexOfFirst(s, '@', |a|);
  }

  lemma ShapeIsValid(a: string, b: string, c: string)
    requires Part(a) && Part(b) && Part(c)
    ensures IsValidEmail(a + "@" + b + "." + c)
  {
    var d := b + "." + c;
    assert a + "@" + b + "." + c == a + "@" + d;
    AtSplits(a, d);
    DomainOfParts(b, c);
    NoSpaceConcat(a + "@", d);
    NoSpaceConcat(a, "@");
    NoSpaceConcat(b + ".", c);
    NoSpaceConcat(b, ".");
  }

  /** A valid address has no whitespace, so trimming leaves it unchanged. */
  lemma TrimValidEmail(s: string)
    requires IsValidEmail(s)
    ensures Trim(s) == s
  {
  }

  // ---------------------------------------------------------------------------
  // Owner contacts
  // ---------------------------------------------------------------------------

  /** Each notified team trimmed and lower-cased. */
  function TrimLowerAll(teams: seq<string>): (r: seq<string>)
  {
    seq(|teams|, i requires 0 <= i < |teams| => Lower(Trim(teams[i])))
  }

  /** `filter(Boolean)` / `filter((team) => team.length > 0)` on strings. */
  function NonEmpty(xs: seq<string>): (r: seq<string>)
    ensures |r| <= |xs|
  {
    if xs == [] then []
    else
      var rest := NonEmpty(xs[1..]);
      if xs[0] != "" then [xs[0]] + rest else rest
  }

  lemma {:induction false} NonEmptyMember(xs: seq<string>, x: string)
    ensures x in NonEmpty(xs) <==> x in xs && x != ""
  {
    if xs != [] {
      NonEmptyMember(xs[1..], x);
      assert x in xs <==> x == xs[0] || x in xs[1..];
    }
  }

  /** The notified teams trimmed and lower-cased, blanks dropped. */
  function NormalizeTargets(teams: seq<string>): seq<string>
  {
    NonEmpty(TrimLowerAll(teams))
  }

  /** A target is a non-blank trimmed, lower-cased notified team, and every such
      team is a target. */
  lemma NormalizeTargetsMembers(teams: seq<string>, x: string)
    ensures x in NormalizeTargets(teams) <==> x != "" && exists i :: 0 <= i < |teams| && Lower(Trim(teams[i])) == x
  {
    var t := TrimLowerAll(teams);
    NonEmptyMember(t, x);
    assert forall i :: 0 <= i < |teams| ==> t[i] == Lower(Trim(teams[i]));
    assert x in t <==> exists i :: 0 <= i < |t| && t[i] == x;
  }

  /** `a` contains `b` or `b` contains `a`. */
  predicate Overlaps(a: string, b: string)
  {
    Contains(a, b) || Contains(b, a)
  }

  /** The `some` test: the snapshot's trimmed, lower-cased area or owner team is
      non-empty and overlaps the target. */
  predicate Matches(s: PolicySnapshot, target: string)
  {
    var area := Lower(Trim(s.area));
    var team := Lower(Trim(s.ownerTeam));
    (area != "" && Overlaps(area, target)) || (team != "" && Overlaps(team, target))
  }

  /** `normalizedTargets.some(...)`, target by target. */
  predicate MatchesSome(s: PolicySnapshot, targets: seq<string>)
  {
    targets != [] && (Matches(s, targets[0]) || MatchesSome(s, targets[1..]))
  }

  lemma {:induction false} MatchesSomeIff(s: PolicySnapshot, targets: seq<string>)
    ensures MatchesSome(s, targets) <==> exists t :: t in targets && Matches(s, t)
  {
    if targets != [] {
      MatchesSomeIff(s, targets[1..]);
      assert forall t :: t in targets <==> t == targets[0] || t in targets[1..];
    }
  }

  /** `ownerContact?.trim()` of each snapshot. */
  function TrimmedContacts(ss: seq<PolicySnapshot>): (r: seq<string>)
    ensures |r| == |ss| && forall i :: 0 <= i < |ss| ==> r[i] == Trim(ss[i].ownerContact)
  {
    seq(|ss|, i requires 0 <= i < |ss| => Trim(ss[i].ownerContact))
  }

  lemma TrimmedContactsMember(ss: seq<PolicySnapshot>, x: string)
    ensures x in TrimmedContacts(ss) <==> exists i :: 0 <= i < |ss| && Trim(ss[i].ownerContact) == x
  {
    if x in TrimmedContacts(ss) {
      var i :| 0 <= i < |ss| && TrimmedContacts(ss)[i] == x;
    }
    if exists i :: 0 <= i < |ss| && Trim(ss[i].ownerContact) == x {
      var i :| 0 <= i < |ss| && Trim(ss[i].ownerContact) == x;
      assert TrimmedContacts(ss)[i] == x;
    }
  }

  /** The strings that are valid addresses, in order. */
  function ValidOnly(xs: seq<string>): (r: seq<string>)
    ensures |r| <= |xs|
  {
    if xs == [] then []
    else
      var rest := ValidOnly(xs[1..]);
      if IsValidEmail(xs[0]) then [xs[0]] + rest else rest
  }

  lemma {:induction false} ValidOnlyMember(xs: seq<string>, x: string)
    ensures x in ValidOnly(xs) <==> x in xs && IsValidEmail(x)
  {
    if xs != [] {
      ValidOnlyMember(xs[1..], x);
      assert x in xs <==> x == xs[0] || x in xs[1..];
    }
  }

  /** The snapshots with a valid untrimmed contact that match some target, in order. */
  function MatchingSnapshots(ss: seq<PolicySnapshot>, targets: seq<string>): (r: seq<PolicySnapshot>)
    ensures |r| <= |ss|
  {
    if ss == [] then []
    else
      var rest := MatchingSnapshots(ss[1..], targets);
      if ss[0].ownerContact != "" && IsValidEmail(ss[0].ownerContact) && MatchesSome(ss[0], targets)
      then [ss[0]] + rest else rest
  }

  lemma {:induction false} MatchingMember(ss: seq<PolicySnapshot>, targets: seq<string>, s: PolicySnapshot)
    ensures s in MatchingSnapshots(ss, targets) <==> s in ss && IsValidEmail(s.ownerContact) && MatchesSome(s, targets)
  {
    if ss != [] {
      MatchingMember(ss[1..], targets, s);
      assert s in ss <==> s == ss[0] || s in ss[1..];
    }
  }

  /** `matchOwnerContacts`: without snapshots nothing; without non-blank targets
      every trimmed owner contact that is a valid address; otherwise the contacts
      of the matching snapshots. */
  function MatchOwnerContacts(teams: seq<string>, ss: seq<PolicySnapshot>): (r: seq<string>)
    ensures ss == [] ==> r == []
    ensures |r| <= |ss|
    ensures forall x :: x in r ==> IsValidEmail(x)
  {
    if ss == [] then []
    else
      var targets := NormalizeTargets(teams);
      if targets == [] then
        var r := ValidOnly(TrimmedContacts(ss));
        assert forall x :: x in r ==> IsValidEmail(x) by {
          forall x | x in r ensures IsValidEmail(x) { ValidOnlyMember(TrimmedContacts(ss), x); }
        }
        r
      else
        var r := TrimmedContacts(MatchingSnapshots(ss, targets));
        assert forall x :: x in r ==> IsValidEmail(x) by {
          forall x | x in r ensures IsValidEmail(x) { MatchedContactValid(ss, targets, x); }
        }
        r
  }

  lemma MatchedContactValid(ss: seq<PolicySnapshot>, targets: seq<string>, x: string)
    requires x in TrimmedContacts(MatchingSnapshots(ss, targets))
    ensures IsValidEmail(x)
  {
    var picked := MatchingSnapshots(ss, targets);
    TrimmedContactsMember(picked, x);
    var i :| 0 <= i < |picked| && Trim(picked[i].ownerContact) == x;
    var s := picked[i];
    MatchingMember(ss, targets, s);
    TrimValidEmail(s.ownerContact);
    assert x == s.ownerContact;
  }

  /** Without non-blank targets, the contacts are exactly the snapshots' trimmed
      owner contacts that are valid addresses. */
  lemma UntargetedContacts(teams: seq<string>, ss: seq<PolicySnapshot>, x: string)
    requires NormalizeTargets(teams) == []
    ensures x in MatchOwnerContacts(teams, ss) <==>
      IsValidEmail(x) && exists i :: 0 <= i < |ss| && Trim(ss[i].ownerContact) == x
  {
    if ss != [] {
      ValidOnlyMember(TrimmedContacts(ss), x);
      TrimmedContactsMember(ss, x);
    }
  }

  /** With non-blank targets, a contact is returned only when it is, untrimmed, the
      valid owner contact of a snapshot whose area or owner team overlaps some
      normalised target; and every such contact is returned. */
  lemma MatchedContactsAreOwners(teams: seq<string>, ss: seq<PolicySnapshot>, x: string)
    requires NormalizeTargets(teams) != []
    ensures x in MatchOwnerContacts(teams, ss) <==>
      exists s :: s in ss && s.ownerContact == x && IsValidEmail(x) && MatchesSome(s, NormalizeTargets(teams))
  {
    if ss != [] {
      MatchedContacts(ss, NormalizeTargets(teams), x);
    }
  }

  lemma MatchedContacts(ss: seq<PolicySnapshot>, targets: seq<string>, x: string)
    ensures x in TrimmedContacts(MatchingSnapshots(ss, targets)) <==>
      exists s :: s in ss && s.ownerContact == x && IsValidEmail(x) && MatchesSome(s, targets)
  {
    var picked := MatchingSnapshots(ss, targets);
    var r := TrimmedContacts(picked);
    if x in r {
      var i :| 0 <= i < |r| && r[i] == x;
      var s := picked[i];
      assert s in picked;
      MatchingMember(ss, targets, s);
      TrimValidEmail(s.ownerContact);
    }
    if exists s :: s in ss && s.ownerContact == x && IsValidEmail(x) && MatchesSome(s, targets) {
      var s :| s in ss && s.ownerContact == x && IsValidEmail(x) && MatchesSome(s, targets);
      MatchedOwnerIncluded(ss, targets, s);
    }
  }

  lemma MatchedOwnerIncluded(ss: seq<PolicySnapshot>, targets: seq<string>, s: PolicySnapshot)
    requires s in ss && IsValidEmail(s.ownerContact) && MatchesSome(s, targets)
    ensures s.ownerContact in TrimmedContacts(MatchingSnapshots(ss, targets))
  {
    var picked := MatchingSnapshots(ss, targets);
    MatchingMember(ss, targets, s);
    var i := IndexIn(picked, s);
    assert picked[i] == s;
    TrimValidEmail(s.ownerContact);
    assert TrimmedContacts(picked)[i] == s.ownerContact;
  }

  function IndexIn(xs: seq<PolicySnapshot>, x: PolicySnapshot): (i: nat)
    requires x in xs
    ensures i < |xs| && xs[i] == x
  {
    if xs[0] == x then 0 else 1 + IndexIn(xs[1..], x)
  }

  // ---------------------------------------------------------------------------
  // Recipients
  // ---------------------------------------------------------------------------

  /** `Array.from(new Set(xs))`: each element once, at its first occurrence. */
  function Dedup(xs: seq<string>): (r: seq<string>)
    ensures NoDup(r)
    ensures forall x :: x in r <==> x in xs
    decreases |xs|
  {
    if xs == [] then []
    else
      var init := xs[..|xs| - 1];
      var last := xs[|xs| - 1];
      var d := Dedup(init);
      assert xs == init + [last];
      if last in d then d else d + [last]
  }

  /** Where `x` first occurs in `xs`. */
  function FirstIndex(xs: seq<string>, x: string): (i: nat)
    requires x in xs
    ensures i < |xs| && xs[i] == x && x !in xs[..i]
  {
    if xs[0] == x then 0
    else
      var i := FirstIndex(xs[1..], x);
      assert xs[..i + 1] == [xs[0]] + xs[1..][..i];
      i + 1
  }

  lemma {:induction false} FirstIndexPrefix(xs: seq<string>, ys: seq<string>, x: string)
    requires x in xs
    ensures FirstIndex(xs + ys, x) == FirstIndex(xs, x)
  {
    assert (xs + ys)[0] == xs[0];
    if xs[0] != x {
      assert (xs + ys)[1..] == xs[1..] + ys;
      FirstIndexPrefix(xs[1..], ys, x);
    }
  }

  lemma {:induction false} FirstIndexAfter(xs: seq<string>, ys: seq<string>, x: string)
    requires x !in xs && x in ys
    ensures FirstIndex(xs + ys, x) == |xs| + FirstIndex(ys, x)
  {
    if xs == [] {
      assert xs + ys == ys;
    } else {
      assert (xs + ys)[0] == xs[0];
      assert (xs + ys)[1..] == xs[1..] + ys;
      FirstIndexAfter(xs[1..], ys, x);
    }
  }

  /** The kept elements are ordered by their first occurrence in the input. */
  lemma {:induction false} DedupFirstOccurrenceOrder(xs: seq<string>, i: int, j: int)
    requires 0 <= i < j < |Dedup(xs)|
    ensures Dedup(xs)[i] in xs && Dedup(xs)[j] in xs
    ensures FirstIndex(xs, Dedup(xs)[i]) < FirstIndex(xs, Dedup(xs)[j])
    decreases |xs|
  {
    var r := Dedup(xs);
    assert r[i] in r && r[j] in r;
    var init := xs[..|xs| - 1];
    var last := xs[|xs| - 1];
    var d := Dedup(init);
    assert xs == init + [last];
    if j < |d| {
      DedupFirstOccurrenceOrder(init, i, j);
      FirstIndexPrefix(init, [last], d[i]);
      FirstIndexPrefix(init, [last], d[j]);
    } else {
      assert r == d + [last] && r[j] == last && last !in init;
      FirstIndexAfter(init, [last], last);
      assert r[i] in d;
      FirstIndexPrefix(init, [last], r[i]);
    }
  }

  /** Both directions: one kept element precedes another exactly when it occurs
      first in the input. */
  lemma DedupOrderIff(xs: seq<string>, i: int, j: int)
    requires 0 <= i < |Dedup(xs)| && 0 <= j < |Dedup(xs)|
    ensures Dedup(xs)[i] in xs && Dedup(xs)[j] in xs
    ensures i < j <==> FirstIndex(xs, Dedup(xs)[i]) < FirstIndex(xs, Dedup(xs)[j])
  {
    var r := Dedup(xs);
    assert r[i] in r && r[j] in r;
    if i < j {
      DedupFirstOccurrenceOrder(xs, i, j);
    } else if j < i {
      DedupFirstOccurrenceOrder(xs, j, i);
    }
  }

  /** Deduplicating `a + b` puts every kept element of `a` before every kept
      element not in `a`. */
  lemma DedupKeepsBlocks(a: seq<string>, b: seq<string>, i: int, j: int)
    requires 0 <= i < |Dedup(a + b)| && 0 <= j < |Dedup(a + b)|
    requires Dedup(a + b)[i] in a && Dedup(a + b)[j] !in a
    ensures i < j
  {
    var r := Dedup(a + b);
    DedupOrderIff(a + b, i, j);
    FirstIndexPrefix(a, b, r[i]);
    FirstIndexAfter(a, b, r[j]);
  }

  /** `NOTIFICATION_RECIPIENTS` split on commas, entries trimmed, blanks dropped. */
  function Configured(env: Option<string>): seq<string>
  {
    NonEmpty(TrimAll(SplitOn(env.GetOr(""), ',')))
  }

  /** The configured addresses are exactly the non-blank trimmed comma-separated
      entries (here for any list of entries), and each is already trimmed. */
  lemma TrimmedEntries(pieces: seq<string>, x: string)
    ensures x in NonEmpty(TrimAll(pieces)) <==> x != "" && exists k :: 0 <= k < |pieces| && Trim(pieces[k]) == x
    ensures x in NonEmpty(TrimAll(pieces)) ==> Trim(x) == x
  {
    NonEmptyMember(TrimAll(pieces), x);
    TrimAllMember(pieces, x);
    if x in TrimAll(pieces) {
      var k :| 0 <= k < |pieces| && Trim(pieces[k]) == x;
      TrimTwice(pieces[k]);
    }
  }

  function TrimAll(xs: seq<string>): (r: seq<string>)
  {
    seq(|xs|, i requires 0 <= i < |xs| => Trim(xs[i]))
  }

  lemma TrimAllMember(xs: seq<string>, x: string)
    ensures x in TrimAll(xs) <==> exists i :: 0 <= i < |xs| && Trim(xs[i]) == x
  {
    if x in TrimAll(xs) {
      var i :| 0 <= i < |xs| && TrimAll(xs)[i] == x;
    }
    if exists i :: 0 <= i < |xs| && Trim(xs[i]) == x {
      var i :| 0 <= i < |xs| && Trim(xs[i]) == x;
      assert TrimAll(xs)[i] == x;
    }
  }

  /** The caller's email when it is a non-empty string. */
  function Fallback(userEmail: string): (r: seq<string>)
    ensures forall x :: x in r <==> x == userEmail && x != ""
  {
    if userEmail != "" then [userEmail] else []
  }

  /** `resolveRecipients`: owner contacts, then configured addresses, then the
      caller's own address, each kept once at its first occurrence. */
  function ResolveRecipients(userEmail: string, teams: seq<string>, ss: seq<PolicySnapshot>,
                             env: Option<string>): (r: seq<string>)
    ensures NoDup(r)
    ensures userEmail != "" ==> userEmail in r
  {
    Merge(MatchOwnerContacts(teams, ss), Configured(env), Fallback(userEmail))
  }

  function Merge(owners: seq<string>, configured: seq<string>, fallback: seq<string>): (r: seq<string>)
    ensures NoDup(r)
    ensures forall x :: x in r <==> x in owners || x in configured || x in fallback
  {
    var merged := owners + configured + fallback;
    assert forall x :: x in merged <==> x in owners || x in configured || x in fallback;
    Dedup(merged)
  }

  /** Merging keeps the blocks in order: owners before the rest, and owners and
      configured addresses before the fallback. */
  lemma MergeOrder(owners: seq<string>, configured: seq<string>, fallback: seq<string>, i: int, j: int)
    requires 0 <= i < |Merge(owners, configured, fallback)| && 0 <= j < |Merge(owners, configured, fallback)|
    ensures
      var r := Merge(owners, configured, fallback);
      && (r[i] in owners && r[j] !in owners ==> i < j)
      && (r[i] in owners + configured && r[j] !in owners + configured ==> i < j)
  {
    var r := Merge(owners, configured, fallback);
    if r[i] in owners && r[j] !in owners {
      assert owners + configured + fallback == owners + (configured + fallback);
      DedupKeepsBlocks(owners, configured + fallback, i, j);
    }
    if r[i] in owners + configured && r[j] !in owners + configured {
      DedupKeepsBlocks(owners + configured, fallback, i, j);
    }
  }

  /** Every recipient is a matched owner contact, a configured address or the
      caller, and each of those is a recipient. */
  lemma RecipientsMembers(userEmail: string, teams: seq<string>, ss: seq<PolicySnapshot>,
                          env: Option<string>, x: string)
    ensures x in ResolveRecipients(userEmail, teams, ss, env) <==>
      x in MatchOwnerContacts(teams, ss) || x in Configured(env) || (x == userEmail && x != "")
  {
  }

  /** Owner contacts come first, then configured addresses, then the caller. */
  lemma RecipientsOrder(userEmail: string, teams: seq<string>, ss: seq<PolicySnapshot>, env: Option<string>,
                        i: int, j: int)
    requires 0 <= i < |ResolveRecipients(userEmail, teams, ss, env)|
    requires 0 <= j < |ResolveRecipients(userEmail, teams, ss, env)|
    ensures
      var r := ResolveRecipients(userEmail, teams, ss, env);
      var owners := MatchOwnerContacts(teams, ss);
      var configured := Configured(env);
      && (r[i] in owners && r[j] !in owners ==> i < j)
      && (r[i] in owners + configured && r[j] !in owners + configured ==> i < j)
  {
    MergeOrder(MatchOwnerContacts(teams, ss), Configured(env), Fallback(userEmail), i, j);
  }

  // ---------------------------------------------------------------------------
  // The message
  // ---------------------------------------------------------------------------

  /** The bullet the text body puts before each action: "â€¢ ", a UTF-8 bullet
      read as Windows-1252. */
  const Bullet: string := "\U{00E2}\U{20AC}\U{00A2} "
  const DefaultActionLine: string := "Review this update with the policy owner."
  const DefaultNotified: string := "core compliance team"

  datatype Message = Message(subject: string, text: string, html: string)

  function ActionLines(items: seq<string>): (r: seq<string>)
    ensures items != [] ==> r == items
    ensures items == [] ==> r == [DefaultActionLine]
    ensures r != []
  {
    if items != [] then items else [DefaultActionLine]
  }

  function Notified(teams: seq<string>): (r: string)
    ensures teams == [] ==> r == DefaultNotified
    ensures teams != [] ==> r == Join(", ", teams)
  {
    if teams != [] then Join(", ", teams) else DefaultNotified
  }

  function Bullets(lines: seq<string>): (r: seq<string>)
    ensures |r| == |lines| && forall i :: 0 <= i < |lines| ==> r[i] == Bullet + lines[i]
  {
    if lines == [] then [] else [Bullet + lines[0]] + Bullets(lines[1..])
  }

  function ListItems(lines: seq<string>): (r: seq<string>)
    ensures |r| == |lines| && forall i :: 0 <= i < |lines| ==> r[i] == "<li>" + lines[i] + "</li>"
  {
    if lines == [] then [] else ["<li>" + lines[0] + "</li>"] + ListItems(lines[1..])
  }

  /** The lines of the text body. */
  function TextLines(summary: string, actions: seq<string>, notified: string): (r: seq<string>)
    ensures |r| == |actions| + 5
    ensures r[0] == summary && r[1] == "" && r[2] == "Top actions:"
    ensures forall i :: 0 <= i < |actions| ==> r[3 + i] == Bullet + actions[i]
    ensures r[|r| - 2] == "" && r[|r| - 1] == "Loop in: " + notified
  {
    [summary, "", "Top actions:"] + Bullets(actions) + ["", "Loop in: " + notified]
  }

  /** The HTML body without the template's surrounding whitespace: a head with the
      summary, the list of actions and a tail naming who is looped in. */
  function HtmlBody(summary: string, actions: seq<string>, notified: string): string
  {
    HtmlHead(summary) + Join("\n", ListItems(actions)) + HtmlTail(notified)
  }

  function HtmlHead(summary: string): string
  {
    "<p>" + summary + "</p>\n    <p><strong>Top actions</strong></p>\n    <ul>\n      "
  }

  function HtmlTail(notified: string): string
  {
    "\n    </ul>\n    <p><strong>Loop in:</strong> " + notified + "</p>"
  }

  /** `buildNotificationMessage`. */
  function BuildNotificationMessage(insight: SerializedInsight, companyName: string): (m: Message)
    ensures m.subject == companyName + " | " + insight.title + " (Risk: " + Risk.Name(insight.riskLevel) + ")"
    ensures m.text == Join("\n", TextLines(insight.summary, ActionLines(insight.actionItems), Notified(insight.notifiedTeams)))
    ensures m.html == HtmlBody(insight.summary, ActionLines(insight.actionItems), Notified(insight.notifiedTeams))
  {
    var actions := ActionLines(insight.actionItems);
    var notified := Notified(insight.notifiedTeams);
    var body := HtmlBody(insight.summary, actions, notified);
    var template := "\n    " + body + "\n  ";
    TrimAround("\n    ", body, "\n  ");
    Message(
      companyName + " | " + insight.title + " (Risk: " + Risk.Name(insight.riskLevel) + ")",
      Join("\n", TextLines(insight.summary, actions, notified)),
      Trim(template))
  }

  /** Every action line appears in the text body after a bullet and in the HTML
      body as a list item. */
  lemma MessageListsEveryAction(insight: SerializedInsight, companyName: string, k: int)
    requires 0 <= k < |ActionLines(insight.actionItems)|
    ensures
      var m := BuildNotificationMessage(insight, companyName);
      var a := ActionLines(insight.actionItems)[k];
      Contains(m.text, Bullet + a) && Contains(m.html, "<li>" + a + "</li>")
  {
    BodiesListAction(insight.summary, ActionLines(insight.actionItems), Notified(insight.notifiedTeams), k);
  }

  lemma BodiesListAction(summary: string, actions: seq<string>, notified: string, k: int)
    requires 0 <= k < |actions|
    ensures Contains(Join("\n", TextLines(summary, actions, notified)), Bullet + actions[k])
    ensures Contains(HtmlBody(summary, actions, notified), "<li>" + actions[k] + "</li>")
  {
    var lines := TextLines(summary, actions, notified);
    JoinContainsPart("\n", lines, 3 + k);
    var items := ListItems(actions);
    var list := Join("\n", items);
    JoinContainsPart("\n", items, k);
    ContainsInMiddle(HtmlHead(summary), list, HtmlTail(notified));
    ContainsTrans(HtmlBody(summary, actions, notified), list, items[k]);
  }

  // ---------------------------------------------------------------------------
  // The request
  // ---------------------------------------------------------------------------

  /** The caller's company as the membership lookup returns it. */
  datatype CompanyView = CompanyView(name: string, policySnapshots: Value)
  datatype MembershipView = MembershipView(companyId: string, company: Option<CompanyView>)

  datatype Mail = Mail(to: seq<string>, subject: string, text: string, html: string)

  /** What the request comes to before sending: an error response, an exception,
      or a mail to send. */
  datatype Step = Stop(status: nat, error: string) | Throws | SendMail(mail: Mail)

  /** `typeof body.insightId === "string" ? body.insightId : null`, with "" for
      null; a body that is not JSON reads as `{}`. */
  function InsightIdOf(body: Option<Value>): string
  {
    match Field(body.GetOr(Obj(map[])), "insightId")
    case Some(Str(s)) => s
    case _ => ""
  }

  /** The snapshots of the caller's company, when its column is truthy. */
  function CompanySnapshots(m: MembershipView): seq<PolicySnapshot>
  {
    match m.company
    case Some(c) => if Truthy(c.policySnapshots) && c.policySnapshots.Arr? then OnboardingStore.SnapshotsFrom(c.policySnapshots.items) else []
    case None => []
  }

  const NoRecipientsError: string := "Add NOTIFICATION_RECIPIENTS or ensure your Auth0 profile exposes an email"

  /** The guards of POST, in the source's order, and the mail it would send.
      `membership` is some membership of the caller (the lookup picks no
      particular one). */
  function Decide(store: BriefingStore, session: Option<Session>, body: Option<Value>,
                  membership: Option<MembershipView>, env: Option<string>): (s: Step)
    reads store
    ensures session.None? ==> s == Stop(401, "Unauthorized")
    ensures session.Some? && body != Some(Null) && InsightIdOf(body) == "" ==> s == Stop(400, "Insight ID required")
    ensures session.Some? && body != Some(Null) && InsightIdOf(body) != "" && membership.None? ==>
      s == Stop(400, "No company association")
    ensures session.Some? && body != Some(Null) && InsightIdOf(body) != "" && membership.Some? &&
            !OwnInsight(store.Find(InsightIdOf(body)), membership.value) ==>
      s == Stop(404, "Insight not found")
    ensures s.Throws? <==> session.Some? && body == Some(Null)
    ensures s.SendMail? ==>
      && session.Some? && membership.Some?
      && OwnInsight(store.Find(InsightIdOf(body)), membership.value)
    ensures session.Some? && body != Some(Null) && InsightIdOf(body) != "" && membership.Some? &&
            OwnInsight(store.Find(InsightIdOf(body)), membership.value) ==>
      s == Compose(session.value.email, store.Find(InsightIdOf(body)).value, membership.value, env)
  {
    if session.None? then Stop(401, "Unauthorized")
    else if body == Some(Null) then Throws
    else
      var id := InsightIdOf(body);
      if id == "" then Stop(400, "Insight ID required")
      else if membership.None? then Stop(400, "No company association")
      else
        var found := store.Find(id);
        if !OwnInsight(found, membership.value) then Stop(404, "Insight not found")
        else Compose(session.value.email, found.value, membership.value, env)
  }

  /** The briefing exists and belongs to the caller's company. A briefing of
      another company is answered exactly like a missing one. */
  predicate OwnInsight(found: Option<InsightRecord>, m: MembershipView)
  {
    found.Some? && found.value.companyId == m.companyId
  }

  /** Past the guards: the recipients, and the message when there is one. */
  function Compose(userEmail: string, rec: InsightRecord, m: MembershipView, env: Option<string>): (s: Step)
    ensures s.Stop? || s.SendMail?
    ensures s.Stop? ==> s == Stop(400, NoRecipientsError)
    ensures s.SendMail? <==> ResolveRecipients(userEmail, Serialize(rec).notifiedTeams, CompanySnapshots(m), env) != []
    ensures s.SendMail? ==>
      && s.mail.to != [] && NoDup(s.mail.to)
      && s.mail.to == ResolveRecipients(userEmail, Serialize(rec).notifiedTeams, CompanySnapshots(m), env)
    ensures s.SendMail? ==>
      var msg := BuildNotificationMessage(Serialize(rec), CompanyName(m));
      s.mail.subject == msg.subject && s.mail.text == msg.text && s.mail.html == msg.html
  {
    var serialized := Serialize(rec);
    var companyName := CompanyName(m);
    var recipients := ResolveRecipients(userEmail, serialized.notifiedTeams, CompanySnapshots(m), env);
    if recipients == [] then Stop(400, NoRecipientsError)
    else
      var msg := BuildNotificationMessage(serialized, companyName);
      SendMail(Mail(recipients, msg.subject, msg.text, msg.html))
  }

  /** The mail that is sent goes to the resolved recipients, none of them twice,
      and carries the message built from the serialized briefing. */
  lemma SentMailContents(store: BriefingStore, session: Session, body: Option<Value>,
                         m: MembershipView, env: Option<string>)
    requires Decide(store, Some(session), body, Some(m), env).SendMail?
    ensures
      var mail := Decide(store, Some(session), body, Some(m), env).mail;
      var rec := store.Find(InsightIdOf(body)).value;
      && mail.to != [] && NoDup(mail.to)
      && mail.to == ResolveRecipients(session.email, Serialize(rec).notifiedTeams, CompanySnapshots(m), env)
      && var msg := BuildNotificationMessage(Serialize(rec), CompanyName(m));
         mail.subject == msg.subject && mail.text == msg.text && mail.html == msg.html
  {
  }

  function CompanyName(m: MembershipView): string
  {
    match m.company case Some(c) => c.name case None => "Your company"
  }

  /** A caller whose email is a non-empty string always has a recipient, so the
      request reaches the send step once the briefing is found. */
  lemma CallerEmailSuffices(store: BriefingStore, session: Session, body: Option<Value>,
                            m: MembershipView, env: Option<string>)
    requires body != Some(Null) && InsightIdOf(body) != "" && session.email != ""
    requires OwnInsight(store.Find(InsightIdOf(body)), m)
    ensures Decide(store, Some(session), body, Some(m), env).SendMail?
  {
  }

  /** What the mail transport does with a message. */
  datatype SendOutcome = SendThrows | Sent(messageId: string, transport: string, previewUrl: Option<string>)

  datatype PreviewResult = PreviewResult(
    channel: string,
    recipients: seq<string>,
    subject: string,
    messageId: string,
    previewUrl: Option<string>,
    transport: string)

  /** The response, given what the transport does with the mail (if one is sent). */
  function Respond(step: Step, outcome: SendOutcome): (r: Response<PreviewResult>)
    ensures step.Stop? ==> r == Fail(step.status, step.error)
    ensures r.Crash? <==> step.Throws? || (step.SendMail? && outcome.SendThrows?)
    ensures r.Ok? <==> step.SendMail? && outcome.Sent?
    ensures r.Ok? ==>
      r.body == PreviewResult("Email", step.mail.to, step.mail.subject,
                              outcome.messageId, outcome.previewUrl, outcome.transport)
  {
    match step
    case Stop(status, error) => Fail(status, error)
    case Throws => Crash
    case SendMail(mail) =>
      match outcome
      case SendThrows => Crash
      case Sent(id, transport, url) => Ok(PreviewResult("Email", mail.to, mail.subject, id, url, transport))
  }
}
