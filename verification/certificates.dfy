/** Choosing the best certificate for a hostname (certs/matching.go). */
module Certificates {
  import opened Text
  import opened Clock

  /** A certificate as its provider reports it. trustedFor holds the hostnames for
      which the chain and the names verify, whatever the time. */
  datatype CertificateSummary = CertificateSummary(
    id: string,
    domainNames: seq<string>,
    notBefore: Time,
    notAfter: Time,
    trustedFor: set<string>)
  {
    /** Verification also demands that the certificate is valid now (section 6.1.3
        of RFC 5280). */
    predicate Verify(hostname: string, now: Time) {
      hostname in trustedFor && notBefore <= now <= notAfter
    }

    /** The certificate is still valid for more than the minimal period. */
    predicate Lasting(now: Time) { notAfter - MINIMAL_CERT_VALIDITY_PERIOD > now }

    /** The certificate ends before the minimal period is over. */
    predicate Expiring(now: Time) { notAfter - MINIMAL_CERT_VALIDITY_PERIOD < now }
  }

  const MINIMAL_CERT_VALIDITY_PERIOD: Duration := 7 * 24 * 3600 * SECOND
  const GLOB := "*"

  predicate PrefixGlob(pattern: string, subj: string) {
    if pattern == "" then subj == pattern
    else if pattern == GLOB then true
    else if !HasPrefix(pattern, GLOB) then subj == pattern
    else '.' !in TrimSuffix(subj, pattern[1..])
  }

  /** The wildcard covers exactly one left-most label (section 6.4.3 of RFC 6125),
      except that a hostname without a dot matches every wildcard. */
  lemma WildcardCoversOneLabel(rest: string, subj: string)
    requires rest != ""
    ensures PrefixGlob(GLOB + rest, subj) <==>
            '.' !in subj || exists first: string :: '.' !in first && subj == first + rest
  {
    assert (GLOB + rest)[1..] == rest && (GLOB + rest)[..1] == GLOB;
    forall first: string | subj == first + rest ensures HasSuffix(subj, rest) && first == TrimSuffix(subj, rest) {
      assert subj[|subj| - |rest|..] == rest && subj[..|subj| - |rest|] == first;
    }
    if HasSuffix(subj, rest) {
      var trimmed := TrimSuffix(subj, rest);
      assert subj == trimmed + rest;
      assert '.' in trimmed ==> '.' in subj;
    }
  }

  /** A name without a wildcard matches only itself, and the wildcard alone everything. */
  lemma PlainNameMatchesItself(pattern: string, subj: string)
    ensures pattern == GLOB ==> PrefixGlob(pattern, subj)
    ensures pattern == "" || pattern[0] != '*' ==> (PrefixGlob(pattern, subj) <==> subj == pattern)
  {
    assert HasPrefix(pattern, GLOB) ==> pattern[..1][0] == '*';
  }

  lemma DotlessHostnameMatchesAnyWildcard()
    ensures PrefixGlob("*.example.org", "localhost")
  {
    assert "*.example.org"[1..] == ".example.org";
    assert "*.example.org"[..1] == GLOB;
    assert TrimSuffix("localhost", ".example.org") == "localhost";
  }

  /** One domain name of a verified certificate that matches the hostname. */
  datatype Match = Match(cert: CertificateSummary, nameLength: nat)

  datatype Choice = Nothing | Chosen(best: Match)

  /** What the scan does with the next match: the five cases of the source. */
  function Consider(choice: Choice, m: Match, now: Time): Choice {
    match choice
    case Nothing => Chosen(m)
    case Chosen(best) =>
      var cert, candidate := m.cert, best.cert;
      if best.nameLength < m.nameLength then
        if cert.notBefore < now && cert.Lasting(now) then Chosen(m) else choice
      else if best.nameLength == m.nameLength then
        if cert.notBefore > candidate.notBefore && !cert.Expiring(now) then Chosen(m)
        else if cert.notBefore == candidate.notBefore && candidate.notAfter <= cert.notAfter then Chosen(m)
        else if cert.notBefore < candidate.notBefore && candidate.Expiring(now)
                && cert.notAfter > candidate.notAfter then Chosen(m)
        else choice
      else
        if candidate.Expiring(now) && now < candidate.notBefore && cert.notBefore < now && cert.Lasting(now)
        then Chosen(m) else choice
  }

  function Scan(matches: seq<Match>, now: Time): Choice {
    if matches == [] then Nothing
    else Consider(Scan(matches[..|matches| - 1], now), matches[|matches| - 1], now)
  }

  function NameMatches(cert: CertificateSummary, names: seq<string>, hostname: string): seq<Match> {
    if names == [] then []
    else
      var last := names[|names| - 1];
      NameMatches(cert, names[..|names| - 1], hostname)
      + if PrefixGlob(last, hostname) then [Match(cert, |last|)] else []
  }

  /** The matches in the order in which the scan meets them. */
  function Matches(certs: seq<CertificateSummary>, hostname: string, now: Time): seq<Match> {
    if certs == [] then []
    else
      var last := certs[|certs| - 1];
      Matches(certs[..|certs| - 1], hostname, now)
      + if last.Verify(hostname, now) then NameMatches(last, last.domainNames, hostname) else []
  }

  predicate IsMatch(m: Match, certs: seq<CertificateSummary>, hostname: string, now: Time) {
    && m.cert in certs
    && m.cert.Verify(hostname, now)
    && exists name :: name in m.cert.domainNames && PrefixGlob(name, hostname) && m.nameLength == |name|
  }

  lemma {:induction false} NameMatchesAreTheMatchingNames(cert: CertificateSummary, names: seq<string>, hostname: string)
    ensures forall m :: m in NameMatches(cert, names, hostname) <==>
      m.cert == cert && exists name :: name in names && PrefixGlob(name, hostname) && m.nameLength == |name|
  {
    if names != [] {
      var front, last := names[..|names| - 1], names[|names| - 1];
      NameMatchesAreTheMatchingNames(cert, front, hostname);
      assert forall name :: name in names <==> name in front || name == last;
    }
  }

  lemma {:induction false} MatchesAreTheVerifiedMatches(certs: seq<CertificateSummary>, hostname: string, now: Time)
    ensures forall m :: m in Matches(certs, hostname, now) <==> IsMatch(m, certs, hostname, now)
  {
    if certs != [] {
      var front, last := certs[..|certs| - 1], certs[|certs| - 1];
      MatchesAreTheVerifiedMatches(front, hostname, now);
      NameMatchesAreTheMatchingNames(last, last.domainNames, hostname);
      assert forall c :: c in certs <==> c in front || c == last;
    }
  }

  function BestChoice(certs: seq<CertificateSummary>, hostname: string, now: Time): Choice {
    Scan(Matches(certs, hostname, now), now)
  }

  /** The choice after the given matches and the first n names of a certificate. */
  function ScanNames(seen: seq<Match>, cert: CertificateSummary, n: nat, hostname: string, now: Time): Choice
    requires n <= |cert.domainNames|
  {
    Scan(seen + NameMatches(cert, cert.domainNames[..n], hostname), now)
  }

  lemma NextName(seen: seq<Match>, cert: CertificateSummary, n: nat, hostname: string, now: Time)
    requires n < |cert.domainNames|
    ensures var before, name := ScanNames(seen, cert, n, hostname, now), cert.domainNames[n];
            ScanNames(seen, cert, n + 1, hostname, now) ==
            if PrefixGlob(name, hostname) then Consider(before, Match(cert, |name|), now) else before
  {
    hide Consider, PrefixGlob;
    var front, name := NameMatches(cert, cert.domainNames[..n], hostname), cert.domainNames[n];
    assert cert.domainNames[..n + 1][..n] == cert.domainNames[..n];
    if PrefixGlob(name, hostname) {
      assert seen + (front + [Match(cert, |name|)]) == seen + front + [Match(cert, |name|)];
      assert (seen + front + [Match(cert, |name|)])[..|seen + front|] == seen + front;
    } else {
      assert front + [] == front;
    }
  }

  /** The names of the next certificate are scanned from the choice so far. */
  lemma NextCertificate(certs: seq<CertificateSummary>, i: nat, hostname: string, now: Time)
    requires i < |certs|
    ensures var seen := Matches(certs[..i], hostname, now);
            && ScanNames(seen, certs[i], 0, hostname, now) == Scan(seen, now)
            && BestChoice(certs[..i + 1], hostname, now) ==
               if certs[i].Verify(hostname, now) then ScanNames(seen, certs[i], |certs[i].domainNames|, hostname, now)
               else Scan(seen, now)
  {
    hide Scan, PrefixGlob, CertificateSummary.Verify;
    var seen := Matches(certs[..i], hostname, now);
    assert certs[..i + 1][..i] == certs[..i];
    assert certs[i].domainNames[..|certs[i].domainNames|] == certs[i].domainNames;
    assert NameMatches(certs[i], [], hostname) == [] && seen + [] == seen;
  }

  method FindBestMatchingCertificate(certs: seq<CertificateSummary>, hostname: string, now: Time)
    returns (r: Option<CertificateSummary>)
    ensures r == match BestChoice(certs, hostname, now)
                 case Nothing => None
                 case Chosen(best) => Some(best.cert)
  {
    assert BestChoice([], hostname, now) == Nothing;
    hide Scan, ScanNames, Matches, PrefixGlob, CertificateSummary.Verify;
    var candidate := CertificateSummary("", [], 0, 0, {});
    var longestMatch: int := -1;
    for i := 0 to |certs|
      invariant Holds(longestMatch, candidate, BestChoice(certs[..i], hostname, now))
    {
      var cert := certs[i];
      NextCertificate(certs, i, hostname, now);
      if !cert.Verify(hostname, now) {
        continue;
      }
      ghost var seen := Matches(certs[..i], hostname, now);
      for j := 0 to |cert.domainNames|
        invariant Holds(longestMatch, candidate, ScanNames(seen, cert, j, hostname, now))
      {
        var altName := cert.domainNames[j];
        NextName(seen, cert, j, hostname, now);
        if PrefixGlob(altName, hostname) {
          var nameLength := |altName|;
          if longestMatch < 0 {
            longestMatch, candidate := nameLength, cert;
          } else if longestMatch < nameLength {
            if cert.notBefore < now && cert.Lasting(now) {
              longestMatch, candidate := nameLength, cert;
            }
          } else if longestMatch == nameLength {
            if cert.notBefore > candidate.notBefore && !cert.Expiring(now) {
              longestMatch, candidate := nameLength, cert;
            } else if cert.notBefore == candidate.notBefore && !(candidate.notAfter > cert.notAfter) {
              longestMatch, candidate := nameLength, cert;
            } else if cert.notBefore < candidate.notBefore && candidate.Expiring(now)
                      && cert.notAfter > candidate.notAfter {
              longestMatch, candidate := nameLength, cert;
            }
          } else if candidate.Expiring(now) && now < candidate.notBefore
                    && cert.notBefore < now && cert.Lasting(now) {
            longestMatch, candidate := nameLength, cert;
          }
        }
      }
    }
    assert certs[..|certs|] == certs;
    r := if longestMatch == -1 then None else Some(candidate);
  }

  /** The loop variables stand for this choice. */
  ghost predicate Holds(longestMatch: int, candidate: CertificateSummary, choice: Choice) {
    match choice
    case Nothing => longestMatch == -1
    case Chosen(best) => longestMatch == best.nameLength && candidate == best.cert
  }

  /** A choice is one of the matches, and there is none only without matches. */
  lemma {:induction false} ScanPicksAMatch(matches: seq<Match>, now: Time)
    ensures Scan(matches, now).Nothing? <==> matches == []
    ensures Scan(matches, now).Chosen? ==> Scan(matches, now).best in matches
  {
    if matches != [] {
      ScanPicksAMatch(matches[..|matches| - 1], now);
    }
  }

  /** There is an error exactly when nothing verifies and matches. */
  lemma ErrorExactlyWithoutMatch(certs: seq<CertificateSummary>, hostname: string, now: Time)
    ensures BestChoice(certs, hostname, now).Nothing? <==>
            forall c, name :: c in certs && name in c.domainNames && c.Verify(hostname, now) ==> !PrefixGlob(name, hostname)
    ensures BestChoice(certs, hostname, now).Chosen? ==>
            IsMatch(BestChoice(certs, hostname, now).best, certs, hostname, now)
  {
    var matches := Matches(certs, hostname, now);
    MatchesAreTheVerifiedMatches(certs, hostname, now);
    ScanPicksAMatch(matches, now);
    if c, name :| c in certs && name in c.domainNames && c.Verify(hostname, now) && PrefixGlob(name, hostname) {
      assert Match(c, |name|) in matches;
    }
    if matches != [] {
      assert matches[0] in matches;
    }
  }

  ghost predicate Verified(matches: seq<Match>, now: Time) {
    forall m :: m in matches ==> m.cert.notBefore <= now <= m.cert.notAfter
  }

  /** Lexicographic order on match length, beginning and end. */
  predicate RankLe(a: Match, b: Match) {
    || a.nameLength < b.nameLength
    || (a.nameLength == b.nameLength && a.cert.notBefore < b.cert.notBefore)
    || (a.nameLength == b.nameLength && a.cert.notBefore == b.cert.notBefore && a.cert.notAfter <= b.cert.notAfter)
  }

  /** The match has begun and has more than the minimal period left. */
  predicate Good(m: Match, now: Time) {
    m.cert.notBefore < now && m.cert.Lasting(now)
  }

  /** What the scan holds is not below a good match. */
  ghost predicate Dominates(choice: Choice, m: Match, now: Time) {
    && choice.Chosen?
    && RankLe(m, choice.best)
    && (choice.best.nameLength == m.nameLength ==> !choice.best.cert.Expiring(now))
  }

  /** The match length never decreases: the fifth case of the source, which falls
      back to a shorter name, cannot fire for certificates that verify. */
  lemma MatchLengthNeverDecreases(matches: seq<Match>, now: Time)
    requires matches != [] && Verified(matches, now)
    ensures var before := Scan(matches[..|matches| - 1], now);
            before.Chosen? ==> before.best.nameLength <= Scan(matches, now).best.nameLength
  {
    ScanPicksAMatch(matches[..|matches| - 1], now);
  }

  /** Only a good match lengthens the matched name, so it is as long as that of the first
      match or of a good one. */
  lemma {:induction false} OnlyGoodMatchesLengthen(matches: seq<Match>, now: Time)
    requires matches != [] && Verified(matches, now)
    ensures var length := Scan(matches, now).best.nameLength;
            && length >= matches[0].nameLength
            && (length > matches[0].nameLength ==> exists m :: m in matches && Good(m, now) && m.nameLength == length)
  {
    var front, last := matches[..|matches| - 1], matches[|matches| - 1];
    ScanPicksAMatch(front, now);
    if front != [] {
      OnlyGoodMatchesLengthen(front, now);
      assert last in matches;
    }
  }

  /** A choice that is about to expire gives way to a match of the same length that ends
      later, unless that one is about to expire as well and has begun later; and never to
      one that ends earlier. */
  lemma ExpiringChoiceGivesWay(matches: seq<Match>, now: Time)
    requires matches != [] && Scan(matches[..|matches| - 1], now).Chosen?
    requires var before, m := Scan(matches[..|matches| - 1], now).best, matches[|matches| - 1];
             before.cert.Expiring(now) && m.nameLength == before.nameLength
    ensures var before, m := Scan(matches[..|matches| - 1], now).best, matches[|matches| - 1];
            && Scan(matches, now).best.cert.notAfter >= before.cert.notAfter
            && (m.cert.notAfter > before.cert.notAfter ==>
                  (Scan(matches, now).best == m <==> m.cert.notBefore <= before.cert.notBefore || !m.cert.Expiring(now)))
  {
  }

  lemma GoodMatchIsConsidered(choice: Choice, m: Match, now: Time)
    requires Good(m, now) && m.cert.notBefore <= now <= m.cert.notAfter
    requires choice.Chosen? ==> choice.best.cert.notBefore <= now <= choice.best.cert.notAfter
    ensures Dominates(Consider(choice, m, now), m, now)
  {
  }

  lemma DominanceIsKept(choice: Choice, next: Match, m: Match, now: Time)
    requires Dominates(choice, m, now) && Good(m, now)
    requires choice.best.cert.notBefore <= now && next.cert.notBefore <= now <= next.cert.notAfter
    ensures Dominates(Consider(choice, next, now), m, now)
  {
  }

  lemma {:induction false} ScanDominates(matches: seq<Match>, m: Match, now: Time)
    requires Verified(matches, now) && m in matches && Good(m, now)
    ensures Dominates(Scan(matches, now), m, now)
  {
    var front, last := matches[..|matches| - 1], matches[|matches| - 1];
    assert matches == front + [last];
    hide Consider, Dominates, Good;
    ScanPicksAMatch(front, now);
    if m in front {
      ScanDominates(front, m, now);
      assert Scan(front, now).Chosen?;
      DominanceIsKept(Scan(front, now), last, m, now);
    } else {
      GoodMatchIsConsidered(Scan(front, now), m, now);
    }
  }

  /** For every list and every order: a certificate that has begun and has more than
      seven days left is chosen, or beaten by a longer name, or by a certificate of the
      same name length that has at least seven days left and has begun later, or at the
      same time and ends no earlier. */
  lemma ChosenCertificateDominates(
    certs: seq<CertificateSummary>, hostname: string, now: Time, cert: CertificateSummary, name: string)
    requires cert in certs && cert.Verify(hostname, now)
    requires name in cert.domainNames && PrefixGlob(name, hostname)
    requires cert.notBefore < now && cert.Lasting(now)
    ensures Dominates(BestChoice(certs, hostname, now), Match(cert, |name|), now)
  {
    var matches := Matches(certs, hostname, now);
    MatchesAreTheVerifiedMatches(certs, hostname, now);
    assert Match(cert, |name|) in matches;
    ScanDominates(matches, Match(cert, |name|), now);
  }

  ghost predicate AllGood(matches: seq<Match>, now: Time) {
    forall m :: m in matches ==> Good(m, now)
  }

  /** When every verified match has begun and lasts, the choice maximises match length,
      then beginning, then end; so that triple does not depend on the order of the list. */
  lemma ChoiceIsArgmax(certs: seq<CertificateSummary>, others: seq<CertificateSummary>, hostname: string, now: Time)
    requires AllGood(Matches(certs, hostname, now), now)
    requires multiset(certs) == multiset(others)
    ensures forall m :: IsMatch(m, certs, hostname, now) ==>
              BestChoice(certs, hostname, now).Chosen? && RankLe(m, BestChoice(certs, hostname, now).best)
    ensures BestChoice(certs, hostname, now).Nothing? <==> BestChoice(others, hostname, now).Nothing?
    ensures BestChoice(certs, hostname, now).Chosen? ==>
              var a, b := BestChoice(certs, hostname, now).best, BestChoice(others, hostname, now).best;
              a.nameLength == b.nameLength && a.cert.notBefore == b.cert.notBefore && a.cert.notAfter == b.cert.notAfter
  {
    var ms, ns := Matches(certs, hostname, now), Matches(others, hostname, now);
    MatchesAreTheVerifiedMatches(certs, hostname, now);
    MatchesAreTheVerifiedMatches(others, hostname, now);
    forall c ensures c in certs <==> c in others {
      assert c in multiset(certs) <==> c in multiset(others);
    }
    assert forall m :: m in ms <==> m in ns;
    forall m | m in ms ensures Dominates(Scan(ms, now), m, now) && Dominates(Scan(ns, now), m, now) {
      ScanDominates(ms, m, now);
      ScanDominates(ns, m, now);
    }
    ScanPicksAMatch(ms, now);
    ScanPicksAMatch(ns, now);
    assert ms != [] ==> ms[0] in ns;
    assert ns != [] ==> ns[0] in ms;
  }

  function MatchedIds(certs: seq<CertificateSummary>, hostnames: seq<string>, now: Time): (ids: set<string>)
    ensures forall id :: id in ids ==> exists c :: c in certs && c.id == id
  {
    var chosen := set h | h in hostnames && BestChoice(certs, h, now).Chosen? :: BestChoice(certs, h, now).best.cert.id;
    assert forall h :: h in hostnames && BestChoice(certs, h, now).Chosen? ==>
      BestChoice(certs, h, now).best.cert in certs by {
      forall h ensures BestChoice(certs, h, now).Chosen? ==> BestChoice(certs, h, now).best.cert in certs {
        ErrorExactlyWithoutMatch(certs, h, now);
      }
    }
    chosen
  }

  ghost predicate NoDuplicates<T>(s: seq<T>) {
    forall i, j :: 0 <= i < j < |s| ==> s[i] != s[j]
  }

  /** The best certificate of each hostname, once per id, in the arbitrary order in
      which the map is read. */
  method FindBestMatchingCertificates(certs: seq<CertificateSummary>, hostnames: seq<string>, now: Time)
    returns (matched: seq<CertificateSummary>)
    ensures NoDuplicates(seq(|matched|, i requires 0 <= i < |matched| => matched[i].id))
    ensures (set c | c in matched :: c.id) == MatchedIds(certs, hostnames, now)
    ensures forall c :: c in matched ==> c in certs
  {
    hide BestChoice, IsMatch;
    var certsMap: map<string, CertificateSummary> := map[];
    for i := 0 to |hostnames|
      invariant certsMap.Keys == MatchedIds(certs, hostnames[..i], now)
      invariant forall id :: id in certsMap ==> certsMap[id].id == id && certsMap[id] in certs
    {
      var hostname := hostnames[i];
      var summary := FindBestMatchingCertificate(certs, hostname, now);
      ErrorExactlyWithoutMatch(certs, hostname, now);
      assert hostnames[..i + 1] == hostnames[..i] + [hostname];
      if summary.None? {
        continue;
      }
      certsMap := certsMap[summary.value.id := summary.value];
    }
    assert hostnames[..|hostnames|] == hostnames;

    matched := [];
    var remaining := certsMap.Keys;
    while remaining != {}
      invariant remaining <= certsMap.Keys
      invariant forall i :: 0 <= i < |matched| ==>
        matched[i].id in certsMap.Keys - remaining && matched[i] == certsMap[matched[i].id]
      invariant forall id :: id in certsMap.Keys - remaining ==> certsMap[id] in matched
      invariant forall i, j :: 0 <= i < j < |matched| ==> matched[i].id != matched[j].id
    {
      var id :| id in remaining;
      matched := matched + [certsMap[id]];
      remaining := remaining - {id};
    }
  }
}
