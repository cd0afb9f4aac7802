/** Mapping the declared spec to the neutral records, normalising, and change detection. */
module Helpers {
  import opened Wrappers
  import opened Application
  import Text

  // ---------------------------------------------------------------- spec to records

  function FilterTokenBindings(binding: string): string {
    if binding == "session" || binding == "cookie" then binding else ""
  }

  function KnownScopes(names: seq<string>): seq<string> {
    if names == [] then []
    else
      var last := names[|names| - 1];
      KnownScopes(names[..|names| - 1]) + (if last == "xacml" || last == "role" then [last] else [])
  }

  method FilterScopeValidators(names: seq<string>) returns (out: seq<string>)
    ensures out == KnownScopes(names)
  {
    out := [];
    for i := 0 to |names|
      invariant out == KnownScopes(names[..i])
    {
      assert names[..i + 1][..i] == names[..i];
      if names[i] == "xacml" || names[i] == "role" {
        out := out + [names[i]];
      }
    }
    assert names[..|names|] == names;
  }

  function OAuth2FromSpec(o: OAuth2Spec): OAuth2Config {
    OAuth2Config(
      false, o.callbackURL, o.grantTypes, o.pkceMandatory, o.pkcePlain, o.publicClient,
      FilterTokenBindings(o.tokenBinding), o.audiences, KnownScopes(o.scopeValidators),
      o.refreshTokenExpiry, o.accessTokenExpiry, "", "")
  }

  /** Appending to a nil slice: no steps leave it nil. */
  function StepsFromSpec(steps: Slice<AuthenticationStep>): Slice<AuthenticationStep> {
    if steps.Elems() == [] then Nil else Of(steps.Elems())
  }

  method AuthenticationStepsFromSpec(steps: Slice<AuthenticationStep>) returns (out: Slice<AuthenticationStep>)
    ensures out == StepsFromSpec(steps)
  {
    out := Nil;
    var elems := steps.Elems();
    for i := 0 to |elems|
      invariant out == StepsFromSpec(Of(elems[..i]))
    {
      out := Of(out.Elems() + [elems[i]]);
    }
    assert elems[..|elems|] == elems;
  }

  function ApplicationFromSpec(spec: SPSpec, id: int, resourceID: string): Application {
    Application(
      id, resourceID, spec.name, spec.name + " -- " + spec.description,
      spec.claims, spec.subjectClaimURI,
      Some(BLANK_OAUTH.(enabled := spec.oauth2.Some?)),
      Some(BLANK_SAML.(enabled := spec.saml.Some?)),
      StepsFromSpec(spec.authenticationSteps), "",
      spec.alwaysSendBackAuthenticatedListOfIDPs, spec.enableAuthorization, spec.skipConsent,
      spec.skipLogoutConsent, spec.useTenantInSub, spec.useUserstoreInSub, spec.useUserstoreInRoles,
      spec.stepForSubject, spec.stepForAttributes)
  }

  method MakeOAuth2(o: OAuth2Spec) returns (cfg: OAuth2Config)
    ensures cfg == OAuth2FromSpec(o)
  {
    var scopes := FilterScopeValidators(o.scopeValidators);
    cfg := OAuth2Config(
      false, o.callbackURL, o.grantTypes, o.pkceMandatory, o.pkcePlain, o.publicClient,
      FilterTokenBindings(o.tokenBinding), o.audiences, scopes, o.refreshTokenExpiry, o.accessTokenExpiry, "", "");
  }

  /** `mapClaims`: the spec's claims and the application's are the same record here. */
  method CopyClaims(claims: seq<Claim>) returns (out: seq<Claim>)
    ensures out == claims
  {
    out := [];
    for i := 0 to |claims|
      invariant out == claims[..i]
    {
      out := out + [Claim(claims[i].uri, claims[i].mandatory)];
    }
  }

  method MakeApplication(spec: SPSpec, id: int, resourceID: string) returns (app: Application)
    ensures app == ApplicationFromSpec(spec, id, resourceID)
  {
    var claims := CopyClaims(spec.claims);
    var steps := AuthenticationStepsFromSpec(spec.authenticationSteps);
    app := Application(
      id, resourceID, spec.name, spec.name + " -- " + spec.description, claims, spec.subjectClaimURI,
      Some(BLANK_OAUTH.(enabled := spec.oauth2.Some?)), Some(BLANK_SAML.(enabled := spec.saml.Some?)),
      steps, "",
      spec.alwaysSendBackAuthenticatedListOfIDPs, spec.enableAuthorization, spec.skipConsent,
      spec.skipLogoutConsent, spec.useTenantInSub, spec.useUserstoreInSub, spec.useUserstoreInRoles,
      spec.stepForSubject, spec.stepForAttributes);
  }

  // ---------------------------------------------------------------- sorting claims

  /** One pass of insertion from the right: `x` moves left past every larger URI. */
  function Insert(s: seq<Claim>, x: Claim): seq<Claim> {
    if s == [] || !Text.Less(x.uri, s[|s| - 1].uri) then s + [x]
    else Insert(s[..|s| - 1], x) + [s[|s| - 1]]
  }

  function SortClaims(s: seq<Claim>): (r: seq<Claim>)
    ensures |r| == |s|
  {
    if s == [] then []
    else
      InsertPermutes(SortClaims(s[..|s| - 1]), s[|s| - 1]);
      Insert(SortClaims(s[..|s| - 1]), s[|s| - 1])
  }

  predicate Sorted(s: seq<Claim>) {
    forall i, j | 0 <= i < j < |s| :: !Text.Less(s[j].uri, s[i].uri)
  }

  /** Claims that share a URI are the same claim: order cannot show. */
  predicate URIsDetermine(s: seq<Claim>) {
    forall c, d | c in s && d in s && c.uri == d.uri :: c == d
  }

  lemma {:induction false} InsertPermutes(s: seq<Claim>, x: Claim)
    ensures multiset(Insert(s, x)) == multiset(s) + multiset{x}
    ensures |Insert(s, x)| == |s| + 1
  {
    if s != [] && Text.Less(x.uri, s[|s| - 1].uri) {
      InsertPermutes(s[..|s| - 1], x);
      assert s == s[..|s| - 1] + [s[|s| - 1]];
    }
  }

  lemma {:induction false} InsertKeepsSorted(s: seq<Claim>, x: Claim)
    requires Sorted(s)
    ensures Sorted(Insert(s, x))
  {
    if s == [] {
    } else if Text.Less(x.uri, s[|s| - 1].uri) {
      var init, last := s[..|s| - 1], s[|s| - 1];
      InsertKeepsSorted(init, x);
      InsertPermutes(init, x);
      var r := Insert(init, x);
      forall i | 0 <= i < |r| ensures !Text.Less(last.uri, r[i].uri) {
        assert r[i] in multiset(r);
        if r[i] == x {
          Text.LessAsymmetric(x.uri, last.uri);
        } else {
          assert r[i] in multiset(init);
          assert r[i] in init;
        }
      }
    } else {
      var last := s[|s| - 1];
      forall i | 0 <= i < |s| ensures !Text.Less(x.uri, s[i].uri) {
        if i < |s| - 1 && Text.Less(x.uri, s[i].uri) {
          Text.LessTotal(s[i].uri, last.uri);
          if s[i].uri != last.uri {
            Text.LessTransitive(x.uri, s[i].uri, last.uri);
          }
        }
      }
    }
  }

  /** Sorting keeps the claims and orders them. */
  lemma {:induction false} SortClaimsSorts(s: seq<Claim>)
    ensures multiset(SortClaims(s)) == multiset(s)
    ensures Sorted(SortClaims(s))
  {
    if s != [] {
      var init, last := s[..|s| - 1], s[|s| - 1];
      SortClaimsSorts(init);
      InsertPermutes(SortClaims(init), last);
      InsertKeepsSorted(SortClaims(init), last);
      assert s == init + [last];
    }
  }

  /** Sorting a sorted list changes nothing, so a second normalisation is free. */
  lemma {:induction false} SortClaimsFixesSorted(s: seq<Claim>)
    requires Sorted(s)
    ensures SortClaims(s) == s
  {
    if s != [] {
      var init, last := s[..|s| - 1], s[|s| - 1];
      SortClaimsFixesSorted(init);
      assert s == init + [last];
      if init != [] {
        assert s[|s| - 2] == init[|init| - 1];
      }
    }
  }

  lemma DeterminesTransfers(a: seq<Claim>, b: seq<Claim>)
    requires multiset(a) == multiset(b) && URIsDetermine(a)
    ensures URIsDetermine(b)
  {
    forall c, d | c in b && d in b && c.uri == d.uri ensures c == d {
      assert c in multiset(a) && d in multiset(a);
    }
  }

  lemma LastClaimsAgree(a: seq<Claim>, b: seq<Claim>)
    requires multiset(a) == multiset(b) && URIsDetermine(a) && Sorted(a) && Sorted(b)
    requires a != [] && b != []
    ensures a[|a| - 1] == b[|b| - 1]
  {
    var x, y := a[|a| - 1], b[|b| - 1];
    assert y in multiset(a) && x in multiset(b);
    var i :| 0 <= i < |a| && a[i] == y;
    var j :| 0 <= j < |b| && b[j] == x;
    if x != y {
      assert !Text.Less(x.uri, y.uri) && !Text.Less(y.uri, x.uri);
      Text.LessTotal(x.uri, y.uri);
    }
  }

  lemma DropLast(a: seq<Claim>)
    requires a != []
    ensures var a' := a[..|a| - 1];
            && a == a' + [a[|a| - 1]]
            && multiset(a') == multiset(a) - multiset{a[|a| - 1]}
            && (Sorted(a) ==> Sorted(a'))
            && (URIsDetermine(a) ==> URIsDetermine(a'))
  {
    assert a == a[..|a| - 1] + [a[|a| - 1]];
  }

  /** Where URIs determine claims there is only one sorted arrangement, so whatever algorithm
      `sort.Slice` uses, its result is the one modelled here. */
  lemma {:induction false} SortedArrangementIsUnique(a: seq<Claim>, b: seq<Claim>)
    requires multiset(a) == multiset(b) && URIsDetermine(a) && Sorted(a) && Sorted(b)
    ensures a == b
  {
    assert |a| == |multiset(a)| == |multiset(b)| == |b|;
    if a != [] {
      LastClaimsAgree(a, b);
      var a', b' := a[..|a| - 1], b[..|b| - 1];
      DropLast(a);
      DropLast(b);
      SortedArrangementIsUnique(a', b');
      assert a == b;
    }
  }

  lemma SortIgnoresOrder(a: seq<Claim>, b: seq<Claim>)
    requires multiset(a) == multiset(b) && URIsDetermine(a)
    ensures SortClaims(a) == SortClaims(b)
  {
    SortClaimsSorts(a);
    SortClaimsSorts(b);
    DeterminesTransfers(a, SortClaims(a));
    SortedArrangementIsUnique(SortClaims(a), SortClaims(b));
  }

  // ---------------------------------------------------------------- stability

  /** The claims of one URI, in order. */
  function OfURI(s: seq<Claim>, uri: string): seq<Claim> {
    if s == [] then []
    else OfURI(s[..|s| - 1], uri) + if s[|s| - 1].uri == uri then [s[|s| - 1]] else []
  }

  lemma {:induction false} OfURIAppends(a: seq<Claim>, b: seq<Claim>, uri: string)
    ensures OfURI(a + b, uri) == OfURI(a, uri) + OfURI(b, uri)
  {
    if b == [] {
      assert a + b == a;
    } else {
      assert (a + b)[..|a + b| - 1] == a + b[..|b| - 1];
      OfURIAppends(a, b[..|b| - 1], uri);
    }
  }

  lemma {:induction false} InsertIsStable(s: seq<Claim>, x: Claim, uri: string)
    ensures OfURI(Insert(s, x), uri) == OfURI(s + [x], uri)
  {
    if s != [] && Text.Less(x.uri, s[|s| - 1].uri) {
      var init, last := s[..|s| - 1], s[|s| - 1];
      if x.uri == last.uri { Text.LessAsymmetric(x.uri, last.uri); }
      InsertIsStable(init, x, uri);
      OfURIAppends(Insert(init, x), [last], uri);
      OfURIAppends(init, [x], uri);
      OfURIAppends(s, [x], uri);
    }
  }

  /** Sorting keeps the order among claims of one URI. */
  lemma {:induction false} SortIsStable(s: seq<Claim>, uri: string)
    ensures OfURI(SortClaims(s), uri) == OfURI(s, uri)
  {
    if s != [] {
      var init, last := s[..|s| - 1], s[|s| - 1];
      SortIsStable(init, uri);
      InsertIsStable(SortClaims(init), last, uri);
      OfURIAppends(SortClaims(init), [last], uri);
    }
  }

  lemma {:induction false} OfURIHolds(s: seq<Claim>, c: Claim)
    ensures c in OfURI(s, c.uri) <==> c in s
  {
    if s != [] {
      OfURIHolds(s[..|s| - 1], c);
      assert s == s[..|s| - 1] + [s[|s| - 1]];
    }
  }

  /** The claims of every URI are the same ones, in the same order. */
  ghost predicate SameByURI(a: seq<Claim>, b: seq<Claim>) {
    forall uri: string :: OfURI(a, uri) == OfURI(b, uri)
  }

  /** The last claim of one list occurs in the other, hence does not come after its last. */
  lemma LastOccurs(a: seq<Claim>, b: seq<Claim>)
    requires Sorted(b) && a != [] && OfURI(a, a[|a| - 1].uri) == OfURI(b, a[|a| - 1].uri)
    ensures b != [] && !Text.Less(b[|b| - 1].uri, a[|a| - 1].uri)
  {
    var x := a[|a| - 1];
    OfURIHolds(a, x);
    OfURIHolds(b, x);
    var i :| 0 <= i < |b| && b[i] == x;
    if i == |b| - 1 && Text.Less(x.uri, x.uri) {
      Text.LessAsymmetric(x.uri, x.uri);
    }
  }

  lemma InitsAgree(a: seq<Claim>, b: seq<Claim>, uri: string)
    requires a != [] && b != [] && a[|a| - 1].uri == b[|b| - 1].uri && OfURI(a, uri) == OfURI(b, uri)
    ensures OfURI(a[..|a| - 1], uri) == OfURI(b[..|b| - 1], uri)
    ensures uri == a[|a| - 1].uri ==> a[|a| - 1] == b[|b| - 1]
  {
    var x, y := a[|a| - 1], b[|b| - 1];
    SnocInjective(OfURI(a[..|a| - 1], uri), OfURI(b[..|b| - 1], uri), x, y, x.uri == uri);
  }

  lemma SnocInjective(s: seq<Claim>, t: seq<Claim>, x: Claim, y: Claim, more: bool)
    requires s + (if more then [x] else []) == t + (if more then [y] else [])
    ensures s == t && (more ==> x == y)
  {
    if more {
      assert (s + [x])[..|s|] == s && (t + [y])[..|t|] == t;
      assert (s + [x])[|s|] == x && (t + [y])[|t|] == y;
    } else {
      assert s + [] == s && t + [] == t;
    }
  }

  lemma {:induction false} SortedAgreeByURI(a: seq<Claim>, b: seq<Claim>)
    requires Sorted(a) && Sorted(b) && SameByURI(a, b)
    ensures a == b
  {
    if a != [] { LastOccurs(a, b); }
    if b != [] { LastOccurs(b, a); }
    if a != [] {
      var a', b' := a[..|a| - 1], b[..|b| - 1];
      Text.LessTotal(a[|a| - 1].uri, b[|b| - 1].uri);
      InitsAgree(a, b, a[|a| - 1].uri);
      forall uri: string ensures OfURI(a', uri) == OfURI(b', uri) {
        InitsAgree(a, b, uri);
      }
      SortedAgreeByURI(a', b');
      assert a == a' + [a[|a| - 1]] && b == b' + [b[|b| - 1]];
    }
  }

  /** Two claim lists sort alike if and only if they agree URI by URI. */
  lemma SortsAlikeExactly(a: seq<Claim>, b: seq<Claim>)
    ensures SortClaims(a) == SortClaims(b) <==> SameByURI(a, b)
  {
    forall uri: string
      ensures OfURI(SortClaims(a), uri) == OfURI(a, uri) && OfURI(SortClaims(b), uri) == OfURI(b, uri)
    {
      SortIsStable(a, uri);
      SortIsStable(b, uri);
    }
    SortClaimsSorts(a);
    SortClaimsSorts(b);
    if SameByURI(a, b) {
      SortedAgreeByURI(SortClaims(a), SortClaims(b));
    }
  }

  lemma Remove(a: seq<Claim>, c: Claim) returns (rest: seq<Claim>)
    requires c in a
    ensures multiset(a) == multiset([c] + rest)
  {
    var i :| 0 <= i < |a| && a[i] == c;
    rest := a[..i] + a[i + 1..];
    assert a == a[..i] + [c] + a[i + 1..];
  }

  lemma RemoveTwo(a: seq<Claim>, c: Claim, d: Claim) returns (rest: seq<Claim>)
    requires c in a && d in a && c != d
    ensures multiset(a) == multiset([c, d] + rest) == multiset([d, c] + rest)
  {
    var but := Remove(a, c);
    assert d in multiset([c] + but);
    rest := Remove(but, d);
  }

  /** What comes first among its URI still does after sorting. */
  lemma FirstStaysFirst(c: Claim, d: Claim, rest: seq<Claim>)
    requires c.uri == d.uri
    ensures OfURI(SortClaims([c, d] + rest), c.uri) == [c, d] + OfURI(rest, c.uri)
  {
    SortIsStable([c, d] + rest, c.uri);
    OfURIAppends([c, d], rest, c.uri);
    assert [c][..0] == [] && OfURI([c], c.uri) == [c];
    assert [c, d][..1] == [c] && OfURI([c, d], c.uri) == [c] + [d];
    assert [c] + [d] == [c, d];
  }

  /** Two different claims that share a URI: two arrangements that sort differently. */
  lemma OrderShows(a: seq<Claim>, c: Claim, d: Claim) returns (p: seq<Claim>, q: seq<Claim>)
    requires c in a && d in a && c.uri == d.uri && c != d
    ensures multiset(p) == multiset(a) && multiset(q) == multiset(a)
    ensures SortClaims(p) != SortClaims(q)
  {
    var rest := RemoveTwo(a, c, d);
    p, q := [c, d] + rest, [d, c] + rest;
    FirstStaysFirst(c, d, rest);
    FirstStaysFirst(d, c, rest);
    assert OfURI(SortClaims(p), c.uri)[0] == c && OfURI(SortClaims(q), c.uri)[0] == d;
  }

  /** All arrangements of a claim list sort alike if and only if its URIs determine its claims. */
  lemma SortIgnoresOrderExactly(a: seq<Claim>)
    ensures (forall p: seq<Claim> | multiset(p) == multiset(a) :: SortClaims(p) == SortClaims(a)) <==> URIsDetermine(a)
  {
    if URIsDetermine(a) {
      forall p: seq<Claim> | multiset(p) == multiset(a) ensures SortClaims(p) == SortClaims(a) {
        SortIgnoresOrder(a, p);
      }
    } else {
      var c, d :| c in a && d in a && c.uri == d.uri && c != d;
      var p, q := OrderShows(a, c, d);
    }
  }

  // ---------------------------------------------------------------- change detection

  function Normalize(a: Application): Application {
    a.(id := 0, resourceID := "", claims := SortClaims(a.claims))
  }

  /** The hashes differ exactly when the JSON-visible values do. */
  predicate AppHasChanged(existing: Application, desired: Application) {
    Normalize(existing) != Normalize(desired)
  }

  predicate OAuth2HasChanged(existing: OAuth2Config, desired: OAuth2Config) {
    existing != desired
  }

  predicate SamlSPHasChanged(existing: SAMLConfig, desired: SAMLConfig) {
    || existing.issuer != desired.issuer
    || existing.acsURLs != desired.acsURLs
    || existing.enableAttributeProfile != desired.enableAttributeProfile
    || existing.enableAttributesByDefault != desired.enableAttributesByDefault
  }

  /** Reordering either claim list never changes the verdict where URIs determine claims. */
  lemma ChangeDetectionIgnoresClaimOrder(
    existing: Application, desired: Application, p: seq<Claim>, q: seq<Claim>)
    requires URIsDetermine(existing.claims) && multiset(p) == multiset(existing.claims)
    requires URIsDetermine(desired.claims) && multiset(q) == multiset(desired.claims)
    ensures AppHasChanged(existing.(claims := p), desired.(claims := q)) <==> AppHasChanged(existing, desired)
  {
    SortIgnoresOrder(existing.claims, p);
    SortIgnoresOrder(desired.claims, q);
  }

  /** The records differ in identifiers and claim order at most. */
  predicate SameUpToOrder(a: Application, b: Application) {
    && a.(id := 0, resourceID := "", claims := []) == b.(id := 0, resourceID := "", claims := [])
    && multiset(a.claims) == multiset(b.claims)
  }

  /** No arrangement of either claim list changes the verdict. */
  ghost predicate OrderNeverMatters(existing: Application, desired: Application) {
    forall p: seq<Claim>, q: seq<Claim> | multiset(p) == multiset(existing.claims)
      && multiset(q) == multiset(desired.claims) ::
      AppHasChanged(existing.(claims := p), desired.(claims := q)) <==> AppHasChanged(existing, desired)
  }

  lemma UnchangedMeansSame(a: Application, b: Application)
    ensures !AppHasChanged(a, b) <==>
        SameUpToOrder(a.(claims := []), b.(claims := [])) && SortClaims(a.claims) == SortClaims(b.claims)
    ensures !AppHasChanged(a, b) ==> SameUpToOrder(a, b)
  {
    SortClaimsSorts(a.claims);
    SortClaimsSorts(b.claims);
    if !AppHasChanged(a, b) {
      assert Normalize(a).(claims := []) == Normalize(b).(claims := []);
    }
  }

  /** The verdict never depends on the order of claims if and only if the records differ by more than
      order anyway, or URIs determine claims: equal claims may repeat, different ones sharing a URI may not. */
  lemma ClaimOrderMattersExactly(existing: Application, desired: Application)
    ensures OrderNeverMatters(existing, desired) <==>
        !SameUpToOrder(existing, desired) || URIsDetermine(existing.claims)
  {
    if !SameUpToOrder(existing, desired) {
      DifferentStaysDifferent(existing, desired);
    } else if URIsDetermine(existing.claims) {
      DeterminesTransfers(existing.claims, desired.claims);
      forall p: seq<Claim>, q: seq<Claim> | multiset(p) == multiset(existing.claims)
        && multiset(q) == multiset(desired.claims)
        ensures AppHasChanged(existing.(claims := p), desired.(claims := q)) <==> AppHasChanged(existing, desired)
      {
        ChangeDetectionIgnoresClaimOrder(existing, desired, p, q);
      }
    } else {
      var c, d :| c in existing.claims && d in existing.claims && c.uri == d.uri && c != d;
      var p, q := OrderShows(existing.claims, c, d);
      UnchangedMeansSame(existing.(claims := p), desired.(claims := p));
      UnchangedMeansSame(existing.(claims := p), desired.(claims := q));
      assert AppHasChanged(existing.(claims := p), desired.(claims := q));
      assert !AppHasChanged(existing.(claims := p), desired.(claims := p));
    }
  }

  lemma DifferentStaysDifferent(existing: Application, desired: Application)
    requires !SameUpToOrder(existing, desired)
    ensures OrderNeverMatters(existing, desired)
  {
    UnchangedMeansSame(existing, desired);
    forall p: seq<Claim>, q: seq<Claim> | multiset(p) == multiset(existing.claims)
      && multiset(q) == multiset(desired.claims)
      ensures AppHasChanged(existing.(claims := p), desired.(claims := q)) <==> AppHasChanged(existing, desired)
    {
      UnchangedMeansSame(existing.(claims := p), desired.(claims := q));
    }
  }

  // ---------------------------------------------------------------- normalising in place

  /** An application whose claims live in a shared backing array; null is the nil slice. */
  datatype AppRecord = AppRecord(fields: Application, claims: array?<Claim>)
  {
    function Value(): Application
      reads claims
    {
      fields.(claims := if claims == null then [] else claims[..])
    }

    function Frame(): set<object> {
      if claims == null then {} else {claims}
    }
  }

  /** Moving x down from the end of a sorted stretch: what the inner loop still has to do. */
  lemma {:induction false} InsertSplits(s: seq<Claim>, x: Claim, j: nat)
    requires j <= |s|
    requires forall k | j <= k < |s| :: Text.Less(x.uri, s[k].uri)
    ensures Insert(s, x) == Insert(s[..j], x) + s[j..]
  {
    if j < |s| {
      var init := s[..|s| - 1];
      InsertSplits(init, x, j);
      assert init[..j] == s[..j];
      assert s[j..] == init[j..] + [s[|s| - 1]];
    } else {
      assert s[..j] == s && s[j..] == [];
    }
  }

  lemma SunkIsInserted(s: seq<Claim>, x: Claim, j: nat, r: seq<Claim>)
    requires j <= |s| && |r| == |s| + 1
    requires r[j] == x
    requires forall k | 0 <= k < j :: r[k] == s[k]
    requires forall k | j < k <= |s| :: r[k] == s[k - 1]
    requires forall k | j <= k < |s| :: Text.Less(x.uri, s[k].uri)
    requires j > 0 ==> !Text.Less(x.uri, s[j - 1].uri)
    ensures r == Insert(s, x)
  {
    InsertSplits(s, x, j);
    assert Insert(s[..j], x) == s[..j] + [x];
    assert r == s[..j] + [x] + s[j..];
  }

  /** The inner loop: sinks element i into the sorted stretch before it. */
  method SinkInPlace(a: array<Claim>, i: nat)
    requires i < a.Length
    modifies a
    ensures a[..i + 1] == Insert(old(a[..i]), old(a[i]))
    ensures a[i + 1..] == old(a[i + 1..])
  {
    ghost var done, x := a[..i], a[i];
    var j := i;
    while j > 0 && Text.Less(a[j].uri, a[j - 1].uri)
      invariant 0 <= j <= i
      invariant a[j] == x
      invariant forall k | 0 <= k < j :: a[k] == done[k]
      invariant forall k | j < k <= i :: a[k] == done[k - 1]
      invariant forall k | i < k < a.Length :: a[k] == old(a[k])
      invariant forall k | j <= k < i :: Text.Less(x.uri, done[k].uri)
    {
      a[j - 1], a[j] := a[j], a[j - 1];
      j := j - 1;
    }
    SunkIsInserted(done, x, j, a[..i + 1]);
  }

  /** `sort.Slice` with the URI comparison, as its insertion sort runs. */
  method SortInPlace(a: array<Claim>)
    modifies a
    ensures a[..] == SortClaims(old(a[..]))
  {
    ghost var was := a[..];
    var i := 0;
    while i < a.Length
      invariant 0 <= i <= a.Length
      invariant a[..i] == SortClaims(was[..i])
      invariant a[i..] == was[i..]
    {
      assert a[i] == a[i..][0] == was[i];
      assert a[i + 1..] == a[i..][1..];
      assert was[..i + 1][..i] == was[..i];
      SinkInPlace(a, i);
      i := i + 1;
    }
    assert was[..a.Length] == was && a[..a.Length] == a[..];
  }

  /** Copies the struct, blanks the server identifiers of the copy only, and sorts the caller's
      own claims, because both records share the backing array. */
  method NormalizeApplication(a: AppRecord) returns (an: AppRecord)
    modifies a.Frame()
    ensures an.fields == a.fields.(id := 0, resourceID := "")
    ensures a.claims != null ==> an.claims == a.claims
    ensures a.claims == null ==> fresh(an.claims)
    ensures an.Value() == Normalize(old(a.Value()))
    ensures a.Value() == old(a.Value()).(claims := SortClaims(old(a.Value().claims)))
  {
    an := a.(fields := a.fields.(id := 0, resourceID := ""));
    if a.claims == null {
      var none := new Claim[0];
      an := an.(claims := none);
    } else {
      SortInPlace(a.claims);
    }
  }

  /** Normalises both sides, hence sorts both callers' slices, and compares. */
  method CompareApplications(existing: AppRecord, desired: AppRecord) returns (changed: bool)
    requires existing.claims == null || existing.claims != desired.claims
    modifies existing.Frame(), desired.Frame()
    ensures changed == AppHasChanged(old(existing.Value()), old(desired.Value()))
    ensures existing.Value() == old(existing.Value()).(claims := SortClaims(old(existing.Value().claims)))
    ensures desired.Value() == old(desired.Value()).(claims := SortClaims(old(desired.Value().claims)))
  {
    var e := NormalizeApplication(existing);
    var d := NormalizeApplication(desired);
    changed := e.Value() != d.Value();
  }

  /** Normalising again changes nothing, and the claims are only rearranged. */
  lemma NormalizeIsIdempotent(a: Application)
    ensures Normalize(Normalize(a)) == Normalize(a)
    ensures multiset(Normalize(a).claims) == multiset(a.claims)
  {
    SortClaimsSorts(a.claims);
    SortClaimsFixesSorted(SortClaims(a.claims));
  }
}
