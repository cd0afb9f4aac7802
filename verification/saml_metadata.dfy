/** Reducing SAML V2.0 metadata (sections 2.2.2, 2.2.3 and 2.4.1.1) to a service provider record. */
module SamlMetadata {
  import opened Wrappers
  import opened Application
  import Text

  datatype KeyDescriptor = KeyDescriptor(use: string, certificate: string)

  datatype Endpoint = Endpoint(binding: string, location: string)

  datatype SLOEndpoint = SLOEndpoint(binding: string, location: string, responseLocation: string)

  datatype ConsumerService = ConsumerService(binding: string, location: string, index: int, isDefault: bool)

  datatype SPDescriptor = SPDescriptor(
    authnRequestsSigned: bool,
    wantAssertionsSigned: bool,
    keyDescriptors: seq<KeyDescriptor>,
    nameIDFormats: seq<string>,
    consumerServices: seq<ConsumerService>,
    attributeConsumingServices: nat,
    singleLogoutServices: seq<SLOEndpoint>)

  datatype IDPDescriptor = IDPDescriptor(
    wantAuthnRequestsSigned: bool,
    keyDescriptors: seq<KeyDescriptor>,
    nameIDFormats: seq<string>,
    singleSignOnServices: seq<Endpoint>,
    singleLogoutServices: seq<SLOEndpoint>)

  datatype EntityDescriptor = EntityDescriptor(entityID: string, idp: Option<IDPDescriptor>, sp: Option<SPDescriptor>)

  const HTTP_POST: string := "urn:oasis:names:tc:SAML:2.0:bindings:HTTP-POST"
  const HTTP_REDIRECT: string := "urn:oasis:names:tc:SAML:2.0:bindings:HTTP-Redirect"
  const HTTP_ARTIFACT: string := "urn:oasis:names:tc:SAML:2.0:bindings:HTTP-Artifact"
  const SOAP: string := "urn:oasis:names:tc:SAML:2.0:bindings:SOAP"

  lemma BindingsDiffer()
    ensures HTTP_POST != HTTP_REDIRECT && HTTP_POST != SOAP && HTTP_REDIRECT != SOAP
    ensures HTTP_POST != "" && HTTP_REDIRECT != ""
  {
    assert HTTP_POST[42] == 'P' && HTTP_REDIRECT[42] == 'R' && |SOAP| == 41;
  }

  // ---------------------------------------------------------------- assertion consumer services

  function Locations(services: seq<ConsumerService>): seq<string> {
    seq(|services|, i requires 0 <= i < |services| => services[i].location)
  }

  /** The location of the last entry marked default; blank if there is none. */
  function MarkedDefault(services: seq<ConsumerService>): string {
    if services == [] then ""
    else
      var last := services[|services| - 1];
      if last.isDefault then last.location else MarkedDefault(services[..|services| - 1])
  }

  /** The position of the first entry with the lowest index. */
  function FirstLowest(services: seq<ConsumerService>): (m: nat)
    requires services != []
    ensures m < |services|
  {
    if |services| == 1 then 0
    else
      var m := FirstLowest(services[..|services| - 1]);
      if services[|services| - 1].index < services[m].index then |services| - 1 else m
  }

  function DefaultLocation(services: seq<ConsumerService>): string {
    if MarkedDefault(services) != "" then MarkedDefault(services)
    else if services == [] then ""
    else services[FirstLowest(services)].location
  }

  method CollectACSURLs(services: seq<ConsumerService>) returns (urls: Slice<string>, defaultURL: string)
    ensures urls == if services == [] then Nil else Of(Locations(services))
    ensures defaultURL == DefaultLocation(services)
  {
    if |services| == 0 {
      return Nil, "";
    }
    var out: seq<string> := [];
    defaultURL := "";
    var lowestIndex, lowestURL := services[0].index, services[0].location;
    for i := 0 to |services|
      invariant out == Locations(services[..i])
      invariant defaultURL == MarkedDefault(services[..i])
      invariant i == 0 ==> lowestIndex == services[0].index && lowestURL == services[0].location
      invariant i > 0 ==> var m := FirstLowest(services[..i]);
                          lowestIndex == services[m].index && lowestURL == services[m].location
    {
      assert services[..i + 1][..i] == services[..i];
      out := out + [services[i].location];
      if services[i].isDefault {
        defaultURL := services[i].location;
      }
      if services[i].index < lowestIndex {
        lowestIndex, lowestURL := services[i].index, services[i].location;
      }
    }
    assert services[..|services|] == services;
    if defaultURL == "" {
      defaultURL := lowestURL;
    }
    return Of(out), defaultURL;
  }

  predicate IsLastDefault(services: seq<ConsumerService>, d: nat) {
    d < |services| && services[d].isDefault && forall k | d < k < |services| :: !services[k].isDefault
  }

  predicate IsFirstLowest(services: seq<ConsumerService>, m: nat) {
    && m < |services|
    && (forall k | 0 <= k < |services| :: services[m].index <= services[k].index)
    && (forall k | 0 <= k < m :: services[m].index < services[k].index)
  }

  lemma {:induction false} MarkedDefaultIs(services: seq<ConsumerService>, d: nat)
    requires IsLastDefault(services, d)
    ensures MarkedDefault(services) == services[d].location
  {
    var n := |services| - 1;
    if d < n {
      assert IsLastDefault(services[..n], d);
      MarkedDefaultIs(services[..n], d);
    }
  }

  lemma {:induction false} MarkedDefaultExists(services: seq<ConsumerService>) returns (d: nat)
    requires MarkedDefault(services) != ""
    ensures IsLastDefault(services, d)
  {
    d := |services| - 1;
    if !services[d].isDefault {
      d := MarkedDefaultExists(services[..d]);
    }
  }

  lemma {:induction false} FirstLowestIsFirst(services: seq<ConsumerService>)
    requires services != []
    ensures IsFirstLowest(services, FirstLowest(services))
  {
    if |services| > 1 {
      FirstLowestIsFirst(services[..|services| - 1]);
    }
  }

  /** The default is one of the declared locations: that of the last entry marked default if it is
      not blank, else that of the first entry with the lowest index. */
  lemma DefaultLocationChoice(services: seq<ConsumerService>)
    requires services != []
    ensures DefaultLocation(services) in Locations(services)
    ensures forall d: nat | IsLastDefault(services, d) && services[d].location != "" ::
              DefaultLocation(services) == services[d].location
    ensures (forall d: nat | IsLastDefault(services, d) :: services[d].location == "") ==>
              forall m: nat | IsFirstLowest(services, m) :: DefaultLocation(services) == services[m].location
  {
    FirstLowestIsFirst(services);
    forall d: nat | IsLastDefault(services, d) ensures MarkedDefault(services) == services[d].location {
      MarkedDefaultIs(services, d);
    }
    if MarkedDefault(services) != "" {
      var d := MarkedDefaultExists(services);
      assert Locations(services)[d] == DefaultLocation(services);
    } else {
      assert Locations(services)[FirstLowest(services)] == DefaultLocation(services);
    }
  }

  // ---------------------------------------------------------------- single logout

  datatype SLO = SLO(doSingleLogout: bool, doFrontChannel: bool, frontChannelBinding: string, requestURL: string,
    responseURL: string)

  predicate IsFront(binding: string) {
    binding == HTTP_POST || binding == HTTP_REDIRECT
  }

  /** What one endpoint contributes when it is the one chosen. */
  function Chosen(ep: SLOEndpoint): SLO {
    if IsFront(ep.binding) then
      SLO(true, true, ep.binding, ep.location, if ep.responseLocation == "" then ep.location else ep.responseLocation)
    else
      SLO(true, false, "", ep.location, ep.location)
  }

  /** What one more endpoint makes of the answer so far. */
  function Considered(before: SLO, ep: SLOEndpoint): SLO {
    if IsFront(ep.binding) && (!before.doFrontChannel || ep.binding == HTTP_POST) then Chosen(ep)
    else if ep.binding == SOAP && before.requestURL == "" then
      before.(doSingleLogout := true, requestURL := ep.location, responseURL := ep.location)
    else before.(doSingleLogout := true)
  }

  function Scan(endpoints: seq<SLOEndpoint>): SLO {
    if endpoints == [] then SLO(false, false, "", "", "")
    else Considered(Scan(endpoints[..|endpoints| - 1]), endpoints[|endpoints| - 1])
  }

  method ParseSLOEndpoints(endpoints: seq<SLOEndpoint>) returns (slo: SLO)
    ensures slo == Scan(endpoints)
  {
    if |endpoints| == 0 {
      return SLO(false, false, "", "", "");
    }
    BindingsDiffer();
    var doFrontChannel, binding, requestURL, responseURL := false, "", "", "";
    for i := 0 to |endpoints|
      invariant SLO(i > 0, doFrontChannel, binding, requestURL, responseURL) == Scan(endpoints[..i])
    {
      assert endpoints[..i + 1][..i] == endpoints[..i];
      var ep := endpoints[i];
      if ep.binding == HTTP_POST || ep.binding == HTTP_REDIRECT {
        if !doFrontChannel || ep.binding == HTTP_POST {
          doFrontChannel := true;
          binding := ep.binding;
          requestURL := ep.location;
          responseURL := ep.responseLocation;
          if responseURL == "" {
            responseURL := ep.location;
          }
        }
      } else if ep.binding == SOAP {
        if requestURL == "" {
          requestURL := ep.location;
          responseURL := ep.location;
        }
      }
    }
    assert endpoints[..|endpoints|] == endpoints;
    return SLO(true, doFrontChannel, binding, requestURL, responseURL);
  }

  predicate HasBinding(endpoints: seq<SLOEndpoint>, binding: string) {
    exists ep | ep in endpoints :: ep.binding == binding
  }

  /** The documented priority: last HTTP-POST, else first HTTP-Redirect, else first SOAP. */
  predicate IsPreferred(endpoints: seq<SLOEndpoint>, k: nat) {
    && k < |endpoints|
    && (|| (endpoints[k].binding == HTTP_POST && !HasBinding(endpoints[k + 1..], HTTP_POST))
        || (&& endpoints[k].binding == HTTP_REDIRECT && !HasBinding(endpoints, HTTP_POST)
            && !HasBinding(endpoints[..k], HTTP_REDIRECT))
        || (&& endpoints[k].binding == SOAP && !HasBinding(endpoints, HTTP_POST)
            && !HasBinding(endpoints, HTTP_REDIRECT) && !HasBinding(endpoints[..k], SOAP)))
  }

  /** A preferred endpoint with a blank location can be overwritten by a later SOAP endpoint. */
  predicate Undisturbed(endpoints: seq<SLOEndpoint>, k: nat)
    requires k < |endpoints|
  {
    || endpoints[k].location != ""
    || forall j | k < j < |endpoints| && endpoints[j].binding == SOAP ::
         endpoints[j].location == "" && (IsFront(endpoints[k].binding) ==> endpoints[k].responseLocation == "")
  }

  /** The same in terms of what the endpoint contributes. */
  predicate Keeps(endpoints: seq<SLOEndpoint>, k: nat)
    requires k < |endpoints|
  {
    || endpoints[k].location != ""
    || forall j | k < j < |endpoints| && endpoints[j].binding == SOAP ::
         endpoints[j].location == "" && Chosen(endpoints[k]).responseURL == ""
  }

  /** The answer speaks for this endpoint: front channel for POST and Redirect, with the response location
      falling back to the location; back channel, without a binding, for SOAP. */
  predicate SpeaksFor(slo: SLO, ep: SLOEndpoint) {
    && slo.doSingleLogout
    && slo.requestURL == ep.location
    && (if ep.binding == HTTP_POST || ep.binding == HTTP_REDIRECT then
          && slo.doFrontChannel && slo.frontChannelBinding == ep.binding
          && (ep.responseLocation == "" ==> slo.responseURL == ep.location)
          && (ep.responseLocation != "" ==> slo.responseURL == ep.responseLocation)
        else
          && !slo.doFrontChannel && slo.frontChannelBinding == "" && slo.responseURL == ep.location)
  }

  lemma {:induction false} ScanClass(endpoints: seq<SLOEndpoint>)
    ensures var s := Scan(endpoints);
            && s.doSingleLogout == (endpoints != [])
            && s.doFrontChannel == (HasBinding(endpoints, HTTP_POST) || HasBinding(endpoints, HTTP_REDIRECT))
            && s.frontChannelBinding == (if HasBinding(endpoints, HTTP_POST) then HTTP_POST
                                         else if HasBinding(endpoints, HTTP_REDIRECT) then HTTP_REDIRECT else "")
            && (!s.doFrontChannel && !HasBinding(endpoints, SOAP) ==> s.requestURL == s.responseURL == "")
  {
    if endpoints != [] {
      BindingsDiffer();
      var init, ep := endpoints[..|endpoints| - 1], endpoints[|endpoints| - 1];
      ScanClass(init);
      OneMoreBinding(endpoints, HTTP_POST);
      OneMoreBinding(endpoints, HTTP_REDIRECT);
      OneMoreBinding(endpoints, SOAP);
    }
  }

  lemma OneMoreBinding(endpoints: seq<SLOEndpoint>, binding: string)
    requires endpoints != []
    ensures HasBinding(endpoints, binding) <==>
            HasBinding(endpoints[..|endpoints| - 1], binding) || endpoints[|endpoints| - 1].binding == binding
  {
    var init, ep := endpoints[..|endpoints| - 1], endpoints[|endpoints| - 1];
    assert endpoints == init + [ep];
  }

  /** Up to and including the preferred endpoint the scan has settled on it. */
  lemma ScanAtPreferred(endpoints: seq<SLOEndpoint>, k: nat)
    requires IsPreferred(endpoints, k)
    ensures Scan(endpoints[..k + 1]) == Chosen(endpoints[k])
  {
    BindingsDiffer();
    var upto := endpoints[..k + 1];
    assert upto[..k] == endpoints[..k];
    ScanClass(endpoints[..k]);
    assert HasBinding(endpoints[..k], HTTP_POST) ==> HasBinding(endpoints, HTTP_POST);
    assert HasBinding(endpoints[..k], HTTP_REDIRECT) ==> HasBinding(endpoints, HTTP_REDIRECT);
  }

  /** How the answer `s` relates to the preferred endpoint's contribution `c` later on. */
  predicate Since(s: SLO, c: SLO, kept: bool) {
    && s.doSingleLogout && c.doSingleLogout
    && s.doFrontChannel == c.doFrontChannel && s.frontChannelBinding == c.frontChannelBinding
    && (kept <==> s == c)
    && (s != c ==> s.requestURL != "" || s.responseURL == "")
    && (s.requestURL == "" ==> c.requestURL == "" && (s == c || s.responseURL == ""))
    && (s.requestURL != "" && c.requestURL == "" ==> s != c)
  }

  lemma SinceStep(s: SLO, c: SLO, kept: bool, ep: SLOEndpoint)
    requires Since(s, c, kept) && !(IsFront(ep.binding) && (!s.doFrontChannel || ep.binding == HTTP_POST))
    ensures Since(Considered(s, ep), c,
                  kept && (c.requestURL != "" || ep.binding != SOAP || (ep.location == "" && c.responseURL == "")))
  {
  }

  /** No later endpoint is preferred over the preferred one. */
  lemma LaterIsNoBetter(endpoints: seq<SLOEndpoint>, k: nat, j: nat)
    requires IsPreferred(endpoints, k) && k < j < |endpoints|
    ensures endpoints[j].binding != HTTP_POST
    ensures !IsFront(endpoints[k].binding) ==> endpoints[j].binding != HTTP_REDIRECT
  {
    BindingsDiffer();
    assert endpoints[k + 1..][j - (k + 1)] == endpoints[j];
    assert endpoints[j] in endpoints[k + 1..] && endpoints[j] in endpoints;
  }

  /** From there on it only changes through a SOAP endpoint met while the request URL is blank. */
  lemma {:induction false} ScanAfterPreferred(endpoints: seq<SLOEndpoint>, k: nat, n: nat)
    requires IsPreferred(endpoints, k) && k < n <= |endpoints|
    ensures Since(Scan(endpoints[..n]), Chosen(endpoints[k]), Keeps(endpoints[..n], k))
  {
    if n == k + 1 {
      ScanAtPreferred(endpoints, k);
    } else {
      ScanAfterPreferred(endpoints, k, n - 1);
      assert endpoints[..n][..n - 1] == endpoints[..n - 1];
      LaterIsNoBetter(endpoints, k, n - 1);
      SinceStep(Scan(endpoints[..n - 1]), Chosen(endpoints[k]), Keeps(endpoints[..n - 1], k), endpoints[n - 1]);
      KeepsStep(endpoints, k, n);
    }
  }

  lemma KeepsStep(endpoints: seq<SLOEndpoint>, k: nat, n: nat)
    requires k < n - 1 && n <= |endpoints|
    ensures var ep, c := endpoints[n - 1], Chosen(endpoints[k]);
            Keeps(endpoints[..n], k) <==>
              && Keeps(endpoints[..n - 1], k)
              && (c.requestURL != "" || ep.binding != SOAP || (ep.location == "" && c.responseURL == ""))
  {
    if Keeps(endpoints[..n], k) && endpoints[k].location == "" {
      forall j | k < j < n && endpoints[j].binding == SOAP
        ensures endpoints[j].location == "" && Chosen(endpoints[k]).responseURL == ""
      {
        assert endpoints[..n][j] == endpoints[j];
      }
    }
  }

  /** Exact form: the result speaks for the preferred endpoint exactly when no SOAP endpoint after it
      gets to replace a blank location. */
  lemma SLOSelectionExact(endpoints: seq<SLOEndpoint>, k: nat)
    requires IsPreferred(endpoints, k)
    ensures SpeaksFor(Scan(endpoints), endpoints[k]) <==> Undisturbed(endpoints, k)
  {
    ScanAfterPreferred(endpoints, k, |endpoints|);
    assert endpoints[..|endpoints|] == endpoints;
    BindingsDiffer();
    assert Keeps(endpoints, k) <==> Undisturbed(endpoints, k);
  }

  /** With the non-blank locations SAML metadata requires, the documented priority always wins. */
  lemma SLOSelection(endpoints: seq<SLOEndpoint>)
    requires forall ep | ep in endpoints :: ep.location != ""
    ensures forall k: nat | IsPreferred(endpoints, k) :: SpeaksFor(Scan(endpoints), endpoints[k])
    ensures (forall k: nat :: !IsPreferred(endpoints, k)) ==> Scan(endpoints) == SLO(endpoints != [], false, "", "", "")
  {
    forall k: nat | IsPreferred(endpoints, k) ensures SpeaksFor(Scan(endpoints), endpoints[k]) {
      SLOSelectionExact(endpoints, k);
    }
    if forall k: nat :: !IsPreferred(endpoints, k) {
      NoPreferredNoBinding(endpoints);
      ScanClass(endpoints);
    }
  }

  /** The first SOAP endpoint after k that has a location. */
  predicate TakesOver(endpoints: seq<SLOEndpoint>, k: nat, j: nat) {
    && k < j < |endpoints| && endpoints[j].binding == SOAP && endpoints[j].location != ""
    && forall i | k < i < j && endpoints[i].binding == SOAP :: endpoints[i].location == ""
  }

  /** Flags and binding are those of this endpoint. */
  predicate ChannelOf(slo: SLO, ep: SLOEndpoint) {
    && slo.doSingleLogout
    && (slo.doFrontChannel <==> ep.binding == HTTP_POST || ep.binding == HTTP_REDIRECT)
    && slo.frontChannelBinding == if slo.doFrontChannel then ep.binding else ""
  }

  predicate SoapLater(endpoints: seq<SLOEndpoint>, k: nat, n: nat) {
    n <= |endpoints| && exists j | k < j < n :: endpoints[j].binding == SOAP
  }

  /** Both URLs, once a preferred endpoint without a location has been passed, n endpoints in. */
  ghost predicate BlankIsReplaced(slo: SLO, endpoints: seq<SLOEndpoint>, k: nat, n: nat) {
    && (forall j: nat | TakesOver(endpoints, k, j) && j < n ::
          slo.requestURL == endpoints[j].location && slo.responseURL == endpoints[j].location)
    && ((forall j: nat | TakesOver(endpoints, k, j) :: j >= n) ==>
          slo.requestURL == "" && (SoapLater(endpoints, k, n) ==> slo.responseURL == ""))
  }

  lemma FlagStays(endpoints: seq<SLOEndpoint>, k: nat, n: nat)
    requires IsPreferred(endpoints, k) && k < n <= |endpoints|
    ensures Scan(endpoints[..n]).doFrontChannel <==> IsFront(endpoints[k].binding)
  {
    ScanAfterPreferred(endpoints, k, n);
  }

  lemma ScanStep(endpoints: seq<SLOEndpoint>, n: nat)
    requires 0 < n <= |endpoints|
    ensures Scan(endpoints[..n]) == Considered(Scan(endpoints[..n - 1]), endpoints[n - 1])
  {
    assert endpoints[..n][..n - 1] == endpoints[..n - 1];
  }

  lemma {:induction false} BlankUpTo(endpoints: seq<SLOEndpoint>, k: nat, n: nat)
    requires IsPreferred(endpoints, k) && endpoints[k].location == "" && k < n <= |endpoints|
    ensures BlankIsReplaced(Scan(endpoints[..n]), endpoints, k, n)
  {
    if n == k + 1 {
      ScanAtPreferred(endpoints, k);
    } else {
      BlankUpTo(endpoints, k, n - 1);
      ScanStep(endpoints, n);
      LaterIsNoBetter(endpoints, k, n - 1);
      FlagStays(endpoints, k, n - 1);
      BlankStep(Scan(endpoints[..n - 1]), endpoints, k, n);
    }
  }

  lemma BlankStep(before: SLO, endpoints: seq<SLOEndpoint>, k: nat, n: nat)
    requires k + 1 < n <= |endpoints| && BlankIsReplaced(before, endpoints, k, n - 1)
    requires IsFront(endpoints[n - 1].binding) ==> before.doFrontChannel && endpoints[n - 1].binding != HTTP_POST
    ensures BlankIsReplaced(Considered(before, endpoints[n - 1]), endpoints, k, n)
  {
    BindingsDiffer();
    var last := endpoints[n - 1];
    if forall j: nat | TakesOver(endpoints, k, j) :: j >= n - 1 {
      NoneTakesOver(endpoints, k, n - 1);
      assert last.binding == SOAP && last.location != "" ==> TakesOver(endpoints, k, n - 1);
    } else {
      var j: nat :| TakesOver(endpoints, k, j) && j < n - 1;
      assert before.requestURL != "";
    }
  }

  lemma {:induction false} NoneTakesOver(endpoints: seq<SLOEndpoint>, k: nat, n: nat)
    requires k < n <= |endpoints| && forall j: nat | TakesOver(endpoints, k, j) :: j >= n
    ensures forall j | k < j < n && endpoints[j].binding == SOAP :: endpoints[j].location == ""
  {
    if n > k + 1 {
      NoneTakesOver(endpoints, k, n - 1);
      assert !TakesOver(endpoints, k, n - 1);
    }
  }

  /** What a preferred endpoint without a location ends in: the location of the first later SOAP endpoint that
      has one, for both URLs; without one, blanks, if there is any later SOAP endpoint at all. The flags and the
      binding stay those of the preferred endpoint. */
  lemma SLODisturbed(endpoints: seq<SLOEndpoint>, k: nat)
    requires IsPreferred(endpoints, k) && endpoints[k].location == ""
    ensures BlankIsReplaced(Scan(endpoints), endpoints, k, |endpoints|) && ChannelOf(Scan(endpoints), endpoints[k])
  {
    BlankUpTo(endpoints, k, |endpoints|);
    assert endpoints[..|endpoints|] == endpoints;
    ScanAfterPreferred(endpoints, k, |endpoints|);
  }

  lemma {:induction false} LastWith(endpoints: seq<SLOEndpoint>, binding: string) returns (k: nat)
    requires HasBinding(endpoints, binding)
    ensures k < |endpoints| && endpoints[k].binding == binding && !HasBinding(endpoints[k + 1..], binding)
  {
    k := |endpoints| - 1;
    if endpoints[k].binding != binding {
      var init, last := endpoints[..k], endpoints[k];
      assert endpoints == init + [last];
      k := LastWith(init, binding);
      assert endpoints[k + 1..] == init[k + 1..] + [last];
    }
  }

  lemma {:induction false} FirstWith(endpoints: seq<SLOEndpoint>, binding: string) returns (k: nat)
    requires HasBinding(endpoints, binding)
    ensures k < |endpoints| && endpoints[k].binding == binding && !HasBinding(endpoints[..k], binding)
  {
    k := 0;
    if endpoints[0].binding != binding {
      assert endpoints == [endpoints[0]] + endpoints[1..];
      var j := FirstWith(endpoints[1..], binding);
      k := j + 1;
      assert endpoints[..k] == [endpoints[0]] + endpoints[1..][..j];
    }
  }

  lemma NoPreferredNoBinding(endpoints: seq<SLOEndpoint>)
    requires forall k: nat :: !IsPreferred(endpoints, k)
    ensures !HasBinding(endpoints, HTTP_POST) && !HasBinding(endpoints, HTTP_REDIRECT) && !HasBinding(endpoints, SOAP)
  {
    if HasBinding(endpoints, HTTP_POST) {
      var k := LastWith(endpoints, HTTP_POST);
      assert IsPreferred(endpoints, k);
    } else if HasBinding(endpoints, HTTP_REDIRECT) {
      var k := FirstWith(endpoints, HTTP_REDIRECT);
      assert IsPreferred(endpoints, k);
    } else if HasBinding(endpoints, SOAP) {
      var k := FirstWith(endpoints, SOAP);
      assert IsPreferred(endpoints, k);
    }
  }

  /** Reordering the endpoints never changes which kind of binding is used. */
  lemma BindingClassIgnoresOrder(a: seq<SLOEndpoint>, b: seq<SLOEndpoint>)
    requires multiset(a) == multiset(b)
    ensures Scan(a).doSingleLogout == Scan(b).doSingleLogout
    ensures Scan(a).doFrontChannel == Scan(b).doFrontChannel
    ensures Scan(a).frontChannelBinding == Scan(b).frontChannelBinding
  {
    ScanClass(a);
    ScanClass(b);
    assert forall ep :: ep in a <==> ep in multiset(a);
    assert forall ep :: ep in b <==> ep in multiset(b);
    assert |multiset(a)| == |a| && |multiset(b)| == |b|;
  }

  // ---------------------------------------------------------------- certificate alias

  function CutScheme(s: string): string {
    var i := Text.Index(s, "://");
    if i >= 0 then s[i + 3..] else s
  }

  function CutTail(s: string): string {
    var i := Text.IndexAny(s, "/?#");
    if i >= 0 then s[..i] else s
  }

  function CutPort(s: string): string {
    var i := Text.LastIndex(s, ':');
    if i >= 0 then s[..i] else s
  }

  function Alias(cert: string, entityID: string): string {
    var s := CutPort(CutTail(CutScheme(entityID)));
    if s != "" then s else if |cert| > 16 then cert[..16] else cert
  }

  method DeriveAlias(cert: string, entityID: string) returns (alias: string)
    ensures alias == Alias(cert, entityID)
  {
    var s := entityID;
    var i := Text.Index(s, "://");
    if i >= 0 {
      s := s[i + 3..];
    }
    i := Text.IndexAny(s, "/?#");
    if i >= 0 {
      s := s[..i];
    }
    i := Text.LastIndex(s, ':');
    if i >= 0 {
      s := s[..i];
    }
    if s != "" {
      return s;
    }
    if |cert| > 16 {
      return cert[..16];
    }
    return cert;
  }

  /** An entity ID in the URI form of section 3.2 of RFC 3986. */
  function PrintEntityID(scheme: string, host: string, port: Option<string>, tail: string): string {
    scheme + "://" + host + (if port.Some? then ":" + port.value else "") + tail
  }

  predicate Plain(s: string, reserved: string) {
    forall c | c in s :: c !in reserved
  }

  predicate IsTail(tail: string) {
    tail == "" || tail[0] in "/?#"
  }

  /** Without a host the alias is the certificate, cut to sixteen characters. */
  lemma AliasFallsBack(cert: string, entityID: string)
    requires forall c | c in entityID :: c in "/?#"
    ensures Alias(cert, entityID) == if |cert| <= 16 then cert else cert[..16]
  {
    forall j | 0 <= j <= |entityID| ensures !("://" <= entityID[j..]) {
      if j < |entityID| { assert entityID[j..][0] == entityID[j] && entityID[j] in entityID; }
    }
    if entityID != [] {
      assert entityID[0] in entityID;
    }
  }

  lemma CutSchemeOf(scheme: string, rest: string)
    requires ':' !in scheme
    ensures CutScheme(scheme + "://" + rest) == rest
  {
    var s := scheme + "://" + rest;
    assert s[|scheme|..] == "://" + rest;
    assert "://" <= s[|scheme|..];
    forall j | 0 <= j < |scheme| ensures !("://" <= s[j..]) {
      assert s[j..][0] == scheme[j] && scheme[j] in scheme;
      assert "://"[0] == ':';
    }
    assert s[|scheme| + 3..] == rest;
  }

  lemma CutTailOf(authority: string, tail: string)
    requires Plain(authority, "/?#") && IsTail(tail)
    ensures CutTail(authority + tail) == authority
  {
    var s := authority + tail;
    assert forall j | 0 <= j < |authority| :: s[j] == authority[j] && authority[j] in authority;
    if tail != "" {
      assert s[|authority|] == tail[0];
    } else {
      assert s == authority;
    }
    assert s[..|authority|] == authority;
  }

  lemma CutPortOf(host: string, port: string)
    requires ':' !in port
    ensures CutPort(host + ":" + port) == host
  {
    var s := host + ":" + port;
    assert s[|host|] == ':';
    assert forall j | |host| < j < |s| :: s[j] == port[j - |host| - 1] && port[j - |host| - 1] in port;
    assert s[..|host|] == host;
  }

  /** Without a port the host is recovered exactly when it holds no colon: a bracketed IPv6 literal
      loses its last group. */
  lemma AliasWithoutPortExact(cert: string, scheme: string, host: string, tail: string)
    requires ':' !in scheme && host != "" && host[0] != ':' && Plain(host, "/?#") && IsTail(tail)
    ensures Alias(cert, PrintEntityID(scheme, host, None, tail)) == host <==> ':' !in host
  {
    assert PrintEntityID(scheme, host, None, tail) == scheme + "://" + (host + tail);
    CutSchemeOf(scheme, host + tail);
    CutTailOf(host, tail);
    var i := Text.LastIndex(host, ':');
    if ':' in host {
      assert i > 0;
      assert |host[..i]| == i < |host|;
    }
  }

  /** Parsing recovers the host of every printed entity ID. */
  lemma AliasIsHost(cert: string, scheme: string, host: string, port: Option<string>, tail: string)
    requires ':' !in scheme && host != "" && Plain(host, ":/?#") && IsTail(tail)
    requires port.Some? ==> Plain(port.value, ":/?#")
    ensures Alias(cert, PrintEntityID(scheme, host, port, tail)) == host
  {
    if port.None? {
      assert host[0] in host;
      AliasWithoutPortExact(cert, scheme, host, tail);
      return;
    }
    var authority := host + ":" + port.value;
    assert PrintEntityID(scheme, host, port, tail) == scheme + "://" + (authority + tail);
    CutSchemeOf(scheme, authority + tail);
    assert Plain(authority, "/?#");
    CutTailOf(authority, tail);
    CutPortOf(host, port.value);
  }

  lemma AliasBlankOnlyIfCertBlank(cert: string, entityID: string)
    ensures cert != "" ==> Alias(cert, entityID) != ""
  {
  }

  /** Up to and including the first "://"; blank if there is none. */
  predicate IsHead(s: string, head: string) {
    if head == "" then forall j | 0 <= j <= |s| :: !("://" <= s[j..])
    else
      && 3 <= |head| <= |s| && head == s[..|head|] && head[|head| - 3..] == "://"
      && forall j | 0 <= j < |head| - 3 :: !("://" <= s[j..])
  }

  /** The last colon and what follows it; blank if there is none. */
  predicate IsPort(host: string, port: string) {
    if port == "" then ':' !in host else port[0] == ':' && ':' !in port[1..]
  }

  /** How any entity ID falls apart, with a tail from the first of "/?#" on, if any. */
  predicate FallsApart(entityID: string, head: string, host: string, port: string, tail: string) {
    && entityID == head + (host + port + tail)
    && IsHead(entityID, head) && IsPort(host, port)
    && Plain(host + port, "/?#") && IsTail(tail)
  }

  lemma SchemeFallsOff(s: string) returns (head: string)
    ensures s == head + CutScheme(s) && IsHead(s, head)
  {
    var i := Text.Index(s, "://");
    if i >= 0 {
      head := s[..i + 3];
      assert head[i..] == s[i..][..3];
    } else {
      head := "";
    }
  }

  lemma TailFallsOff(s: string) returns (tail: string)
    ensures s == CutTail(s) + tail && IsTail(tail) && Plain(CutTail(s), "/?#")
  {
    var i := Text.IndexAny(s, "/?#");
    tail := if i >= 0 then s[i..] else "";
    forall c | c in CutTail(s) ensures c !in "/?#" {
      var j :| 0 <= j < |CutTail(s)| && CutTail(s)[j] == c;
      assert s[j] == c;
    }
  }

  lemma PortFallsOff(s: string) returns (port: string)
    ensures s == CutPort(s) + port && IsPort(CutPort(s), port)
  {
    var i := Text.LastIndex(s, ':');
    port := if i >= 0 then s[i..] else "";
  }

  /** For every entity ID, URL or not, the alias is the host if there is one, else the certificate, cut to sixteen
      characters. */
  lemma AliasExactly(cert: string, entityID: string) returns (head: string, host: string, port: string, tail: string)
    ensures FallsApart(entityID, head, host, port, tail)
    ensures Alias(cert, entityID) == if host != "" then host else if |cert| <= 16 then cert else cert[..16]
  {
    head := SchemeFallsOff(entityID);
    var rest := CutScheme(entityID);
    tail := TailFallsOff(rest);
    var authority := CutTail(rest);
    port := PortFallsOff(authority);
    host := CutPort(authority);
    CutIsAll(cert, entityID, host);
  }

  lemma CutIsAll(cert: string, entityID: string, host: string)
    requires host == CutPort(CutTail(CutScheme(entityID)))
    ensures Alias(cert, entityID) == if host != "" then host else if |cert| <= 16 then cert else cert[..16]
  {
    assert |cert| == 16 ==> cert[..16] == cert;
  }

  // ---------------------------------------------------------------- certificates

  function RawCertificate(kd: KeyDescriptor): string {
    Text.TrimSpace(kd.certificate)
  }

  predicate MarkedFor(kd: KeyDescriptor, use: string) {
    Text.ToLower(kd.use) == use || Text.ToLower(kd.use) == ""
  }

  predicate IsSigningKey(kd: KeyDescriptor) {
    RawCertificate(kd) != "" && MarkedFor(kd, "signing")
  }

  predicate IsEncryptionKey(kd: KeyDescriptor) {
    RawCertificate(kd) != "" && MarkedFor(kd, "encryption")
  }

  /** The first non-blank certificate for signing; blank if there is none. */
  function SigningCertificate(keys: seq<KeyDescriptor>): string {
    if keys == [] then ""
    else
      var before := SigningCertificate(keys[..|keys| - 1]);
      if before != "" then before
      else if IsSigningKey(keys[|keys| - 1]) then RawCertificate(keys[|keys| - 1])
      else ""
  }

  function SigningAlias(keys: seq<KeyDescriptor>, entityID: string): string {
    if SigningCertificate(keys) == "" then "" else Alias(SigningCertificate(keys), entityID)
  }

  predicate HasEncryptionKey(keys: seq<KeyDescriptor>) {
    exists kd | kd in keys :: IsEncryptionKey(kd)
  }

  lemma {:induction false} SigningCertificateKept(keys: seq<KeyDescriptor>, n: nat)
    requires n <= |keys| && SigningCertificate(keys[..n]) != ""
    ensures SigningCertificate(keys) == SigningCertificate(keys[..n])
  {
    if n < |keys| {
      assert keys[..|keys| - 1][..n] == keys[..n];
      SigningCertificateKept(keys[..|keys| - 1], n);
    } else {
      assert keys[..n] == keys;
    }
  }

  predicate IsFirstSigningKey(keys: seq<KeyDescriptor>, k: nat) {
    k < |keys| && IsSigningKey(keys[k]) && forall j | 0 <= j < k :: !IsSigningKey(keys[j])
  }

  /** The certificate picked is the first eligible one, and blank exactly when none is eligible. */
  lemma {:induction false} SigningCertificateIsFirst(keys: seq<KeyDescriptor>)
    ensures SigningCertificate(keys) == "" <==> forall kd | kd in keys :: !IsSigningKey(kd)
    ensures forall k: nat | IsFirstSigningKey(keys, k) :: SigningCertificate(keys) == RawCertificate(keys[k])
  {
    if keys != [] {
      var init, last := keys[..|keys| - 1], keys[|keys| - 1];
      SigningCertificateIsFirst(init);
      assert keys == init + [last];
      forall k: nat | IsFirstSigningKey(keys, k) ensures SigningCertificate(keys) == RawCertificate(keys[k]) {
        if k < |init| {
          assert IsFirstSigningKey(init, k) && init[k] in init;
        }
      }
    }
  }

  /** Alias and certificate are blank together, on either side of a federation. */
  lemma AliasFollowsCertificate(keys: seq<KeyDescriptor>, entityID: string)
    ensures SigningAlias(keys, entityID) == "" <==> SigningCertificate(keys) == ""
  {
    AliasBlankOnlyIfCertBlank(SigningCertificate(keys), entityID);
  }

  lemma KeysStep(keys: seq<KeyDescriptor>, entityID: string, i: nat)
    requires i < |keys|
    ensures SigningCertificate(keys[..i + 1]) ==
            if SigningCertificate(keys[..i]) == "" && IsSigningKey(keys[i]) then RawCertificate(keys[i])
            else SigningCertificate(keys[..i])
    ensures HasEncryptionKey(keys[..i + 1]) == (HasEncryptionKey(keys[..i]) || IsEncryptionKey(keys[i]))
  {
    assert keys[..i + 1] == keys[..i] + [keys[i]];
  }

  /** The service provider loop: scans everything, keeps the first eligible certificate. */
  method ScanSPKeys(keys: seq<KeyDescriptor>, entityID: string) returns (cert: string, alias: string, encrypt: bool)
    ensures cert == SigningCertificate(keys) && alias == SigningAlias(keys, entityID)
    ensures encrypt == HasEncryptionKey(keys)
  {
    cert, alias, encrypt := "", "", false;
    for i := 0 to |keys|
      invariant cert == SigningCertificate(keys[..i]) && alias == SigningAlias(keys[..i], entityID)
      invariant encrypt == HasEncryptionKey(keys[..i])
    {
      KeysStep(keys, entityID, i);
      var raw := Text.TrimSpace(keys[i].certificate);
      if raw == "" {
        continue;
      }
      var use := Text.ToLower(keys[i].use);
      if use == "signing" || use == "" {
        if cert == "" {
          cert := raw;
          alias := DeriveAlias(raw, entityID);
        }
      }
      if use == "encryption" || use == "" {
        encrypt := true;
      }
    }
    assert keys[..|keys|] == keys;
  }

  /** The identity provider loop: stops at the first eligible certificate. */
  method ScanIDPKeys(keys: seq<KeyDescriptor>, entityID: string) returns (cert: string, alias: string)
    ensures cert == SigningCertificate(keys) && alias == SigningAlias(keys, entityID)
  {
    cert, alias := "", "";
    for i := 0 to |keys|
      invariant cert == "" && alias == "" && SigningCertificate(keys[..i]) == ""
    {
      assert keys[..i + 1][..i] == keys[..i];
      var raw := Text.TrimSpace(keys[i].certificate);
      if raw == "" {
        continue;
      }
      var use := Text.ToLower(keys[i].use);
      if use == "signing" || use == "" {
        cert := raw;
        alias := DeriveAlias(raw, entityID);
        SigningCertificateKept(keys, i + 1);
        return;
      }
    }
    assert keys[..|keys|] == keys;
  }

  // ---------------------------------------------------------------- descriptors

  function FirstFormat(formats: seq<string>): string {
    if formats == [] then "" else Text.TrimSpace(formats[0])
  }

  predicate HasArtifact(services: seq<ConsumerService>) {
    exists acs | acs in services :: acs.binding == HTTP_ARTIFACT
  }

  function SpConfig(entityID: string, sp: SPDescriptor): SAMLConfig {
    var slo := Scan(sp.singleLogoutServices);
    BLANK_SAML.(
      issuer := entityID,
      doValidateSignatureInRequests := sp.authnRequestsSigned,
      doSignAssertions := sp.wantAssertionsSigned,
      doSignResponse := true,
      nameIDFormat := FirstFormat(sp.nameIDFormats),
      acsURLs := if sp.consumerServices == [] then Nil else Of(Locations(sp.consumerServices)),
      defaultAssertionConsumerURL := DefaultLocation(sp.consumerServices),
      enableSAML2ArtifactBinding := HasArtifact(sp.consumerServices),
      doSingleLogout := slo.doSingleLogout,
      doFrontChannelLogout := slo.doFrontChannel,
      frontChannelLogoutBinding := slo.frontChannelBinding,
      sloRequestURL := slo.requestURL,
      sloResponseURL := slo.responseURL,
      certificateContent := SigningCertificate(sp.keyDescriptors),
      certAlias := SigningAlias(sp.keyDescriptors, entityID),
      doEnableEncryptedAssertion := HasEncryptionKey(sp.keyDescriptors),
      enableAttributeProfile := sp.attributeConsumingServices > 0,
      enableAttributesByDefault := sp.attributeConsumingServices > 0)
  }

  method SpConfigFromDescriptor(entityID: string, sp: SPDescriptor) returns (cfg: SAMLConfig)
    ensures cfg == SpConfig(entityID, sp)
  {
    cfg := BLANK_SAML.(
      issuer := entityID,
      doValidateSignatureInRequests := sp.authnRequestsSigned,
      doSignAssertions := sp.wantAssertionsSigned,
      doSignResponse := true);
    if |sp.nameIDFormats| > 0 {
      cfg := cfg.(nameIDFormat := Text.TrimSpace(sp.nameIDFormats[0]));
    }
    var urls, defaultURL := CollectACSURLs(sp.consumerServices);
    cfg := cfg.(acsURLs := urls, defaultAssertionConsumerURL := defaultURL);
    var artifact := false;
    for i := 0 to |sp.consumerServices|
      invariant !artifact
      invariant forall j | 0 <= j < i :: sp.consumerServices[j].binding != HTTP_ARTIFACT
    {
      if sp.consumerServices[i].binding == HTTP_ARTIFACT {
        artifact := true;
        break;
      }
    }
    cfg := cfg.(enableSAML2ArtifactBinding := artifact);
    var slo := ParseSLOEndpoints(sp.singleLogoutServices);
    cfg := cfg.(
      doSingleLogout := slo.doSingleLogout, doFrontChannelLogout := slo.doFrontChannel,
      frontChannelLogoutBinding := slo.frontChannelBinding,
      sloRequestURL := slo.requestURL, sloResponseURL := slo.responseURL);
    var cert, alias, encrypt := ScanSPKeys(sp.keyDescriptors, entityID);
    cfg := cfg.(certificateContent := cert, certAlias := alias, doEnableEncryptedAssertion := encrypt);
    if sp.attributeConsumingServices > 0 {
      cfg := cfg.(enableAttributeProfile := true, enableAttributesByDefault := true);
    }
  }

  /** The location of the first endpoint with a binding; blank if there is none. */
  function FirstLocation(endpoints: seq<Endpoint>, binding: string): string {
    if endpoints == [] then ""
    else if endpoints[0].binding == binding then endpoints[0].location
    else FirstLocation(endpoints[1..], binding)
  }

  method FindLocation(endpoints: seq<Endpoint>, binding: string) returns (location: string)
    ensures location == FirstLocation(endpoints, binding)
  {
    location := "";
    for i := 0 to |endpoints|
      invariant FirstLocation(endpoints, binding) == FirstLocation(endpoints[i..], binding)
    {
      assert endpoints[i..][1..] == endpoints[i + 1..];
      if endpoints[i].binding == binding {
        return endpoints[i].location;
      }
    }
  }

  function LoginPage(endpoints: seq<Endpoint>): string {
    if FirstLocation(endpoints, HTTP_POST) != "" then FirstLocation(endpoints, HTTP_POST)
    else FirstLocation(endpoints, HTTP_REDIRECT)
  }

  function IdpConfig(entityID: string, idp: IDPDescriptor): SAMLConfig {
    var slo := Scan(idp.singleLogoutServices);
    BLANK_SAML.(
      issuer := entityID,
      doValidateSignatureInRequests := idp.wantAuthnRequestsSigned,
      doSignAssertions := true,
      doSignResponse := true,
      nameIDFormat := FirstFormat(idp.nameIDFormats),
      loginPageURL := LoginPage(idp.singleSignOnServices),
      doSingleLogout := slo.doSingleLogout,
      doFrontChannelLogout := slo.doFrontChannel,
      frontChannelLogoutBinding := slo.frontChannelBinding,
      sloRequestURL := slo.requestURL,
      sloResponseURL := slo.responseURL,
      certificateContent := SigningCertificate(idp.keyDescriptors),
      certAlias := SigningAlias(idp.keyDescriptors, entityID))
  }

  method IdpConfigFromDescriptor(entityID: string, idp: IDPDescriptor) returns (cfg: SAMLConfig)
    ensures cfg == IdpConfig(entityID, idp)
  {
    cfg := BLANK_SAML.(
      issuer := entityID,
      doValidateSignatureInRequests := idp.wantAuthnRequestsSigned,
      doSignResponse := true,
      doSignAssertions := true);
    if |idp.nameIDFormats| > 0 {
      cfg := cfg.(nameIDFormat := Text.TrimSpace(idp.nameIDFormats[0]));
    }
    var login := FindLocation(idp.singleSignOnServices, HTTP_POST);
    if login == "" {
      login := FindLocation(idp.singleSignOnServices, HTTP_REDIRECT);
    }
    cfg := cfg.(loginPageURL := login);
    var slo := ParseSLOEndpoints(idp.singleLogoutServices);
    cfg := cfg.(
      doSingleLogout := slo.doSingleLogout, doFrontChannelLogout := slo.doFrontChannel,
      frontChannelLogoutBinding := slo.frontChannelBinding,
      sloRequestURL := slo.requestURL, sloResponseURL := slo.responseURL);
    var cert, alias := ScanIDPKeys(idp.keyDescriptors, entityID);
    cfg := cfg.(certificateContent := cert, certAlias := alias);
  }

  /** The certificate and alias chosen: the first non-blank key that is unmarked or marked for signing. */
  ghost predicate CertificateStates(cert: string, alias: string, keys: seq<KeyDescriptor>, entityID: string) {
    && (cert == "" <==> forall kd | kd in keys :: !SignsWith(kd))
    && (forall k: nat | FirstToSign(keys, k) :: cert == Text.TrimSpace(keys[k].certificate))
    && alias == if cert == "" then "" else Alias(cert, entityID)
  }

  predicate SignsWith(kd: KeyDescriptor) {
    Text.TrimSpace(kd.certificate) != "" && (kd.use == "" || Text.ToLower(kd.use) == "signing")
  }

  predicate FirstToSign(keys: seq<KeyDescriptor>, k: nat) {
    k < |keys| && SignsWith(keys[k]) && forall j | 0 <= j < k :: !SignsWith(keys[j])
  }

  predicate EncryptsTo(kd: KeyDescriptor) {
    Text.TrimSpace(kd.certificate) != "" && (kd.use == "" || Text.ToLower(kd.use) == "encryption")
  }

  /** All the locations in order; nothing at all without services. */
  predicate LocationsState(urls: Slice<string>, services: seq<ConsumerService>) {
    if services == [] then urls.Nil?
    else
      && urls.Of? && |urls.elems| == |services|
      && forall i | 0 <= i < |services| :: urls.elems[i] == services[i].location
  }

  ghost predicate DefaultStates(url: string, services: seq<ConsumerService>) {
    && (services == [] ==> url == "")
    && (forall d: nat | IsLastDefault(services, d) && services[d].location != "" :: url == services[d].location)
    && ((forall d: nat | IsLastDefault(services, d) :: services[d].location == "") ==>
          forall m: nat | IsFirstLowest(services, m) :: url == services[m].location)
  }

  /** Single logout: the preferred endpoint if nothing disturbs it, what replaces its URLs if it has no location,
      and nothing without one. */
  ghost predicate LogoutStates(slo: SLO, endpoints: seq<SLOEndpoint>) {
    && (slo.doSingleLogout <==> endpoints != [])
    && (forall k: nat | IsPreferred(endpoints, k) && Undisturbed(endpoints, k) :: SpeaksFor(slo, endpoints[k]))
    && (forall k: nat | IsPreferred(endpoints, k) && endpoints[k].location == "" ::
          BlankIsReplaced(slo, endpoints, k, |endpoints|) && ChannelOf(slo, endpoints[k]))
    && ((forall k: nat :: !IsPreferred(endpoints, k)) ==> slo == SLO(endpoints != [], false, "", "", ""))
  }

  function LogoutOf(cfg: SAMLConfig): SLO {
    SLO(cfg.doSingleLogout, cfg.doFrontChannelLogout, cfg.frontChannelLogoutBinding, cfg.sloRequestURL,
      cfg.sloResponseURL)
  }

  predicate FormatStates(format: string, formats: seq<string>) {
    format == if formats == [] then "" else Text.TrimSpace(formats[0])
  }

  /** What a service provider's descriptor says, field by field. */
  ghost predicate SpStates(cfg: SAMLConfig, entityID: string, sp: SPDescriptor) {
    && cfg.issuer == entityID
    && cfg.doValidateSignatureInRequests == sp.authnRequestsSigned
    && cfg.doSignAssertions == sp.wantAssertionsSigned
    && cfg.doSignResponse
    && FormatStates(cfg.nameIDFormat, sp.nameIDFormats)
    && LocationsState(cfg.acsURLs, sp.consumerServices)
    && DefaultStates(cfg.defaultAssertionConsumerURL, sp.consumerServices)
    && (cfg.enableSAML2ArtifactBinding <==> exists acs | acs in sp.consumerServices :: acs.binding == HTTP_ARTIFACT)
    && LogoutStates(LogoutOf(cfg), sp.singleLogoutServices)
    && CertificateStates(cfg.certificateContent, cfg.certAlias, sp.keyDescriptors, entityID)
    && (cfg.doEnableEncryptedAssertion <==> exists kd | kd in sp.keyDescriptors :: EncryptsTo(kd))
    && cfg.loginPageURL == "" && cfg.attributeConsumingServiceIndex == "" && !cfg.enabled
  }

  /** What an identity provider's descriptor says, field by field. */
  ghost predicate IdpStates(cfg: SAMLConfig, entityID: string, idp: IDPDescriptor) {
    && cfg.issuer == entityID
    && cfg.doValidateSignatureInRequests == idp.wantAuthnRequestsSigned
    && cfg.doSignAssertions && cfg.doSignResponse
    && FormatStates(cfg.nameIDFormat, idp.nameIDFormats)
    && LoginStates(cfg.loginPageURL, idp.singleSignOnServices)
    && LogoutStates(LogoutOf(cfg), idp.singleLogoutServices)
    && CertificateStates(cfg.certificateContent, cfg.certAlias, idp.keyDescriptors, entityID)
    && cfg.acsURLs.Nil? && cfg.defaultAssertionConsumerURL == "" && !cfg.doEnableEncryptedAssertion
    && !cfg.enableAttributeProfile && !cfg.enableAttributesByDefault
  }

  predicate FirstWithBinding(endpoints: seq<Endpoint>, binding: string, k: nat) {
    k < |endpoints| && endpoints[k].binding == binding && forall j | 0 <= j < k :: endpoints[j].binding != binding
  }

  /** The first POST endpoint's location, unless blank; else the first Redirect endpoint's. */
  ghost predicate LoginStates(url: string, endpoints: seq<Endpoint>) {
    && (forall k: nat | FirstWithBinding(endpoints, HTTP_POST, k) && endpoints[k].location != "" ::
      url == endpoints[k].location)
    && ((forall k: nat | FirstWithBinding(endpoints, HTTP_POST, k) :: endpoints[k].location == "") ==>
          && (forall k: nat | FirstWithBinding(endpoints, HTTP_REDIRECT, k) :: url == endpoints[k].location)
          && ((forall k: nat :: !FirstWithBinding(endpoints, HTTP_REDIRECT, k)) ==> url == ""))
  }

  lemma {:induction false} FirstLocationIs(endpoints: seq<Endpoint>, binding: string)
    ensures forall k: nat | FirstWithBinding(endpoints, binding, k) ::
        FirstLocation(endpoints, binding) == endpoints[k].location
    ensures FirstLocation(endpoints, binding) != "" ==> exists k: nat :: FirstWithBinding(endpoints, binding, k)
  {
    if endpoints != [] {
      var tail := endpoints[1..];
      FirstLocationIs(tail, binding);
      forall k: nat | FirstWithBinding(endpoints, binding, k)
        ensures FirstLocation(endpoints, binding) == endpoints[k].location
      {
        if k > 0 {
          assert forall j | 0 <= j < k - 1 :: tail[j] == endpoints[j + 1];
          assert FirstWithBinding(tail, binding, k - 1);
        }
      }
      if endpoints[0].binding == binding {
        assert FirstWithBinding(endpoints, binding, 0);
      } else if FirstLocation(endpoints, binding) != "" {
        var k: nat :| FirstWithBinding(tail, binding, k);
        assert FirstWithBinding(endpoints, binding, k + 1);
      }
    }
  }

  lemma LoginPageStates(endpoints: seq<Endpoint>)
    ensures LoginStates(LoginPage(endpoints), endpoints)
  {
    FirstLocationIs(endpoints, HTTP_POST);
    FirstLocationIs(endpoints, HTTP_REDIRECT);
  }

  lemma LogoutIs(endpoints: seq<SLOEndpoint>)
    ensures LogoutStates(Scan(endpoints), endpoints)
  {
    ScanClass(endpoints);
    forall k: nat | IsPreferred(endpoints, k) && Undisturbed(endpoints, k)
      ensures SpeaksFor(Scan(endpoints), endpoints[k])
    {
      SLOSelectionExact(endpoints, k);
    }
    forall k: nat | IsPreferred(endpoints, k) && endpoints[k].location == ""
      ensures BlankIsReplaced(Scan(endpoints), endpoints, k, |endpoints|) && ChannelOf(Scan(endpoints), endpoints[k])
    {
      SLODisturbed(endpoints, k);
    }
    if forall k: nat :: !IsPreferred(endpoints, k) {
      NoPreferredNoBinding(endpoints);
    }
  }

  lemma LowerIsBlankOnly(use: string)
    ensures Text.ToLower(use) == "" <==> use == ""
  {
  }

  lemma CertificateIs(keys: seq<KeyDescriptor>, entityID: string)
    ensures CertificateStates(SigningCertificate(keys), SigningAlias(keys, entityID), keys, entityID)
    ensures HasEncryptionKey(keys) <==> exists kd | kd in keys :: EncryptsTo(kd)
  {
    SigningCertificateIsFirst(keys);
    forall kd | kd in keys ensures (SignsWith(kd) <==> IsSigningKey(kd)) && (EncryptsTo(kd) <==> IsEncryptionKey(kd)) {
      LowerIsBlankOnly(kd.use);
    }
    forall k: nat | FirstToSign(keys, k) ensures SigningCertificate(keys) == Text.TrimSpace(keys[k].certificate) {
      assert forall j | 0 <= j <= k :: keys[j] in keys;
      assert IsFirstSigningKey(keys, k);
    }
  }

  lemma DefaultIs(services: seq<ConsumerService>)
    ensures DefaultStates(DefaultLocation(services), services)
  {
    if services != [] {
      DefaultLocationChoice(services);
    }
  }

  /** Both reductions say what the descriptors say. */
  lemma SpReductionStates(entityID: string, sp: SPDescriptor)
    ensures var cfg := SpConfig(entityID, sp);
            && SpStates(cfg, entityID, sp)
            && (cfg.enableAttributeProfile <==> sp.attributeConsumingServices > 0)
            && (cfg.enableAttributesByDefault <==> sp.attributeConsumingServices > 0)
  {
    DefaultIs(sp.consumerServices);
    LogoutIs(sp.singleLogoutServices);
    CertificateIs(sp.keyDescriptors, entityID);
    assert LogoutOf(SpConfig(entityID, sp)) == Scan(sp.singleLogoutServices);
  }

  lemma IdpReductionStates(entityID: string, idp: IDPDescriptor)
    ensures IdpStates(IdpConfig(entityID, idp), entityID, idp)
  {
    LogoutIs(idp.singleLogoutServices);
    CertificateIs(idp.keyDescriptors, entityID);
    LoginPageStates(idp.singleSignOnServices);
    assert LogoutOf(IdpConfig(entityID, idp)) == Scan(idp.singleLogoutServices);
  }

  /** Read either way, the same keys yield the same certificate and the same alias. */
  lemma CertificateLoopsAgree(entityID: string, sp: SPDescriptor, idp: IDPDescriptor)
    requires sp.keyDescriptors == idp.keyDescriptors
    ensures var s, i := SpConfig(entityID, sp), IdpConfig(entityID, idp);
            && s.certificateContent == i.certificateContent && s.certAlias == i.certAlias
            && (s.certAlias != "" <==> s.certificateContent != "")
            && (s.certificateContent != "" <==> exists kd | kd in sp.keyDescriptors :: IsSigningKey(kd))
            && (s.doEnableEncryptedAssertion <==> exists kd | kd in sp.keyDescriptors :: IsEncryptionKey(kd))
            && !i.doEnableEncryptedAssertion
  {
    AliasFollowsCertificate(sp.keyDescriptors, entityID);
    SigningCertificateIsFirst(sp.keyDescriptors);
  }
}
