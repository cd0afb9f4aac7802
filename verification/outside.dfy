/** The mutable side of the model: the in-memory object, and everything outside the operator that its
    calls act on. Each call is tied to the effect functions of `World`. */
module Outside {
  import opened Wrappers
  import opened Application
  import opened Server
  import opened World
  import Builder
  import Mapper
  import SamlMetadata
  import opened Reconcile

  /** The WSO2SP object as one pass holds it in memory. */
  class WSO2SP {
    var finalizers: set<string>
    const declared: Declared
    var id: int
    var resourceID: string
    var phase: Phase
    var adminCanView: bool
    var message: string

    constructor (sp: SP)
      ensures Value() == sp
    {
      finalizers, declared := sp.finalizers, sp.declared;
      id, resourceID, phase := sp.status.id, sp.status.resourceID, sp.status.phase;
      adminCanView, message := sp.status.adminCanView, sp.status.message;
    }

    function Observed(): Status
      reads this
    {
      Status(id, resourceID, phase, adminCanView, message)
    }

    function Value(): SP
      reads this
    {
      SP(finalizers, declared, Observed())
    }
  }

  /** What a call reports back. */
  function Reported(fault: Fault): Option<string> {
    if fault.Fine? then None else Some(fault.err)
  }

  /** The scan of a group's members. */
  method GetUserGroupMembership(user: string, members: seq<string>) returns (found: bool)
    ensures found == (user in members)
  {
    for i := 0 to |members|
      invariant user !in members[..i]
    {
      if members[i] == user {
        return true;
      }
    }
    return false;
  }

  /** The API server and WSO2 Identity Server. */
  class Cluster {
    var stored: Option<SP>
    var secret: SecretData
    const env: Environment
    var apps: map<string, StoredApp>
    var oauth: map<string, OAuthRecord>
    var saml: map<string, SAMLConfig>
    var dir: Directory
    ghost var journal: seq<Event>

    constructor (w: World)
      ensures State() == w && journal == []
    {
      stored, secret, env := w.stored, w.secret, w.env;
      apps, oauth, saml, dir := w.apps, w.oauth, w.saml, w.dir;
      journal := [];
    }

    ghost function State(): World
      reads this
    {
      World(stored, secret, env, apps, oauth, saml, dir)
    }

    /** The journal covers one pass. */
    ghost method StartPass()
      modifies this`journal
      ensures journal == [] && State() == old(State())
    {
      journal := [];
    }

    // -------------------------------------------------------------- Kubernetes

    method UpdateStatus(st: Status, site: Site, f: Faults) returns (err: Option<string>)
      modifies this
      ensures State() == if At(f, site).Applied() then PutStatus(old(State()), st) else old(State())
      ensures journal == old(journal) + [StatusSent(site, At(f, site).Fine?)]
      ensures err == Reported(At(f, site))
    {
      if At(f, site).Applied() && stored.Some? {
        stored := Some(stored.value.(status := st));
      }
      journal := journal + [StatusSent(site, At(f, site).Fine?)];
      err := Reported(At(f, site));
    }

    method SendPatch(base: Status, target: Status, site: Site, f: Faults) returns (err: Option<string>)
      modifies this
      ensures State() == if At(f, site).Applied() then PatchStatus(old(State()), base, target) else old(State())
      ensures journal == old(journal) + [StatusSent(site, At(f, site).Fine?)]
      ensures err == Reported(At(f, site))
    {
      if At(f, site).Applied() && stored.Some? {
        stored := Some(stored.value.(status := MergePatch(stored.value.status, base, target)));
      }
      journal := journal + [StatusSent(site, At(f, site).Fine?)];
      err := Reported(At(f, site));
    }

    /** Replacing the object's metadata; the last finalizer of a deleted object takes it along. */
    method UpdateFinalizers(finalizers: set<string>, f: Faults) returns (err: Option<string>)
      modifies this
      ensures State() == if At(f, FinalizerWrite).Applied() then PutFinalizers(old(State()), finalizers)
          else old(State())
      ensures journal == old(journal)
      ensures err == Reported(At(f, FinalizerWrite))
    {
      if At(f, FinalizerWrite).Applied() && stored.Some? {
        if stored.value.declared.deleting && finalizers == {} {
          stored := None;
        } else {
          stored := Some(stored.value.(finalizers := finalizers));
        }
      }
      err := Reported(At(f, FinalizerWrite));
    }

    /** Creating the Secret, or merging string data into the one that is there. */
    method WriteSecret(stringData: map<string, string>, site: Site, f: Faults) returns (err: Option<string>)
      modifies this
      ensures secret == if !At(f, site).Applied() then old(secret)
                        else Some(if old(secret).None? then stringData else old(secret).value + stringData)
      ensures State() == old(State()).(secret := secret) && journal == old(journal)
      ensures err == Reported(At(f, site))
    {
      if At(f, site).Applied() {
        secret := Some(if secret.None? then stringData else secret.value + stringData);
      }
      err := Reported(At(f, site));
    }

    // -------------------------------------------------------------- WSO2: groups

    method GetAdminGroupMembership(name: string, f: Faults) returns (joined: bool, groupID: string, err: Option<string>)
      ensures err.Some? <==> At(f, GroupGet).Fail? || !GroupKnown(dir, name)
      ensures err.Some? ==> err.value == ErrorText(At(f, GroupGet))
      ensures err.None? ==> groupID == dir.groups[name] && joined == (ADMIN in MembersOf(dir, groupID))
    {
      if At(f, GroupGet).Fail? || !GroupKnown(dir, name) {
        return false, "", Some(ErrorText(At(f, GroupGet)));
      }
      groupID := dir.groups[name];
      joined := GetUserGroupMembership(ADMIN, dir.members[groupID]);
      err := None;
    }

    method JoinAdminToGroup(groupID: string, f: Faults) returns (err: Option<string>)
      modifies this
      ensures State() == if At(f, GroupJoin).Applied() then JoinAdmin(old(State()), groupID) else old(State())
      ensures journal == old(journal) + [GroupJoined(groupID)]
      ensures err == Reported(At(f, GroupJoin))
    {
      if At(f, GroupJoin).Applied() {
        dir := dir.(members := dir.members[groupID := MembersOf(dir, groupID) + [ADMIN]]);
      }
      journal := journal + [GroupJoined(groupID)];
      err := Reported(At(f, GroupJoin));
    }

    // -------------------------------------------------------------- WSO2: OAuth

    /** Without an answer at all the source dereferences nil; absence is an empty result. */
    method GetApplicationOAuth2Config(name: string, f: Faults)
      returns (panicked: bool, existing: Option<OAuth2Config>, err: Option<string>)
      modifies this`journal
      ensures panicked == At(f, OAuthTransport).Fail?
      ensures !panicked ==> err == Reported(At(f, OAuthGet))
      ensures !panicked && err.None? ==>
                && existing == (if name in oauth then Some(Mapper.MapGetOAuthApplication(oauth[name])) else None)
                && journal == old(journal) +
                  [OAuthRead(if existing.Some? then Some(existing.value.oauthConsumerKey) else None)]
      ensures panicked || err.Some? ==> journal == old(journal)
    {
      panicked, existing, err := At(f, OAuthTransport).Fail?, None, Reported(At(f, OAuthGet));
      if !panicked && err.None? {
        if name in oauth {
          var cfg := Mapper.MapOAuthResponse(oauth[name]);
          existing := Some(cfg);
        }
        journal := journal + [OAuthRead(if existing.Some? then Some(existing.value.oauthConsumerKey) else None)];
      }
    }

    method CreateApplicationOAuth2Config(name: string, cfg: OAuth2Config, f: Faults, a: Answers)
      returns (err: Option<string>)
      modifies this
      ensures var r := RegisterOAuth(Builder.BuildOAuthApplication(name, cfg), a.clientID, a.clientSecret);
              State() == if At(f, OAuthCreate).Applied() then WithOAuth(old(State()), name, r) else old(State())
      ensures journal == old(journal) + [OAuthCreated(name)]
      ensures err == Reported(At(f, OAuthCreate))
    {
      var request := Builder.BuildOAuthRequest(name, cfg);
      if At(f, OAuthCreate).Applied() {
        oauth := oauth[name := RegisterOAuth(request, a.clientID, a.clientSecret)];
      }
      journal := journal + [OAuthCreated(name)];
      err := Reported(At(f, OAuthCreate));
    }

    method UpdateApplicationOAuth2Config(name: string, cfg: OAuth2Config, f: Faults) returns (err: Option<string>)
      modifies this
      ensures State() == if At(f, OAuthUpdate).Applied()
          then WithOAuth(old(State()), name, Builder.BuildOAuthApplication(name, cfg))
                         else old(State())
      ensures journal == old(journal) + [OAuthUpdated(name)]
      ensures err == Reported(At(f, OAuthUpdate))
    {
      var request := Builder.BuildOAuthRequest(name, cfg);
      if At(f, OAuthUpdate).Applied() {
        oauth := oauth[name := request];
      }
      journal := journal + [OAuthUpdated(name)];
      err := Reported(At(f, OAuthUpdate));
    }

    // -------------------------------------------------------------- WSO2: SAML

    /** Fetching the metadata and reducing it to a configuration. */
    method Fetch(url: string, f: Faults) returns (cfg: Option<SAMLConfig>, err: string)
      ensures cfg.None? <==> At(f, MetadataFetch).Fail? || !Usable(env, url)
      ensures cfg.None? ==> err == if At(f, MetadataFetch).Fail? then At(f, MetadataFetch).err else METADATA_UNUSABLE
      ensures cfg.Some? ==> cfg.value == SamlMetadata.SpConfig(env.metadata[url].entityID, env.metadata[url].sp.value)
    {
      if At(f, MetadataFetch).Fail? {
        return None, At(f, MetadataFetch).err;
      }
      if url !in env.metadata || env.metadata[url].entityID == "" || env.metadata[url].sp.None? {
        return None, METADATA_UNUSABLE;
      }
      var reduced := SamlMetadata.SpConfigFromDescriptor(env.metadata[url].entityID, env.metadata[url].sp.value);
      return Some(reduced), "";
    }

    method GetApplicationSAMLConfig(issuer: string, f: Faults) returns (existing: SAMLConfig, err: Option<string>)
      modifies this`journal
      ensures err == Reported(At(f, SamlGet))
      ensures err.None? ==> existing == ReadSaml(saml, issuer) && journal == old(journal) + [SamlRead(existing.issuer)]
      ensures err.Some? ==> journal == old(journal)
    {
      existing, err := BLANK_SAML, Reported(At(f, SamlGet));
      if err.None? {
        if issuer in saml {
          existing := saml[issuer];
        }
        journal := journal + [SamlRead(existing.issuer)];
      }
    }

    method CreateSAMLApplication(cfg: SAMLConfig, f: Faults, a: Answers) returns (err: Option<string>)
      modifies this
      ensures State() == if At(f, SamlCreate).Applied() then AddSaml(old(State()), cfg, a) else old(State())
      ensures journal == old(journal) + [SamlAdded(cfg.issuer)]
      ensures err == Reported(At(f, SamlCreate))
    {
      if At(f, SamlCreate).Applied() && (ReadSaml(saml, cfg.issuer).issuer == "" || a.samlAddOverwrites) {
        saml := saml[cfg.issuer := cfg.(attributeConsumingServiceIndex := a.samlIndex)];
      }
      journal := journal + [SamlAdded(cfg.issuer)];
      err := Reported(At(f, SamlCreate));
    }

    // -------------------------------------------------------------- WSO2: applications

    method DeleteApplication(name: string, site: Site, f: Faults) returns (err: Option<string>)
      modifies this
      ensures State() == if At(f, site).Applied() then DeleteApp(old(State()), name) else old(State())
      ensures journal == old(journal) + [AppDeleted(name)]
      ensures err == Reported(At(f, site))
    {
      if At(f, site).Applied() {
        apps := apps - {name};
      }
      journal := journal + [AppDeleted(name)];
      err := Reported(At(f, site));
    }

    /** Deletes the application named after the issuer, then adds the registration. */
    method UpdateSAMLApplication(cfg: SAMLConfig, f: Faults, a: Answers) returns (err: Option<string>)
      modifies this
      ensures var gone, added := At(f, SamlDelete), At(f, SamlCreate);
              var w := if gone.Applied() then DeleteApp(old(State()), cfg.issuer) else old(State());
              && State() == (if gone.Fine? && added.Applied() then AddSaml(w, cfg, a) else w)
              && journal == old(journal) + (if gone.Fine? then [AppDeleted(cfg.issuer)] + [SamlAdded(cfg.issuer)]
                                            else [AppDeleted(cfg.issuer)])
              && err == if gone.Fail? then Some(gone.err) else Reported(added)
    {
      err := DeleteApplication(cfg.issuer, SamlDelete, f);
      if err.Some? {
        return;
      }
      err := CreateSAMLApplication(cfg, f, a);
    }

    method GetApplicationByName(name: string, f: Faults)
      returns (panicked: bool, existing: Option<Application>, err: Option<string>)
      modifies this`journal
      ensures err == Reported(At(f, AppGet))
      ensures err.Some? ==> !panicked && journal == old(journal)
      ensures err.None? && name !in apps ==> !panicked && existing.None? && journal == old(journal) + [AppRead(None)]
      ensures err.None? && name in apps ==>
                var read := Mapper.MapGetApplication(EchoApplication(apps[name]));
                && panicked == read.Panic?
                && (panicked ==> journal == old(journal))
                && (!panicked ==> && existing == Some(read.value)
                                  && journal == old(journal) + [AppRead(Some((read.value.id, read.value.resourceID)))])
    {
      panicked, existing, err := false, None, Reported(At(f, AppGet));
      if err.Some? {
        return;
      }
      if name !in apps {
        journal := journal + [AppRead(None)];
        return;
      }
      var read := Mapper.MapApplicationResponse(EchoApplication(apps[name]));
      match read
      case Panic =>
        panicked := true;
      case Good(app) =>
        existing := Some(app);
        journal := journal + [AppRead(Some((app.id, app.resourceID)))];
    }

    method CreateApplication(desired: Application, f: Faults, a: Answers) returns (err: Option<string>)
      modifies this
      ensures State() == if At(f, AppCreate).Applied() then CreateApp(old(State()), desired, a) else old(State())
      ensures journal == old(journal) + [AppCreated(desired.name)]
      ensures err == Reported(At(f, AppCreate))
    {
      if At(f, AppCreate).Applied() {
        apps := apps[desired.name :=
          StoredApp(a.appID, a.appResourceID, a.bareApp.(name := desired.name, description := desired.description))];
        dir := WithGroup(dir, desired.name, a);
      }
      journal := journal + [AppCreated(desired.name)];
      err := Reported(At(f, AppCreate));
    }

    method UpdateApplication(desired: Application, f: Faults) returns (err: Option<string>)
      modifies this
      ensures State() == if At(f, AppUpdate).Applied() then UpdateApp(old(State()), desired) else old(State())
      ensures journal == old(journal) + [AppUpdated(Builder.BuildUpdateApplication(desired))]
      ensures err == Reported(At(f, AppUpdate))
    {
      var request := Builder.BuildUpdateRequest(desired);
      if At(f, AppUpdate).Applied() && desired.name in apps {
        apps := apps[desired.name := apps[desired.name].(content := request)];
      }
      journal := journal + [AppUpdated(request)];
      err := Reported(At(f, AppUpdate));
    }
  }
}
