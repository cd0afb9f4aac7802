/** The state a reconcile pass sees and changes: the Kubernetes objects, the remote stores, and
    the faults and server choices that one pass may meet. */
module World {
  import opened Wrappers
  import opened Application
  import opened Server
  import opened SamlMetadata
  import Builder

  // ---------------------------------------------------------------- Kubernetes side

  datatype Status = Status(id: int, resourceID: string, phase: Phase, adminCanView: bool, message: string)

  const BLANK_STATUS: Status := Status(0, "", NoPhase, false, "")

  /** What the user controls: annotations, deletion, spec. No pass ever changes it. */
  datatype Declared = Declared(annotations: map<string, string>, deleting: bool, spec: SPSpec)

  /** The WSO2SP object, persisted or in memory. */
  datatype SP = SP(finalizers: set<string>, declared: Declared, status: Status)

  datatype Instance = Instance(phase: Phase, message: string, credentials: bool)

  const SP_FINALIZER: string := "wso2.it.auth.gr/sp-finalizer"
  const RECONCILE_APP: string := "wso2.it.auth.gr/reconcile"
  const RECONCILE_SAML: string := "wso2.it.auth.gr/reconcile-saml"
  const RECONCILE_OAUTH: string := "wso2.it.auth.gr/reconcile-oauth"
  const ADMIN: string := "admin"
  const CLIENT_ID: string := "client_id"
  const CLIENT_SECRET: string := "client_secret"
  const SAML_ISSUER: string := "saml_issuer"
  const SAML_INDEX: string := "saml_attrConsumingServiceIndex"
  const CREATED_MESSAGE: string := "Application created, waiting for remote sync"
  const METADATA_UNUSABLE: string := "metadata cannot be used"

  lemma KeysDiffer()
    ensures CLIENT_ID != CLIENT_SECRET && SAML_ISSUER != SAML_INDEX
    ensures CLIENT_ID != SAML_ISSUER && CLIENT_ID != SAML_INDEX
    ensures CLIENT_SECRET != SAML_ISSUER && CLIENT_SECRET != SAML_INDEX
    ensures CLIENT_ID != "" && CLIENT_SECRET != "" && SAML_ISSUER != "" && SAML_INDEX != ""
  {
    assert CLIENT_ID[0] == 'c' && CLIENT_SECRET[0] == 'c' && SAML_ISSUER[0] == 's' && SAML_INDEX[0] == 's';
    assert CLIENT_ID[7] == 'i' && CLIENT_SECRET[7] == 's' && SAML_ISSUER[5] == 'i' && SAML_INDEX[5] == 'a';
  }

  predicate Skip(key: string, annotations: map<string, string>) {
    Lookup(annotations, key) == "false"
  }

  /** The script is only looked up when a ConfigMap is named and a step list, even an empty one, is given. */
  predicate WantsScript(spec: SPSpec) {
    spec.authenticationScript.Some? && spec.authenticationSteps.Of?
  }

  // ---------------------------------------------------------------- everything at once

  type SecretData = Option<map<string, string>>

  /** What a pass only reads. */
  datatype Environment = Environment(
    instances: map<string, Instance>,
    configMaps: map<string, map<string, string>>,
    metadata: map<string, EntityDescriptor>)             // what each metadata URL serves

  datatype Directory = Directory(
    groups: map<string, string>,                         // group ID by display name
    members: map<string, seq<string>>)                   // member display names by group ID

  datatype World = World(
    stored: Option<SP>,                                  // the persisted WSO2SP; None once gone
    secret: SecretData,                                  // the "<name>-inbound" Secret
    env: Environment,
    apps: map<string, StoredApp>,                        // WSO2: applications by name
    oauth: map<string, OAuthRecord>,                     // WSO2: OAuth registrations by application name
    saml: map<string, SAMLConfig>,                       // WSO2: SAML registrations by issuer
    dir: Directory)                                      // WSO2: groups

  /** Every place where one pass calls out. */
  datatype Site =
    | GetObject | PauseWrite | GetInstance | GetCredentials | InstanceStatus | FinalizerWrite | RemoteDelete
    | OAuthTransport | OAuthGet | OAuthCreate | OAuthUpdate | OAuthSecretGet | OAuthSecretWrite | OAuthStatus
    | MetadataFetch | SamlGet | SamlCreate | SamlDelete | SamlSecretGet | SamlSecretWrite | SamlStatus
    | AppGet | AppCreate | AppUpdate | ScriptGet | InboundGetOAuth | InboundGetSaml | AppStatus | CreatedPatch
    | GroupGet | GroupJoin | AdminStatus | ReadyPatch

  /** The faults of one pass; a site without an entry works. */
  type Faults = map<Site, Fault>

  const NO_FAULTS: Faults := map[]

  function At(f: Faults, site: Site): Fault {
    if site in f then f[site] else Fine
  }

  function ErrorText(fault: Fault): string {
    if fault.Fine? then "" else fault.err
  }

  /** What the server chooses by itself during one pass. */
  datatype Answers = Answers(
    clientID: string,
    clientSecret: string,
    samlIndex: string,
    samlAddOverwrites: bool,          // does adding an issuer that is already registered replace it?
    appID: int,
    appResourceID: string,
    bareApp: ServiceProviderRequest,  // the defaults a created application starts from
    groupID: string,
    groupMembers: seq<string>)

  // ---------------------------------------------------------------- remote effects

  function WithOAuth(w: World, name: string, r: OAuthRecord): World {
    w.(oauth := w.oauth[name := r])
  }

  function AddSaml(w: World, cfg: SAMLConfig, a: Answers): World {
    if ReadSaml(w.saml, cfg.issuer).issuer != "" && !a.samlAddOverwrites then w
    else w.(saml := w.saml[cfg.issuer := cfg.(attributeConsumingServiceIndex := a.samlIndex)])
  }

  /** ASSUMPTION: an unknown issuer is answered with a record whose issuer is blank. */
  function ReadSaml(saml: map<string, SAMLConfig>, issuer: string): SAMLConfig {
    if issuer in saml then saml[issuer] else BLANK_SAML
  }

  function DeleteApp(w: World, name: string): World {
    w.(apps := w.apps - {name})
  }

  predicate GroupKnown(dir: Directory, name: string) {
    name in dir.groups && dir.groups[name] in dir.members
  }

  function MembersOf(dir: Directory, groupID: string): seq<string> {
    if groupID in dir.members then dir.members[groupID] else []
  }

  predicate AdminMember(dir: Directory, name: string) {
    GroupKnown(dir, name) && ADMIN in dir.members[dir.groups[name]]
  }

  /** ASSUMPTION: creating an application also gives it a group, unless it has one. */
  function WithGroup(dir: Directory, name: string, a: Answers): Directory {
    if GroupKnown(dir, name) then dir
    else Directory(dir.groups[name := a.groupID], dir.members[a.groupID := a.groupMembers])
  }

  function CreateApp(w: World, desired: Application, a: Answers): World {
    var content := a.bareApp.(name := desired.name, description := desired.description);
    w.(apps := w.apps[desired.name := StoredApp(a.appID, a.appResourceID, content)],
       dir := WithGroup(w.dir, desired.name, a))
  }

  /** ASSUMPTION: an update finds the application by name and keeps its identifiers. */
  function UpdateApp(w: World, desired: Application): World {
    if desired.name in w.apps then
      var s := w.apps[desired.name];
      w.(apps := w.apps[desired.name := s.(content := Builder.BuildUpdateApplication(desired))])
    else w
  }

  function JoinAdmin(w: World, groupID: string): World {
    w.(dir := w.dir.(members := w.dir.members[groupID := MembersOf(w.dir, groupID) + [ADMIN]]))
  }

  // ---------------------------------------------------------------- Kubernetes effects

  function PutStatus(w: World, st: Status): World {
    if w.stored.Some? then w.(stored := Some(w.stored.value.(status := st))) else w
  }

  /** JSON merge patch (section 2 of RFC 7396) of the difference between two in-memory statuses. */
  function MergePatch(persisted: Status, base: Status, target: Status): Status {
    Status(
      if target.id != base.id then target.id else persisted.id,
      if target.resourceID != base.resourceID then target.resourceID else persisted.resourceID,
      if target.phase != base.phase then target.phase else persisted.phase,
      if target.adminCanView != base.adminCanView then target.adminCanView else persisted.adminCanView,
      if target.message != base.message then target.message else persisted.message)
  }

  function PatchStatus(w: World, base: Status, target: Status): World {
    if w.stored.Some? then PutStatus(w, MergePatch(w.stored.value.status, base, target)) else w
  }

  /** Replacing the finalizers; the API server drops a deleted object once none is left. */
  function PutFinalizers(w: World, finalizers: set<string>): World {
    if w.stored.None? then w
    else if w.stored.value.declared.deleting && finalizers == {} then w.(stored := None)
    else w.(stored := Some(w.stored.value.(finalizers := finalizers)))
  }

  // ---------------------------------------------------------------- the Secret

  function NonBlank(kv: map<string, string>): map<string, string> {
    map k | k in kv && k != "" && kv[k] != "" :: kv[k]
  }

  /** String data is merged into the stored data on every write. */
  function Upserted(secret: SecretData, kv: map<string, string>): SecretData {
    if NonBlank(kv) == map[] then secret
    else if secret.None? then Some(NonBlank(kv))
    else Some(secret.value + NonBlank(kv))
  }

  function OAuthKeys(cfg: OAuth2Config): map<string, string> {
    map[CLIENT_ID := cfg.oauthConsumerKey, CLIENT_SECRET := cfg.oauthConsumerSecret]
  }

  function SamlKeys(cfg: SAMLConfig): map<string, string> {
    map[SAML_ISSUER := cfg.issuer, SAML_INDEX := cfg.attributeConsumingServiceIndex]
  }

  // ---------------------------------------------------------------- the journal of a pass

  /** What a pass reads from and sends to WSO2, and which status writes it attempts. */
  datatype Event =
    | OAuthRead(found: Option<string>)              // the consumer key read, if registered
    | OAuthCreated(name: string)
    | OAuthUpdated(name: string)
    | SamlRead(issuer: string)                      // blank when not registered
    | SamlAdded(issuer: string)
    | AppRead(identity: Option<(int, string)>)
    | AppCreated(name: string)
    | AppUpdated(request: ServiceProviderRequest)
    | AppDeleted(name: string)
    | GroupJoined(groupID: string)
    | StatusSent(site: Site, ok: bool)

  /** Calls that create or update something in WSO2. */
  predicate Upserts(e: Event) {
    e.OAuthCreated? || e.OAuthUpdated? || e.SamlAdded? || e.AppCreated? || e.AppUpdated? || e.GroupJoined?
  }

  /** Calls that change anything in WSO2. */
  predicate Mutates(e: Event) {
    Upserts(e) || e.AppDeleted?
  }

  /** A pass in progress: the world, the object in memory, and the journal. */
  datatype Pass = Pass(w: World, sp: SP, log: seq<Event>)

  datatype Step = Step(p: Pass, out: Outcome)
}
