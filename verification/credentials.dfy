/** What a pass gets to know of the registered keys, and what it stores of them, in terms of the world
    it starts from and the faults it meets. */
module Credentials {
  import opened Wrappers
  import opened Application
  import opened World
  import opened Reconcile
  import Mapper
  import Secrets

  // ---------------------------------------------------------------- what is read

  /** The OAuth registration is followed, asked for, and there. */
  predicate OAuthAnswered(oauth: map<string, OAuthRecord>, d: Declared, f: Faults) {
    OAuthActive(d) && At(f, OAuthTransport).Fine? && At(f, OAuthGet).Fine? && d.spec.name in oauth
  }

  function AnsweredOAuth(oauth: map<string, OAuthRecord>, d: Declared, f: Faults): OAuth2Config
    requires OAuthAnswered(oauth, d, f)
  {
    Mapper.MapGetOAuthApplication(oauth[d.spec.name])
  }

  /** The consumer key a pass reads, if any. */
  function KeyRead(oauth: map<string, OAuthRecord>, d: Declared, f: Faults): Option<string> {
    if OAuthAnswered(oauth, d, f) then Some(oauth[d.spec.name].oauthConsumerKey) else None
  }

  /** The SAML registration is followed, its metadata usable, and it is asked for and there. */
  predicate SamlAnswered(saml: map<string, SAMLConfig>, env: Environment, d: Declared, f: Faults) {
    && SamlActive(d) && At(f, MetadataFetch).Fine? && Usable(env, d.spec.saml.value.metadataURL)
    && At(f, SamlGet).Fine? && ReadSaml(saml, DesiredSaml(env, d.spec.saml.value).issuer).issuer != ""
  }

  function AnsweredSaml(saml: map<string, SAMLConfig>, env: Environment, d: Declared, f: Faults): SAMLConfig
    requires SamlAnswered(saml, env, d, f)
  {
    ReadSaml(saml, DesiredSaml(env, d.spec.saml.value).issuer)
  }

  /** The issuer a pass reads; blank if none is registered. */
  function IssuerRead(saml: map<string, SAMLConfig>, env: Environment, d: Declared, f: Faults): string {
    if SamlAnswered(saml, env, d, f) then AnsweredSaml(saml, env, d, f).issuer else ""
  }

  // ---------------------------------------------------------------- what is stored

  /** An upsert takes effect. */
  predicate Stores(kv: map<string, string>, getSite: Site, writeSite: Site, f: Faults) {
    NonBlank(kv) != map[] && At(f, getSite).Fine? && At(f, writeSite).Applied()
  }

  /** The effective upsert of the OAuth stage, if any. */
  function OAuthStored(oauth: map<string, OAuthRecord>, d: Declared, f: Faults): seq<Secrets.Upsert> {
    if OAuthAnswered(oauth, d, f) && Stores(OAuthKeys(AnsweredOAuth(oauth, d, f)), OAuthSecretGet, OAuthSecretWrite, f)
    then [Secrets.Upsert(OAuthKeys(AnsweredOAuth(oauth, d, f)), true)] else []
  }

  /** The effective upsert of the SAML stage, if any. */
  function SamlStored(saml: map<string, SAMLConfig>, env: Environment, d: Declared, f: Faults): seq<Secrets.Upsert> {
    if SamlAnswered(saml, env, d, f)
      && Stores(SamlKeys(AnsweredSaml(saml, env, d, f)), SamlSecretGet, SamlSecretWrite, f)
    then [Secrets.Upsert(SamlKeys(AnsweredSaml(saml, env, d, f)), true)] else []
  }

  // ---------------------------------------------------------------- what goes out

  function Prefer(fresh_: string, old_: string): string {
    if fresh_ != "" then fresh_ else old_
  }

  /** The consumer key of every update a pass sends: the one it read, else the one the Secret held before. */
  function KeySent(w: World, d: Declared, f: Faults): string {
    Prefer(KeyRead(w.oauth, d, f).UnwrapOr(""), Secrets.Get(w.secret, CLIENT_ID))
  }

  /** The issuer of every update a pass sends. */
  function IssuerSent(w: World, d: Declared, f: Faults): string {
    Prefer(IssuerRead(w.saml, w.env, d, f), Secrets.Get(w.secret, SAML_ISSUER))
  }
}
