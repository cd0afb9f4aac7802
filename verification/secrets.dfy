/** The inbound Secret: how upserts combine, and what it remembers over any history. */
module Secrets {
  import opened Wrappers
  import opened Application
  import opened World

  function Get(secret: SecretData, key: string): string {
    if secret.None? then "" else Lookup(secret.value, key)
  }

  lemma UpsertedValue(secret: SecretData, kv: map<string, string>, key: string)
    requires key != ""
    ensures Get(Upserted(secret, kv), key) == if key in kv && kv[key] != "" then kv[key] else Get(secret, key)
  {
    assert key in kv && kv[key] != "" <==> key in NonBlank(kv);
  }

  lemma UpsertIdempotent(secret: SecretData, kv: map<string, string>)
    ensures Upserted(Upserted(secret, kv), kv) == Upserted(secret, kv)
  {
    if NonBlank(kv) != map[] {
      var once := Upserted(secret, kv);
      assert once.value + NonBlank(kv) == once.value;
    }
  }

  /** Upserts of disjoint keys commute. */
  lemma UpsertsCommute(secret: SecretData, kv: map<string, string>, lv: map<string, string>)
    requires kv.Keys !! lv.Keys
    ensures Upserted(Upserted(secret, kv), lv) == Upserted(Upserted(secret, lv), kv)
  {
    var k, l := NonBlank(kv), NonBlank(lv);
    assert k.Keys !! l.Keys;
    assert k + l == l + k;
    if secret.Some? {
      assert secret.value + k + l == secret.value + l + k;
    }
  }

  /** The OAuth and the SAML upsert commute. */
  lemma OAuthAndSamlCommute(secret: SecretData, oauth: OAuth2Config, saml: SAMLConfig)
    ensures Upserted(Upserted(secret, OAuthKeys(oauth)), SamlKeys(saml))
         == Upserted(Upserted(secret, SamlKeys(saml)), OAuthKeys(oauth))
  {
    KeysDiffer();
    UpsertsCommute(secret, OAuthKeys(oauth), SamlKeys(saml));
  }

  /** A Secret that already holds some values keeps holding them through an upsert of other keys. */
  lemma AgreementKept(secret: SecretData, kv: map<string, string>, lv: map<string, string>)
    requires kv.Keys !! lv.Keys && Upserted(secret, kv) == secret
    ensures Upserted(Upserted(secret, lv), kv) == Upserted(secret, lv)
  {
    UpsertsCommute(secret, kv, lv);
  }

  /** What Upserted means for agreement, key by key. */
  lemma AgreementMeans(secret: SecretData, kv: map<string, string>)
    requires "" !in kv
    ensures Upserted(secret, kv) == secret <==> forall k | k in kv && kv[k] != "" :: Get(secret, k) == kv[k]
  {
    if Upserted(secret, kv) == secret {
      forall k | k in kv && kv[k] != "" ensures Get(secret, k) == kv[k] {
        UpsertedValue(secret, kv, k);
      }
    }
    if forall k | k in kv && kv[k] != "" :: Get(secret, k) == kv[k] {
      if NonBlank(kv) != map[] {
        var k :| k in NonBlank(kv);
        assert Get(secret, k) == kv[k];
        assert secret.value + NonBlank(kv) == secret.value;
      }
    }
  }

  // ---------------------------------------------------------------- deleting blanks, as the source does

  /** Removes blank keys and values one by one. */
  method DropBlank(kv: map<string, string>) returns (kept: map<string, string>)
    ensures kept == NonBlank(kv)
  {
    kept := kv;
    var todo := kv.Keys;
    while todo != {}
      invariant todo <= kv.Keys
      invariant kept == map k | k in kv && (k in todo || (k != "" && kv[k] != "")) :: kv[k]
      decreases todo
    {
      var k :| k in todo;
      if k == "" || kv[k] == "" {
        kept := kept - {k};
      }
      todo := todo - {k};
    }
  }

  // ---------------------------------------------------------------- histories

  /** One upsert with its fate: whether the write took effect. */
  datatype Upsert = Upsert(kv: map<string, string>, applied: bool)

  /** The Secret after a history of upserts on a given start. */
  function After(start: SecretData, history: seq<Upsert>): SecretData {
    if history == [] then start
    else
      var u := history[|history| - 1];
      var before := After(start, history[..|history| - 1]);
      if u.applied then Upserted(before, u.kv) else before
  }

  /** The last non-blank value effectively written for a key; blank if there was none. */
  function LastWritten(history: seq<Upsert>, key: string): string {
    if history == [] then ""
    else
      var u := history[|history| - 1];
      if u.applied && key in u.kv && u.kv[key] != "" then u.kv[key]
      else LastWritten(history[..|history| - 1], key)
  }

  lemma {:induction false} LastWrittenBy(history: seq<Upsert>, key: string) returns (u: Upsert)
    requires LastWritten(history, key) != ""
    ensures u in history && u.applied && key in u.kv && u.kv[key] == LastWritten(history, key)
  {
    u := history[|history| - 1];
    if !(u.applied && key in u.kv && u.kv[key] != "") {
      u := LastWrittenBy(history[..|history| - 1], key);
    }
  }

  /** No key and no value of the Secret is blank. */
  predicate NoBlanks(secret: SecretData) {
    secret.Some? ==> forall k | k in secret.value :: k != "" && secret.value[k] != ""
  }

  /** After any interleaving of upserts every key holds the last non-blank value effectively written for
      it, or what it held at the start if there was none; and no blank ever gets in. */
  lemma {:induction false} SecretHistory(start: SecretData, history: seq<Upsert>)
    ensures forall k | k != "" ::
              Get(After(start, history), k) == if LastWritten(history, k) != "" then LastWritten(history, k)
                else Get(start, k)
    ensures NoBlanks(start) ==> NoBlanks(After(start, history))
  {
    if history != [] {
      var init, u := history[..|history| - 1], history[|history| - 1];
      SecretHistory(start, init);
      forall k | k != ""
        ensures Get(After(start, history), k) == if LastWritten(history, k) != "" then LastWritten(history, k)
            else Get(start, k)
      {
        UpsertedValue(After(start, init), u.kv, k);
      }
    }
  }

  /** Histories compose. */
  lemma {:induction false} AfterBoth(start: SecretData, earlier: seq<Upsert>, later: seq<Upsert>)
    ensures After(start, earlier + later) == After(After(start, earlier), later)
  {
    if later == [] {
      assert earlier + later == earlier;
    } else {
      assert (earlier + later)[..|earlier + later| - 1] == earlier + later[..|later| - 1];
      AfterBoth(start, earlier, later[..|later| - 1]);
    }
  }

  /** Once held, a key is held for ever. */
  lemma NoKeyIsLost(start: SecretData, history: seq<Upsert>, key: string)
    requires key != "" && Get(start, key) != ""
    ensures Get(After(start, history), key) != ""
  {
    SecretHistory(start, history);
  }
}
