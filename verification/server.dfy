/** What is assumed of WSO2 Identity Server: it stores what it is sent and echoes it back,
    chooses identifiers and keys of its own, and drops inbound entries without a key. */
module Server {
  import opened Wrappers
  import opened Application

  datatype StoredApp = StoredApp(id: int, resourceID: string, content: ServiceProviderRequest)

  /** ASSUMPTION: an inbound entry whose key is blank is not kept. */
  function KeepKeyed(inbound: seq<InboundEntry>): seq<InboundEntry> {
    if inbound == [] then []
    else (if inbound[0].key == "" then [] else [inbound[0]]) + KeepKeyed(inbound[1..])
  }

  /** ASSUMPTION: everything else is returned as last written. */
  function EchoApplication(s: StoredApp): ServiceProviderResponse {
    ServiceProviderResponse(
      s.id, s.resourceID, s.content.name, s.content.description, s.content.claimMappings,
      KeepKeyed(s.content.inbound), s.content.localOutbound)
  }

  /** ASSUMPTION: a registration without credentials is given some. */
  function RegisterOAuth(r: OAuthRecord, clientID: string, clientSecret: string): OAuthRecord {
    if r.oauthConsumerKey == "" then r.(oauthConsumerKey := clientID, oauthConsumerSecret := clientSecret) else r
  }

  lemma {:induction false} KeptEntries(inbound: seq<InboundEntry>, e: InboundEntry)
    ensures e in KeepKeyed(inbound) <==> e in inbound && e.key != ""
  {
    if inbound != [] {
      KeptEntries(inbound[1..], e);
      assert inbound == [inbound[0]] + inbound[1..];
    }
  }
}
