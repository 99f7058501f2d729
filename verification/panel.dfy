/**
 * The remote panel side of provisioning: the client list of one panel
 * inbound, the read-modify-write that creates or renews a client under a
 * label, and the VLESS link built from the inbound's Reality settings.
 * The network exchange with the panel is reduced to what it answered (`Link`).
 */
module Panel {
  import opened Wrappers
  import opened Text

  const DAY_MS: int := 86_400_000

  /** The flow every new client gets. */
  const FLOW: string := "xtls-rprx-vision"

  /** A client entry of an inbound; `email` is the label the bot looks clients up by. */
  datatype Client = Client(id: string, email: string, enable: bool, flow: string, expiryMs: int)

  /** A row of the `hosts` table: how to reach a panel and which inbound to manage. */
  datatype Host = Host(url: string, username: string, password: string, inboundId: int)

  /** What the panel answered during one provisioning attempt. */
  datatype Link =
    | Linked                         // login, inbound lookup, fetch and update all succeeded
    | LoginFailed                    // login raised, or the inbound id is not in the inbound list
    | InboundMissing                 // fetching the inbound by id returned nothing
    | RequestFailed(message: string) // fetching or writing back the inbound raised
    | WrittenThenFailed(message: string) // the inbound was written back, then building the link raised

  datatype AdapterError = HostNotFound | ConnectionFailed | InboundNotFound | PanelFailure(message: string)

  /** What a successful provisioning reports back. */
  datatype Grant = Grant(clientUuid: string, email: string, expiryMs: int, hostName: string)

  /**
   * The expiry after adding `days` days to a client expiring at `expiryMs`:
   * the later of "old expiry + days" and "now + days". A key still active
   * stacks; one that expired, or expires exactly now, restarts from now.
   */
  function RenewedExpiry(expiryMs: int, nowMs: int, days: int): (r: int)
    ensures r >= expiryMs + days * DAY_MS && r >= nowMs + days * DAY_MS
    ensures r == expiryMs + days * DAY_MS || r == nowMs + days * DAY_MS
    ensures r == nowMs + days * DAY_MS <== expiryMs <= nowMs
  {
    if expiryMs > nowMs then expiryMs + days * DAY_MS else nowMs + days * DAY_MS
  }

  /** The position of the first client with this label, if any. */
  function IndexOfEmail(clients: seq<Client>, email: string): (r: Option<nat>)
    ensures r.Some? ==> r.value < |clients| && clients[r.value].email == email
    ensures forall j | 0 <= j < |clients| && (r.None? || j < r.value) :: clients[j].email != email
  {
    if clients == [] then None
    else if clients[0].email == email then Some(0)
    else
      match IndexOfEmail(clients[1..], email)
      case None => None
      case Some(k) => Some(k + 1)
  }

  /** The scan for the label, as the loop over `enumerate(clients)` does it; -1 when absent. */
  method FindClient(clients: seq<Client>, email: string) returns (index: int)
    ensures -1 <= index < |clients|
    ensures index >= 0 ==> clients[index].email == email
    ensures forall j | 0 <= j < |clients| && (index < 0 || j < index) :: clients[j].email != email
  {
    index := -1;
    var i := 0;
    while i < |clients|
      invariant 0 <= i <= |clients|
      invariant forall j | 0 <= j < i :: clients[j].email != email
    {
      if clients[i].email == email {
        index := i;
        return;
      }
      i := i + 1;
    }
  }

  /** The inbound's new client list together with the id and expiry reported for the label. */
  datatype Upserted = Upserted(clients: seq<Client>, uuid: string, expiryMs: int)

  /**
   * Renew the first client labelled `email`, or append a new one: a renewed
   * client keeps its id and position, is enabled and gets the renewed
   * expiry, and no other client changes; a new client is enabled, gets
   * `freshId` and expires `days` days from now, after all existing clients.
   */
  function Upsert(clients: seq<Client>, email: string, days: int, nowMs: int, freshId: string): (u: Upserted)
    ensures IndexOfEmail(clients, email).Some? ==>
              var i := IndexOfEmail(clients, email).value;
              && |u.clients| == |clients|
              && u.uuid == clients[i].id
              && u.expiryMs == RenewedExpiry(clients[i].expiryMs, nowMs, days)
              && u.clients[i] == clients[i].(enable := true, expiryMs := u.expiryMs)
              && forall j | 0 <= j < |clients| && j != i :: u.clients[j] == clients[j]
    ensures IndexOfEmail(clients, email).None? ==>
              && |u.clients| == |clients| + 1
              && u.clients[..|clients|] == clients
              && u.uuid == freshId
              && u.expiryMs == nowMs + days * DAY_MS
              && u.clients[|clients|] == Client(freshId, email, true, FLOW, u.expiryMs)
  {
    match IndexOfEmail(clients, email)
    case Some(i) =>
      var expiry := RenewedExpiry(clients[i].expiryMs, nowMs, days);
      Upserted(clients[i := clients[i].(expiryMs := expiry, enable := true)], clients[i].id, expiry)
    case None =>
      var expiry := nowMs + days * DAY_MS;
      Upserted(clients + [Client(freshId, email, true, FLOW, expiry)], freshId, expiry)
  }

  /** After an upsert the label is found, on the client whose id and expiry were reported, enabled. */
  lemma UpsertFindsLabel(clients: seq<Client>, email: string, days: int, nowMs: int, freshId: string)
    ensures var u := Upsert(clients, email, days, nowMs, freshId);
            var k := IndexOfEmail(u.clients, email);
            k.Some? && u.clients[k.value].id == u.uuid && u.clients[k.value].enable
            && u.clients[k.value].expiryMs == u.expiryMs
            && (IndexOfEmail(clients, email).Some? ==> k == IndexOfEmail(clients, email))
            && (IndexOfEmail(clients, email).None? ==> k == Some(|clients|))
  {
    var u := Upsert(clients, email, days, nowMs, freshId);
    match IndexOfEmail(clients, email)
    case Some(i) =>
      IndexOfFirst(u.clients, email, i);
    case None =>
      IndexOfFirst(u.clients, email, |clients|);
  }

  /** The first position holding the label is the one the scan reports. */
  lemma IndexOfFirst(clients: seq<Client>, email: string, i: nat)
    requires i < |clients| && clients[i].email == email
    requires forall j | 0 <= j < i :: clients[j].email != email
    ensures IndexOfEmail(clients, email) == Some(i)
  {
    var r := IndexOfEmail(clients, email);
    assert r.Some? by { assert clients[i].email == email; }
    assert !(r.value < i) && !(i < r.value);
  }

  /**
   * Buying twice under the same label before the first expiry: the second
   * purchase renews the same client and stacks on the first expiry.
   */
  lemma RenewalStacks(clients: seq<Client>, email: string, days1: int, now1: int, id1: string,
                      days2: int, now2: int, id2: string)
    requires now2 < Upsert(clients, email, days1, now1, id1).expiryMs
    ensures var u1 := Upsert(clients, email, days1, now1, id1);
            var u2 := Upsert(u1.clients, email, days2, now2, id2);
            u2.uuid == u1.uuid && u2.expiryMs == u1.expiryMs + days2 * DAY_MS
            && |u2.clients| == |u1.clients|
  {
    UpsertFindsLabel(clients, email, days1, now1, id1);
  }

  /** No two clients share a label. */
  predicate UniqueEmails(clients: seq<Client>)
  {
    forall i, j | 0 <= i < j < |clients| :: clients[i].email != clients[j].email
  }

  /** Upserting never introduces a second client with the same label. */
  lemma UpsertKeepsEmailsUnique(clients: seq<Client>, email: string, days: int, nowMs: int, freshId: string)
    requires UniqueEmails(clients)
    ensures UniqueEmails(Upsert(clients, email, days, nowMs, freshId).clients)
  {
    var u := Upsert(clients, email, days, nowMs, freshId);
    forall i, j | 0 <= i < j < |u.clients|
      ensures u.clients[i].email != u.clients[j].email
    {
      assert i < |clients|;
      if j < |clients| {
        assert u.clients[i].email == clients[i].email && u.clients[j].email == clients[j].email;
      }
    }
  }

  /** The outcome of one provisioning attempt and the inbound's client list afterwards. */
  datatype Provisioned = Provisioned(result: Result<Grant, AdapterError>, clients: seq<Client>)

  /**
   * The read-modify-write of `create_or_update_key`: a missing host or a
   * panel failure before the write leaves the list as it was; otherwise the
   * upserted list is written back, and the label's id and expiry are
   * reported unless building the link fails after the write.
   */
  function Provision(host: Option<Host>, link: Link, clients: seq<Client>, hostName: string,
                     email: string, days: int, nowMs: int, freshId: string): (p: Provisioned)
    ensures p.result.Ok? <==> host.Some? && link == Linked
    ensures host.None? ==> p.result == Err(HostNotFound)
    ensures p.result.Err? && !(host.Some? && link.WrittenThenFailed?) ==> p.clients == clients
    ensures host.Some? && link.WrittenThenFailed? ==> p.result == Err(PanelFailure(link.message))
    ensures host.Some? && (link.Linked? || link.WrittenThenFailed?) ==>
              p.clients == Upsert(clients, email, days, nowMs, freshId).clients
    ensures p.result.Ok? ==>
              var u := Upsert(clients, email, days, nowMs, freshId);
              p.result.value == Grant(u.uuid, email, u.expiryMs, hostName)
  {
    if host.None? then Provisioned(Err(HostNotFound), clients)
    else
      match link
      case LoginFailed => Provisioned(Err(ConnectionFailed), clients)
      case InboundMissing => Provisioned(Err(InboundNotFound), clients)
      case RequestFailed(message) => Provisioned(Err(PanelFailure(message)), clients)
      case WrittenThenFailed(message) =>
        Provisioned(Err(PanelFailure(message)), Upsert(clients, email, days, nowMs, freshId).clients)
      case Linked =>
        var u := Upsert(clients, email, days, nowMs, freshId);
        Provisioned(Ok(Grant(u.uuid, email, u.expiryMs, hostName)), u.clients)
  }

  /** The client list of one inbound as the panel stores it. */
  class Inbound {
    var clients: seq<Client>

    constructor (clients: seq<Client>)
      ensures this.clients == clients
    {
      this.clients := clients;
    }

    /**
     * `create_or_update_key` against this inbound: look the label up, renew
     * the client in place or append a new one, and write the list back;
     * a failure after the write keeps the written list.
     */
    method CreateOrUpdateKey(host: Option<Host>, link: Link, hostName: string, email: string,
                             days: int, nowMs: int, freshId: string) returns (r: Result<Grant, AdapterError>)
      modifies this
      ensures Provisioned(r, clients) == Provision(host, link, old(clients), hostName, email, days, nowMs, freshId)
    {
      if host.None? {
        return Err(HostNotFound);
      }
      if link == LoginFailed {
        return Err(ConnectionFailed);
      }
      if link == InboundMissing {
        return Err(InboundNotFound);
      }
      var index := FindClient(clients, email);
      var updated, uuid, expiry;
      if index != -1 {
        var existing := clients[index];
        if existing.expiryMs > nowMs {
          expiry := existing.expiryMs + days * DAY_MS;
        } else {
          expiry := nowMs + days * DAY_MS;
        }
        uuid := existing.id;
        updated := clients[index := existing.(expiryMs := expiry, enable := true)];
      } else {
        expiry := nowMs + days * DAY_MS;
        uuid := freshId;
        updated := clients + [Client(freshId, email, true, FLOW, expiry)];
      }
      if link.RequestFailed? {
        return Err(PanelFailure(link.message));
      }
      clients := updated;
      if link.WrittenThenFailed? {
        return Err(PanelFailure(link.message));
      }
      r := Ok(Grant(uuid, email, expiry, hostName));
    }
  }

  /** The `settings` part of an inbound's Reality settings. */
  datatype KeySettings = KeySettings(publicKey: Option<string>, fingerprint: Option<string>)

  /** An inbound's Reality settings; a missing list is the empty list. */
  datatype RealitySettings = RealitySettings(settings: Option<KeySettings>, serverNames: seq<string>, shortIds: seq<string>)

  datatype InboundView = InboundView(port: int, reality: RealitySettings)

  /** How an f-string renders an optional value: `None` as the text "None". */
  function Show(s: Option<string>): string
  {
    if s.Some? then s.value else "None"
  }

  predicate Truthy(s: Option<string>) { s.Some? && s.value != [] }

  /** The VLESS link for a client, given the hostname parsed out of the host URL. */
  function ConnectionString(inbound: Option<InboundView>, userUuid: string, urlHostname: Option<string>,
                            remark: string): (r: Option<string>)
    ensures r.Some? <==>
              && inbound.Some? && inbound.value.reality.settings.Some?
              && Truthy(inbound.value.reality.settings.value.publicKey)
              && inbound.value.reality.serverNames != [] && inbound.value.reality.shortIds != []
  {
    if inbound.None? || inbound.value.reality.settings.None? then None
    else
      var reality := inbound.value.reality;
      var keys := reality.settings.value;
      if !Truthy(keys.publicKey) || reality.serverNames == [] || reality.shortIds == [] then None
      else Some("vless://" + (userUuid + "@" + Endpoint(inbound.value.port, keys, reality, urlHostname, remark)))
  }

  /** What follows the `@` of a VLESS link: address, port, Reality parameters, flow and remark. */
  function Endpoint(port: int, keys: KeySettings, reality: RealitySettings, urlHostname: Option<string>,
                    remark: string): string
    requires keys.publicKey.Some? && reality.serverNames != [] && reality.shortIds != []
  {
    Show(urlHostname) + ":" + IntToDecimal(port)
    + "?type=tcp&security=reality&pbk=" + keys.publicKey.value + "&fp=" + Show(keys.fingerprint)
    + "&sni=" + reality.serverNames[0] + "&sid=" + reality.shortIds[0]
    + "&spx=%2F&flow=" + FLOW + "#" + remark
  }

  /** The client id a VLESS link names: what lies between `vless://` and the first `@`. */
  function LinkUuid(link: string): Option<string>
  {
    if StartsWith(link, "vless://") then Some(SplitWhere(link[8..], {'@'})[0]) else None
  }

  /** A link built for a client names that client's id. */
  lemma ConnectionStringNamesClient(inbound: Option<InboundView>, userUuid: string, urlHostname: Option<string>,
                                    remark: string)
    requires forall i | 0 <= i < |userUuid| :: userUuid[i] != '@'
    requires ConnectionString(inbound, userUuid, urlHostname, remark).Some?
    ensures LinkUuid(ConnectionString(inbound, userUuid, urlHostname, remark).value) == Some(userUuid)
  {
    var link := ConnectionString(inbound, userUuid, urlHostname, remark).value;
    var reality := inbound.value.reality;
    var rest := Endpoint(inbound.value.port, reality.settings.value, reality, urlHostname, remark);
    Seam("vless://", userUuid + ['@'] + rest);
    SplitAfterHead(userUuid, '@', rest, {'@'});
  }

  /**
   * A link built for a client starts with its id, the panel's address and port
   * and the public key, and ends with the first server name, the first short id,
   * the flow and the remark.
   */
  lemma ConnectionStringParameters(inbound: Option<InboundView>, userUuid: string, urlHostname: Option<string>,
                                   remark: string)
    requires ConnectionString(inbound, userUuid, urlHostname, remark).Some?
    ensures var link := ConnectionString(inbound, userUuid, urlHostname, remark).value;
            var reality := inbound.value.reality;
            var head := "vless://" + userUuid + "@" + Show(urlHostname) + ":" + IntToDecimal(inbound.value.port)
                        + "?type=tcp&security=reality&pbk=" + reality.settings.value.publicKey.value + "&fp=";
            var tail := "&sni=" + reality.serverNames[0] + "&sid=" + reality.shortIds[0]
                        + "&spx=%2F&flow=" + FLOW + "#" + remark;
            && StartsWith(link, head)
            && |head| + |tail| <= |link| && link[|link| - |tail|..] == tail
  {
    var reality := inbound.value.reality;
    var keys := reality.settings.value;
    LinkRegroups("vless://", userUuid, "@", Show(urlHostname), ":", IntToDecimal(inbound.value.port),
                 "?type=tcp&security=reality&pbk=", keys.publicKey.value, "&fp=", Show(keys.fingerprint),
                 "&sni=", reality.serverNames[0], "&sid=", reality.shortIds[0], "&spx=%2F&flow=", FLOW, "#", remark);
  }

  /** A link `v + (u + at + e)` read as a head up to `&fp=`, the fingerprint, and a tail from `&sni=` on. */
  lemma LinkRegroups(v: string, u: string, at: string, host: string, colon: string, port: string,
                     query: string, pbk: string, fpKey: string, fp: string, sniKey: string, sni: string,
                     sidKey: string, sid: string, flowKey: string, flow: string, hash: string, remark: string)
    ensures var link := v + (u + at + (host + colon + port + query + pbk + fpKey + fp + sniKey + sni + sidKey + sid
                                       + flowKey + flow + hash + remark));
            var head := v + u + at + host + colon + port + query + pbk + fpKey;
            var tail := sniKey + sni + sidKey + sid + flowKey + flow + hash + remark;
            && StartsWith(link, head)
            && |head| + |tail| <= |link| && link[|link| - |tail|..] == tail
  {
    var head := v + u + at + host + colon + port + query + pbk + fpKey;
    var tail := sniKey + sni + sidKey + sid + flowKey + flow + hash + remark;
    var link := v + (u + at + (host + colon + port + query + pbk + fpKey + fp + sniKey + sni + sidKey + sid
                               + flowKey + flow + hash + remark));
    assert link == head + fp + tail;
  }
}
