/**
 * Checkout and fulfilment: the card checkout that prices a plan and records
 * a pending payment, and `process_successful_payment`, which provisions a
 * key on the panel and then writes the ledger.
 */
module Payments {
  import opened Wrappers
  import opened Labels
  import opened Pricing
  import opened Panel
  import opened Ledger
  import opened Store

  datatype CheckoutError = PlanNotFound | UserNotFound | ProviderFailed

  /** The outcome of a checkout and the tables afterwards. */
  datatype Invoiced = Invoiced(result: Result<Metadata, CheckoutError>, tables: Tables)

  /**
   * The card checkout: a known plan and a known user, priced with the
   * referral discount; once the provider accepts the payment, a pending row
   * is stored under its id. The metadata returned is what the provider is
   * given and echoes back when the payment succeeds.
   */
  function YookassaCheckout(t: Tables, planId: int, userId: int, discount: Percent, paymentId: string,
                            providerOk: bool): (c: Invoiced)
    ensures c.result.Ok? <==> planId in t.plans && userId in t.users && providerOk
    ensures c.result.Err? ==> c.tables == t
    ensures c.result.Ok? ==>
              var plan, user, m := t.plans[planId], t.users[userId], c.result.value;
              && m.priceKop == ReferralPrice(plan.priceKop, user.referredBy, user.totalSpentKop, discount)
              && m == Metadata(userId, planId, plan.hostName, "new", plan.months, m.priceKop,
                               Some("yookassa"), Some(paymentId))
              && c.tables == t.(webhooks := t.webhooks[paymentId := WebhookRow(userId, m.priceKop,
                                                                   m.(paymentId := None), "pending", false)])
              && GetWebhookTransaction(c.tables, paymentId)
                 == Some(WebhookRow(userId, m.priceKop, m.(paymentId := None), "pending", false))
  {
    if planId !in t.plans then Invoiced(Err(PlanNotFound), t)
    else if userId !in t.users then Invoiced(Err(UserNotFound), t)
    else
      var plan, user := t.plans[planId], t.users[userId];
      var price := ReferralPrice(plan.priceKop, user.referredBy, user.totalSpentKop, discount);
      var m := Metadata(userId, planId, plan.hostName, "new", plan.months, price, Some("yookassa"), Some(paymentId));
      if !providerOk then Invoiced(Err(ProviderFailed), t)
      else Invoiced(Ok(m), CreateWebhookTransaction(t, paymentId, userId, price, m.(paymentId := None)))
  }

  method PayYookassa(db: Database, planId: int, userId: int, discount: Percent, paymentId: string,
                     providerOk: bool) returns (r: Result<Metadata, CheckoutError>)
    modifies db
    ensures Invoiced(r, db.State()) == YookassaCheckout(old(db.State()), planId, userId, discount, paymentId, providerOk)
  {
    var plan := GetPlan(db.State(), planId);
    var user := GetUser(db.State(), userId);
    if plan.None? {
      return Err(PlanNotFound);
    }
    if user.None? {
      return Err(UserNotFound);
    }
    var price := ReferralPrice(plan.value.priceKop, user.value.referredBy, user.value.totalSpentKop, discount);
    r := Ok(Metadata(userId, planId, plan.value.hostName, "new", plan.value.months, price,
                     Some("yookassa"), Some(paymentId)));
    if !providerOk {
      return Err(ProviderFailed);
    }
    db.CreateWebhookTransaction(paymentId, userId, price, r.value.(paymentId := None));
  }

  datatype Outcome =
    | InvalidPaymentData                 // the plan or the user is unknown
    | ProvisionFailed(error: AdapterError)
    | Fulfilled(keyId: nat, keyNumber: int, grant: Grant)
    | NotPending                         // used only by FulfilOnce

  /** The tables, the panel inbound's client list and the outcome after handling one payment. */
  datatype Fulfilment = Fulfilment(tables: Tables, clients: seq<Client>, outcome: Outcome)

  /** `metadata.get('payment_method', 'unknown')`. */
  function MethodOf(m: Metadata): (r: string)
    ensures m.paymentMethod.Some? ==> r == m.paymentMethod.value
    ensures m.paymentMethod.None? ==> r == "unknown"
  {
    if m.paymentMethod.Some? then m.paymentMethod.value else "unknown"
  }

  /**
   * `process_successful_payment`: with a known plan and user, label the
   * user's next key, provision it on the panel for `months * 30` days and,
   * only if that succeeded, add the key row, add to the user's totals and
   * log a `paid` transaction. `action` plays no part: "renew" labels a fresh
   * key exactly as "new" does. The referral reward is computed by the source
   * and then dropped, so no balance changes. A failure after the panel write
   * leaves the written client list on the panel and the ledger untouched.
   */
  function Fulfil(t: Tables, clients: seq<Client>, m: Metadata, link: Link, nowMs: int, freshId: string): (f: Fulfilment)
    ensures f.outcome == InvalidPaymentData <==> m.planId !in t.plans || m.userId !in t.users
    ensures f.outcome.Fulfilled? <==>
              m.planId in t.plans && m.userId in t.users && m.hostName in t.hosts && link == Linked
    ensures !f.outcome.Fulfilled? ==> f.tables == t
    ensures !f.outcome.Fulfilled? && !link.WrittenThenFailed? ==> f.clients == clients
    ensures !f.outcome.NotPending?
  {
    if m.planId !in t.plans || m.userId !in t.users then Fulfilment(t, clients, InvalidPaymentData)
    else
      var user := t.users[m.userId];
      var keyNumber := NextKeyNumber(t, m.userId);
      var email := KeyLabel(m.userId, keyNumber, m.hostName);
      var p := Provision(GetHost(t, m.hostName), link, clients, m.hostName, email, PlanDays(m.months), nowMs, freshId);
      if p.result.Err? then Fulfilment(t, p.clients, ProvisionFailed(p.result.error))
      else
        var g := p.result.value;
        var t1 := AddKey(t, m.userId, m.hostName, g.clientUuid, email, g.expiryMs);
        var t2 := UpdateUserStats(t1, m.userId, m.priceKop, m.months);
        var t3 := LogTransaction(t2, user.username, m.userId, "paid", m.priceKop, MethodOf(m), m);
        Fulfilment(t3, p.clients, Fulfilled(t.nextKeyId, keyNumber, g))
  }

  /**
   * A fulfilled payment adds exactly one key row, labelled with the user's
   * next key number and carrying the panel's id and expiry; adds the price and
   * months to the user's totals and nothing else to any user (no referral
   * balance moves); appends exactly one `paid` transaction; and writes the
   * upserted client list to the panel.
   */
  lemma FulfilledEffects(t: Tables, clients: seq<Client>, m: Metadata, link: Link, nowMs: int, freshId: string)
    requires Fulfil(t, clients, m, link, nowMs, freshId).outcome.Fulfilled?
    ensures var f := Fulfil(t, clients, m, link, nowMs, freshId);
            var user := t.users[m.userId];
            var n := f.outcome.keyNumber;
            var g := f.outcome.grant;
            var keyEmail := KeyLabel(m.userId, n, m.hostName);
            var u := Upsert(clients, keyEmail, PlanDays(m.months), nowMs, freshId);
            && n == |UserKeys(t.keys, m.userId)| + 1
            && g == Grant(u.uuid, keyEmail, u.expiryMs, m.hostName)
            && f.clients == u.clients
            && f.outcome.keyId == t.nextKeyId
            && f.tables.nextKeyId == t.nextKeyId + 1
            && f.tables.keys == t.keys + [KeyRow(t.nextKeyId, m.userId, m.hostName, g.clientUuid, keyEmail, g.expiryMs)]
            && f.tables.users == t.users[m.userId := user.(totalSpentKop := user.totalSpentKop + m.priceKop,
                                                           totalMonths := user.totalMonths + m.months)]
            && (forall id | id in t.users :: f.tables.users[id].referralBalanceKop == t.users[id].referralBalanceKop)
            && f.tables.transactions
               == t.transactions + [Transaction(user.username, m.userId, "paid", m.priceKop, MethodOf(m), m)]
            && f.tables.webhooks == t.webhooks && f.tables.hosts == t.hosts && f.tables.plans == t.plans
  {
  }

  /**
   * The grant's expiry: a label new to the inbound gets a new client with
   * the fresh id, expiring `months * 30` days from now; an existing client
   * keeps its id, and its expiry is stacked if still active or restarted from now.
   */
  lemma FulfilledExpiry(t: Tables, clients: seq<Client>, m: Metadata, link: Link, nowMs: int, freshId: string)
    requires Fulfil(t, clients, m, link, nowMs, freshId).outcome.Fulfilled?
    ensures var f := Fulfil(t, clients, m, link, nowMs, freshId);
            var g := f.outcome.grant;
            var days := PlanDays(m.months);
            var i := IndexOfEmail(clients, g.email);
            && (i.None? ==> g.clientUuid == freshId && g.expiryMs == nowMs + days * DAY_MS
                            && f.clients == clients + [Client(freshId, g.email, true, FLOW, g.expiryMs)])
            && (i.Some? && clients[i.value].expiryMs > nowMs ==>
                  g.clientUuid == clients[i.value].id && g.expiryMs == clients[i.value].expiryMs + days * DAY_MS)
            && (i.Some? && clients[i.value].expiryMs <= nowMs ==>
                  g.clientUuid == clients[i.value].id && g.expiryMs == nowMs + days * DAY_MS)
  {
    FulfilledEffects(t, clients, m, link, nowMs, freshId);
    var f := Fulfil(t, clients, m, link, nowMs, freshId);
    var u := Upsert(clients, f.outcome.grant.email, PlanDays(m.months), nowMs, freshId);
    if IndexOfEmail(clients, f.outcome.grant.email).None? {
      assert f.clients == clients + [Client(freshId, f.outcome.grant.email, true, FLOW, u.expiryMs)];
    }
  }

  /** Fulfilment keeps the key-id invariant of the tables. */
  lemma FulfilKeepsValid(t: Tables, clients: seq<Client>, m: Metadata, link: Link, nowMs: int, freshId: string)
    requires Valid(t)
    ensures Valid(Fulfil(t, clients, m, link, nowMs, freshId).tables)
  {
    var f := Fulfil(t, clients, m, link, nowMs, freshId);
    if f.outcome.Fulfilled? {
      FulfilledEffects(t, clients, m, link, nowMs, freshId);
      var g := f.outcome.grant;
      AddKeyKeepsValid(t, m.userId, m.hostName, g.clientUuid, g.email, g.expiryMs);
    }
  }

  /** The label depends on the user, the key number and the host only, never on `action`. */
  lemma FulfilIgnoresAction(t: Tables, clients: seq<Client>, m: Metadata, action: string, link: Link,
                            nowMs: int, freshId: string)
    ensures var f1, f2 := Fulfil(t, clients, m, link, nowMs, freshId),
                          Fulfil(t, clients, m.(action := action), link, nowMs, freshId);
            f1.outcome == f2.outcome && f1.clients == f2.clients && f1.tables.keys == f2.tables.keys
            && f1.tables.users == f2.tables.users
  {
  }

  /**
   * After a fulfilled payment the same user's next payment targets another
   * label, so a second purchase (also one meant as a renewal) creates a
   * second client rather than extending the first.
   */
  lemma NextPaymentTargetsNewLabel(t: Tables, clients: seq<Client>, m: Metadata, link: Link, nowMs: int,
                                   freshId: string)
    requires Fulfil(t, clients, m, link, nowMs, freshId).outcome.Fulfilled?
    ensures var f := Fulfil(t, clients, m, link, nowMs, freshId);
            NextKeyNumber(f.tables, m.userId) == f.outcome.keyNumber + 1
            && KeyLabel(m.userId, NextKeyNumber(f.tables, m.userId), m.hostName) != f.outcome.grant.email
  {
    FulfilledEffects(t, clients, m, link, nowMs, freshId);
    var f := Fulfil(t, clients, m, link, nowMs, freshId);
    var g := f.outcome.grant;
    AddKeyNextNumber(t, m.userId, m.hostName, g.clientUuid, g.email, g.expiryMs, m.userId);
    var n := NextKeyNumber(f.tables, m.userId);
    if KeyLabel(m.userId, n, m.hostName) == g.email {
      KeyLabelInjective(m.userId, n, m.hostName, m.userId, f.outcome.keyNumber, m.hostName);
    }
  }

  /**
   * Nothing stops the same payment from being handled twice: a replayed
   * success notification adds a second key row and a second transaction
   * and charges the user's totals twice.
   */
  lemma ReplayAppliesTwice(t: Tables, clients: seq<Client>, m: Metadata, now1: int, id1: string,
                           now2: int, id2: string)
    requires Fulfil(t, clients, m, Linked, now1, id1).outcome.Fulfilled?
    ensures var f1 := Fulfil(t, clients, m, Linked, now1, id1);
            var f2 := Fulfil(f1.tables, f1.clients, m, Linked, now2, id2);
            && f2.outcome.Fulfilled?
            && |f2.tables.keys| == |t.keys| + 2
            && |f2.tables.transactions| == |t.transactions| + 2
            && f2.tables.users[m.userId].totalSpentKop == t.users[m.userId].totalSpentKop + 2 * m.priceKop
            && f2.tables.users[m.userId].totalMonths == t.users[m.userId].totalMonths + 2 * m.months
  {
    FulfilledEffects(t, clients, m, Linked, now1, id1);
    var f1 := Fulfil(t, clients, m, Linked, now1, id1);
    FulfilledEffects(f1.tables, f1.clients, m, Linked, now2, id2);
  }

  /**
   * A panel failure after the write: the payment is reported as failed and
   * the ledger is untouched, yet the panel keeps an enabled client under the
   * label the key would have had, with the days already added.
   */
  lemma FailureAfterWriteKeepsClient(t: Tables, clients: seq<Client>, m: Metadata, message: string, nowMs: int,
                                     freshId: string)
    requires m.planId in t.plans && m.userId in t.users && m.hostName in t.hosts
    ensures var f := Fulfil(t, clients, m, WrittenThenFailed(message), nowMs, freshId);
            var keyEmail := KeyLabel(m.userId, NextKeyNumber(t, m.userId), m.hostName);
            var k := IndexOfEmail(f.clients, keyEmail);
            && f.outcome == ProvisionFailed(PanelFailure(message))
            && f.tables == t
            && k.Some? && f.clients[k.value].enable
            && f.clients[k.value].expiryMs
               == Upsert(clients, keyEmail, PlanDays(m.months), nowMs, freshId).expiryMs
  {
    var keyEmail := KeyLabel(m.userId, NextKeyNumber(t, m.userId), m.hostName);
    UpsertFindsLabel(clients, keyEmail, PlanDays(m.months), nowMs, freshId);
  }

  /**
   * Fulfilment guarded by the payment's webhook row. A payment that carries
   * an id (a card payment) is fulfilled only while its row is unprocessed,
   * and its row is marked processed once a key is granted; a failed attempt
   * leaves the row pending for a retry. A payment without an id (a CryptoBot
   * invoice, which stores no row) is fulfilled as before, unguarded.
   */
  function FulfilOnce(t: Tables, clients: seq<Client>, m: Metadata, link: Link, nowMs: int, freshId: string)
    : (f: Fulfilment)
    ensures f.outcome == NotPending <==>
              m.paymentId.Some? && GetWebhookTransaction(t, m.paymentId.value).None?
    ensures f.outcome == NotPending ==> f.tables == t && f.clients == clients
    ensures m.paymentId.None? ==> f == Fulfil(t, clients, m, link, nowMs, freshId)
  {
    if m.paymentId.None? then Fulfil(t, clients, m, link, nowMs, freshId)
    else if GetWebhookTransaction(t, m.paymentId.value).None? then Fulfilment(t, clients, NotPending)
    else
      var f := Fulfil(t, clients, m, link, nowMs, freshId);
      if f.outcome.Fulfilled? then f.(tables := MarkWebhookProcessed(f.tables, m.paymentId.value)) else f
  }

  /**
   * Handling the same card payment again after it was fulfilled changes
   * nothing, whatever the panel answers this time.
   */
  lemma FulfilOnceIsIdempotent(t: Tables, clients: seq<Client>, m: Metadata, link1: Link, now1: int, id1: string,
                               link2: Link, now2: int, id2: string)
    requires FulfilOnce(t, clients, m, link1, now1, id1).outcome.Fulfilled?
    ensures var f1 := FulfilOnce(t, clients, m, link1, now1, id1);
            m.paymentId.Some? ==>
              FulfilOnce(f1.tables, f1.clients, m, link2, now2, id2) == Fulfilment(f1.tables, f1.clients, NotPending)
  {
    if m.paymentId.Some? {
      var f := Fulfil(t, clients, m, link1, now1, id1);
      FulfilledEffects(t, clients, m, link1, now1, id1);
      assert m.paymentId.value in f.tables.webhooks;
    }
  }

  /** A pending payment is fulfilled by the guarded version with the same effects, plus its row marked. */
  lemma FulfilOnceAgrees(t: Tables, clients: seq<Client>, m: Metadata, link: Link, nowMs: int, freshId: string)
    requires m.paymentId.Some? && GetWebhookTransaction(t, m.paymentId.value).Some?
    ensures var f, g := Fulfil(t, clients, m, link, nowMs, freshId), FulfilOnce(t, clients, m, link, nowMs, freshId);
            g == Fulfilment(if f.outcome.Fulfilled? then MarkWebhookProcessed(f.tables, m.paymentId.value) else t,
                            f.clients, f.outcome)
  {
  }

  /**
   * The referral discount is granted once: after the discounted purchase is
   * fulfilled (at a positive price), the next checkout of the same plan
   * charges the list price.
   */
  lemma DiscountOnlyOnce(t: Tables, planId: int, userId: int, discount: Percent, paymentId: string,
                         clients: seq<Client>, link: Link, nowMs: int, freshId: string, nextPaymentId: string)
    requires YookassaCheckout(t, planId, userId, discount, paymentId, true).result.Ok?
    requires t.users[userId].totalSpentKop >= 0
    requires var c := YookassaCheckout(t, planId, userId, discount, paymentId, true);
             c.result.value.priceKop > 0 && Fulfil(c.tables, clients, c.result.value, link, nowMs, freshId).outcome.Fulfilled?
    ensures var c := YookassaCheckout(t, planId, userId, discount, paymentId, true);
            var f := Fulfil(c.tables, clients, c.result.value, link, nowMs, freshId);
            var next := YookassaCheckout(f.tables, planId, userId, discount, nextPaymentId, true);
            && f.tables.users[userId].totalSpentKop == t.users[userId].totalSpentKop + c.result.value.priceKop
            && next.result.Ok?
            && next.result.value.priceKop == t.plans[planId].priceKop
  {
    var c := YookassaCheckout(t, planId, userId, discount, paymentId, true);
    FulfilledEffects(c.tables, clients, c.result.value, link, nowMs, freshId);
  }

  /**
   * `process_successful_payment` over the database and the panel inbound of
   * the payment's host: the same steps, in the same order, as `Fulfil`.
   */
  method ProcessSuccessfulPayment(db: Database, inbound: Inbound, m: Metadata, link: Link, nowMs: int,
                                  freshId: string) returns (outcome: Outcome)
    requires db.Valid()
    modifies db, inbound
    ensures db.Valid()
    ensures Fulfilment(db.State(), inbound.clients, outcome)
         == Fulfil(old(db.State()), old(inbound.clients), m, link, nowMs, freshId)
  {
    var plan := GetPlan(db.State(), m.planId);
    var user := GetUser(db.State(), m.userId);
    if plan.None? || user.None? {
      return InvalidPaymentData;
    }
    // "new" and every other action build the label the same way
    var keyNumber := NextKeyNumber(db.State(), m.userId);
    var email := KeyLabel(m.userId, keyNumber, m.hostName);
    var days := PlanDays(m.months);
    ghost var t := db.State();
    var result := inbound.CreateOrUpdateKey(GetHost(db.State(), m.hostName), link, m.hostName, email, days,
                                            nowMs, freshId);
    assert db.State() == t;
    if result.Err? {
      return ProvisionFailed(result.error);
    }
    var g := result.value;
    var keyId := db.AddKey(m.userId, m.hostName, g.clientUuid, email, g.expiryMs);
    ghost var t1 := db.State();
    db.UpdateUserStats(m.userId, m.priceKop, m.months);
    ghost var t2 := db.State();
    // the referral reward is computed and then discarded: no balance is credited
    db.LogTransaction(user.value.username, m.userId, "paid", m.priceKop, MethodOf(m), m);
    outcome := Fulfilled(keyId, keyNumber, g);
    assert t2 == UpdateUserStats(t1, m.userId, m.priceKop, m.months);
    assert Ledger.Valid(db.State()) by {
      assert db.keys == t1.keys && db.nextKeyId == t1.nextKeyId;
    }
  }
  /**
   * The corrected handler: look a card payment's webhook row up first,
   * fulfil it only while it is pending, and mark its row processed once a
   * key is granted.
   */
  method ProcessPaymentOnce(db: Database, inbound: Inbound, m: Metadata, link: Link, nowMs: int,
                            freshId: string) returns (outcome: Outcome)
    requires db.Valid()
    modifies db, inbound
    ensures db.Valid()
    ensures Fulfilment(db.State(), inbound.clients, outcome)
         == FulfilOnce(old(db.State()), old(inbound.clients), m, link, nowMs, freshId)
  {
    if m.paymentId.None? {
      outcome := ProcessSuccessfulPayment(db, inbound, m, link, nowMs, freshId);
      return;
    }
    if GetWebhookTransaction(db.State(), m.paymentId.value).None? {
      return NotPending;
    }
    FulfilOnceAgrees(db.State(), inbound.clients, m, link, nowMs, freshId);
    outcome := ProcessSuccessfulPayment(db, inbound, m, link, nowMs, freshId);
    if outcome.Fulfilled? {
      ghost var t := db.State();
      db.MarkWebhookProcessed(m.paymentId.value);
      assert db.State() == t.(webhooks := db.webhooks);
      assert db.State() == MarkWebhookProcessed(t, m.paymentId.value);
      assert Ledger.Valid(db.State()) by {
        assert db.keys == t.keys && db.nextKeyId == t.nextKeyId;
      }
    }
  }
}
