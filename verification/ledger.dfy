/**
 * The bot's SQLite tables as values, and each `Database` operation as a
 * function from the tables before to the tables after. Money columns hold
 * kopecks.
 */
module Ledger {
  import opened Wrappers
  import opened Panel

  datatype User = User(
    username: string,
    agreedToTerms: bool,
    trialUsed: bool,
    totalSpentKop: int,
    totalMonths: int,
    referredBy: Option<int>,
    referralBalanceKop: int,
    isBanned: bool)

  datatype Plan = Plan(hostName: string, planName: string, months: int, priceKop: int)

  /** A row of `user_keys`: the local record of a client created on a panel. */
  datatype KeyRow = KeyRow(keyId: nat, userId: int, hostName: string, clientUuid: string, keyEmail: string, expiryMs: int)

  /** The purchase description attached to a payment and echoed back by the provider. */
  datatype Metadata = Metadata(
    userId: int,
    planId: int,
    hostName: string,
    action: string,
    months: int,
    priceKop: int,
    paymentMethod: Option<string>,
    paymentId: Option<string>)

  datatype Transaction = Transaction(username: string, userId: int, status: string, amountKop: int,
                                     paymentMethod: string, metadata: Metadata)

  /** A row of `webhook_transactions`, keyed by payment id. */
  datatype WebhookRow = WebhookRow(userId: int, amountKop: int, metadata: Metadata, status: string, processed: bool)

  datatype Tables = Tables(
    users: map<int, User>,
    hosts: map<string, Host>,
    plans: map<int, Plan>,
    keys: seq<KeyRow>,       // in insertion order
    nextKeyId: nat,          // the AUTOINCREMENT counter of user_keys
    transactions: seq<Transaction>,
    webhooks: map<string, WebhookRow>)

  /** Key ids are positive, below the counter, and increase in insertion order. */
  predicate Valid(t: Tables)
  {
    && t.nextKeyId >= 1
    && (forall i | 0 <= i < |t.keys| :: 1 <= t.keys[i].keyId < t.nextKeyId)
    && (forall i, j | 0 <= i < j < |t.keys| :: t.keys[i].keyId < t.keys[j].keyId)
  }

  const EMPTY: Tables := Tables(map[], map[], map[], [], 1, [], map[])

  // ---------- users ----------

  /** `SELECT * FROM users WHERE telegram_id = ?`: the stored row, or none. */
  function GetUser(t: Tables, userId: int): (r: Option<User>)
    ensures r.Some? <==> userId in t.users
    ensures r.Some? ==> r.value == t.users[userId]
  {
    if userId in t.users then Some(t.users[userId]) else None
  }

  /** A user as first registered: nothing spent, no flags, no balance. */
  function NewUser(username: string, referrer: Option<int>): User
  {
    User(username, false, false, 0, 0, referrer, 0, false)
  }

  /** `INSERT OR IGNORE`: a known user is left exactly as they were. */
  function RegisterUser(t: Tables, userId: int, username: string, referrer: Option<int>): (r: Tables)
    ensures userId in t.users ==> r == t
    ensures userId !in t.users ==> r == t.(users := t.users[userId := NewUser(username, referrer)])
  {
    if userId in t.users then t else t.(users := t.users[userId := NewUser(username, referrer)])
  }

  /** The referrer recorded at the first registration is the one that stays. */
  lemma RegisterKeepsFirstReferrer(t: Tables, userId: int, name1: string, ref1: Option<int>,
                                   name2: string, ref2: Option<int>)
    requires userId !in t.users
    ensures var r := RegisterUser(RegisterUser(t, userId, name1, ref1), userId, name2, ref2);
            r.users[userId].referredBy == ref1 && r.users[userId].username == name1
  {
  }

  /** `total_spent += amount, total_months += months` for a known user; nothing otherwise. */
  function UpdateUserStats(t: Tables, userId: int, amountKop: int, months: int): (r: Tables)
    ensures r.hosts == t.hosts && r.plans == t.plans && r.keys == t.keys && r.nextKeyId == t.nextKeyId
    ensures r.transactions == t.transactions && r.webhooks == t.webhooks
    ensures r.users.Keys == t.users.Keys
    ensures forall id | id in t.users && id != userId :: r.users[id] == t.users[id]
    ensures userId in t.users ==>
              var u, v := t.users[userId], r.users[userId];
              v == u.(totalSpentKop := v.totalSpentKop, totalMonths := v.totalMonths)
              && v.totalSpentKop - u.totalSpentKop == amountKop && v.totalMonths - u.totalMonths == months
  {
    if userId in t.users then
      var u := t.users[userId];
      t.(users := t.users[userId := u.(totalSpentKop := u.totalSpentKop + amountKop,
                                       totalMonths := u.totalMonths + months)])
    else t
  }

  /** Two stat updates add up to one update by the sums. */
  lemma StatsAccumulate(t: Tables, userId: int, a1: int, m1: int, a2: int, m2: int)
    ensures UpdateUserStats(UpdateUserStats(t, userId, a1, m1), userId, a2, m2)
         == UpdateUserStats(t, userId, a1 + a2, m1 + m2)
  {
  }

  datatype UserFlag = AgreedToTerms | TrialUsed | Banned

  /** `UPDATE users SET <flag> = <value>` for a known user; nothing otherwise. */
  function SetUserFlag(t: Tables, userId: int, flag: UserFlag, value: bool): (r: Tables)
    ensures r.users.Keys == t.users.Keys
    ensures r == t.(users := r.users)
    ensures forall id | id in t.users && id != userId :: r.users[id] == t.users[id]
    ensures userId in t.users ==>
              var u, v := t.users[userId], r.users[userId];
              && v.username == u.username && v.totalSpentKop == u.totalSpentKop
              && v.totalMonths == u.totalMonths && v.referredBy == u.referredBy
              && v.referralBalanceKop == u.referralBalanceKop
              && (flag == AgreedToTerms ==> v == u.(agreedToTerms := value))
              && (flag == TrialUsed ==> v == u.(trialUsed := value))
              && (flag == Banned ==> v == u.(isBanned := value))
  {
    if userId in t.users then
      var u := t.users[userId];
      var v := match flag
        case AgreedToTerms => u.(agreedToTerms := value)
        case TrialUsed => u.(trialUsed := value)
        case Banned => u.(isBanned := value);
      t.(users := t.users[userId := v])
    else t
  }

  // ---------- keys ----------

  /** `INSERT INTO user_keys`: one row appended under the next key id. */
  function AddKey(t: Tables, userId: int, hostName: string, clientUuid: string, email: string, expiryMs: int): (r: Tables)
    ensures |r.keys| == |t.keys| + 1 && r.keys[..|t.keys|] == t.keys
    ensures r.keys[|t.keys|] == KeyRow(t.nextKeyId, userId, hostName, clientUuid, email, expiryMs)
    ensures r.nextKeyId == t.nextKeyId + 1
    ensures r == t.(keys := r.keys, nextKeyId := r.nextKeyId)
  {
    t.(keys := t.keys + [KeyRow(t.nextKeyId, userId, hostName, clientUuid, email, expiryMs)],
       nextKeyId := t.nextKeyId + 1)
  }

  lemma AddKeyKeepsValid(t: Tables, userId: int, hostName: string, clientUuid: string, email: string, expiryMs: int)
    requires Valid(t)
    ensures Valid(AddKey(t, userId, hostName, clientUuid, email, expiryMs))
  {
  }

  /** The positions of the user's rows in the key table. */
  function UserRowIndices(keys: seq<KeyRow>, userId: int): set<int>
  {
    set i | 0 <= i < |keys| && keys[i].userId == userId
  }

  /**
   * `SELECT * FROM user_keys WHERE user_id = ?`, newest first: rows of the
   * user only, each taken from the table.
   */
  function UserKeys(keys: seq<KeyRow>, userId: int): (r: seq<KeyRow>)
    ensures forall k | 0 <= k < |r| :: r[k].userId == userId && r[k] in keys
  {
    if keys == [] then []
    else
      var n := |keys| - 1;
      (if keys[n].userId == userId then [keys[n]] else []) + UserKeys(keys[..n], userId)
  }

  /** Every row of the user is among the user's keys. */
  lemma {:induction false} UserKeysComplete(keys: seq<KeyRow>, userId: int)
    ensures forall k | 0 <= k < |keys| && keys[k].userId == userId :: keys[k] in UserKeys(keys, userId)
  {
    if keys != [] {
      var n := |keys| - 1;
      var before := keys[..n];
      UserKeysComplete(before, userId);
      forall k | 0 <= k < |keys| && keys[k].userId == userId ensures keys[k] in UserKeys(keys, userId) {
        if k < n {
          assert keys[k] == before[k];
        }
      }
    }
  }

  /** The user's row positions grow by the last position exactly when that row is the user's. */
  lemma UserRowIndicesSnoc(keys: seq<KeyRow>, userId: int)
    requires keys != []
    ensures var n := |keys| - 1;
            UserRowIndices(keys, userId)
              == UserRowIndices(keys[..n], userId) + (if keys[n].userId == userId then {n} else {})
  {
    var n := |keys| - 1;
    var a := UserRowIndices(keys, userId);
    var b := UserRowIndices(keys[..n], userId) + (if keys[n].userId == userId then {n} else {});
    forall i ensures i in a <==> i in b {
      if 0 <= i < n {
        assert keys[..n][i] == keys[i];
      }
    }
  }

  /** The user's keys are as many as the user's rows. */
  lemma {:induction false} UserKeysCount(keys: seq<KeyRow>, userId: int)
    ensures |UserKeys(keys, userId)| == |UserRowIndices(keys, userId)|
  {
    if keys != [] {
      var n := |keys| - 1;
      var older := UserRowIndices(keys[..n], userId);
      UserKeysCount(keys[..n], userId);
      UserRowIndicesSnoc(keys, userId);
      if keys[n].userId == userId {
        assert n !in older;
        assert |older + {n}| == |older| + 1;
      }
    }
  }

  /** Rows all below a bound give keys all below it. */
  lemma {:induction false} UserKeysBelow(keys: seq<KeyRow>, userId: int, bound: int)
    requires forall i | 0 <= i < |keys| :: keys[i].keyId < bound
    ensures forall k | 0 <= k < |UserKeys(keys, userId)| :: UserKeys(keys, userId)[k].keyId < bound
  {
    if keys != [] {
      var n := |keys| - 1;
      UserKeysBelow(keys[..n], userId, bound);
    }
  }

  /** Rows whose ids strictly decrease: newest first. */
  predicate NewestFirst(rows: seq<KeyRow>)
  {
    forall i, j | 0 <= i < j < |rows| :: rows[i].keyId > rows[j].keyId
  }

  /** A newer row in front of rows newest first keeps them newest first. */
  lemma PrependNewest(row: KeyRow, rest: seq<KeyRow>)
    requires NewestFirst(rest)
    requires forall k | 0 <= k < |rest| :: rest[k].keyId < row.keyId
    ensures NewestFirst([row] + rest)
  {
    var r := [row] + rest;
    forall i, j | 0 <= i < j < |r| ensures r[i].keyId > r[j].keyId {
      assert r[j] == rest[j - 1];
      if i > 0 {
        assert r[i] == rest[i - 1];
      }
    }
  }

  /** With increasing ids, the user's keys come newest first. */
  lemma {:induction false} UserKeysNewestFirst(keys: seq<KeyRow>, userId: int)
    requires IdsIncrease(keys)
    ensures NewestFirst(UserKeys(keys, userId))
  {
    if keys != [] {
      var n := |keys| - 1;
      var before := keys[..n];
      assert IdsIncrease(before);
      UserKeysNewestFirst(before, userId);
      if keys[n].userId == userId {
        UserKeysBelow(before, userId, keys[n].keyId);
        PrependNewest(keys[n], UserKeys(before, userId));
      }
    }
  }

  /** `COUNT(*)` of the user's rows, plus one. */
  function NextKeyNumber(t: Tables, userId: int): (n: int)
    ensures n == |UserRowIndices(t.keys, userId)| + 1
  {
    UserKeysCount(t.keys, userId);
    |UserKeys(t.keys, userId)| + 1
  }

  /** Adding a key moves its owner's next key number on by one and no one else's. */
  lemma AddKeyNextNumber(t: Tables, userId: int, hostName: string, clientUuid: string, email: string,
                         expiryMs: int, other: int)
    ensures var r := AddKey(t, userId, hostName, clientUuid, email, expiryMs);
            NextKeyNumber(r, other) == NextKeyNumber(t, other) + (if other == userId then 1 else 0)
  {
    var r := AddKey(t, userId, hostName, clientUuid, email, expiryMs);
    assert r.keys[..|r.keys| - 1] == t.keys;
  }

  function FindKey(keys: seq<KeyRow>, keyId: int): (r: Option<KeyRow>)
    ensures r.Some? ==> r.value in keys && r.value.keyId == keyId
    ensures r.None? ==> forall i | 0 <= i < |keys| :: keys[i].keyId != keyId
  {
    if keys == [] then None
    else if keys[0].keyId == keyId then Some(keys[0])
    else FindKey(keys[1..], keyId)
  }

  /** `SELECT * FROM user_keys WHERE key_id = ?`: a row with the id, or none when no row has it. */
  function GetKeyById(t: Tables, keyId: int): (r: Option<KeyRow>)
    ensures r.Some? ==> r.value in t.keys && r.value.keyId == keyId
    ensures r.None? ==> forall i | 0 <= i < |t.keys| :: t.keys[i].keyId != keyId
  {
    FindKey(t.keys, keyId)
  }

  /** The key just added is the one its id finds. */
  lemma GetAddedKey(t: Tables, userId: int, hostName: string, clientUuid: string, email: string, expiryMs: int)
    requires Valid(t)
    ensures GetKeyById(AddKey(t, userId, hostName, clientUuid, email, expiryMs), t.nextKeyId)
         == Some(KeyRow(t.nextKeyId, userId, hostName, clientUuid, email, expiryMs))
  {
    var r := AddKey(t, userId, hostName, clientUuid, email, expiryMs);
    var row := KeyRow(t.nextKeyId, userId, hostName, clientUuid, email, expiryMs);
    FindKeyOfUnique(r.keys, |t.keys|);
  }

  lemma {:induction false} FindKeyOfUnique(keys: seq<KeyRow>, i: nat)
    requires i < |keys|
    requires forall j | 0 <= j < |keys| && j != i :: keys[j].keyId != keys[i].keyId
    ensures FindKey(keys, keys[i].keyId) == Some(keys[i])
  {
    if i > 0 {
      FindKeyOfUnique(keys[1..], i - 1);
    }
  }

  /** `UPDATE user_keys SET expiry_date = ? WHERE key_id = ?`. */
  function SetExpiry(keys: seq<KeyRow>, keyId: int, expiryMs: int): (r: seq<KeyRow>)
    ensures |r| == |keys|
    ensures forall i | 0 <= i < |keys| ::
              r[i] == if keys[i].keyId == keyId then keys[i].(expiryMs := expiryMs) else keys[i]
  {
    if keys == [] then []
    else [if keys[0].keyId == keyId then keys[0].(expiryMs := expiryMs) else keys[0]]
         + SetExpiry(keys[1..], keyId, expiryMs)
  }

  /** `UPDATE user_keys SET expiry_date = ? WHERE key_id = ?`: only that row's expiry changes. */
  function UpdateKeyExpiry(t: Tables, keyId: int, expiryMs: int): (r: Tables)
    ensures r == t.(keys := r.keys) && |r.keys| == |t.keys|
    ensures forall i | 0 <= i < |t.keys| && t.keys[i].keyId == keyId :: r.keys[i] == t.keys[i].(expiryMs := expiryMs)
    ensures forall i | 0 <= i < |t.keys| && t.keys[i].keyId != keyId :: r.keys[i] == t.keys[i]
  {
    t.(keys := SetExpiry(t.keys, keyId, expiryMs))
  }

  lemma UpdateKeyExpiryKeepsValid(t: Tables, keyId: int, expiryMs: int)
    requires Valid(t)
    ensures Valid(UpdateKeyExpiry(t, keyId, expiryMs))
  {
  }

  /** The rows of every other user, in their original order. */
  function DropUser(keys: seq<KeyRow>, userId: int): (r: seq<KeyRow>)
    ensures forall k | 0 <= k < |r| :: r[k].userId != userId && r[k] in keys
    ensures forall k | 0 <= k < |keys| && keys[k].userId != userId :: keys[k] in r
  {
    if keys == [] then []
    else (if keys[0].userId == userId then [] else [keys[0]]) + DropUser(keys[1..], userId)
  }

  /** `DELETE FROM user_keys WHERE user_id = ?`: the user's rows go, every other row stays. */
  function DeleteUserKeys(t: Tables, userId: int): (r: Tables)
    ensures r == t.(keys := r.keys)
    ensures forall k | 0 <= k < |r.keys| :: r.keys[k].userId != userId && r.keys[k] in t.keys
    ensures forall k | 0 <= k < |t.keys| && t.keys[k].userId != userId :: t.keys[k] in r.keys
  {
    t.(keys := DropUser(t.keys, userId))
  }

  predicate IdsIncrease(keys: seq<KeyRow>)
  {
    forall i, j | 0 <= i < j < |keys| :: keys[i].keyId < keys[j].keyId
  }

  lemma {:induction false} DropUserKeepsOrder(keys: seq<KeyRow>, userId: int)
    requires IdsIncrease(keys)
    ensures IdsIncrease(DropUser(keys, userId))
  {
    if keys != [] {
      var tail := keys[1..];
      DropUserKeepsOrder(tail, userId);
      assert forall row | row in tail :: keys[0].keyId < row.keyId by {
        forall row | row in tail ensures keys[0].keyId < row.keyId {
          var j :| 0 <= j < |tail| && tail[j] == row;
          assert keys[j + 1] == row;
        }
      }
    }
  }

  lemma DeleteUserKeysKeepsValid(t: Tables, userId: int)
    requires Valid(t)
    ensures Valid(DeleteUserKeys(t, userId))
    ensures NextKeyNumber(DeleteUserKeys(t, userId), userId) == 1
  {
    DropUserKeepsOrder(t.keys, userId);
    var r := DeleteUserKeys(t, userId);
    forall i | 0 <= i < |r.keys| ensures 1 <= r.keys[i].keyId < r.nextKeyId {
      assert r.keys[i] in t.keys;
    }
    UserKeysOfOthers(r.keys, userId);
  }

  lemma {:induction false} UserKeysOfOthers(keys: seq<KeyRow>, userId: int)
    requires forall k | 0 <= k < |keys| :: keys[k].userId != userId
    ensures UserKeys(keys, userId) == []
  {
    if keys != [] {
      UserKeysOfOthers(keys[..|keys| - 1], userId);
    }
  }

  // ---------- hosts and plans ----------

  /** `SELECT * FROM hosts WHERE host_name = ?`: the stored row, or none. */
  function GetHost(t: Tables, hostName: string): (r: Option<Host>)
    ensures r.Some? <==> hostName in t.hosts
    ensures r.Some? ==> r.value == t.hosts[hostName]
  {
    if hostName in t.hosts then Some(t.hosts[hostName]) else None
  }

  /** `SELECT * FROM plans WHERE plan_id = ?`: the stored row, or none. */
  function GetPlan(t: Tables, planId: int): (r: Option<Plan>)
    ensures r.Some? <==> planId in t.plans
    ensures r.Some? ==> r.value == t.plans[planId]
  {
    if planId in t.plans then Some(t.plans[planId]) else None
  }

  // ---------- transactions ----------

  /** `INSERT INTO transactions`: the log only ever grows at its end. */
  function LogTransaction(t: Tables, username: string, userId: int, status: string, amountKop: int,
                          paymentMethod: string, metadata: Metadata): (r: Tables)
    ensures r == t.(transactions := r.transactions)
    ensures |r.transactions| == |t.transactions| + 1 && r.transactions[..|t.transactions|] == t.transactions
    ensures r.transactions[|t.transactions|] == Transaction(username, userId, status, amountKop, paymentMethod, metadata)
  {
    t.(transactions := t.transactions + [Transaction(username, userId, status, amountKop, paymentMethod, metadata)])
  }

  /** The user's most recent transaction. */
  function LatestTransaction(log: seq<Transaction>, userId: int): (r: Option<Transaction>)
    ensures r.Some? ==> r.value.userId == userId
    ensures r.None? ==> forall i | 0 <= i < |log| :: log[i].userId != userId
    ensures r.Some? ==> exists i | 0 <= i < |log| :: log[i] == r.value
                          && forall j | i < j < |log| :: log[j].userId != userId
  {
    if log == [] then None
    else if log[|log| - 1].userId == userId then Some(log[|log| - 1])
    else
      var before := log[..|log| - 1];
      var r := LatestTransaction(before, userId);
      if r.Some? then
        ghost var i :| 0 <= i < |before| && before[i] == r.value
                       && forall j | i < j < |before| :: before[j].userId != userId;
        assert log[i] == r.value;
        r
      else r
  }

  // ---------- webhook transactions ----------

  /** `INSERT OR REPLACE INTO webhook_transactions`: a pending, unprocessed row under the id. */
  function CreateWebhookTransaction(t: Tables, paymentId: string, userId: int, amountKop: int, metadata: Metadata)
    : (r: Tables)
    ensures r == t.(webhooks := r.webhooks)
    ensures r.webhooks.Keys == t.webhooks.Keys + {paymentId}
    ensures r.webhooks[paymentId] == WebhookRow(userId, amountKop, metadata, "pending", false)
    ensures forall id | id in t.webhooks && id != paymentId :: r.webhooks[id] == t.webhooks[id]
  {
    t.(webhooks := t.webhooks[paymentId := WebhookRow(userId, amountKop, metadata, "pending", false)])
  }

  /** The row under the id, only while it is unprocessed. */
  function GetWebhookTransaction(t: Tables, paymentId: string): (r: Option<WebhookRow>)
    ensures r.Some? <==> paymentId in t.webhooks && !t.webhooks[paymentId].processed
    ensures r.Some? ==> r.value == t.webhooks[paymentId]
  {
    if paymentId in t.webhooks && !t.webhooks[paymentId].processed then Some(t.webhooks[paymentId]) else None
  }

  /** `UPDATE webhook_transactions SET processed = 1 WHERE payment_id = ?`. */
  function MarkWebhookProcessed(t: Tables, paymentId: string): (r: Tables)
    ensures r == t.(webhooks := r.webhooks)
    ensures r.webhooks.Keys == t.webhooks.Keys
    ensures paymentId in t.webhooks ==> r.webhooks[paymentId] == t.webhooks[paymentId].(processed := true)
    ensures forall id | id in t.webhooks && id != paymentId :: r.webhooks[id] == t.webhooks[id]
  {
    if paymentId in t.webhooks then
      t.(webhooks := t.webhooks[paymentId := t.webhooks[paymentId].(processed := true)])
    else t
  }

  /**
   * A created row is pending, a processed row is never returned again, and
   * other payment ids are untouched.
   */
  lemma WebhookLifecycle(t: Tables, paymentId: string, userId: int, amountKop: int, metadata: Metadata, other: string)
    requires other != paymentId
    ensures GetWebhookTransaction(CreateWebhookTransaction(t, paymentId, userId, amountKop, metadata), paymentId)
         == Some(WebhookRow(userId, amountKop, metadata, "pending", false))
    ensures GetWebhookTransaction(MarkWebhookProcessed(t, paymentId), paymentId) == None
    ensures GetWebhookTransaction(MarkWebhookProcessed(t, paymentId), other) == GetWebhookTransaction(t, other)
    ensures GetWebhookTransaction(CreateWebhookTransaction(t, paymentId, userId, amountKop, metadata), other)
         == GetWebhookTransaction(t, other)
  {
  }
}
