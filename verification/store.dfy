/**
 * The `Database` class: one field per table, each method changing exactly
 * what its SQL statement changes, as stated by the matching function of
 * `Ledger` on the tables before and after.
 */
module Store {
  import opened Wrappers
  import opened Panel
  import opened Ledger

  class Database {
    var users: map<int, User>
    var hosts: map<string, Host>
    var plans: map<int, Plan>
    var keys: seq<KeyRow>
    var nextKeyId: nat
    var transactions: seq<Transaction>
    var webhooks: map<string, WebhookRow>

    /** All tables at once. */
    function State(): Tables
      reads this
    {
      Tables(users, hosts, plans, keys, nextKeyId, transactions, webhooks)
    }

    predicate Valid()
      reads this
    {
      Ledger.Valid(State())
    }

    /** A fresh database: every table empty, key ids starting at 1. */
    constructor ()
      ensures State() == EMPTY && Valid()
    {
      users, hosts, plans := map[], map[], map[];
      keys, nextKeyId := [], 1;
      transactions, webhooks := [], map[];
    }

    method RegisterUser(telegramId: int, username: string, referrer: Option<int>)
      modifies this
      ensures State() == Ledger.RegisterUser(old(State()), telegramId, username, referrer)
    {
      if telegramId !in users {
        users := users[telegramId := NewUser(username, referrer)];
      }
    }

    method UpdateUserStats(telegramId: int, amountKop: int, months: int)
      modifies this
      ensures State() == Ledger.UpdateUserStats(old(State()), telegramId, amountKop, months)
    {
      if telegramId in users {
        var u := users[telegramId];
        users := users[telegramId := u.(totalSpentKop := u.totalSpentKop + amountKop,
                                         totalMonths := u.totalMonths + months)];
      }
    }

    method SetTermsAgreed(telegramId: int)
      modifies this
      ensures State() == SetUserFlag(old(State()), telegramId, AgreedToTerms, true)
    {
      if telegramId in users {
        users := users[telegramId := users[telegramId].(agreedToTerms := true)];
      }
    }

    method SetTrialUsed(telegramId: int)
      modifies this
      ensures State() == SetUserFlag(old(State()), telegramId, TrialUsed, true)
    {
      if telegramId in users {
        users := users[telegramId := users[telegramId].(trialUsed := true)];
      }
    }

    method BanUser(userId: int)
      modifies this
      ensures State() == SetUserFlag(old(State()), userId, Banned, true)
    {
      if userId in users {
        users := users[userId := users[userId].(isBanned := true)];
      }
    }

    method UnbanUser(userId: int)
      modifies this
      ensures State() == SetUserFlag(old(State()), userId, Banned, false)
    {
      if userId in users {
        users := users[userId := users[userId].(isBanned := false)];
      }
    }

    /** Inserts a key row and returns its id (`lastrowid`). */
    method AddKey(userId: int, hostName: string, clientUuid: string, email: string, expiryMs: int)
      returns (keyId: nat)
      requires Valid()
      modifies this
      ensures Valid()
      ensures keyId == old(nextKeyId)
      ensures State() == Ledger.AddKey(old(State()), userId, hostName, clientUuid, email, expiryMs)
    {
      AddKeyKeepsValid(State(), userId, hostName, clientUuid, email, expiryMs);
      keyId := nextKeyId;
      keys := keys + [KeyRow(keyId, userId, hostName, clientUuid, email, expiryMs)];
      nextKeyId := nextKeyId + 1;
    }

    method UpdateKeyExpiry(keyId: int, expiryMs: int)
      requires Valid()
      modifies this
      ensures Valid()
      ensures State() == Ledger.UpdateKeyExpiry(old(State()), keyId, expiryMs)
    {
      UpdateKeyExpiryKeepsValid(State(), keyId, expiryMs);
      keys := SetExpiry(keys, keyId, expiryMs);
    }

    method DeleteUserKeys(userId: int)
      requires Valid()
      modifies this
      ensures Valid()
      ensures State() == Ledger.DeleteUserKeys(old(State()), userId)
    {
      DeleteUserKeysKeepsValid(State(), userId);
      keys := DropUser(keys, userId);
    }

    method LogTransaction(username: string, userId: int, status: string, amountKop: int,
                          paymentMethod: string, metadata: Metadata)
      modifies this
      ensures State() == Ledger.LogTransaction(old(State()), username, userId, status, amountKop, paymentMethod, metadata)
    {
      transactions := transactions + [Transaction(username, userId, status, amountKop, paymentMethod, metadata)];
    }

    method CreateWebhookTransaction(paymentId: string, userId: int, amountKop: int, metadata: Metadata)
      modifies this
      ensures State() == Ledger.CreateWebhookTransaction(old(State()), paymentId, userId, amountKop, metadata)
    {
      webhooks := webhooks[paymentId := WebhookRow(userId, amountKop, metadata, "pending", false)];
    }

    method MarkWebhookProcessed(paymentId: string)
      modifies this
      ensures State() == Ledger.MarkWebhookProcessed(old(State()), paymentId)
    {
      if paymentId in webhooks {
        webhooks := webhooks[paymentId := webhooks[paymentId].(processed := true)];
      }
    }
  }
}
