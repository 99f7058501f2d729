# VLESS bot provisioning and ledger, in Dafny

`vlessslarkl/bot.py` is a Telegram bot that sells VLESS keys. A user picks a
host (a 3x-ui panel) and a plan; the bot prices it, with a one-off discount
for referred users, and records a pending payment. When the provider reports
success, the bot creates a client on the panel's inbound, or renews the
client of the same label. It then writes the key, the user's totals and a
`paid` transaction into SQLite.

This project models that core:

- `text.dfy` (`Text`): decimal rendering and `int()` parsing, `str.strip`,
  `str.split` with and without a separator, and ASCII `lower`.
- `labels.dfy` (`Labels`): client labels and plan durations.
- `commands.dfy` (`Commands`): the referrer of `/start ref_<id>` and the
  fields of inline-button callback data.
- `pricing.dfy` (`Pricing`): the referral discount, with half-even rounding
  to the kopeck.
- `panel.dfy` (`Panel`): the inbound's client list and the create-or-renew
  upsert. The list is a class `Inbound` whose method is proved against the
  function `Provision`. Also the VLESS link builder.
- `ledger.dfy` (`Ledger`): the database tables as values, with each
  `Database` operation as a function on them.
- `store.dfy` (`Store`): the class `Database`, one field per table. Each
  method is proved to change the state exactly as its `Ledger` function says.
- `payments.dfy` (`Payments`): the card checkout and
  `process_successful_payment`. Both are given as functions (`YookassaCheckout`,
  `Fulfil`) and as methods over `Database` and `Inbound`.

Conventions used throughout:

- Money is integer kopecks.
- Time is an integer count of milliseconds, `nowMs`, passed in.
- A plan of `m` months grants `m * 30` days of `86 400 000` ms each.
- What the panel answered during a provisioning attempt is a parameter
  (`Link`), and so is the id a new client gets.

## Model

| member | source | states |
|---|---|---|
| Text.NatToDecimal | vlessslarkl/bot.py:1041 | `str()` of a natural number is non-empty, all digits, with no leading zero |
| Text.IntToDecimal | vlessslarkl/bot.py:1041 | `str()` of an integer starts with `-` exactly when it is negative; every other character is a digit |
| Text.DigitsValueOfDecimal | vlessslarkl/bot.py:1041 | reading back the digits of `str(n)` gives `n` |
| Text.ParseIntOfDecimal | vlessslarkl/bot.py:692 | `int(str(n)) == n` for every integer |
| Text.DecimalInjective | vlessslarkl/bot.py:1041 | distinct integers render to distinct decimals |
| Text.Strip | vlessslarkl/bot.py:692 | `int()` ignores surrounding whitespace: the stripped text neither starts nor ends with whitespace and is no longer than the input |
| Text.StripTrims | vlessslarkl/bot.py:692 | the stripped text is a slice of the input, and everything outside that slice is whitespace |
| Text.ParseInt | vlessslarkl/bot.py:692 | `int()` gives an integer exactly when the stripped text is a non-empty run of digits, optionally after one `+` or `-` (`SignedDigits`); `1x`, `1.5`, `+` and the empty text give none |
| Text.StripUnpadded | vlessslarkl/bot.py:692 | stripping text with no surrounding whitespace returns it unchanged |
| Text.SplitWhere | vlessslarkl/bot.py:688-692 | `split(sep)` yields at least one part, and no part contains a separator |
| Text.JoinSplit | vlessslarkl/bot.py:692 | joining the parts of `split(c)` with `c` gives back the text |
| Text.SplitWithoutSeparator | vlessslarkl/bot.py:692 | text without a separator splits into itself alone |
| Text.SplitAfterHead | vlessslarkl/bot.py:692 | the text before the first separator is the first part; the rest split the same way as the tail |
| Text.WordsOfTwo | vlessslarkl/bot.py:688-689 | `split()` of `cmd + " " + arg`, both free of whitespace, is `[cmd, arg]` |
| Text.Words | vlessslarkl/bot.py:688-689 | `split()` yields only non-empty words, none containing whitespace |
| Text.SplitAround | vlessslarkl/bot.py:688-689 | splitting at a separator character gives the parts of the text before it followed by the parts of the text after it |
| Text.WordsAround | vlessslarkl/bot.py:688-689 | the words of `a + w + b`, for a whitespace character `w`, are the words of `a` followed by the words of `b` |
| Text.WordsOfWord | vlessslarkl/bot.py:688-689 | a non-empty text without whitespace is exactly one word; a text of whitespace only has no words |
| Labels.HostSlug | vlessslarkl/bot.py:1036 | `host_name.replace(' ', '').lower()` has no spaces, no upper-case letters, and is no longer than the host name |
| Text.RemoveSpaces | vlessslarkl/bot.py:1036 | `replace(' ', '')` leaves no space and never lengthens the text |
| Text.Lower | vlessslarkl/bot.py:1036 | `lower()` keeps the length and maps each character on its own, `A`-`Z` to `a`-`z` and every other character to itself |
| Text.RemoveSpacesConcat | vlessslarkl/bot.py:1036 | `replace(' ', '')` of a concatenation is the concatenation of the pieces with their spaces removed |
| Text.RemoveSpacesLower | vlessslarkl/bot.py:1036 | removing spaces and lower-casing commute |
| Labels.HostSlugIgnoresSpaceAndCase | vlessslarkl/bot.py:1034-1041 | inserting a space into a host name, or lower-casing it, leaves its slug unchanged, so a key on either name gets the same label |
| Labels.KeyLabel | vlessslarkl/bot.py:1036 | a key label starts `user<id>-key<n>@` and ends with the host slug and `.bot` |
| Labels.TrialLabel | vlessslarkl/bot.py:762 | a trial label starts `user<id>-trial@` and ends with the host slug and `.bot` |
| Labels.PlanDays | vlessslarkl/bot.py:1044 | a plan's days are a whole number of 30-day months, and give back its months |
| Labels.HostSlugNormal | vlessslarkl/bot.py:1034-1041 | the host part of a label has no spaces and no upper-case letters and is its own slug |
| Labels.KeyLabelInjective | vlessslarkl/bot.py:1034-1041 | equal key labels have the same user id, the same key number and the same host slug |
| Labels.TrialLabelNotKeyLabel | vlessslarkl/bot.py:762 | a trial label never coincides with a paid key's label, whatever the users and hosts |
| Commands.StartReferrer | vlessslarkl/bot.py:686-694 | a referrer is named exactly when there is text, its second word starts with `ref_`, and that word's second `_` field is, once stripped, a signed run of digits; no text, one word, another prefix, `ref_`, `ref_x`, `ref_1x` and `ref_1.5` name none |
| Commands.StartReferrerOfLink | vlessslarkl/bot.py:686-694 | `/start ref_<id>`, with or without `_<more>` after the id, names referrer `<id>` |
| Commands.CallbackFieldsOf | vlessslarkl/bot.py:846 | `a_b_c` with `a`, `b` free of `_` splits into `a`, `b` and the parts of `c` |
| Commands.CallbackPlanId | vlessslarkl/bot.py:846 | a plan id is read exactly when there is a third `_` field and it is, once stripped, a signed run of digits |
| Commands.CallbackPlanIdOf | vlessslarkl/bot.py:846 | a `<verb>_<noun>_<planId>` button hands its plan id back to its handler (`select_plan_`, `pay_yookassa_`) |
| Commands.SelectedHost | vlessslarkl/bot.py:826 | as written, a host comes back exactly when the data has a third `_` field, and it never contains `_` |
| Commands.SelectedHostTruncates | vlessslarkl/bot.py:826 | as written, a host name containing `_` does not come back from its `select_host_` button |
| Commands.SelectedHostIsHead | vlessslarkl/bot.py:826 | as written, only the part of the host name before its first `_` comes back |
| Commands.SelectedHostName | vlessslarkl/bot.py:826 | corrected: the host name is everything after `select_host_`, and the button data is exactly prefix plus name |
| Commands.SelectedHostNameRoundTrip | vlessslarkl/bot.py:826 | corrected: every host name survives its button, underscores included |
| Pricing.RoundHalfEven | vlessslarkl/bot.py:895 | `quantize` gives the nearest integer multiple, at most half a unit off, and the even neighbour on a tie |
| Pricing.RoundHalfEvenBetween | vlessslarkl/bot.py:895 | rounding a quotient between 0 and `k` stays between 0 and `k` |
| Pricing.ReferralPrice | vlessslarkl/bot.py:891-896 | without a referrer, with spending already made or with a non-positive discount, the list price; otherwise the list price less a discount within half a kopeck of `price * discount / 100`, the even kopeck on a tie |
| Pricing.ReferralPriceBounds | vlessslarkl/bot.py:891-896 | for a discount between 0% and 100% the charged price is between 0 and the list price |
| Panel.RenewedExpiry | vlessslarkl/bot.py:565-573 | a still-active client's expiry stacks the days onto it; an expiry at or before now restarts from now; the result is the later of the two |
| Panel.IndexOfEmail | vlessslarkl/bot.py:559-563 | the position of the first client with the label, and no client before it has the label |
| Panel.FindClient | vlessslarkl/bot.py:559-563 | the index loop finds the first client with the label, or returns -1 when none has it |
| Panel.Upsert | vlessslarkl/bot.py:559-590 | renewal keeps the id, the position and the length, enables the client, gives it the renewed expiry and changes no other client; otherwise exactly one enabled client is appended with the fresh id, the label, the flow and now plus the days |
| Panel.UpsertFindsLabel | vlessslarkl/bot.py:574-590 | after the upsert the label is found on the client whose id and expiry are reported, and it is enabled |
| Panel.RenewalStacks | vlessslarkl/bot.py:565-571 | a second purchase under the same label before the first expiry keeps the client id and adds its days to that expiry |
| Panel.UpsertKeepsEmailsUnique | vlessslarkl/bot.py:559-590 | upserting never gives two clients the same label |
| Panel.Provision | vlessslarkl/bot.py:538-609 | success exactly when the host exists and the panel exchange succeeds; a missing host is "host not found"; a failure before the write leaves the client list as it was; a failure after the write is an error yet leaves the upserted list on the panel; success writes the upserted list and reports its id and expiry |
| Panel.Inbound.CreateOrUpdateKey | vlessslarkl/bot.py:538-609 | the method's result and the inbound's new client list are those of `Provision` |
| Panel.ConnectionString | vlessslarkl/bot.py:512-536 | a link exists exactly when the inbound, its settings, a non-empty public key, server names and short ids are all present |
| Panel.ConnectionStringNamesClient | vlessslarkl/bot.py:531-535 | the link names the client's id between `vless://` and `@` |
| Panel.ConnectionStringParameters | vlessslarkl/bot.py:529-535 | the link starts `vless://<uuid>@<hostname>:<port>?type=tcp&security=reality&pbk=<public key>&fp=` and ends `&sni=<first server name>&sid=<first short id>&spx=%2F&flow=xtls-rprx-vision#<remark>` |
| Ledger.GetUser | vlessslarkl/bot.py:239-244 | the row stored under the Telegram id, or none exactly when no row has it |
| Ledger.RegisterUser | vlessslarkl/bot.py:246-252 | `INSERT OR IGNORE`: a known user is left exactly as they were; a new one starts with nothing spent and the given referrer |
| Ledger.RegisterKeepsFirstReferrer | vlessslarkl/bot.py:246-252 | registering twice keeps the first username and referrer |
| Ledger.UpdateUserStats | vlessslarkl/bot.py:254-262 | adds the amount to the total spent and the months to the total months of that user only; every other field and table is unchanged |
| Ledger.StatsAccumulate | vlessslarkl/bot.py:254-262 | two stat updates add up to one update by the sums |
| Ledger.SetUserFlag | vlessslarkl/bot.py:264-282 | setting terms-agreed, trial-used or banned changes that one flag of that one user |
| Ledger.AddKey | vlessslarkl/bot.py:286-296 | the key table grows by exactly one row at its end, under the current counter, which moves on by one; no other table changes |
| Ledger.AddKeyKeepsValid | vlessslarkl/bot.py:286-296 | key ids stay positive, below the counter and increasing after an insert |
| Ledger.UserKeys | vlessslarkl/bot.py:298-302 | the user's keys are rows of that user from the table |
| Ledger.UserKeysComplete | vlessslarkl/bot.py:298-302 | every row of the user is among the user's keys |
| Ledger.UserKeysCount | vlessslarkl/bot.py:298-302 | the user's keys are as many as the user's rows in the table |
| Ledger.UserKeysNewestFirst | vlessslarkl/bot.py:298-302 | with ids increasing in insertion order, the user's keys come newest first |
| Ledger.NextKeyNumber | vlessslarkl/bot.py:322-326 | `COUNT(*)` of the user's rows, plus one |
| Ledger.AddKeyNextNumber | vlessslarkl/bot.py:322-326 | adding a key raises its owner's next key number by one and nobody else's |
| Ledger.FindKey | vlessslarkl/bot.py:304-309 | a key found has the id; none found means no row has it |
| Ledger.GetKeyById | vlessslarkl/bot.py:304-309 | a row with the key id, or none exactly when no row has it |
| Ledger.GetAddedKey | vlessslarkl/bot.py:286-309 | the id returned by the insert finds exactly the row inserted |
| Ledger.FindKeyOfUnique | vlessslarkl/bot.py:304-309 | with unique ids, the lookup returns the row carrying the id |
| Ledger.SetExpiry | vlessslarkl/bot.py:311-315 | only rows with the key id get the new expiry; every other row and the row count are unchanged |
| Ledger.UpdateKeyExpiry | vlessslarkl/bot.py:311-315 | only the expiry of the rows with that key id changes; every other row, the row count and every other table stay as they were |
| Ledger.UpdateKeyExpiryKeepsValid | vlessslarkl/bot.py:311-315 | updating an expiry keeps the key-id invariant |
| Ledger.DropUser | vlessslarkl/bot.py:317-320 | deleting a user's keys leaves exactly the other users' rows |
| Ledger.DeleteUserKeys | vlessslarkl/bot.py:317-320 | no row of the user remains, every other user's row stays, and no other table changes |
| Ledger.DropUserKeepsOrder | vlessslarkl/bot.py:317-320 | the rows kept stay in increasing id order |
| Ledger.DeleteUserKeysKeepsValid | vlessslarkl/bot.py:317-326 | deletion keeps the key-id invariant, and the user's next key number is 1 again |
| Ledger.UserKeysOfOthers | vlessslarkl/bot.py:298-302 | a table with no row of the user lists no key for them |
| Ledger.LogTransaction | vlessslarkl/bot.py:393-401 | the transaction log only grows, by exactly the one row given, at its end; no other table changes |
| Ledger.LatestTransaction | vlessslarkl/bot.py:403-414 | the latest transaction is the user's and no later row is the user's; none means the user has no row |
| Ledger.GetHost | vlessslarkl/bot.py:345-350 | the host row stored under the name, or none exactly when there is none |
| Ledger.GetPlan | vlessslarkl/bot.py:373-378 | the plan row stored under the id, or none exactly when there is none |
| Ledger.CreateWebhookTransaction | vlessslarkl/bot.py:417-424 | `INSERT OR REPLACE`: the row under the id is pending and unprocessed, every other payment's row stays, and no other table changes |
| Ledger.GetWebhookTransaction | vlessslarkl/bot.py:426-434 | a row is returned exactly when the id has one and it is unprocessed, and it is that row |
| Ledger.MarkWebhookProcessed | vlessslarkl/bot.py:436-443 | the id's row, if any, becomes processed with nothing else changed; other rows and tables stay |
| Ledger.WebhookLifecycle | vlessslarkl/bot.py:417-443 | a created row reads back pending and unprocessed; once marked processed it is never returned; other payment ids are unaffected |
| Store.Database.RegisterUser | vlessslarkl/bot.py:246-252 | the new state is `Ledger.RegisterUser` of the old |
| Store.Database.UpdateUserStats | vlessslarkl/bot.py:254-262 | the new state is `Ledger.UpdateUserStats` of the old |
| Store.Database.SetTermsAgreed | vlessslarkl/bot.py:264-267 | the new state sets the terms flag of that user |
| Store.Database.SetTrialUsed | vlessslarkl/bot.py:269-272 | the new state sets the trial flag of that user |
| Store.Database.BanUser | vlessslarkl/bot.py:274-277 | the new state sets the banned flag of that user |
| Store.Database.UnbanUser | vlessslarkl/bot.py:279-282 | the new state clears the banned flag of that user |
| Store.Database.AddKey | vlessslarkl/bot.py:286-296 | appends the row under the next id, returns that id and keeps the key-id invariant |
| Store.Database.UpdateKeyExpiry | vlessslarkl/bot.py:311-315 | the new state is `Ledger.UpdateKeyExpiry` of the old and keeps the invariant |
| Store.Database.DeleteUserKeys | vlessslarkl/bot.py:317-320 | the new state is `Ledger.DeleteUserKeys` of the old and keeps the invariant |
| Store.Database.LogTransaction | vlessslarkl/bot.py:393-401 | the new state is `Ledger.LogTransaction` of the old |
| Store.Database.CreateWebhookTransaction | vlessslarkl/bot.py:417-424 | the new state is `Ledger.CreateWebhookTransaction` of the old |
| Store.Database.MarkWebhookProcessed | vlessslarkl/bot.py:436-443 | the new state is `Ledger.MarkWebhookProcessed` of the old |
| Payments.YookassaCheckout | vlessslarkl/bot.py:879-938 | succeeds exactly for a known plan, a known user and an accepted payment; failure writes nothing; success charges the referral price, returns the metadata sent to the provider (action `new`, method `yookassa`, the payment id) and stores a pending row under the payment id, leaving every other row and table as it was |
| Payments.PayYookassa | vlessslarkl/bot.py:879-938 | the method's result and new state are those of `YookassaCheckout` |
| Payments.Fulfil | vlessslarkl/bot.py:1014-1082 | invalid payment data exactly when the plan or the user is unknown; a key is granted exactly when plan, user and host are known and the panel exchange succeeds; every other outcome writes nothing to the tables, nor to the panel unless the failure came after the panel write |
| Payments.MethodOf | vlessslarkl/bot.py:1023 | the payment method recorded in the metadata, or `unknown` when it has none |
| Payments.FulfilledEffects | vlessslarkl/bot.py:1033-1082 | on success: key number = the user's key count + 1; exactly one key row with the label, the panel's id and expiry, and the next key id advanced by one; price and months added to the user's totals; no referral balance changes; exactly one `paid` transaction appended; hosts, plans and webhook rows untouched |
| Payments.FulfilledExpiry | vlessslarkl/bot.py:1043-1045 | a new label gets a new client with the fresh id expiring now plus `months * 30` days; an existing one keeps its id and stacks or restarts its expiry |
| Payments.FulfilKeepsValid | vlessslarkl/bot.py:1053-1082 | handling a payment keeps the key-id invariant |
| Payments.FulfilIgnoresAction | vlessslarkl/bot.py:1033-1041 | `renew` builds the same fresh label as `new`: the action changes no outcome, key or client |
| Payments.NextPaymentTargetsNewLabel | vlessslarkl/bot.py:1033-1041 | after a granted key the user's next payment uses the next key number and so a different label |
| Payments.FailureAfterWriteKeepsClient | vlessslarkl/bot.py:593-609 | a failure after the panel write reports the payment failed and leaves the tables untouched, yet the panel keeps an enabled client under the key's label with the days added |
| Payments.ReplayAppliesTwice | vlessslarkl/bot.py:1014-1082 | as written, a replayed success notification is granted again: two key rows, two transactions and twice the price and months on the totals |
| Payments.FulfilOnce | vlessslarkl/bot.py:1014-1082 | corrected: a card payment (one with an id) is refused exactly when it has no unprocessed webhook row, and a refusal changes nothing; a payment without an id is handled as written |
| Payments.FulfilOnceIsIdempotent | vlessslarkl/bot.py:1014-1082 | corrected: handling a fulfilled card payment again changes nothing, whatever the panel answers |
| Payments.FulfilOnceAgrees | vlessslarkl/bot.py:1014-1082 | for a pending payment the corrected version has the same outcome and effects, plus the row marked processed |
| Payments.ProcessPaymentOnce | vlessslarkl/bot.py:1014-1082 | corrected handler: its outcome, new database state and client list are those of `FulfilOnce`, and the key-id invariant is kept |
| Payments.DiscountOnlyOnce | vlessslarkl/bot.py:891-896 | after the discounted purchase is granted at a positive price, the total spent grows by that price and the next checkout charges the list price |
| Payments.ProcessSuccessfulPayment | vlessslarkl/bot.py:1014-1082 | the method's outcome, new database state and new inbound client list are those of `Fulfil`, and the key-id invariant is kept |

## Left out

- The aiogram handlers, keyboards, message texts, QR codes and admin screens. These are presentation only. From the handlers, only the values they parse are modelled: the `/start` referrer and the callback fields.
- The 3x-ui client library: login, inbound list, fetch and update. The answer of one exchange is the `Link` parameter, and the inbound's client list is the state of `Inbound`. `Inbound` holds one inbound; the routing from a host name to its inbound is the host lookup alone.
- Panel.Provision: the connection string built on success is not part of `Grant`. `ConnectionString` models it separately, and the hostname parsed out of the host URL is a parameter.
- Panel.ConnectionString: the exceptions building the link can raise after the write (a malformed settings object, a bad URL) are not derived from the inbound; any of them is the `WrittenThenFailed` answer of `Link`.
- Payments.Fulfil: the metadata arrives typed. In `process_successful_payment` a missing key (`KeyError`) or a non-numeric `user_id`, `plan_id`, `months` or `price` (`ValueError`) is caught by the outer handler before anything is written, which has the same effect as `InvalidPaymentData`; that parsing step is not represented.
- Payments.FulfilOnce: CryptoBot invoices store no webhook row and their payload carries no payment id, so the guard covers card payments only; a payment without an id is fulfilled as written, and a replay of it is granted again. Exactly-once for CryptoBot needs a row written at invoice time.
- Payment SDKs: YooKassa payment creation is the `providerOk` parameter and the payment id is a parameter. The CryptoBot invoice, the Binance rate fetches and the USDT conversion are external calls and are not modelled.
- The webhook HTTP server, `asyncio.create_task`, `main` and any interleaving of concurrent handlers.
- The SQLite connection, commit and rollback mechanics, settings, statistics queries, and host and plan administration (add, list, delete). Hosts and plans are read-only maps here.
- Local-time conversion of timestamps, `datetime` arithmetic across DST changes, and float money columns. Times are integer milliseconds and money is integer kopecks.
- Decimal's 28-digit context precision: the rounding is exact.
- Python `int()` on non-ASCII digits or underscores between digits, and `str.lower`/`str.split` on non-ASCII text. Only ASCII is modelled.
- Ledger.UserKeys: `ORDER BY created_date DESC` is modelled as newest insert first; rows with equal timestamps may come back in another order in SQLite.
- Ledger.LatestTransaction: the same holds for equal `created_date` values.
- `get_trial`: only the trial label is modelled. Its handler sequence is built from the same `Provision` and ledger operations.
- The referral reward in `process_successful_payment` is computed and then dropped (its branch is a `pass`), so it is absent from `Fulfil`. `FulfilledEffects` states that no balance changes.
- `pay_yookassa` with an unknown user fails with an exception before writing anything. It is modelled as the `UserNotFound` error.
- `process_successful_payment` catches every exception and stops. The model has no other failure point after provisioning, since the ledger writes cannot fail on in-memory tables.

## Findings

| source | as written | input that shows it | evidently intended | confidence | as-written member | corrected member |
|---|---|---|---|---|---|---|
| vlessslarkl/bot.py:826 | the host name is read back as `callback.data.split("_")[2]` | a host named `de_fra`: its button `select_host_de_fra` yields `de`, so the plans of `de_fra` are never listed | the host name is everything after `select_host_` | high, not executed | Commands.SelectedHostTruncates | Commands.SelectedHostNameRoundTrip |
| vlessslarkl/bot.py:1014-1082 | `process_successful_payment` never consults or marks `webhook_transactions` | the provider delivering the same `payment.succeeded` notification twice grants two keys and counts the price twice | fulfil a card payment, which carries a payment id and has a webhook row, only while that row is unprocessed, then mark it processed | medium, not executed | Payments.ReplayAppliesTwice | Payments.FulfilOnceIsIdempotent |
