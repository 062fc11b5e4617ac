# Gift-card batch authorizer

This project models the gift-card logic that the `gift_cards` extension adds to
the `account.voucher` model of an ERP accounting framework, and proves
properties of that model in Dafny. A voucher is a payment line. It charges an
amount and may reference a gift card. A gift card has a unique number and a
remaining value. The extension has three operations:

- `check_card_transaction` validates a batch of vouchers and changes nothing.
  It keeps the vouchers that carry a gift card. It builds a table from card
  number to that card's stored value. It then walks the vouchers in order and
  subtracts each amount from its card's running balance. It fails the first
  time a running balance is zero or below.
- `authorize_card` loads the vouchers, runs the check, and on success debits
  every referenced card by each charge against it. It then triggers the
  `proforma_voucher` workflow transition for every voucher id.
- `proforma_voucher` runs `authorize_card` first. Only when that returns
  normally does it run the inherited proforma step.

Files:

- `batch.dfy` (module `GiftCardBatch`) holds the data model as values: `Card`,
  `Voucher`, a card store `map<CardId, Card>`. It also holds the specification
  functions, the code's number-keyed running-balance table (`Initial`,
  `TracksBalances`) and the lemmas. `Passes` is the reference definition of a
  batch that succeeds. For each voucher that charges a card, it asks that the
  card's stored value, less everything the batch has charged that card up to and
  including that voucher, be strictly positive. `Debited` is the store after
  every card has lost all that the batch charges it.
- `account_voucher.dfy` (module `AccountVoucher`) holds the class `Ledger`. Its
  fields stand for the host framework's state: `cards` is the gift-card table,
  `vouchers` is the voucher table, and `log` is the sequence of workflow
  requests. The three operations are methods: `CheckCardTransaction` and
  `AuthorizeCard` keep the source's loops, and `ProformaVoucher` is a plain
  sequence of two steps, as in the source. Two scenario methods replay a 30
  charge on a card of 100, and 60 then 50 on a card of 100.

Amounts are integers (cents). The record store is replaced by the `cards` and
`vouchers` fields. The workflow service is replaced by appending `Signal(id,
"proforma_voucher")` to `log`. The inherited proforma step is replaced by
appending `BaseProforma(ids)`.

A rule that looked only at each card's total over the batch would fail a
batch whose charges, all together, take a card to zero or below. The code
checks after every charge instead. `PassesIffTotalsPositive` proves that the
two rules agree when no amount is negative. `PrefixStricterThanTotal` shows
they differ otherwise: a card of 100 charged 150 and then credited 100 fails
the check, although it would end at 50.

## Model

| member | source | states |
|---|---|---|
| GiftCardBatch.WithCard | account_voucher.py:55-57 | the filtered batch holds exactly the vouchers that reference a gift card, and nothing else |
| GiftCardBatch.Initial | account_voucher.py:58-60 | the running-balance table has one key for each card number the batch references and nothing more; with unique numbers, each key starts at that card's stored value |
| GiftCardBatch.InitialTracks | account_voucher.py:58-60 | before any voucher is processed, the table holds every referenced card's stored value less nothing |
| GiftCardBatch.BalanceStep | account_voucher.py:65-68 | subtracting a voucher's amount from its card number's entry keeps the table equal to stored value minus the charges so far; the new entry is positive exactly when the longer prefix still passes |
| GiftCardBatch.PassesPrefix | account_voucher.py:65-68 | a batch that passes has every prefix passing, so an early failure means the whole batch fails |
| GiftCardBatch.PassesIff | account_voucher.py:65-69 | the batch passes iff, at every voucher that charges a card, that card's value minus the charges up to and including that voucher is strictly positive |
| GiftCardBatch.PassesWithCard | account_voucher.py:55-57 | vouchers without a gift card never decide the outcome: the batch passes iff its gift-card vouchers pass |
| GiftCardBatch.PassesFinalPositive | account_voucher.py:65-69 | on success, every charged card's value minus the batch's total charges to it stays strictly positive |
| GiftCardBatch.PassesIffTotalsPositive | account_voucher.py:65-69 | with no negative amounts, passing is the same as every charged card ending strictly positive after the whole batch |
| GiftCardBatch.SingleVoucher | account_voucher.py:66-68 | one voucher passes exactly when its amount is below the card's value |
| GiftCardBatch.ExactBalanceRejected | account_voucher.py:67-68 | a charge of 100 on a card of 100 leaves exactly zero and fails |
| GiftCardBatch.SharedCardOverdrawn | account_voucher.py:65-68 | on a card of 100, a charge of 60 passes and a following charge of 50 makes the batch fail |
| GiftCardBatch.PrefixStricterThanTotal | account_voucher.py:65-68 | 150 then -100 on a card of 100 fails although the batch total would leave 50 |
| GiftCardBatch.ChargedWithCard | account_voucher.py:55-57 | filtering out vouchers without a card changes no card's charged total |
| GiftCardBatch.ChargedUnreferenced | account_voucher.py:86 | a card that no voucher references is charged nothing |
| GiftCardBatch.ChargedMonotone | account_voucher.py:65-66 | with non-negative amounts, the total charged to a card only grows along the batch |
| GiftCardBatch.Debited | account_voucher.py:86-89 | the store after the writes holds the same cards, each with its number unchanged; only values move |
| GiftCardBatch.SequentialDebits | account_voucher.py:86-89 | 30 and then 20 charged to one card of 100 leave it at 50: each write reads the value the previous write stored |
| GiftCardBatch.DebitedStep | account_voucher.py:86-89 | debiting one more voucher is one write that lowers its card's stored value by the voucher's amount |
| GiftCardBatch.DebitedWithCard | account_voucher.py:86 | vouchers without a gift card change no stored value |
| GiftCardBatch.DebitedUnreferenced | account_voucher.py:86-89 | cards that the batch does not reference keep their record |
| GiftCardBatch.DebitedUniqueNumbers | account_voucher.py:87-89 | the writes change only the value, so card numbers stay unique |
| GiftCardBatch.DebitedPositive | account_voucher.py:82-89 | after a successful authorization every charged card has a strictly positive value |
| AccountVoucher.Triggers | account_voucher.py:94-95 | one proforma_voucher signal per id, in the order of ids, cardless vouchers included |
| AccountVoucher.Browse | account_voucher.py:81 | the loaded batch has one record per id, in the order of ids, each the table's record for that id |
| AccountVoucher.TriggersStep | account_voucher.py:94-95 | triggering the next id appends exactly one proforma_voucher signal for it |
| AccountVoucher.BrowseRefs | account_voucher.py:81 | vouchers loaded from a table whose references all exist reference only stored cards |
| AccountVoucher.Ledger.CheckCardTransaction | account_voucher.py:41-69 | reads only; returns success exactly when the batch passes the running-balance rule |
| AccountVoucher.Ledger.AuthorizeCard | account_voucher.py:71-97 | on failure nothing is written and nothing is triggered; on success every card equals its old value minus the batch's charges to it, other cards are unchanged, and one proforma_voucher signal per id is appended in ids order |
| AccountVoucher.Ledger.ProformaVoucher | account_voucher.py:99-101 | the inherited step is logged only after a successful authorization, after the signals; on failure the state is unchanged |
| AccountVoucher.AuthorizeSingleCharge | account_voucher.py:82-95 | a charge of 30 on a card of 100 succeeds, leaves 70, and logs the voucher's signal and then the inherited step |
| AccountVoucher.RejectOverdrawnBatch | account_voucher.py:65-68 | charges of 60 and 50 on a card of 100, with a cardless voucher between them, fail; the card keeps 100 and nothing is logged |

## Left out

- Ledger.CheckCardTransaction, Ledger.AuthorizeCard, Ledger.ProformaVoucher: require `Valid()`. This means card numbers are unique, and every voucher's gift-card reference names a stored card. The first is a property of the data the extension relies on. The second is the database's referential integrity. Without unique numbers, the source's number-keyed table would merge two cards, and the model does not treat that case.
- Ledger.AuthorizeCard: each write reads the card's value as stored at that moment, so several vouchers on one card are debited one after the other (`SequentialDebits`). This is a modelling choice. The source computes the new value from the browsed voucher's card record, and whether that record sees earlier writes of the same batch depends on the framework's record cache. A cache filled during the check would make the last write for a card win instead: 30 then 20 on a card of 100 would end at 80, not 50. That cache behaviour is not modelled.
- Ledger.AuthorizeCard, Ledger.ProformaVoucher: require every id to name a stored voucher. Loading a missing record is a framework error that this file does not handle.
- The record-store plumbing (`self.browse`, `self.pool.get`, `giftcard_orm.write`, `cr`, `uid`, `context`) is replaced by the `cards` and `vouchers` fields.
- The workflow service is a log entry. What the workflow engine does on a signal is not part of this model. Neither is the inherited `proforma_voucher` of the base model.
- The column declarations (`origin`, `giftcard_id`) are schema only. The reference is the `card` field of `Voucher`.
- The error message and its translation are modelled as a single failure outcome (`ok == false`). The translation function `_` is never imported in the file, so the failure path would in fact raise a name error rather than the intended user error. Either way the call aborts before any write.
- Currency values are floating point in the framework; the model uses integers.
- Concurrency between transactions and transaction rollback belong to the host database and are not modelled.
