/**
  The gift-card rules of the account.voucher extension, stated on values.

  A gift card is kept in a store keyed by its record id and carries a unique
  number and a remaining value (in cents). A voucher (a payment line) charges
  an amount and may reference one gift card. A batch of vouchers is
  authorized only if, walking the batch in order, every card's running
  balance stays strictly positive after each charge against it.
 */
module GiftCardBatch {

  type CardId = int
  type VoucherId = int

  datatype Option<T> = None | Some(value: T)

  /** A stored gift card: its number and its remaining value, in cents. */
  datatype Card = Card(number: string, value: int)

  /** A payment line: the amount it charges and the gift card it charges, if any. */
  datatype Voucher = Voucher(amount: int, card: Option<CardId>)

  type Store = map<CardId, Card>

  /** No two stored cards share a number. */
  ghost predicate UniqueNumbers(cards: Store) {
    forall a, b :: a in cards && b in cards && cards[a].number == cards[b].number ==> a == b
  }

  /** Every gift card that a voucher of vs references is in the store. */
  ghost predicate Refs(cards: Store, vs: seq<Voucher>) {
    forall v :: v in vs && v.card.Some? ==> v.card.value in cards
  }

  /** Every voucher of ws references a gift card, and that card is in the store. */
  ghost predicate Carded(cards: Store, ws: seq<Voucher>) {
    forall v :: v in ws ==> v.card.Some? && v.card.value in cards
  }

  /** The number of the card a voucher charges. */
  function NumberOf(cards: Store, v: Voucher): (n: string)
    requires v.card.Some? && v.card.value in cards
  {
    cards[v.card.value].number
  }

  /** The vouchers of vs that reference a gift card, in their order. */
  function WithCard(vs: seq<Voucher>): (ws: seq<Voucher>)
    ensures forall v :: v in ws ==> v in vs && v.card.Some?
    ensures forall v :: v in vs && v.card.Some? ==> v in ws
    ensures |ws| <= |vs|
  {
    if vs == [] then []
    else
      var last := vs[|vs| - 1];
      assert vs == vs[..|vs| - 1] + [last];
      WithCard(vs[..|vs| - 1]) + (if last.card.Some? then [last] else [])
  }

  /** The total that the vouchers of vs charge to card c. */
  function Charged(vs: seq<Voucher>, c: CardId): (total: int)
  {
    if vs == [] then 0
    else
      var last := vs[|vs| - 1];
      Charged(vs[..|vs| - 1], c) + (if last.card == Some(c) then last.amount else 0)
  }

  /**
    The running-balance table the check starts from: one entry per card
    number that the batch references, holding that card's stored value.
    Built in batch order, so a number that repeats keeps the last value
    recorded for it, as a dictionary built from a list of pairs does.
   */
  function Initial(cards: Store, ws: seq<Voucher>): (r: map<string, int>)
    requires Carded(cards, ws)
    ensures forall n :: n in r <==> exists k :: 0 <= k < |ws| && NumberOf(cards, ws[k]) == n
    ensures UniqueNumbers(cards) ==>
      forall k :: 0 <= k < |ws| ==> r[NumberOf(cards, ws[k])] == cards[ws[k].card.value].value
  {
    if ws == [] then map[]
    else
      var front, last := ws[..|ws| - 1], ws[|ws| - 1];
      assert ws == front + [last];
      var r := Initial(cards, front)[NumberOf(cards, last) := cards[last.card.value].value];
      assert forall k :: 0 <= k < |front| ==> ws[k] == front[k];
      assert UniqueNumbers(cards) ==>
        forall k :: 0 <= k < |ws| ==> r[NumberOf(cards, ws[k])] == cards[ws[k].card.value].value
      by {
        if UniqueNumbers(cards) {
          forall k | 0 <= k < |front| && NumberOf(cards, ws[k]) == NumberOf(cards, last)
            ensures ws[k].card.value == last.card.value
          {
          }
        }
      }
      r
  }

  /**
    The batch passes when, after each voucher that charges a card, that
    card's stored value less everything the batch has charged it up to and
    including that voucher is strictly positive. A balance of exactly zero
    fails.
   */
  ghost predicate Passes(cards: Store, vs: seq<Voucher>)
    requires Refs(cards, vs)
  {
    if vs == [] then true
    else
      var last := vs[|vs| - 1];
      Passes(cards, vs[..|vs| - 1]) &&
      (last.card.Some? ==> cards[last.card.value].value - Charged(vs, last.card.value) > 0)
  }

  /** The prefix condition of Passes for the voucher at position k. */
  ghost predicate PositiveAt(cards: Store, vs: seq<Voucher>, k: int)
    requires 0 <= k < |vs|
  {
    vs[k].card.Some? && vs[k].card.value in cards ==>
      cards[vs[k].card.value].value - Charged(vs[..k + 1], vs[k].card.value) > 0
  }

  /** The store after every card has been debited by all that vs charges it. */
  function Debited(cards: Store, vs: seq<Voucher>): (r: Store)
    ensures r.Keys == cards.Keys
    ensures forall c :: c in cards ==> r[c].number == cards[c].number
  {
    map c | c in cards :: cards[c].(value := cards[c].value - Charged(vs, c))
  }

  /**
    The running-balance table after the first i vouchers of ws: every card
    number the batch references is present, holding its card's stored value
    less what ws[..i] charges that card.
   */
  ghost predicate TracksBalances(cards: Store, ws: seq<Voucher>, i: nat, balances: map<string, int>)
    requires Carded(cards, ws) && i <= |ws|
  {
    forall k :: 0 <= k < |ws| ==>
      NumberOf(cards, ws[k]) in balances &&
      balances[NumberOf(cards, ws[k])] == cards[ws[k].card.value].value - Charged(ws[..i], ws[k].card.value)
  }

  // ---------------------------------------------------------------------
  // Charged

  lemma ChargedSnoc(vs: seq<Voucher>, v: Voucher, c: CardId)
    ensures Charged(vs + [v], c) == Charged(vs, c) + (if v.card == Some(c) then v.amount else 0)
  {
    assert (vs + [v])[..|vs|] == vs;
  }

  /** Filtering out the vouchers without a card changes no card's total. */
  lemma {:induction false} ChargedWithCard(vs: seq<Voucher>, c: CardId)
    ensures Charged(WithCard(vs), c) == Charged(vs, c)
  {
    if vs != [] {
      var front, last := vs[..|vs| - 1], vs[|vs| - 1];
      ChargedWithCard(front, c);
      if last.card.Some? {
        assert WithCard(vs) == WithCard(front) + [last];
        ChargedSnoc(WithCard(front), last, c);
      } else {
        assert WithCard(vs) == WithCard(front);
      }
    }
  }

  /** A card that no voucher of vs references is charged nothing. */
  lemma {:induction false} ChargedUnreferenced(vs: seq<Voucher>, c: CardId)
    requires forall v :: v in vs ==> v.card != Some(c)
    ensures Charged(vs, c) == 0
  {
    if vs != [] {
      ChargedUnreferenced(vs[..|vs| - 1], c);
    }
  }

  /** With no negative amounts, a card's total only grows along the batch. */
  lemma {:induction false} ChargedMonotone(vs: seq<Voucher>, j: nat, c: CardId)
    requires j <= |vs|
    requires forall v :: v in vs ==> v.amount >= 0
    ensures Charged(vs[..j], c) <= Charged(vs, c)
  {
    if j < |vs| {
      var front := vs[..|vs| - 1];
      assert front[..j] == vs[..j];
      ChargedMonotone(front, j, c);
    } else {
      assert vs[..j] == vs;
    }
  }

  // ---------------------------------------------------------------------
  // The running-balance table

  /** The table the check starts from holds every referenced card's stored value. */
  lemma InitialTracks(cards: Store, ws: seq<Voucher>)
    requires UniqueNumbers(cards) && Carded(cards, ws)
    ensures TracksBalances(cards, ws, 0, Initial(cards, ws))
  {
    assert ws[..0] == [];
  }

  /**
    Subtracting the next voucher's amount from the entry of its card's number
    keeps the table in step with the batch; with unique numbers no other card
    shares that entry.
   */
  lemma {:induction false} BalanceStep(cards: Store, ws: seq<Voucher>, i: nat, balances: map<string, int>)
    requires UniqueNumbers(cards) && Carded(cards, ws) && Refs(cards, ws) && i < |ws|
    requires TracksBalances(cards, ws, i, balances)
    ensures var n := NumberOf(cards, ws[i]);
      var next := balances[n := balances[n] - ws[i].amount];
      TracksBalances(cards, ws, i + 1, next) &&
      (Passes(cards, ws[..i + 1]) <==> Passes(cards, ws[..i]) && next[n] > 0)
  {
    var v := ws[i];
    assert ws[..i + 1] == ws[..i] + [v];
    forall c
      ensures Charged(ws[..i + 1], c) == Charged(ws[..i], c) + (if v.card == Some(c) then v.amount else 0)
    {
      ChargedSnoc(ws[..i], v, c);
    }
  }

  /** A batch that passes has every prefix passing. */
  lemma {:induction false} PassesPrefix(cards: Store, vs: seq<Voucher>, j: nat)
    requires Refs(cards, vs) && j <= |vs|
    requires Passes(cards, vs)
    ensures Refs(cards, vs[..j]) && Passes(cards, vs[..j])
  {
    if j < |vs| {
      var front := vs[..|vs| - 1];
      assert front[..j] == vs[..j];
      PassesPrefix(cards, front, j);
    } else {
      assert vs[..j] == vs;
    }
  }

  /** Debiting one more voucher is one more write to the store. */
  lemma DebitedStep(cards: Store, ws: seq<Voucher>, i: nat)
    requires Carded(cards, ws) && i < |ws|
    ensures var c, prev := ws[i].card.value, Debited(cards, ws[..i]);
      Debited(cards, ws[..i + 1]) == prev[c := prev[c].(value := prev[c].value - ws[i].amount)]
  {
    var v := ws[i];
    assert ws[..i + 1] == ws[..i] + [v];
    forall c | c in cards
      ensures Charged(ws[..i + 1], c) == Charged(ws[..i], c) + (if v.card == Some(c) then v.amount else 0)
    {
      ChargedSnoc(ws[..i], v, c);
    }
  }

  // ---------------------------------------------------------------------
  // Passes

  /** Passes is exactly the positivity condition at every position of the batch. */
  lemma {:induction false} PassesIff(cards: Store, vs: seq<Voucher>)
    requires Refs(cards, vs)
    ensures Passes(cards, vs) <==> forall k :: 0 <= k < |vs| ==> PositiveAt(cards, vs, k)
  {
    if vs != [] {
      var n := |vs| - 1;
      var front := vs[..n];
      PassesIff(cards, front);
      assert vs[..n + 1] == vs;
      forall k | 0 <= k < n
        ensures PositiveAt(cards, vs, k) == PositiveAt(cards, front, k)
      {
        assert vs[..k + 1] == front[..k + 1];
      }
      assert Passes(cards, vs) == (Passes(cards, front) && PositiveAt(cards, vs, n));
      if Passes(cards, vs) {
        forall k | 0 <= k < |vs| ensures PositiveAt(cards, vs, k) {
          if k < n { assert PositiveAt(cards, front, k); }
        }
      } else if Passes(cards, front) {
        assert !PositiveAt(cards, vs, n);
      } else {
        var k :| 0 <= k < n && !PositiveAt(cards, front, k);
        assert !PositiveAt(cards, vs, k);
      }
    }
  }

  /** Vouchers without a gift card never make a batch fail. */
  lemma {:induction false} PassesWithCard(cards: Store, vs: seq<Voucher>)
    requires Refs(cards, vs)
    ensures Refs(cards, WithCard(vs))
    ensures Passes(cards, WithCard(vs)) == Passes(cards, vs)
  {
    if vs != [] {
      var front, last := vs[..|vs| - 1], vs[|vs| - 1];
      PassesWithCard(cards, front);
      if last.card.Some? {
        var c := last.card.value;
        var ws := WithCard(front) + [last];
        assert WithCard(vs) == ws;
        assert ws[..|ws| - 1] == WithCard(front);
        ChargedWithCard(vs, c);
        assert Passes(cards, ws) == (Passes(cards, WithCard(front)) && cards[c].value - Charged(ws, c) > 0);
        assert Passes(cards, vs) == (Passes(cards, front) && cards[c].value - Charged(vs, c) > 0);
      } else {
        assert WithCard(vs) == WithCard(front);
      }
    }
  }

  /**
    On a batch that passes, every card the batch charges keeps a strictly
    positive value once all of the batch's charges are taken off it.
   */
  lemma {:induction false} PassesFinalPositive(cards: Store, vs: seq<Voucher>, k: nat)
    requires Refs(cards, vs) && Passes(cards, vs)
    requires k < |vs| && vs[k].card.Some?
    ensures cards[vs[k].card.value].value - Charged(vs, vs[k].card.value) > 0
  {
    var n := |vs| - 1;
    var front, last := vs[..n], vs[n];
    var c := vs[k].card.value;
    if k < n && last.card != Some(c) {
      assert vs == front + [last];
      ChargedSnoc(front, last, c);
      assert front[k] == vs[k];
      PassesFinalPositive(cards, front, k);
    }
  }

  /**
    When no voucher charges a negative amount, the prefix rule is the same as
    asking that every charged card stay strictly positive after the whole
    batch.
   */
  lemma {:induction false} PassesIffTotalsPositive(cards: Store, vs: seq<Voucher>)
    requires Refs(cards, vs)
    requires forall v :: v in vs ==> v.amount >= 0
    ensures Passes(cards, vs) <==>
      forall k :: 0 <= k < |vs| && vs[k].card.Some? ==>
        cards[vs[k].card.value].value - Charged(vs, vs[k].card.value) > 0
  {
    if Passes(cards, vs) {
      forall k | 0 <= k < |vs| && vs[k].card.Some?
        ensures cards[vs[k].card.value].value - Charged(vs, vs[k].card.value) > 0
      {
        PassesFinalPositive(cards, vs, k);
      }
    } else {
      PassesIff(cards, vs);
      var k :| 0 <= k < |vs| && !PositiveAt(cards, vs, k);
      ChargedMonotone(vs, k + 1, vs[k].card.value);
    }
  }

  /** A single voucher passes exactly when it charges less than the card holds. */
  lemma SingleVoucher(cards: Store, c: CardId, amount: int)
    requires c in cards
    ensures Passes(cards, [Voucher(amount, Some(c))]) <==> amount < cards[c].value
  {
    ChargedSnoc([], Voucher(amount, Some(c)), c);
    assert [Voucher(amount, Some(c))][..0] == [];
  }

  /** A charge that brings a balance down to exactly zero is rejected. */
  lemma ExactBalanceRejected(number: string)
    ensures !Passes(map[1 := Card(number, 100)], [Voucher(100, Some(1))])
  {
    SingleVoucher(map[1 := Card(number, 100)], 1, 100);
  }

  /**
    Two vouchers share one card of value 100: a charge of 60 leaves 40 and
    passes, the following charge of 50 would leave -10 and fails the batch.
   */
  lemma SharedCardOverdrawn(number: string)
    ensures Passes(map[1 := Card(number, 100)], [Voucher(60, Some(1))])
    ensures !Passes(map[1 := Card(number, 100)], [Voucher(60, Some(1)), Voucher(50, Some(1))])
  {
    var cards := map[1 := Card(number, 100)];
    var a, b := Voucher(60, Some(1)), Voucher(50, Some(1));
    SingleVoucher(cards, 1, 60);
    assert [a, b][..1] == [a];
    ChargedSnoc([a], b, 1);
    ChargedSnoc([], a, 1);
    assert [a][..0] == [];
  }

  /**
    With a negative amount the check is stricter than the batch total: value
    100, a charge of 150 then a credit of 100 fails, although the card would
    end at 50.
   */
  lemma PrefixStricterThanTotal(number: string)
    ensures var cards, vs := map[1 := Card(number, 100)], [Voucher(150, Some(1)), Voucher(-100, Some(1))];
      !Passes(cards, vs) && cards[1].value - Charged(vs, 1) == 50
  {
    var a, b := Voucher(150, Some(1)), Voucher(-100, Some(1));
    assert [a, b][..1] == [a];
    assert [a][..0] == [];
    ChargedSnoc([a], b, 1);
    ChargedSnoc([], a, 1);
    SingleVoucher(map[1 := Card(number, 100)], 1, 150);
  }

  // ---------------------------------------------------------------------
  // Debited

  /** Filtering out the vouchers without a card changes no debit. */
  lemma DebitedWithCard(cards: Store, vs: seq<Voucher>)
    ensures Debited(cards, WithCard(vs)) == Debited(cards, vs)
  {
    forall c | c in cards
      ensures Debited(cards, WithCard(vs))[c] == Debited(cards, vs)[c]
    {
      ChargedWithCard(vs, c);
    }
  }

  /** A card that no voucher of the batch references keeps its stored record. */
  lemma DebitedUnreferenced(cards: Store, vs: seq<Voucher>, c: CardId)
    requires c in cards
    requires forall v :: v in vs ==> v.card != Some(c)
    ensures Debited(cards, vs)[c] == cards[c]
  {
    ChargedUnreferenced(vs, c);
  }

  /**
    Two vouchers charging 30 and then 20 on one card of 100 are debited one
    after the other: the card ends at 50.
   */
  lemma SequentialDebits(number: string)
    ensures Debited(map[1 := Card(number, 100)], [Voucher(30, Some(1)), Voucher(20, Some(1))])[1].value == 50
  {
    var a, b := Voucher(30, Some(1)), Voucher(20, Some(1));
    ChargedSnoc([a], b, 1);
    ChargedSnoc([], a, 1);
    assert [a] + [b] == [a, b];
  }

  /** Debiting keeps every card's number, so unique numbers stay unique. */
  lemma DebitedUniqueNumbers(cards: Store, vs: seq<Voucher>)
    requires UniqueNumbers(cards)
    ensures UniqueNumbers(Debited(cards, vs))
  {
  }

  /** On a batch that passes, every card the batch charges ends strictly positive. */
  lemma DebitedPositive(cards: Store, vs: seq<Voucher>, k: nat)
    requires Refs(cards, vs) && Passes(cards, vs)
    requires k < |vs| && vs[k].card.Some?
    ensures Debited(cards, vs)[vs[k].card.value].value > 0
  {
    PassesFinalPositive(cards, vs, k);
  }
}
