/**
  The account.voucher extension as a class over explicit state: the gift-card
  records the voucher lines reference, the voucher records themselves, and a
  log of the workflow transitions the class triggers. The record store and the
  workflow service of the host framework are replaced by these fields.
 */
module AccountVoucher {
  import opened GiftCardBatch

  /** The workflow transition signalled for every authorized voucher. */
  const ProformaTransition := "proforma_voucher"

  /** What the workflow service is asked to do. */
  datatype Event =
    | Signal(voucher: VoucherId, transition: string)  // a trigger of one voucher's workflow
    | BaseProforma(ids: seq<VoucherId>)               // the inherited proforma step on a batch

  /** The workflow triggers for ids, one per id and in the order of ids. */
  function Triggers(ids: seq<VoucherId>): (es: seq<Event>)
    ensures |es| == |ids|
    ensures forall i :: 0 <= i < |ids| ==> es[i] == Signal(ids[i], ProformaTransition)
  {
    seq(|ids|, i requires 0 <= i < |ids| => Signal(ids[i], ProformaTransition))
  }

  lemma TriggersStep(ids: seq<VoucherId>, j: nat)
    requires j < |ids|
    ensures Triggers(ids[..j + 1]) == Triggers(ids[..j]) + [Signal(ids[j], ProformaTransition)]
  {
  }

  /** The voucher records for ids, loaded from the voucher table in the order of ids. */
  function Browse(table: map<VoucherId, Voucher>, ids: seq<VoucherId>): (vs: seq<Voucher>)
    requires forall i :: 0 <= i < |ids| ==> ids[i] in table
    ensures |vs| == |ids|
    ensures forall i :: 0 <= i < |ids| ==> vs[i] == table[ids[i]]
  {
    seq(|ids|, i requires 0 <= i < |ids| => table[ids[i]])
  }

  /** A batch loaded from a table whose every reference is stored references only stored cards. */
  lemma BrowseRefs(cards: Store, table: map<VoucherId, Voucher>, ids: seq<VoucherId>)
    requires forall id :: id in table && table[id].card.Some? ==> table[id].card.value in cards
    requires forall i :: 0 <= i < |ids| ==> ids[i] in table
    ensures Refs(cards, Browse(table, ids))
  {
    var vs := Browse(table, ids);
    forall v | v in vs && v.card.Some? ensures v.card.value in cards {
      var i :| 0 <= i < |vs| && vs[i] == v;
      var id := ids[i];
      assert id in table && v == table[id];
      assert table[id].card.Some?;
    }
  }

  class Ledger {
    var cards: Store
    var vouchers: map<VoucherId, Voucher>
    var log: seq<Event>

    /**
      Card numbers are unique, and every gift card that a voucher record
      references is a stored card.
     */
    ghost predicate Valid()
      reads this
    {
      UniqueNumbers(cards) &&
      forall id :: id in vouchers && vouchers[id].card.Some? ==> vouchers[id].card.value in cards
    }

    constructor (cards: Store, vouchers: map<VoucherId, Voucher>)
      requires UniqueNumbers(cards)
      requires forall id :: id in vouchers && vouchers[id].card.Some? ==> vouchers[id].card.value in cards
      ensures Valid()
      ensures this.cards == cards && this.vouchers == vouchers && log == []
    {
      this.cards := cards;
      this.vouchers := vouchers;
      log := [];
    }

    /**
      Checks that the gift cards charged by vs can cover the charges: the
      running balance of each card number starts at the card's stored value
      and loses every charge against it in batch order, and the check fails
      the first time a running balance is zero or below. It reads the store
      and changes nothing.
     */
    method CheckCardTransaction(vs: seq<Voucher>) returns (ok: bool)
      requires Valid() && Refs(cards, vs)
      ensures ok == Passes(cards, vs)
    {
      PassesWithCard(cards, vs);
      var ws := WithCard(vs);
      assert Carded(cards, ws) && Refs(cards, ws);
      var balances := Initial(cards, ws);
      InitialTracks(cards, ws);
      var i := 0;
      assert ws[..0] == [];
      while i < |ws|
        invariant 0 <= i <= |ws|
        invariant Passes(cards, ws[..i])
        invariant TracksBalances(cards, ws, i, balances)
      {
        var n := NumberOf(cards, ws[i]);
        BalanceStep(cards, ws, i, balances);
        balances := balances[n := balances[n] - ws[i].amount];
        if balances[n] <= 0 {
          if Passes(cards, ws) {
            PassesPrefix(cards, ws, i + 1);
          }
          return false;
        }
        i := i + 1;
      }
      assert ws[..i] == ws;
      return true;
    }

    /**
      Authorizes the vouchers ids: loads their records and checks them; on
      failure nothing is written and nothing is triggered. On success every
      gift card is debited by each charge against it and then the
      proforma_voucher transition is triggered for every id, in order,
      whether or not the voucher carries a gift card.
     */
    method AuthorizeCard(ids: seq<VoucherId>) returns (ok: bool)
      requires Valid()
      requires forall i :: 0 <= i < |ids| ==> ids[i] in vouchers
      modifies this
      ensures Valid()
      ensures vouchers == old(vouchers)
      ensures Refs(old(cards), Browse(old(vouchers), ids)) && ok == Passes(old(cards), Browse(old(vouchers), ids))
      ensures ok ==> cards == Debited(old(cards), Browse(old(vouchers), ids))
      ensures ok ==> log == old(log) + Triggers(ids)
      ensures !ok ==> cards == old(cards) && log == old(log)
    {
      var vs := Browse(vouchers, ids);
      BrowseRefs(cards, vouchers, ids);
      ok := CheckCardTransaction(vs);
      if !ok {
        return;
      }

      // Each write reads the card's stored value as it is at that moment, so
      // several vouchers on one card are debited one after the other. Were
      // the value read from a record cache filled before the first write,
      // the last write for a card would win instead.
      var ws := WithCard(vs);
      var i := 0;
      assert ws[..0] == [];
      while i < |ws|
        invariant 0 <= i <= |ws|
        invariant vouchers == old(vouchers) && log == old(log)
        invariant cards == Debited(old(cards), ws[..i])
      {
        var c := ws[i].card.value;
        DebitedStep(old(cards), ws, i);
        cards := cards[c := cards[c].(value := cards[c].value - ws[i].amount)];
        i := i + 1;
      }
      assert ws[..i] == ws;
      DebitedWithCard(old(cards), vs);
      DebitedUniqueNumbers(old(cards), vs);

      var j := 0;
      while j < |ids|
        invariant 0 <= j <= |ids|
        invariant cards == Debited(old(cards), vs) && vouchers == old(vouchers)
        invariant log == old(log) + Triggers(ids[..j])
      {
        TriggersStep(ids, j);
        log := log + [Signal(ids[j], ProformaTransition)];
        j := j + 1;
      }
      assert ids[..j] == ids;
    }

    /**
      The proforma transition of a batch: authorizes the gift-card charges
      first and runs the inherited proforma step only when that succeeds.
     */
    method ProformaVoucher(ids: seq<VoucherId>) returns (ok: bool)
      requires Valid()
      requires forall i :: 0 <= i < |ids| ==> ids[i] in vouchers
      modifies this
      ensures Valid()
      ensures vouchers == old(vouchers)
      ensures Refs(old(cards), Browse(old(vouchers), ids)) && ok == Passes(old(cards), Browse(old(vouchers), ids))
      ensures ok ==> cards == Debited(old(cards), Browse(old(vouchers), ids))
      ensures ok ==> log == old(log) + Triggers(ids) + [BaseProforma(ids)]
      ensures !ok ==> cards == old(cards) && log == old(log)
    {
      ok := AuthorizeCard(ids);
      if ok {
        log := log + [BaseProforma(ids)];
      }
    }
  }

  /**
    A card of value 100 and one voucher charging 30 on it: the proforma step
    succeeds, the card is left with 70, and the log holds the voucher's
    trigger followed by the inherited step.
   */
  method AuthorizeSingleCharge() returns (ok: bool, balance: int, events: seq<Event>)
    ensures ok && balance == 70
    ensures events == [Signal(7, ProformaTransition), BaseProforma([7])]
  {
    var ledger := new Ledger(map[1 := Card("GC-0001", 100)], map[7 := Voucher(30, Some(1))]);
    ok := ledger.ProformaVoucher([7]);
    ghost var vs := Browse(map[7 := Voucher(30, Some(1))], [7]);
    assert vs == [Voucher(30, Some(1))];
    SingleVoucher(map[1 := Card("GC-0001", 100)], 1, 30);
    ChargedSnoc([], Voucher(30, Some(1)), 1);
    balance := ledger.cards[1].value;
    events := ledger.log;
  }

  /**
    A card of value 100 charged 60 and then 50 by two vouchers of one batch,
    with a voucher without a card between them: the proforma step fails,
    the card keeps 100 and nothing is triggered.
   */
  method RejectOverdrawnBatch() returns (ok: bool, balance: int, events: seq<Event>)
    ensures !ok && balance == 100 && events == []
  {
    var table := map[1 := Voucher(60, Some(1)), 2 := Voucher(5, None), 3 := Voucher(50, Some(1))];
    var ledger := new Ledger(map[1 := Card("GC-0002", 100)], table);
    ok := ledger.ProformaVoucher([1, 2, 3]);
    ghost var vs := Browse(table, [1, 2, 3]);
    assert vs == [Voucher(60, Some(1)), Voucher(5, None), Voucher(50, Some(1))];
    assert WithCard(vs) == [Voucher(60, Some(1)), Voucher(50, Some(1))] by {
      assert vs[..2][..1] == [vs[0]];
      assert vs[..2] == [vs[0], vs[1]];
      assert vs[..1] == [vs[0]];
      assert vs[..1][..0] == [];
    }
    PassesWithCard(map[1 := Card("GC-0002", 100)], vs);
    SharedCardOverdrawn("GC-0002");
    balance := ledger.cards[1].value;
    events := ledger.log;
  }
}
