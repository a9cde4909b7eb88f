/**
 * backfill-ledger-from-transactions.js: one ledger entry for every mapped transaction, however often the script is
 * stopped and rerun.
 */
module LedgerBackfill {
  import opened Wrappers

  datatype TxType = OrderPayment | DeliveryEarning | Withdrawal | Refund | Incentive | Bonus | CashCollection
                  | CashSettlement
                  | WalletPayment | WalletRefund | OtherType(name: string)

  datatype UserModel = User | Seller | Delivery | Admin | OtherModel(name: string)

  datatype TxStatus = Settled | Pending | Processing | Failed | Expired

  /** Amounts are signed paise. */
  datatype Tx = Tx(id: string, kind: TxType, model: UserModel, user: string, order: Option<string>, amount: int,
                   status: TxStatus, reference: string)

  datatype Direction = Credit | Debit

  datatype EntryType = OnlinePaymentCaptured | RiderPayoutProcessed | WithdrawalEntry | RefundEntry | Adjustment
                     | CodCollected | CodRemitted | WalletRefundEntry

  datatype Actor = CustomerActor | SellerActor | RiderActor | AdminActor

  datatype EntryStatus = Completed | FailedEntry | PendingEntry

  datatype Entry = Entry(order: Option<string>, actor: Actor, actorId: string, kind: EntryType, direction: Direction,
                         amount: nat, status: EntryStatus, originalId: string, originalType: TxType, reference: string)

  type Ledger = map<string, Entry>

  function TypeMap(kind: TxType): Option<(EntryType, Direction)> {
    match kind
    case OrderPayment => Some((OnlinePaymentCaptured, Credit))
    case DeliveryEarning => Some((RiderPayoutProcessed, Credit))
    case Withdrawal => Some((WithdrawalEntry, Debit))
    case Refund => Some((RefundEntry, Credit))
    case Incentive => Some((Adjustment, Credit))
    case Bonus => Some((Adjustment, Credit))
    case CashCollection => Some((CodCollected, Debit))
    case CashSettlement => Some((CodRemitted, Debit))
    case WalletPayment => Some((WalletRefundEntry, Debit))
    case WalletRefund => Some((WalletRefundEntry, Credit))
    case OtherType(_) => None
  }

  function ActorMap(model: UserModel): Option<Actor> {
    match model
    case User => Some(CustomerActor)
    case Seller => Some(SellerActor)
    case Delivery => Some(RiderActor)
    case Admin => Some(AdminActor)
    case OtherModel(_) => None
  }

  function MapStatus(status: TxStatus): EntryStatus {
    match status
    case Settled => Completed
    case Failed => FailedEntry
    case _ => PendingEntry
  }

  predicate Mapped(tx: Tx) { TypeMap(tx.kind).Some? && ActorMap(tx.model).Some? }

  function TransactionId(tx: Tx): string { "LEGACY-TX-" + tx.id }

  function Abs(x: int): nat { if x < 0 then -x else x }

  function DirectionOf(tx: Tx): Direction
    requires Mapped(tx)
  {
    if tx.kind == Refund && tx.amount < 0 then Debit else TypeMap(tx.kind).value.1
  }

  function EntryOf(tx: Tx): Entry
    requires Mapped(tx)
  {
    Entry(tx.order, ActorMap(tx.model).value, tx.user, TypeMap(tx.kind).value.0, DirectionOf(tx), Abs(tx.amount),
          MapStatus(tx.status), tx.id, tx.kind, tx.reference)
  }

  // ---------- signs ----------

  function Signed(e: Entry): int { if e.direction == Credit then e.amount else -(e.amount as int) }

  /**
   * An entry has its transaction's signed amount for every refund, and else exactly when the amount's sign is its
   * type's.
   */
  lemma SignKeptIff(tx: Tx)
    requires Mapped(tx)
    ensures Signed(EntryOf(tx)) == tx.amount
       <==> tx.kind == Refund || tx.amount == 0 || (tx.amount > 0 <==> TypeMap(tx.kind).value.1 == Credit)
  {
  }

  /** Where each field of an entry comes from. */
  lemma EntryIs(tx: Tx)
    requires Mapped(tx)
    ensures var e := EntryOf(tx);
            && e.order == tx.order && e.actorId == tx.user && e.originalId == tx.id && e.originalType == tx.kind
            && e.reference == tx.reference && e.amount == (if tx.amount < 0 then -tx.amount else tx.amount)
            && (e.actor == CustomerActor <==> tx.model == User) && (e.actor == SellerActor <==> tx.model == Seller)
            && (e.actor == RiderActor <==> tx.model == Delivery) && (e.actor == AdminActor <==> tx.model == Admin)
            && (e.status == Completed <==> tx.status == Settled) && (e.status == FailedEntry <==> tx.status == Failed)
            && (e.status == PendingEntry <==> tx.status in {Pending, Processing, Expired})
            && (e.kind == OnlinePaymentCaptured <==> tx.kind == OrderPayment)
            && (e.kind == RiderPayoutProcessed <==> tx.kind == DeliveryEarning)
            && (e.kind == WithdrawalEntry <==> tx.kind == Withdrawal) && (e.kind == RefundEntry <==> tx.kind == Refund)
            && (e.kind == Adjustment <==> tx.kind in {Incentive, Bonus})
            && (e.kind == CodCollected <==> tx.kind == CashCollection)
            && (e.kind == CodRemitted <==> tx.kind == CashSettlement)
            && (e.kind == WalletRefundEntry <==> tx.kind in {WalletPayment, WalletRefund})
            && (e.direction == Debit <==>
                  tx.kind in {Withdrawal, CashCollection, CashSettlement, WalletPayment}
                  || (tx.kind == Refund && tx.amount < 0))
  {
  }

  /** Left out are transactions of an unknown type, and those of an unknown kind of user. */
  lemma UnmappedIff(tx: Tx)
    ensures !Mapped(tx) <==> tx.kind.OtherType? || tx.model.OtherModel?
  {
  }

  /** Cash collected is booked as a debit, whatever the sign of its transaction. */
  lemma CollectionTurnsNegative()
    ensures var tx := Tx("t", CashCollection, Delivery, "rider", None, 50, Settled, "CSH");
            Mapped(tx) && tx.amount == 50 && Signed(EntryOf(tx)) == -50
  {
  }

  // ---------- the script ----------

  /** One transaction: an id already in the ledger is skipped. */
  function Migrate(ledger: Ledger, tx: Tx): Ledger {
    if Mapped(tx) && TransactionId(tx) !in ledger then ledger[TransactionId(tx) := EntryOf(tx)] else ledger
  }

  function MigrateAll(ledger: Ledger, txs: seq<Tx>): Ledger {
    if txs == [] then ledger else Migrate(MigrateAll(ledger, txs[..|txs| - 1]), txs[|txs| - 1])
  }

  datatype Stats = Stats(processed: nat, created: nat, skipped: nat, unmapped: nat, samples: seq<string>)

  function Unmapped(txs: seq<Tx>): seq<string> {
    if txs == [] then []
    else Unmapped(txs[..|txs| - 1]) + if Mapped(txs[|txs| - 1]) then [] else [txs[|txs| - 1].id]
  }

  function FirstTen(ids: seq<string>): seq<string> { if |ids| <= 10 then ids else ids[..10] }

  class LedgerStore {
    var entries: Ledger

    /** A run that is stopped after `stop` transactions; a dry run counts and inserts nothing. */
    method Backfill(txs: seq<Tx>, stop: nat, dryRun: bool) returns (stats: Stats)
      requires stop <= |txs|
      modifies this
      ensures entries == if dryRun then old(entries) else MigrateAll(old(entries), txs[..stop])
      ensures stats.processed == stop == stats.created + stats.skipped + stats.unmapped
      ensures stats.unmapped == |Unmapped(txs[..stop])| && stats.samples == FirstTen(Unmapped(txs[..stop]))
      ensures |stats.samples| <= 10 && stats.samples <= Unmapped(txs[..stop])
      ensures !dryRun ==> |entries| == |old(entries)| + stats.created
    {
      stats := Stats(0, 0, 0, 0, []);
      for i := 0 to stop
        invariant entries == if dryRun then old(entries) else MigrateAll(old(entries), txs[..i])
        invariant stats.processed == i == stats.created + stats.skipped + stats.unmapped
        invariant stats.unmapped == |Unmapped(txs[..i])| && stats.samples == FirstTen(Unmapped(txs[..i]))
        invariant !dryRun ==> |entries| == |old(entries)| + stats.created
      {
        var tx := txs[i];
        assert txs[..i + 1][..i] == txs[..i];
        stats := stats.(processed := stats.processed + 1);
        if !Mapped(tx) {
          stats := stats.(unmapped := stats.unmapped + 1);
          if |stats.samples| < 10 { stats := stats.(samples := stats.samples + [tx.id]); }
        } else if TransactionId(tx) in entries {
          stats := stats.(skipped := stats.skipped + 1);
        } else {
          if !dryRun { entries := entries[TransactionId(tx) := EntryOf(tx)]; }
          stats := stats.(created := stats.created + 1);
        }
      }
    }
  }

  // ---------- restarting ----------

  /** Entries in the ledger stay as they are, and every mapped transaction has one. */
  lemma {:induction false} MigrateAllKeeps(ledger: Ledger, txs: seq<Tx>)
    ensures forall t :: t in ledger ==> t in MigrateAll(ledger, txs) && MigrateAll(ledger, txs)[t] == ledger[t]
    ensures forall tx :: tx in txs && Mapped(tx) ==> TransactionId(tx) in MigrateAll(ledger, txs)
  {
    if txs != [] {
      var init, last := txs[..|txs| - 1], txs[|txs| - 1];
      MigrateAllKeeps(ledger, init);
      assert txs == init + [last];
    }
  }

  /** Nothing else gets into the ledger: an entry was there before, or is a mapped transaction's own. */
  lemma {:induction false} NothingElse(ledger: Ledger, txs: seq<Tx>, t: string)
    requires t in MigrateAll(ledger, txs) && t !in ledger
    ensures exists tx :: tx in txs && Mapped(tx) && t == TransactionId(tx) && MigrateAll(ledger, txs)[t] == EntryOf(tx)
  {
    var init, last := txs[..|txs| - 1], txs[|txs| - 1];
    assert txs == init + [last];
    if t in MigrateAll(ledger, init) { NothingElse(ledger, init, t); }
  }

  ghost function UnmappedPlaces(txs: seq<Tx>): set<nat> {
    set i | 0 <= i < |txs| && (txs[i].kind.OtherType? || txs[i].model.OtherModel?)
  }

  /** The samples reported are ids of unmapped transactions, ten at most. */
  lemma {:induction false} UnmappedHas(txs: seq<Tx>, id: string)
    ensures id in Unmapped(txs) <==> exists tx :: tx in txs && !Mapped(tx) && tx.id == id
    ensures |Unmapped(txs)| == |UnmappedPlaces(txs)|
  {
    if txs != [] {
      var n := |txs| - 1;
      UnmappedHas(txs[..n], id);
      assert txs == txs[..n] + [txs[n]];
      assert UnmappedPlaces(txs) == UnmappedPlaces(txs[..n]) + if Mapped(txs[n]) then {} else {n};
    }
  }

  lemma {:induction false} MigrateAllConcat(ledger: Ledger, a: seq<Tx>, b: seq<Tx>)
    ensures MigrateAll(ledger, a + b) == MigrateAll(MigrateAll(ledger, a), b)
  {
    if b == [] {
      assert a + b == a;
    } else {
      MigrateAllConcat(ledger, a, b[..|b| - 1]);
      assert (a + b)[..|a + b| - 1] == a + b[..|b| - 1];
    }
  }

  lemma {:induction false} NothingNew(ledger: Ledger, txs: seq<Tx>)
    requires forall tx :: tx in txs && Mapped(tx) ==> TransactionId(tx) in ledger
    ensures MigrateAll(ledger, txs) == ledger
  {
    if txs != [] {
      var init, last := txs[..|txs| - 1], txs[|txs| - 1];
      assert txs == init + [last];
      assert last in txs;
      NothingNew(ledger, init);
    }
  }

  /** Running over a prefix first makes no difference to a full run. */
  lemma PrefixThenAll(ledger: Ledger, txs: seq<Tx>, stop: nat)
    requires stop <= |txs|
    ensures MigrateAll(MigrateAll(ledger, txs[..stop]), txs) == MigrateAll(ledger, txs)
  {
    var first := MigrateAll(ledger, txs[..stop]);
    assert txs == txs[..stop] + txs[stop..];
    MigrateAllKeeps(ledger, txs[..stop]);
    NothingNew(first, txs[..stop]);
    MigrateAllConcat(first, txs[..stop], txs[stop..]);
    MigrateAllConcat(ledger, txs[..stop], txs[stop..]);
  }

  /** The ledger after runs that were stopped after the given numbers of transactions. */
  function Attempts(ledger: Ledger, txs: seq<Tx>, stops: seq<nat>): Ledger
    requires forall i :: 0 <= i < |stops| ==> stops[i] <= |txs|
  {
    if stops == [] then ledger
    else MigrateAll(Attempts(ledger, txs, stops[..|stops| - 1]), txs[..stops[|stops| - 1]])
  }

  /** Any number of interrupted runs and then a full one leave the ledger that one uninterrupted run leaves. */
  lemma {:induction false} Restartable(ledger: Ledger, txs: seq<Tx>, stops: seq<nat>)
    requires forall i :: 0 <= i < |stops| ==> stops[i] <= |txs|
    ensures MigrateAll(Attempts(ledger, txs, stops), txs) == MigrateAll(ledger, txs)
  {
    if stops != [] {
      PrefixThenAll(Attempts(ledger, txs, stops[..|stops| - 1]), txs, stops[|stops| - 1]);
      Restartable(ledger, txs, stops[..|stops| - 1]);
    }
  }

  /** Starting without migrated entries and with distinct ids, each mapped transaction gets exactly its own entry. */
  lemma {:induction false} EachGetsItsOwn(ledger: Ledger, txs: seq<Tx>, i: nat)
    requires i < |txs| && Mapped(txs[i]) && TransactionId(txs[i]) !in ledger
    requires forall j, k :: 0 <= j < k < |txs| ==> txs[j].id != txs[k].id
    ensures TransactionId(txs[i]) in MigrateAll(ledger, txs)
    ensures MigrateAll(ledger, txs)[TransactionId(txs[i])] == EntryOf(txs[i])
  {
    var n := |txs| - 1;
    if i < n {
      EachGetsItsOwn(ledger, txs[..n], i);
      SameId(txs[i], txs[n]);
    } else {
      IdIsNew(ledger, txs[..n], txs[n]);
    }
  }

  lemma SameId(a: Tx, b: Tx)
    ensures TransactionId(a) == TransactionId(b) <==> a.id == b.id
  {
    assert TransactionId(a)[|"LEGACY-TX-"|..] == a.id && TransactionId(b)[|"LEGACY-TX-"|..] == b.id;
  }

  lemma {:induction false} IdIsNew(ledger: Ledger, txs: seq<Tx>, tx: Tx)
    requires TransactionId(tx) !in ledger && forall t :: t in txs ==> t.id != tx.id
    ensures TransactionId(tx) !in MigrateAll(ledger, txs)
  {
    if txs != [] {
      var last := txs[|txs| - 1];
      assert last in txs;
      SameId(last, tx);
      IdIsNew(ledger, txs[..|txs| - 1], tx);
    }
  }
}
