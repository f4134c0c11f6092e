/** metier.service.MempoolService: the in-memory list of pending transactions, its
    fee-descending view, position queries and the synthetic pool generator. */
module MempoolService {
  import opened Wrappers
  import opened Enums
  import opened Ids
  import opened TransactionModel
  import opened AddressGenerator
  import opened FeeRanking

  /** The pending transactions whose fee is set, in list order, each with its fee. */
  function FeeView(pending: seq<Transaction>): (es: seq<Entry>)
    reads pending
    ensures |es| <= |pending|
    ensures forall i :: 0 <= i < |es| ==> es[i].tx in pending && es[i].tx.feeAmount == Some(es[i].fee)
  {
    if pending == [] then []
    else
      (if pending[0].feeAmount.Some? then [Entry(pending[0], pending[0].feeAmount.value)] else [])
      + FeeView(pending[1..])
  }

  /** The view keeps each pending transaction with a set fee exactly as often as the list
      holds it. */
  lemma {:induction false} FeeViewCount(pending: seq<Transaction>, t: Transaction)
    requires t.feeAmount.Some?
    ensures multiset(FeeView(pending))[Entry(t, t.feeAmount.value)] == multiset(pending)[t]
  {
    if pending != [] {
      var rest := pending[1..];
      var e := Entry(t, t.feeAmount.value);
      FeeViewCount(rest, t);
      var head := if pending[0].feeAmount.Some? then [Entry(pending[0], pending[0].feeAmount.value)] else [];
      var viewRest := FeeView(rest);
      assert FeeView(pending) == head + viewRest;
      assert pending == [pending[0]] + rest;
      var restMultiset: multiset<Transaction> := multiset(rest);
      var restCount := restMultiset[t];
      calc {
        multiset(FeeView(pending))[e];
        multiset(head)[e] + multiset(viewRest)[e];
        (if pending[0] == t then 1 else 0) + restCount;
        multiset(pending)[t];
      }
    }
  }

  /** One synthetic transaction's random draws: two times eight nextInt(16) for the
      addresses and one nextInt(90) for the fee. */
  datatype PoolDraw = PoolDraw(fromDigits: seq<nat>, toDigits: seq<nat>, feeDraw: nat)

  predicate DrawFits(d: PoolDraw)
  {
    |d.fromDigits| == 8 && DrawsBelow(d.fromDigits, |HEX|) &&
    |d.toDigits| == 8 && DrawsBelow(d.toDigits, |HEX|) &&
    d.feeDraw < 90
  }

  /** The amount of every synthetic transaction. */
  const SyntheticAmount: real := 0.01
  /** The fee unit of synthetic transactions. */
  const SyntheticFeeUnit: real := 0.0000001
  /** The minutes one position in the queue is expected to wait. */
  const MinutesPerPosition: int := 10

  /** A synthetic fee of `units` (nextInt(90) + 1, so 1..90) times 10^-7. */
  function SyntheticFee(units: nat): (fee: real)
    requires 1 <= units <= 90
    ensures 0.0000001 <= fee <= 0.000009
  {
    units as real * SyntheticFeeUnit
  }

  /** What generateRandomPending builds from one draw. */
  ghost predicate IsSyntheticFrom(t: Transaction, d: PoolDraw)
    reads t
    requires DrawFits(d)
  {
    t.fromAddress == "0x" + Spell(HEX, d.fromDigits) && t.toAddress == "0x" + Spell(HEX, d.toDigits) &&
    t.amount == SyntheticAmount && t.feePriority == STANDARD && t.status == PENDING &&
    t.feeAmount == Some(SyntheticFee(d.feeDraw + 1))
  }

  /** "0x" followed by eight lower-case hexadecimal digits. */
  method AnonymAddr(digits: seq<nat>) returns (address: string)
    requires |digits| == 8 && DrawsBelow(digits, |HEX|)
    ensures address == "0x" + Spell(HEX, digits)
    ensures |address| == 10
  {
    address := AppendDrawn("0x", HEX, digits);
    assert address == "0x" + Spell(HEX, digits);
  }

  /** One synthetic pending transaction built from one draw: a random wallet id and
      transaction id, anonymous addresses, the fixed amount and tier, and the drawn fee. */
  method SyntheticTransaction(d: PoolDraw, ids: IdSupply, now: int) returns (t: Transaction)
    requires DrawFits(d)
    modifies ids
    ensures fresh(t) && IsSyntheticFrom(t, d)
    ensures t.id !in old(ids.issued) && t.id in ids.issued && ids.issued >= old(ids.issued)
  {
    var fromAddress := AnonymAddr(d.fromDigits);
    var toAddress := AnonymAddr(d.toDigits);
    var walletId := ids.Mint();
    t := new Transaction(fromAddress, toAddress, SyntheticAmount, STANDARD, walletId, ids, now);
    var fee := SyntheticFee(d.feeDraw + 1);
    t.SetFeeAmount(Some(fee));
  }

  class MempoolService {
    var pending: seq<Transaction>

    constructor ()
      ensures pending == []
    {
      pending := [];
    }

    /** Appends at the end; nothing else changes. */
    method AddTransaction(tx: Transaction)
      modifies this
      ensures pending == old(pending) + [tx]
    {
      pending := pending + [tx];
    }

    /** The pending transactions with a set fee, highest fee first, ties in insertion order. */
    function GetPendingSortedByFeeDesc(): (v: seq<Entry>)
      reads this, pending
      ensures Descending(v)
      ensures multiset(v) == multiset(FeeView(pending))
      ensures forall f :: WithFee(v, f) == WithFee(FeeView(pending), f)
      ensures forall i :: 0 <= i < |v| ==> v[i].tx in pending && v[i].tx.feeAmount == Some(v[i].fee)
    {
      SortFacts(FeeView(pending));
      var v := SortByFeeDesc(FeeView(pending));
      assert forall i :: 0 <= i < |v| ==> v[i] in multiset(FeeView(pending));
      v
    }

    /** The 1-based rank of the first view entry with myTx's id, or -1. */
    method ComputePosition(myTx: Transaction) returns (pos: int)
      ensures pos == PositionOf(GetPendingSortedByFeeDesc(), myTx.id)
    {
      var sorted := GetPendingSortedByFeeDesc();
      var i := 0;
      while i < |sorted|
        invariant 0 <= i <= |sorted|
        invariant forall j :: 0 <= j < i ==> sorted[j].tx.id != myTx.id
      {
        if sorted[i].tx.id == myTx.id {
          FirstMatchIsPosition(sorted, myTx.id, i);
          return i + 1;
        }
        i := i + 1;
      }
      return -1;
    }

    /** One more than the number of pending transactions whose set fee strictly exceeds
        `hypotheticalFee`; the pool is not changed. */
    method ComputeHypotheticalPosition(hypotheticalFee: real) returns (pos: int)
      ensures pos == 1 + CountAbove(FeeView(pending), hypotheticalFee)
      ensures pos == HypotheticalPosition(GetPendingSortedByFeeDesc(), hypotheticalFee)
    {
      var sorted := GetPendingSortedByFeeDesc();
      pos := 1;
      for i := 0 to |sorted|
        invariant pos == 1 + CountAbove(sorted[..i], hypotheticalFee)
      {
        assert sorted[..i + 1][..i] == sorted[..i];
        if sorted[i].fee > hypotheticalFee {
          pos := pos + 1;
        }
      }
      assert sorted[..|sorted|] == sorted;
      SortFacts(FeeView(pending));
    }

    /** Ten minutes per position when found, zero minutes when not. */
    method EstimateConfirmationTime(myTx: Transaction) returns (minutes: int)
      ensures PositionOf(GetPendingSortedByFeeDesc(), myTx.id) == -1 ==> minutes == 0
      ensures PositionOf(GetPendingSortedByFeeDesc(), myTx.id) != -1 ==>
                minutes == MinutesPerPosition * PositionOf(GetPendingSortedByFeeDesc(), myTx.id)
      ensures minutes == 0 || (10 <= minutes <= MinutesPerPosition * |GetPendingSortedByFeeDesc()|)
    {
      var pos := ComputePosition(myTx);
      if pos < 0 {
        return 0;
      }
      minutes := pos * MinutesPerPosition;
    }

    /** Empties the pool, user transactions included, and refills it with max(count, 0)
        fresh synthetic transactions, one per draw. */
    method GenerateRandomPending(count: int, draws: seq<PoolDraw>, ids: IdSupply, now: int)
      requires count <= |draws|
      requires forall i :: 0 <= i < count ==> DrawFits(draws[i])
      modifies this, ids
      ensures |pending| == if count > 0 then count else 0
      ensures forall i :: 0 <= i < |pending| ==> fresh(pending[i]) && IsSyntheticFrom(pending[i], draws[i])
      ensures forall i :: 0 <= i < |pending| ==> pending[i].id !in old(ids.issued)
      ensures forall i, j :: 0 <= i < j < |pending| ==> pending[i].id != pending[j].id
      ensures forall t :: t in old(pending) ==> t !in pending
    {
      pending := [];
      var i := 0;
      while i < count
        invariant 0 <= i <= (if count > 0 then count else 0) && |pending| == i
        invariant ids.issued >= old(ids.issued)
        invariant forall j :: 0 <= j < i ==> fresh(pending[j]) && IsSyntheticFrom(pending[j], draws[j])
        invariant forall j :: 0 <= j < i ==> pending[j].id in ids.issued && pending[j].id !in old(ids.issued)
        invariant forall j, k :: 0 <= j < k < i ==> pending[j].id != pending[k].id
      {
        var t := SyntheticTransaction(draws[i], ids, now);
        pending := pending + [t];
        i := i + 1;
      }
    }
  }

  /** When t occurs in v, every transaction of v is pending, and no other pending
      transaction shares t's id, the first entry with t's id is t's. */
  lemma FirstWithIdIs(v: seq<Entry>, pending: seq<Transaction>, t: Transaction, k: nat)
    requires k < |v| && v[k].tx == t
    requires forall i :: 0 <= i < |v| ==> v[i].tx in pending
    requires forall u :: u in pending && u.id == t.id ==> u == t
    ensures PositionOf(v, t.id) != -1 && v[PositionOf(v, t.id) - 1].tx == t
  {
    assert v[k].tx.id == t.id;
    var p := PositionOf(v, t.id);
    assert v[p - 1].tx in pending;
  }

  /** A pending transaction with its fee set has an entry in any rearrangement of the
      fee view. */
  lemma EntryIndex(pending: seq<Transaction>, v: seq<Entry>, t: Transaction) returns (k: nat)
    requires t in pending && t.feeAmount.Some?
    requires multiset(v) == multiset(FeeView(pending))
    ensures k < |v| && v[k] == Entry(t, t.feeAmount.value)
  {
    FeeViewCount(pending, t);
    assert t in multiset(pending);
    assert Entry(t, t.feeAmount.value) in multiset(v);
    k :| 0 <= k < |v| && v[k] == Entry(t, t.feeAmount.value);
  }

  /** The same, for any descending arrangement of the fee view of a list of transactions
      in which t, with its fee set, has an id of its own. */
  lemma FoundInArrangement(pending: seq<Transaction>, v: seq<Entry>, t: Transaction)
    requires t in pending && t.feeAmount.Some?
    requires forall u :: u in pending && u.id == t.id ==> u == t
    requires Descending(v) && multiset(v) == multiset(FeeView(pending))
    requires forall i :: 0 <= i < |v| ==> v[i].tx in pending && v[i].tx.feeAmount == Some(v[i].fee)
    ensures PositionOf(v, t.id) != -1
    ensures v[PositionOf(v, t.id) - 1].tx == t
    ensures PositionOf(v, t.id) >= HypotheticalPosition(v, t.feeAmount.value)
  {
    var k := EntryIndex(pending, v, t);
    FirstWithIdIs(v, pending, t, k);
    var p := PositionOf(v, t.id);
    assert v[p - 1].tx.feeAmount == Some(v[p - 1].fee);
    PositionVersusHypothetical(v, t.id);
  }

  /** A pending transaction with another id than t carries another fee, when t's fee is
      carried by t alone. */
  lemma OtherTransactionOtherFee(pending: seq<Transaction>, t: Transaction, u: Transaction, fu: real, ft: real)
    requires forall w :: w in pending && w.feeAmount == t.feeAmount ==> w == t
    requires u in pending && u.id != t.id
    requires u.feeAmount == Some(fu) && t.feeAmount == Some(ft)
    ensures fu != ft
  {
    assert u != t;
  }

  /** When no other pending transaction carries t's fee and t's entry sits at index k with
      no entry of t's id ahead of it, the entries ahead all outbid it strictly: exactly k
      entries outbid t, so its 1-based position k + 1 is the hypothetical position of its fee. */
  lemma UnsharedFeeRank(pending: seq<Transaction>, v: seq<Entry>, t: Transaction, k: nat)
    requires t.feeAmount.Some?
    requires forall u :: u in pending && u.feeAmount == t.feeAmount ==> u == t
    requires Descending(v)
    requires forall i :: 0 <= i < |v| ==> v[i].tx in pending && v[i].tx.feeAmount == Some(v[i].fee)
    requires k < |v| && v[k].tx == t
    requires forall i :: 0 <= i < k ==> v[i].tx.id != t.id
    ensures CountAbove(v, t.feeAmount.value) == k
  {
    assert t.feeAmount == Some(v[k].fee);
    forall i | 0 <= i < k
      ensures v[i].fee != v[k].fee
    {
      OtherTransactionOtherFee(pending, t, v[i].tx, v[i].fee, v[k].fee);
    }
    ShareFreeRank(v, k);
  }

  /** For a transaction in the pool that no other pool entry shares an id with: it is
      found exactly when its fee is set, and then it is the entry found, and its position is
      at least the hypothetical position of its own fee (PositionOfUnsharedFee: equal when its fee is
      unshared). */
  lemma PositionOfPendingTransaction(m: MempoolService, t: Transaction)
    requires t in m.pending
    requires forall u :: u in m.pending && u.id == t.id ==> u == t
    ensures t.feeAmount.None? ==> PositionOf(m.GetPendingSortedByFeeDesc(), t.id) == -1
    ensures t.feeAmount.Some? ==> PositionOf(m.GetPendingSortedByFeeDesc(), t.id) != -1
    ensures t.feeAmount.Some? ==>
      var v := m.GetPendingSortedByFeeDesc();
      var p := PositionOf(v, t.id);
      v[p - 1].tx == t && p >= HypotheticalPosition(v, t.feeAmount.value)
  {
    var v := m.GetPendingSortedByFeeDesc();
    if t.feeAmount.Some? {
      FoundInArrangement(m.pending, v, t);
    } else {
      forall i | 0 <= i < |v| ensures v[i].tx.id != t.id {
        assert v[i].tx in m.pending;
      }
    }
  }

  /** For a pending transaction with an id of its own and a set fee that no other pending
      transaction carries, the position equals the hypothetical position of that fee. */
  lemma PositionOfUnsharedFee(m: MempoolService, t: Transaction)
    requires t in m.pending && t.feeAmount.Some?
    requires forall u :: u in m.pending && u.id == t.id ==> u == t
    requires forall u :: u in m.pending && u.feeAmount == t.feeAmount ==> u == t
    ensures PositionOf(m.GetPendingSortedByFeeDesc(), t.id) ==
            HypotheticalPosition(m.GetPendingSortedByFeeDesc(), t.feeAmount.value)
  {
    var v := m.GetPendingSortedByFeeDesc();
    FoundInArrangement(m.pending, v, t);
    var p := PositionOf(v, t.id);
    UnsharedFeeRank(m.pending, v, t, p - 1);
  }

  /** A transaction whose id is nowhere in the pool is not found (so, by
      EstimateConfirmationTime, its estimated wait is zero). */
  lemma AbsentTransactionNotFound(m: MempoolService, t: Transaction)
    requires forall u :: u in m.pending ==> u.id != t.id
    ensures PositionOf(m.GetPendingSortedByFeeDesc(), t.id) == -1
  {
    var v := m.GetPendingSortedByFeeDesc();
    forall i | 0 <= i < |v| ensures v[i].tx.id != t.id {
      assert v[i].tx in m.pending;
    }
  }
}
