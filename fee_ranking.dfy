/** The fee-descending order of the mempool, on values: the stable sort that
    `stream().sorted(comparing(getFeeAmount).reversed())` performs, the 1-based
    position lookup and the hypothetical position count. */
module FeeRanking {
  import opened TransactionModel

  /** A pool entry together with the fee it is ranked by. */
  datatype Entry = Entry(tx: Transaction, fee: real)

  /** Highest fee first. */
  predicate Descending(s: seq<Entry>)
  {
    forall i, j :: 0 <= i < j < |s| ==> s[i].fee >= s[j].fee
  }

  /** Places x after every entry whose fee is at least x's: behind its ties. */
  function Insert(x: Entry, s: seq<Entry>): seq<Entry>
  {
    if s == [] then [x]
    else if s[0].fee >= x.fee then [s[0]] + Insert(x, s[1..])
    else [x] + s
  }

  /** Stable sort by descending fee: each entry is inserted behind the earlier ones it ties with. */
  function SortByFeeDesc(es: seq<Entry>): seq<Entry>
  {
    if es == [] then [] else Insert(es[|es| - 1], SortByFeeDesc(es[..|es| - 1]))
  }

  /** The entries whose fee is exactly f, in their order. */
  function WithFee(s: seq<Entry>, f: real): seq<Entry>
  {
    if s == [] then [] else (if s[0].fee == f then [s[0]] else []) + WithFee(s[1..], f)
  }

  /** The number of entries whose fee is strictly greater than f. */
  function CountAbove(s: seq<Entry>, f: real): (n: nat)
    ensures n <= |s|
  {
    if s == [] then 0 else CountAbove(s[..|s| - 1], f) + (if s[|s| - 1].fee > f then 1 else 0)
  }

  /** The 1-based index of the first entry whose transaction has this id, or -1. */
  function PositionOf(v: seq<Entry>, id: string): (pos: int)
    ensures pos == -1 || 1 <= pos <= |v|
    ensures pos == -1 <==> forall i :: 0 <= i < |v| ==> v[i].tx.id != id
    ensures pos != -1 ==> v[pos - 1].tx.id == id && forall i :: 0 <= i < pos - 1 ==> v[i].tx.id != id
  {
    if v == [] then -1
    else if v[0].tx.id == id then 1
    else
      var p := PositionOf(v[1..], id);
      assert forall i :: 1 <= i < |v| ==> v[i] == v[1..][i - 1];
      if p == -1 then -1 else p + 1
  }

  /** The first index holding the id determines PositionOf. */
  lemma FirstMatchIsPosition(v: seq<Entry>, id: string, i: nat)
    requires i < |v| && v[i].tx.id == id
    requires forall j :: 0 <= j < i ==> v[j].tx.id != id
    ensures PositionOf(v, id) == i + 1
  {
    assert PositionOf(v, id) != -1 by {
      assert v[i].tx.id == id;
    }
  }

  /** The 1-based rank a transaction with fee f would take: one more than the number of
      entries that outbid it strictly. */
  function HypotheticalPosition(v: seq<Entry>, f: real): (pos: int)
    ensures 1 <= pos <= |v| + 1
  {
    1 + CountAbove(v, f)
  }

  // ---- WithFee and CountAbove over concatenations ----

  lemma {:induction false} WithFeeConcat(a: seq<Entry>, b: seq<Entry>, f: real)
    ensures WithFee(a + b, f) == WithFee(a, f) + WithFee(b, f)
  {
    if a != [] {
      var head := if a[0].fee == f then [a[0]] else [];
      assert (a + b)[0] == a[0];
      assert (a + b)[1..] == a[1..] + b;
      WithFeeConcat(a[1..], b, f);
      calc {
        WithFee(a + b, f);
        head + WithFee(a[1..] + b, f);
        head + (WithFee(a[1..], f) + WithFee(b, f));
        (head + WithFee(a[1..], f)) + WithFee(b, f);
      }
    } else {
      assert a + b == b;
    }
  }

  lemma {:induction false} WithFeeEmpty(s: seq<Entry>, f: real)
    requires forall i :: 0 <= i < |s| ==> s[i].fee < f
    ensures WithFee(s, f) == []
  {
    if s != [] {
      WithFeeEmpty(s[1..], f);
    }
  }

  lemma {:induction false} CountAboveConcat(a: seq<Entry>, b: seq<Entry>, f: real)
    ensures CountAbove(a + b, f) == CountAbove(a, f) + CountAbove(b, f)
  {
    if b == [] {
      assert a + b == a;
    } else {
      assert (a + b)[..|a + b| - 1] == a + b[..|b| - 1];
      assert (a + b)[|a + b| - 1] == b[|b| - 1];
      CountAboveConcat(a, b[..|b| - 1], f);
    }
  }

  lemma {:induction false} CountAboveAll(s: seq<Entry>, f: real)
    requires forall i :: 0 <= i < |s| ==> s[i].fee > f
    ensures CountAbove(s, f) == |s|
  {
    if s != [] {
      CountAboveAll(s[..|s| - 1], f);
    }
  }

  lemma {:induction false} CountAboveNone(s: seq<Entry>, f: real)
    requires forall i :: 0 <= i < |s| ==> s[i].fee <= f
    ensures CountAbove(s, f) == 0
  {
    if s != [] {
      CountAboveNone(s[..|s| - 1], f);
    }
  }

  // ---- Insert ----

  /** Insert adds exactly x. */
  lemma {:induction false} InsertMultiset(x: Entry, s: seq<Entry>)
    ensures multiset(Insert(x, s)) == multiset(s) + multiset{x}
  {
    if s != [] && s[0].fee >= x.fee {
      InsertMultiset(x, s[1..]);
      assert s == [s[0]] + s[1..];
    }
  }

  /** Every entry of Insert(x, s) is x or an entry of s. */
  lemma InsertMembers(x: Entry, s: seq<Entry>, j: nat)
    requires j < |Insert(x, s)|
    ensures Insert(x, s)[j] == x || Insert(x, s)[j] in s
  {
    InsertMultiset(x, s);
    assert Insert(x, s)[j] in multiset(Insert(x, s));
  }

  /** Inserting into a descending sequence keeps it descending. */
  lemma {:induction false} InsertDescending(x: Entry, s: seq<Entry>)
    requires Descending(s)
    ensures Descending(Insert(x, s))
  {
    var r := Insert(x, s);
    if s != [] && s[0].fee >= x.fee {
      var t := Insert(x, s[1..]);
      assert r == [s[0]] + t;
      InsertDescending(x, s[1..]);
      forall j | 0 <= j < |t| ensures t[j].fee <= s[0].fee {
        InsertMembers(x, s[1..], j);
      }
      forall i, j | 0 <= i < j < |r| ensures r[i].fee >= r[j].fee {
        assert r[j] == t[j - 1];
        if i > 0 { assert r[i] == t[i - 1]; }
      }
    }
  }

  /** A suffix of a descending sequence is descending. */
  lemma DescendingTail(s: seq<Entry>)
    requires Descending(s) && s != []
    ensures Descending(s[1..])
  {
    forall i, j | 0 <= i < j < |s| - 1
      ensures s[1..][i].fee >= s[1..][j].fee
    {
      assert s[1..][i] == s[i + 1] && s[1..][j] == s[j + 1];
    }
  }

  /** No entry of a descending sequence reaches a fee above its head's. */
  lemma NoneAboveHead(s: seq<Entry>, f: real)
    requires Descending(s) && s != [] && s[0].fee < f
    ensures WithFee(s, f) == []
  {
    forall j | 0 <= j < |s|
      ensures s[j].fee < f
    {
      assert j == 0 || s[0].fee >= s[j].fee;
    }
    WithFeeEmpty(s, f);
  }

  /** The entries of fee f in a sequence with a known head. */
  lemma WithFeeCons(h: Entry, t: seq<Entry>, f: real)
    ensures WithFee([h] + t, f) == (if h.fee == f then [h] else []) + WithFee(t, f)
  {
    assert ([h] + t)[1..] == t;
  }

  /** Prefixing one entry to two sequences whose entries of fee f differ by a tail
      keeps that difference. */
  lemma WithFeeSameHead(h: Entry, t: seq<Entry>, rest: seq<Entry>, extra: seq<Entry>, f: real)
    requires WithFee(t, f) == WithFee(rest, f) + extra
    ensures WithFee([h] + t, f) == WithFee([h] + rest, f) + extra
  {
    var head := if h.fee == f then [h] else [];
    WithFeeCons(h, t, f);
    WithFeeCons(h, rest, f);
    assert head + (WithFee(rest, f) + extra) == (head + WithFee(rest, f)) + extra;
  }

  /** Inserting x adds x, at the end, to the entries of fee f when x has fee f, and
      otherwise leaves them as they were. */
  lemma {:induction false} InsertWithFee(x: Entry, s: seq<Entry>, f: real)
    requires Descending(s)
    ensures WithFee(Insert(x, s), f) == WithFee(s, f) + (if x.fee == f then [x] else [])
  {
    if s == [] {
      assert Insert(x, s) == [x] + [];
      WithFeeCons(x, [], f);
    } else if s[0].fee >= x.fee {
      DescendingTail(s);
      InsertWithFee(x, s[1..], f);
      assert Insert(x, s) == [s[0]] + Insert(x, s[1..]);
      assert s == [s[0]] + s[1..];
      WithFeeSameHead(s[0], Insert(x, s[1..]), s[1..], if x.fee == f then [x] else [], f);
    } else {
      assert Insert(x, s) == [x] + s;
      WithFeeCons(x, s, f);
      if x.fee == f {
        NoneAboveHead(s, f);
      }
    }
  }

  /** x's fee adds one to every count it exceeds. */
  lemma {:induction false} InsertCountAbove(x: Entry, s: seq<Entry>, f: real)
    ensures CountAbove(Insert(x, s), f) == CountAbove(s, f) + (if x.fee > f then 1 else 0)
  {
    if s == [] {
      assert Insert(x, s) == [] + [x];
    } else if s[0].fee >= x.fee {
      var t := Insert(x, s[1..]);
      assert Insert(x, s) == [s[0]] + t;
      assert s == [s[0]] + s[1..];
      InsertCountAbove(x, s[1..], f);
      CountAboveConcat([s[0]], t, f);
      CountAboveConcat([s[0]], s[1..], f);
    } else {
      CountAboveConcat([x], s, f);
      assert [x] == [] + [x];
    }
  }

  // ---- The sort ----

  /** The sorted view is descending, a permutation of its input, stable (the entries of any
      one fee keep their input order), and agrees with its input on every count. */
  lemma {:induction false} SortFacts(es: seq<Entry>)
    ensures Descending(SortByFeeDesc(es))
    ensures multiset(SortByFeeDesc(es)) == multiset(es)
    ensures forall f :: WithFee(SortByFeeDesc(es), f) == WithFee(es, f)
    ensures forall f :: CountAbove(SortByFeeDesc(es), f) == CountAbove(es, f)
  {
    if es != [] {
      var pre, last := es[..|es| - 1], es[|es| - 1];
      assert es == pre + [last];
      SortFacts(pre);
      InsertMultiset(last, SortByFeeDesc(pre));
      InsertDescending(last, SortByFeeDesc(pre));
      forall f ensures WithFee(SortByFeeDesc(es), f) == WithFee(es, f) {
        InsertWithFee(last, SortByFeeDesc(pre), f);
        WithFeeConcat(pre, [last], f);
      }
      forall f ensures CountAbove(SortByFeeDesc(es), f) == CountAbove(es, f) {
        InsertCountAbove(last, SortByFeeDesc(pre), f);
        CountAboveConcat(pre, [last], f);
      }
    }
  }

  /** Adjacent entries of the sorted view are in non-increasing fee order. */
  lemma SortedAdjacent(es: seq<Entry>, i: nat)
    requires i + 1 < |SortByFeeDesc(es)|
    ensures SortByFeeDesc(es)[i].fee >= SortByFeeDesc(es)[i + 1].fee
  {
    SortFacts(es);
  }

  /** Two entries of equal fee appear in the sorted view in their input order. */
  lemma {:induction false} TiesKeepInsertionOrder(es: seq<Entry>, f: real)
    ensures WithFee(SortByFeeDesc(es), f) == WithFee(es, f)
  {
    SortFacts(es);
  }

  // ---- Positions ----

  /** A hypothetical position never rises when the fee rises. */
  lemma {:induction false} HypotheticalMonotone(v: seq<Entry>, f1: real, f2: real)
    requires f1 <= f2
    ensures HypotheticalPosition(v, f2) <= HypotheticalPosition(v, f1)
  {
    if v != [] {
      HypotheticalMonotone(v[..|v| - 1], f1, f2);
    }
  }

  /** In a descending sequence nothing from index k on outbids v[k], so only the entries
      before k count against it. */
  lemma CountAboveOnlyBefore(v: seq<Entry>, k: nat)
    requires Descending(v) && k < |v|
    ensures CountAbove(v, v[k].fee) == CountAbove(v[..k], v[k].fee)
  {
    var f := v[k].fee;
    var post := v[k..];
    assert v == v[..k] + post;
    CountAboveConcat(v[..k], post, f);
    forall i | 0 <= i < |post|
      ensures post[i].fee <= f
    {
      assert post[i] == v[k + i];
    }
    CountAboveNone(post, f);
  }

  /** In a descending sequence v[k] is outbid by at most k entries, and by exactly k when
      no other entry shares its fee. */
  lemma RankVersusCount(v: seq<Entry>, k: nat)
    requires Descending(v) && k < |v|
    ensures CountAbove(v, v[k].fee) <= k
    ensures (forall j :: 0 <= j < |v| && j != k ==> v[j].fee != v[k].fee) ==> CountAbove(v, v[k].fee) == k
  {
    CountAboveOnlyBefore(v, k);
    if forall j :: 0 <= j < |v| && j != k ==> v[j].fee != v[k].fee {
      var pre := v[..k];
      forall i | 0 <= i < |pre|
        ensures pre[i].fee > v[k].fee
      {
        assert pre[i] == v[i];
      }
      CountAboveAll(pre, v[k].fee);
    }
  }

  /** In a descending sequence, when no entry ahead of v[k] has its fee, exactly k entries
      outbid it. */
  lemma ShareFreeRank(v: seq<Entry>, k: nat)
    requires Descending(v) && k < |v|
    requires forall i :: 0 <= i < k ==> v[i].fee != v[k].fee
    ensures CountAbove(v, v[k].fee) == k
  {
    var pre := v[..k];
    forall i | 0 <= i < |pre|
      ensures pre[i].fee > v[k].fee
    {
      assert pre[i] == v[i];
    }
    CountAboveAll(pre, v[k].fee);
    CountAboveOnlyBefore(v, k);
  }

  /** In a descending view, the entry found at position p is outbid by at most p - 1
      entries, so p is at least the hypothetical position of its own fee; and when no other
      entry shares that fee the two coincide. With ties the found entry may rank lower. */
  lemma PositionVersusHypothetical(v: seq<Entry>, id: string)
    requires Descending(v)
    requires PositionOf(v, id) != -1
    ensures PositionOf(v, id) >= HypotheticalPosition(v, v[PositionOf(v, id) - 1].fee)
    ensures (forall j :: 0 <= j < |v| && j != PositionOf(v, id) - 1 ==> v[j].fee != v[PositionOf(v, id) - 1].fee)
            ==> PositionOf(v, id) == HypotheticalPosition(v, v[PositionOf(v, id) - 1].fee)
  {
    RankVersusCount(v, PositionOf(v, id) - 1);
  }

  // ---- Worked examples ----

  /** Fees 0.3, 0.1, 0.2 inserted in that order rank as 0.3, 0.2, 0.1, and a fee of 0.25
      would take position 2. */
  lemma ThreeFeeExample(a: Transaction, b: Transaction, c: Transaction)
    ensures SortByFeeDesc([Entry(a, 0.3), Entry(b, 0.1), Entry(c, 0.2)]) == [Entry(a, 0.3), Entry(c, 0.2), Entry(b, 0.1)]
    ensures HypotheticalPosition([Entry(a, 0.3), Entry(c, 0.2), Entry(b, 0.1)], 0.25) == 2
  {
    var ea, eb, ec := Entry(a, 0.3), Entry(b, 0.1), Entry(c, 0.2);
    assert [ea, eb, ec][..2] == [ea, eb] && [ea, eb][..1] == [ea] && [ea][..0] == [];
    assert SortByFeeDesc([ea]) == Insert(ea, []) == [ea];
    assert [ea][1..] == [];
    assert SortByFeeDesc([ea, eb]) == Insert(eb, [ea]) == [ea] + Insert(eb, []) == [ea, eb];
    assert [ea, eb][1..] == [eb];
    assert Insert(ec, [eb]) == [ec, eb];
    assert SortByFeeDesc([ea, eb, ec]) == Insert(ec, [ea, eb]) == [ea] + Insert(ec, [eb]) == [ea, ec, eb];
    var v := [ea, ec, eb];
    assert v[..2] == [ea, ec] && v[..2][..1] == [ea] && v[..2][..1][..0] == [];
    assert CountAbove([ea], 0.25) == 1;
    assert CountAbove([ea, ec], 0.25) == 1;
    assert CountAbove(v, 0.25) == 1;
  }

  /** Two transactions at the same fee: the later one ranks second although nothing
      outbids it, so its position exceeds the hypothetical position of its fee. */
  lemma TieExample(a: Transaction, b: Transaction, f: real)
    requires a.id != b.id
    ensures SortByFeeDesc([Entry(a, f), Entry(b, f)]) == [Entry(a, f), Entry(b, f)]
    ensures PositionOf([Entry(a, f), Entry(b, f)], b.id) == 2
    ensures HypotheticalPosition([Entry(a, f), Entry(b, f)], f) == 1
  {
    var ea, eb := Entry(a, f), Entry(b, f);
    assert [ea, eb][..1] == [ea] && [ea][..0] == [] && [ea][1..] == [];
    assert SortByFeeDesc([ea]) == Insert(ea, []) == [ea];
    assert SortByFeeDesc([ea, eb]) == Insert(eb, [ea]) == [ea] + Insert(eb, []) == [ea, eb];
    assert [ea, eb][1..] == [eb];
    assert CountAbove([ea], f) == 0;
    assert CountAbove([ea, eb], f) == 0;
  }
}
