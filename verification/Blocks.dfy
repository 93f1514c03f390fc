/** Reading blocks back: getBlock scans decimal keys in byte order, so a block comes back in storage
    order exactly when it has at most ten transactions; and what it commits to never changes. */
module Blocks {
  import opened Wrappers
  import opened Text
  import opened Order
  import opened Positions
  import opened Types
  import opened Ledger
  import opened Invariants
  import opened Sealing

  // ---------- sizes ----------

  /** The number of transactions of block n, counted from index i on. */
  function SizeFrom(s: State, n: nat, i: nat): nat
    decreases MAX_BLOCK_TXES - i
  {
    if i < MAX_BLOCK_TXES && TxRef(n, i) in s.txs then SizeFrom(s, n, i + 1) else i
  }

  function Size(s: State, n: nat): nat {
    SizeFrom(s, n, 0)
  }

  ghost predicate HasSize(s: State, n: nat, k: nat) {
    forall i: nat :: TxRef(n, i) in s.txs <==> i < k
  }

  lemma {:induction false} SizeFromCounts(s: State, n: nat, i: nat)
    requires Shape(s) && i <= MAX_BLOCK_TXES
    requires forall m: nat | m < i :: TxRef(n, m) in s.txs
    ensures HasSize(s, n, SizeFrom(s, n, i))
    decreases MAX_BLOCK_TXES - i
  {
    if i < MAX_BLOCK_TXES && TxRef(n, i) in s.txs {
      SizeFromCounts(s, n, i + 1);
    } else {
      forall m: nat ensures TxRef(n, m) in s.txs <==> m < i {
        assert TxRef(n, m) in s.txs && i < m ==> TxRef(TxRef(n, m).blk, i) in s.txs;
      }
    }
  }

  lemma SizeCounts(s: State, n: nat)
    requires Shape(s)
    ensures HasSize(s, n, Size(s, n))
    ensures Size(s, n) <= MAX_BLOCK_TXES
    ensures 1 <= n < s.cur <==> Size(s, n) > 0
  {
    SizeFromCounts(s, n, 0);
    assert Size(s, n) > 0 ==> TxRef(n, Size(s, n) - 1) in s.txs;
  }

  /** The transactions of block n in storage order. */
  function StoredTxs(s: State, n: nat, k: nat): (r: seq<Tx>)
    requires forall i: nat | i < k :: TxRef(n, i) in s.txs
    ensures |r| == k && forall i | 0 <= i < k :: r[i] == s.txs[TxRef(n, i)]
  {
    seq(k, (i: nat) requires i < k => s.txs[TxRef(n, i)])
  }

  // ---------- the byte order of decimal numerals ----------

  function Numerals(k: nat): set<string> {
    set i: nat | i < k :: Dec(i)
  }

  lemma NumeralIsNew(k: nat)
    ensures Dec(k) !in Numerals(k)
  {
    if Dec(k) in Numerals(k) {
      var i: nat :| i < k && Dec(i) == Dec(k);
      DecInjective(i, k);
    }
  }

  lemma NumeralsNext(k: nat)
    requires k > 0
    ensures Numerals(k) == Numerals(k - 1) + {Dec(k - 1)}
  {
    forall x ensures x in Numerals(k) <==> x in Numerals(k - 1) + {Dec(k - 1)} {
      if x in Numerals(k) {
        var i: nat :| i < k && x == Dec(i);
        assert i < k - 1 || i == k - 1;
      }
    }
  }

  lemma {:induction false} NumeralsCount(k: nat)
    ensures |Numerals(k)| == k
  {
    if k == 0 {
      assert Numerals(k) == {};
    } else {
      NumeralsCount(k - 1);
      NumeralIsNew(k - 1);
      NumeralsNext(k);
    }
  }

  function NumeralSeq(k: nat): (r: seq<string>)
    ensures |r| == k && forall i | 0 <= i < k :: r[i] == Dec(i)
  {
    seq(k, (i: nat) => Dec(i))
  }

  /** Up to ten numerals, byte order is numeric order ... */
  lemma FewNumeralsAscend(k: nat)
    requires k <= 10
    ensures Ascending(NumeralSeq(k))
  {
    forall i, j | 0 <= i < j < k ensures Less(Dec(i), Dec(j)) {
      assert Dec(i) == [Digit(i)] && Dec(j) == [Digit(j)];
    }
  }

  /** ... and beyond ten it is not, since "10" comes before "2". */
  lemma ManyNumeralsDoNotAscend(k: nat)
    requires k > 10
    ensures !Ascending(NumeralSeq(k))
  {
    assert Dec(2) == "2" && Dec(10) == Dec(1) + [Digit(0)] && Dec(1) == "1";
    assert NumeralSeq(k)[2] == "2" && NumeralSeq(k)[10] == "10";
    assert !Less("2", "10");
  }

  lemma SortedNumerals(k: nat)
    ensures SortKeys(Numerals(k)) == NumeralSeq(k) <==> k <= 10
  {
    if k <= 10 {
      FewNumeralsAscend(k);
      forall x ensures x in NumeralSeq(k) <==> x in SortKeys(Numerals(k)) {
        if x in Numerals(k) {
          var i: nat :| i < k && x == Dec(i);
          assert NumeralSeq(k)[i] == x;
        }
      }
      AscendingUnique(SortKeys(Numerals(k)), NumeralSeq(k));
    } else {
      ManyNumeralsDoNotAscend(k);
    }
  }

  // ---------- reconstruction ----------

  lemma ScanOrderIsSorted(s: State, n: nat, k: nat)
    requires HasSize(s, n, k)
    ensures ScanOrder(s, n) == SortKeys(Numerals(k)) && |ScanOrder(s, n)| == k
  {
    var here := set r | r in s.txs && r.blk == n :: Dec(r.idx);
    forall x ensures x in here <==> x in Numerals(k) {
      if x in here {
        var r :| r in s.txs && r.blk == n && x == Dec(r.idx);
        assert r == TxRef(n, r.idx);
      }
      if x in Numerals(k) {
        var i: nat :| i < k && x == Dec(i);
        assert TxRef(n, i) in s.txs;
      }
    }
    assert here == Numerals(k);
    NumeralsCount(k);
  }

  /** The scan meets each index below the block size exactly once. */
  lemma ScanVisitsOnce(s: State, n: nat, k: nat, i: nat) returns (m: nat)
    requires HasSize(s, n, k) && i < k
    ensures m < |ScanOrder(s, n)| && ScanIndex(s, n, m) == i
    ensures forall m' | 0 <= m' < |ScanOrder(s, n)| && ScanIndex(s, n, m') == i :: m' == m
  {
    var ks := ScanOrder(s, n);
    ScanOrderIsSorted(s, n, k);
    assert Dec(i) in Numerals(k);
    assert Dec(i) in ks;
    m :| 0 <= m < |ks| && ks[m] == Dec(i);
    DecInjective(ScanIndex(s, n, m), i);
    forall m' | 0 <= m' < |ks| && ScanIndex(s, n, m') == i ensures m' == m {
      AscendingDistinct(ks, m', m);
    }
  }

  /** The number whose numeral stands at place m when the numerals below k are sorted by their bytes. */
  function NumeralAt(k: nat, m: nat): (i: nat)
    requires m < k
    ensures |SortKeys(Numerals(k))| == k
    ensures i < k && Dec(i) == SortKeys(Numerals(k))[m]
  {
    NumeralsCount(k);
    var x := SortKeys(Numerals(k))[m];
    assert x in SortKeys(Numerals(k));
    assert forall i: nat | i < k && Dec(i) == x :: Value(x) == i by {
      forall i: nat | i < k && Dec(i) == x ensures Value(x) == i { ValueOfDec(i); }
    }
    Value(x)
  }

  /** The transactions of a block in the order in which they are read back. */
  function ByNumeral(txs: seq<Tx>): (r: seq<Tx>)
    ensures |r| == |txs| && forall m | 0 <= m < |r| :: r[m] == txs[NumeralAt(|txs|, m)]
  {
    seq(|txs|, m requires 0 <= m < |txs| => txs[NumeralAt(|txs|, m)])
  }

  lemma ScansNumeral(s: State, n: nat, k: nat, m: nat)
    requires HasSize(s, n, k) && m < k
    ensures m < |ScanOrder(s, n)| && ScanIndex(s, n, m) == NumeralAt(k, m)
  {
    ScanOrderIsSorted(s, n, k);
    DecInjective(ScanIndex(s, n, m), NumeralAt(k, m));
  }

  /** Reading back permutes the stored transactions, by the byte order of their numerals. */
  lemma ScansByNumeral(s: State, n: nat, k: nat)
    requires HasSize(s, n, k)
    ensures ScanTxs(s, n) == ByNumeral(StoredTxs(s, n, k))
  {
    ScanOrderIsSorted(s, n, k);
    forall m | 0 <= m < k ensures ScanTxs(s, n)[m] == ByNumeral(StoredTxs(s, n, k))[m] {
      ScansNumeral(s, n, k, m);
    }
  }

  function Without<T>(b: seq<T>, j: nat): (r: seq<T>)
    requires j < |b|
    ensures |r| == |b| - 1
    ensures forall m | 0 <= m < |r| :: r[m] == if m < j then b[m] else b[m + 1]
  {
    b[..j] + b[j + 1..]
  }

  lemma WithoutCounts(b: seq<Tx>, j: nat)
    requires j < |b|
    ensures multiset(b) == multiset(Without(b, j)) + multiset{b[j]}
  {
    assert b == b[..j] + [b[j]] + b[j + 1..];
  }

  /** a is b with its elements put in other places. */
  ghost predicate Matched(a: seq<Tx>, b: seq<Tx>, places: seq<nat>) {
    && |a| == |b| == |places|
    && (forall m | 0 <= m < |places| :: places[m] < |b| && a[m] == b[places[m]])
    && (forall i, j | 0 <= i < j < |places| :: places[i] != places[j])
  }

  lemma MatchedWithoutLast(a: seq<Tx>, b: seq<Tx>, places: seq<nat>) returns (rest: seq<nat>)
    requires Matched(a, b, places) && |a| > 0
    ensures Matched(Without(a, |a| - 1), Without(b, places[|a| - 1]), rest)
  {
    var n, j := |a| - 1, places[|a| - 1];
    rest := seq(n, m requires 0 <= m < n => if places[m] > j then places[m] - 1 else places[m]);
    forall m | 0 <= m < n ensures rest[m] < n && Without(a, n)[m] == Without(b, j)[rest[m]] {
      assert places[m] != places[n];
    }
    forall m, m' | 0 <= m < m' < n ensures rest[m] != rest[m'] {
      assert places[m] != places[n] && places[m'] != places[n] && places[m] != places[m'];
    }
  }

  lemma LastCounts(a: seq<Tx>, b: seq<Tx>, n: nat, j: nat)
    requires n < |a| && j < |b| && a[n] == b[j]
    requires multiset(Without(a, n)) == multiset(Without(b, j))
    ensures multiset(a) == multiset(b)
  {
    WithoutCounts(a, n);
    WithoutCounts(b, j);
  }

  lemma {:induction false} Permuted(a: seq<Tx>, b: seq<Tx>, places: seq<nat>)
    requires Matched(a, b, places)
    ensures multiset(a) == multiset(b)
    decreases |a|
  {
    if |a| == 0 {
      assert a == b;
    } else {
      var n, j := |a| - 1, places[|a| - 1];
      var rest := MatchedWithoutLast(a, b, places);
      Permuted(Without(a, n), Without(b, j), rest);
      LastCounts(a, b, n, j);
    }
  }

  lemma ByNumeralPermutes(txs: seq<Tx>)
    ensures multiset(ByNumeral(txs)) == multiset(txs)
  {
    var k := |txs|;
    var places := seq(k, m requires 0 <= m < k => NumeralAt(k, m));
    forall i, j | 0 <= i < j < k ensures places[i] != places[j] {
      if places[i] == places[j] { AscendingDistinct(SortKeys(Numerals(k)), i, j); }
    }
    Permuted(ByNumeral(txs), txs, places);
  }

  ghost predicate InStorageOrder(s: State, n: nat) {
    forall m | 0 <= m < |ScanOrder(s, n)| :: ScanIndex(s, n, m) == m
  }

  lemma StorageOrderIff(s: State, n: nat, k: nat)
    requires HasSize(s, n, k)
    ensures InStorageOrder(s, n) <==> k <= 10
  {
    var ks := ScanOrder(s, n);
    ScanOrderIsSorted(s, n, k);
    SortedNumerals(k);
    if k <= 10 {
      forall m | 0 <= m < k ensures ScanIndex(s, n, m) == m {
        DecInjective(ScanIndex(s, n, m), m);
      }
    }
    if InStorageOrder(s, n) {
      forall m | 0 <= m < k ensures ks[m] == Dec(m) {
        assert ScanIndex(s, n, m) == m;
      }
      assert ks == NumeralSeq(k);
    }
  }

  /** Two transactions of one block differ in what they commit to. */
  lemma LeavesDiffer(s: State, n: nat, i: nat, j: nat)
    requires UniqueSpender(s) && TxRef(n, i) in s.txs && TxRef(n, j) in s.txs
    requires s.txs[TxRef(n, i)].Signed() == s.txs[TxRef(n, j)].Signed()
    requires !s.txs[TxRef(n, i)].AllNull()
    ensures i == j
  {
    var a, b := s.txs[TxRef(n, i)], s.txs[TxRef(n, j)];
    assert a.in0.ref == b.in0.ref && a.in1.ref == b.in1.ref;
    var e := if a.in0.IsNull() then 1 else 0;
    var p, q := InBlock(TxRef(n, i), e), InBlock(TxRef(n, j), e);
    assert HasSite(s, p) && HasSite(s, q) && Named(s, p) == Named(s, q);
    assert SameTx(p, q);
  }

  /** A transaction without inputs is alone in its block. */
  lemma NullIsAlone(s: State, n: nat, i: nat, j: nat)
    requires Shape(s) && TxRef(n, i) in s.txs && TxRef(n, j) in s.txs && s.txs[TxRef(n, i)].AllNull()
    ensures i == j == 0
  {
    assert i == 0 && TxRef(n, 1) !in s.txs;
  }

  lemma LeavesDistinct(c: Crypto, s: State, n: nat, i: nat, j: nat)
    requires Inv(c, s) && TxRef(n, i) in s.txs && TxRef(n, j) in s.txs
    requires s.txs[TxRef(n, i)].Signed() == s.txs[TxRef(n, j)].Signed()
    ensures i == j
  {
    if s.txs[TxRef(n, i)].AllNull() { NullIsAlone(s, n, i, j); } else { LeavesDiffer(s, n, i, j); }
  }

  /** The leaf vector of the block as read back. */
  function ScanLeaves(s: State, n: nat): seq<Leaf> {
    Leaves(ScanTxs(s, n))
  }

  /** Leaf i is the leaf of transaction i for every index of the block, exactly when the block has
      at most ten transactions. */
  lemma LeafOrderIff(c: Crypto, s: State, n: nat)
    requires Inv(c, s) && 1 <= n < s.cur
    ensures HasSize(s, n, Size(s, n)) && |ScanLeaves(s, n)| == Size(s, n)
    ensures ScanLeaves(s, n) == Leaves(StoredTxs(s, n, Size(s, n))) <==> Size(s, n) <= 10
  {
    SizeCounts(s, n);
    var k := Size(s, n);
    ScanOrderIsSorted(s, n, k);
    StorageOrderIff(s, n, k);
    if InStorageOrder(s, n) { OrderGivesLeaves(s, n, k); }
    if ScanLeaves(s, n) == Leaves(StoredTxs(s, n, k)) { LeavesGiveOrder(c, s, n, k); }
  }

  lemma OrderGivesLeaves(s: State, n: nat, k: nat)
    requires HasSize(s, n, k) && |ScanOrder(s, n)| == k && InStorageOrder(s, n)
    ensures ScanLeaves(s, n) == Leaves(StoredTxs(s, n, k))
  {
    forall m | 0 <= m < k ensures ScanLeaves(s, n)[m] == Leaves(StoredTxs(s, n, k))[m] {
      assert ScanIndex(s, n, m) == m;
    }
  }

  lemma LeavesGiveOrder(c: Crypto, s: State, n: nat, k: nat)
    requires Inv(c, s) && HasSize(s, n, k) && |ScanOrder(s, n)| == k
    requires ScanLeaves(s, n) == Leaves(StoredTxs(s, n, k))
    ensures InStorageOrder(s, n)
  {
    forall m | 0 <= m < k ensures ScanIndex(s, n, m) == m {
      assert ScanLeaves(s, n)[m] == Leaves(StoredTxs(s, n, k))[m];
      LeavesDistinct(c, s, n, ScanIndex(s, n, m), m);
    }
  }

  // ---------- immutability ----------

  lemma ExtendsKeepsOrder(s: State, t: State, n: nat)
    requires Extends(s, t) && n < s.cur
    ensures ScanOrder(t, n) == ScanOrder(s, n)
  {
    var here := set r | r in s.txs && r.blk == n :: Dec(r.idx);
    var there := set r | r in t.txs && r.blk == n :: Dec(r.idx);
    forall x ensures x in here <==> x in there {
      if x in here { var r :| r in s.txs && r.blk == n && x == Dec(r.idx); assert r in t.txs; }
      if x in there { var r :| r in t.txs && r.blk == n && x == Dec(r.idx); assert r in s.txs; }
    }
    assert here == there;
  }

  lemma ExtendsKeepsLeaf(s: State, t: State, n: nat, m: nat)
    requires Extends(s, t) && m < |ScanOrder(s, n)| && ScanOrder(t, n) == ScanOrder(s, n)
    ensures ScanLeaves(t, n)[m] == ScanLeaves(s, n)[m]
  {
    DecInjective(ScanIndex(s, n, m), ScanIndex(t, n, m));
    var r := TxRef(n, ScanIndex(s, n, m));
    assert Grows(s.txs[r], t.txs[r]);
  }

  lemma ExtendsKeepsLeaves(s: State, t: State, n: nat)
    requires Extends(s, t) && n < s.cur
    ensures ScanLeaves(t, n) == ScanLeaves(s, n)
  {
    ExtendsKeepsOrder(s, t, n);
    forall m | 0 <= m < |ScanOrder(s, n)| ensures ScanLeaves(t, n)[m] == ScanLeaves(s, n)[m] {
      ExtendsKeepsLeaf(s, t, n, m);
    }
  }

  /** Header and leaf vector of block n are the same in both states. */
  ghost predicate SameCommitment(s: State, t: State, n: nat) {
    var early, late := GetBlock(s, n), GetBlock(t, n);
    && early.Ok? && late.Ok?
    && late.value.header == early.value.header
    && Leaves(late.value.txs) == Leaves(early.value.txs)
  }

  lemma BlockFound(s: State, n: nat)
    requires Shape(s) && 1 <= n < s.cur
    ensures GetBlock(s, n) == Ok(Block(s.headers[n], ScanTxs(s, n)))
    ensures |ScanTxs(s, n)| == Size(s, n)
  {
    SizeCounts(s, n);
    ScanOrderIsSorted(s, n, Size(s, n));
  }

  lemma ExtendsKeepsCommitment(s: State, t: State, n: nat)
    requires Shape(s) && Shape(t) && Extends(s, t) && 1 <= n < s.cur
    ensures SameCommitment(s, t, n)
  {
    BlockFound(s, n);
    BlockFound(t, n);
    ExtendsKeepsLeaves(s, t, n);
  }

  /** A block read at any moment commits to what it commits to at any later moment, whatever is
      spent, exited or confirmed in between. */
  lemma CommittedContentImmutable(c: Crypto, run: seq<Event>, k: nat, n: nat)
    requires InRange(run) && k <= |run| && 1 <= n < Exec(c, run[..k]).cur
    ensures SameCommitment(Exec(c, run[..k]), Exec(c, run), n)
  {
    RunInv(c, run[..k]);
    RunInv(c, run);
    RunExtends(c, run, k);
    ExtendsKeepsCommitment(Exec(c, run[..k]), Exec(c, run), n);
  }

  /** What reading block n returns. */
  ghost predicate ReadsBack(s: State, n: nat) {
    var b := GetBlock(s, n);
    if 1 <= n < s.cur then
      && b.Ok? && n in s.headers && b.value.header == s.headers[n]
      && HasSize(s, n, Size(s, n)) && Size(s, n) > 0 && |b.value.txs| == Size(s, n)
      && multiset(b.value.txs) == multiset(StoredTxs(s, n, Size(s, n)))
      && (Leaves(b.value.txs) == Leaves(StoredTxs(s, n, Size(s, n))) <==> Size(s, n) <= 10)
    else b == Err(BlockNotFound)
  }

  lemma ReadingBack(c: Crypto, s: State, n: nat)
    requires Inv(c, s)
    ensures ReadsBack(s, n)
  {
    if 1 <= n < s.cur {
      LeafOrderIff(c, s, n);
      SizeCounts(s, n);
      BlockFound(s, n);
      ScansByNumeral(s, n, Size(s, n));
      ByNumeralPermutes(StoredTxs(s, n, Size(s, n)));
    }
  }

  /** In every reachable state a block is found exactly if its number is below the current one;
      it then comes back with every stored transaction as often as it is stored, and in storage order exactly if it has at most ten transactions. */
  lemma BlockReadsBack(c: Crypto, run: seq<Event>, n: nat)
    requires InRange(run)
    ensures ReadsBack(Exec(c, run), n)
  {
    RunInv(c, run);
    ReadingBack(c, Exec(c, run), n);
  }

  /** The proof request for transaction i of block n is about that transaction. */
  ghost predicate ProofRight(s: State, n: nat, i: nat) {
    var p := GetTxProof(s, n * 100_000 + i);
    && p.Ok? && p.value.index == i < |p.value.leaves| && TxRef(n, i) in s.txs
    && var tx := s.txs[TxRef(n, i)];
       var core := TxCore(tx.in0.ref, tx.in1.ref,
                          OutCore(tx.out0.owner, tx.out0.amount), OutCore(tx.out1.owner, tx.out1.amount));
       p.value.leaves[i] == Leaf(core, tx.in0.sig, tx.in1.sig)
  }

  lemma TxPositionParses(n: nat, i: nat)
    requires i < 100_000
    ensures ParseTxPosition(n * 100_000 + i) == (n, i)
  {
  }

  lemma ProofRequestOf(s: State, n: nat, i: nat)
    requires Shape(s) && 1 <= n < s.cur && i < Size(s, n)
    ensures GetTxProof(s, n * 100_000 + i) == Ok(ProofRequest(ScanLeaves(s, n), i))
    ensures TxRef(n, i) in s.txs && |ScanLeaves(s, n)| == Size(s, n)
    ensures ProofRight(s, n, i) <==> ScanLeaves(s, n)[i] == s.txs[TxRef(n, i)].Signed()
  {
    SizeCounts(s, n);
    BlockFound(s, n);
    TxPositionParses(n, i);
  }

  lemma ProofsRightIff(c: Crypto, s: State, n: nat)
    requires Inv(c, s) && 1 <= n < s.cur
    ensures (forall i: nat | i < Size(s, n) :: ProofRight(s, n, i)) <==> Size(s, n) <= 10
  {
    LeafOrderIff(c, s, n);
    var k := Size(s, n);
    var stored := Leaves(StoredTxs(s, n, k));
    forall i: nat | i < k ensures ProofRight(s, n, i) <==> ScanLeaves(s, n)[i] == stored[i] {
      ProofRequestOf(s, n, i);
    }
    if forall i: nat | i < k :: ProofRight(s, n, i) {
      assert ScanLeaves(s, n) == stored;
    }
  }

  /** The Merkle library is given the leaf of the requested transaction at the requested index, for
      every transaction of the block, exactly when the block has at most ten transactions. */
  lemma ProofRequestsRightIff(c: Crypto, run: seq<Event>, n: nat)
    requires InRange(run) && 1 <= n < Exec(c, run).cur
    ensures (forall i: nat | i < Size(Exec(c, run), n) :: ProofRight(Exec(c, run), n, i))
       <==> Size(Exec(c, run), n) <= 10
  {
    RunInv(c, run);
    ProofsRightIff(c, Exec(c, run), n);
  }
}
