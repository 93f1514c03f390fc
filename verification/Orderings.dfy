/** The order in which a block is read back, and the order in which it was built. */
module Orderings {
  import opened Wrappers
  import opened Text
  import opened Order
  import opened NumeralOrder
  import opened Types
  import opened Ledger
  import opened Invariants
  import opened Sealing
  import opened Blocks
  import opened Runs

  // ---------- reading back ----------

  /** In block n as read back, transaction i stands before transaction j. */
  ghost predicate ReadBefore(s: State, n: nat, i: nat, j: nat) {
    && TxRef(n, i) in s.txs && TxRef(n, j) in s.txs && GetBlock(s, n).Ok?
    && var txs := GetBlock(s, n).value.txs;
       exists m, m' :: 0 <= m < m' < |txs| && txs[m] == s.txs[TxRef(n, i)] && txs[m'] == s.txs[TxRef(n, j)]
  }

  lemma BlockOf(s: State, n: nat, i: nat)
    requires Shape(s) && TxRef(n, i) in s.txs
    ensures GetBlock(s, n) == Ok(Block(s.headers[n], ScanTxs(s, n)))
    ensures HasSize(s, n, Size(s, n)) && i < Size(s, n)
  {
    assert 1 <= TxRef(n, i).blk < s.cur;
    SizeCounts(s, n);
    BlockFound(s, n);
  }

  lemma LessIsReadBefore(s: State, n: nat, i: nat, j: nat)
    requires Shape(s) && TxRef(n, i) in s.txs && TxRef(n, j) in s.txs && Less(Dec(i), Dec(j))
    ensures ReadBefore(s, n, i, j)
  {
    BlockOf(s, n, i);
    BlockOf(s, n, j);
    var m := ScanVisitsOnce(s, n, Size(s, n), i);
    var m' := ScanVisitsOnce(s, n, Size(s, n), j);
    AscendingPlaces(ScanOrder(s, n), m, m');
    assert ScanTxs(s, n)[m] == s.txs[TxRef(n, i)] && ScanTxs(s, n)[m'] == s.txs[TxRef(n, j)];
  }

  lemma ReadBeforeIsLess(c: Crypto, s: State, n: nat, i: nat, j: nat)
    requires Inv(c, s) && ReadBefore(s, n, i, j)
    ensures Less(Dec(i), Dec(j))
  {
    BlockOf(s, n, i);
    var txs := ScanTxs(s, n);
    var m, m' :| 0 <= m < m' < |txs| && txs[m] == s.txs[TxRef(n, i)] && txs[m'] == s.txs[TxRef(n, j)];
    LeavesDistinct(c, s, n, ScanIndex(s, n, m), i);
    LeavesDistinct(c, s, n, ScanIndex(s, n, m'), j);
    AscendingPlaces(ScanOrder(s, n), m, m');
  }

  lemma ReadBeforeLess(c: Crypto, s: State, n: nat, i: nat, j: nat)
    requires Inv(c, s) && TxRef(n, i) in s.txs && TxRef(n, j) in s.txs
    ensures ReadBefore(s, n, i, j) <==> Less(Dec(i), Dec(j))
  {
    if Less(Dec(i), Dec(j)) { LessIsReadBefore(s, n, i, j); }
    if ReadBefore(s, n, i, j) { ReadBeforeIsLess(c, s, n, i, j); }
  }

  /** In every reachable state, of every two transactions of a block the one comes back first whose
      index comes first digit by digit. */
  lemma ReadBeforeIff(c: Crypto, run: seq<Event>, n: nat, i: nat, j: nat)
    requires InRange(run) && TxRef(n, i) in Exec(c, run).txs && TxRef(n, j) in Exec(c, run).txs
    ensures ReadBefore(Exec(c, run), n, i, j) <==> ComesFirst(i, j)
  {
    RunInv(c, run);
    ReadBeforeLess(c, Exec(c, run), n, i, j);
    DecOrder(i, j);
  }

  lemma EarlierStored(c: Crypto, run: seq<Event>, n: nat, i: nat, j: nat)
    requires InRange(run) && i < j && TxRef(n, j) in Exec(c, run).txs
    ensures TxRef(n, i) in Exec(c, run).txs
  {
    ChainShape(c, run);
    assert TxRef(TxRef(n, j).blk, i) in Exec(c, run).txs;
  }

  /** Transaction i comes back before every transaction whose index continues its digits ... */
  lemma ContinuationsFollow(c: Crypto, run: seq<Event>, n: nat, i: nat, j: nat)
    requires InRange(run) && Continues(j, i) && i != j && TxRef(n, j) in Exec(c, run).txs
    ensures ReadBefore(Exec(c, run), n, i, j)
  {
    ContinuesIsLarger(j, i);
    EarlierStored(c, run, n, i, j);
    ReadBeforeIff(c, run, n, i, j);
  }

  /** ... such as 10 * i + d ... */
  lemma ExtensionFollows(c: Crypto, run: seq<Event>, n: nat, i: nat, d: nat, j: nat)
    requires InRange(run) && i >= 1 && d < 10 && j == 10 * i + d && TxRef(n, j) in Exec(c, run).txs
    ensures ReadBefore(Exec(c, run), n, i, j)
  {
    ContinuesBy(i, d);
    ContinuationsFollow(c, run, n, i, j);
  }

  /** ... and, with all of these, before a larger index of equally many digits and all that continue it. */
  lemma ContinuationsPrecede(c: Crypto, run: seq<Event>, n: nat, i: nat, j: nat, x: nat, y: nat)
    requires InRange(run) && DigitCount(i) == DigitCount(j) && i < j && Continues(x, i) && Continues(y, j)
    requires TxRef(n, x) in Exec(c, run).txs && TxRef(n, y) in Exec(c, run).txs
    ensures ReadBefore(Exec(c, run), n, x, y)
  {
    ReadBeforeIff(c, run, n, x, y);
  }

  /** The indices of a block of eleven transactions as they come back. */
  const ELEVEN: seq<nat> := [0, 1, 10, 2, 3, 4, 5, 6, 7, 8, 9]

  lemma NeighboursOfEleven(m: nat)
    requires m < 10
    ensures Less(Dec(ELEVEN[m]), Dec(ELEVEN[m + 1]))
  {
    if m == 1 {
      ContinuationLater(10, 1);
    } else if m == 2 {
      ContinuationsInOrder(1, 2, 10, 2);
    } else {
      SameLengthOrder(ELEVEN[m], ELEVEN[m + 1]);
    }
  }

  lemma PlaceInEleven(i: nat) returns (m: nat)
    requires i < 11
    ensures m < 11 && ELEVEN[m] == i
  {
    m := if i < 2 then i else if i == 10 then 2 else i + 1;
  }

  lemma SortedEleven()
    ensures |SortKeys(Numerals(11))| == 11
    ensures forall m | 0 <= m < 11 :: SortKeys(Numerals(11))[m] == Dec(ELEVEN[m])
  {
    var ks := seq(11, (m: nat) requires m < 11 => Dec(ELEVEN[m]));
    forall i | 0 <= i < |ks| - 1 ensures Less(ks[i], ks[i + 1]) {
      NeighboursOfEleven(i);
    }
    NeighboursAscend(ks);
    forall x ensures x in ks <==> x in SortKeys(Numerals(11)) {
      if x in Numerals(11) {
        var i: nat :| i < 11 && x == Dec(i);
        var m := PlaceInEleven(i);
        assert ks[m] == x;
      }
      if x in ks {
        var m :| 0 <= m < 11 && ks[m] == x;
        assert ELEVEN[m] < 11;
      }
    }
    AscendingUnique(ks, SortKeys(Numerals(11)));
  }

  lemma ElevenScan(s: State, n: nat, m: nat)
    requires HasSize(s, n, 11) && m < 11
    ensures |ScanOrder(s, n)| == 11 && ScanIndex(s, n, m) == ELEVEN[m]
  {
    ScanOrderIsSorted(s, n, 11);
    SortedEleven();
    DecInjective(ScanIndex(s, n, m), ELEVEN[m]);
  }

  /** Eleven transactions come back as 0, 1, 10, 2, ..., 9. */
  lemma ElevenReadBack(c: Crypto, run: seq<Event>, n: nat)
    requires InRange(run) && Size(Exec(c, run), n) == 11
    ensures var s := Exec(c, run); var b := GetBlock(s, n);
      && b.Ok? && |b.value.txs| == 11
      && forall m | 0 <= m < 11 :: TxRef(n, ELEVEN[m]) in s.txs && b.value.txs[m] == s.txs[TxRef(n, ELEVEN[m])]
  {
    var s := Exec(c, run);
    RunInv(c, run);
    SizeCounts(s, n);
    BlockFound(s, n);
    forall m | 0 <= m < 11
      ensures TxRef(n, ELEVEN[m]) in s.txs && ScanTxs(s, n)[m] == s.txs[TxRef(n, ELEVEN[m])]
    {
      ElevenScan(s, n, m);
    }
  }

  // ---------- building ----------

  /** The transactions of each block stand in ascending numeric order of their hashes. */
  ghost predicate HashesAscend(c: Crypto, s: State) {
    forall n: nat, i: nat, j: nat | i < j && TxRef(n, i) in s.txs && TxRef(n, j) in s.txs ::
      c.txHash(s.txs[TxRef(n, i)].Core()) < c.txHash(s.txs[TxRef(n, j)].Core())
  }

  lemma PoolAscends(c: Crypto, s: State, i: nat, j: nat)
    requires PoolOk(c, s) && i < j < |PoolTxs(s)|
    ensures c.txHash(PoolTxs(s)[i].Core()) < c.txHash(PoolTxs(s)[j].Core())
  {
    assert PoolOrder(s)[i] == HashToHex(c.txHash(PoolTxs(s)[i].Core()));
    assert PoolOrder(s)[j] == HashToHex(c.txHash(PoolTxs(s)[j].Core()));
    HashOrder(c.txHash(PoolTxs(s)[i].Core()), c.txHash(PoolTxs(s)[j].Core()));
  }

  lemma SealedAscends(c: Crypto, s: State, txs: seq<Tx>, signer: Account, t: State)
    requires Sealed(c, s, txs, signer, t) && OldBlocks(s) && HashesAscend(c, s)
    requires forall i, j | 0 <= i < j < |txs| :: c.txHash(txs[i].Core()) < c.txHash(txs[j].Core())
    ensures HashesAscend(c, t)
  {
    forall n: nat, i: nat, j: nat | i < j && TxRef(n, i) in t.txs && TxRef(n, j) in t.txs
      ensures c.txHash(t.txs[TxRef(n, i)].Core()) < c.txHash(t.txs[TxRef(n, j)].Core())
    {
      if n != s.cur {
        assert TxRef(n, i) in s.txs && TxRef(n, j) in s.txs;
      } else {
        assert TxRef(n, i) !in s.txs && TxRef(n, j) !in s.txs;
        assert t.txs[TxRef(s.cur, i)] == txs[i] && t.txs[TxRef(s.cur, j)] == txs[j];
      }
    }
  }

  lemma FixAscends(c: Crypto, s: State, signer: Account)
    requires Inv(c, s) && s.cur + 1 < TWO64 && |s.mempool| > 0 && HashesAscend(c, s)
    ensures HashesAscend(c, AddBlock(c, s, signer).state)
  {
    FixDone(c, s, signer);
    forall i, j | 0 <= i < j < |PoolTxs(s)|
      ensures c.txHash(PoolTxs(s)[i].Core()) < c.txHash(PoolTxs(s)[j].Core())
    {
      PoolAscends(c, s, i, j);
    }
    assert HashesAscend(c, s.(mempool := map[]));
    SealedAscends(c, s.(mempool := map[]), PoolTxs(s), signer, AddBlock(c, s, signer).state);
  }

  lemma DepositAscends(c: Crypto, s: State, owner: Address, amount: nat, signer: Account)
    requires Inv(c, s) && s.cur + 1 < TWO64 && HashesAscend(c, s)
    ensures HashesAscend(c, AddDepositBlock(c, s, owner, amount, signer).state)
  {
    DepositKeeps(c, s, owner, amount, signer);
    SealedAscends(c, s, [DepositTx(owner, amount)], signer, AddDepositBlock(c, s, owner, amount, signer).state);
  }

  lemma SameContentAscends(c: Crypto, s: State, t: State)
    requires SameContent(s, t) && HashesAscend(c, s)
    ensures HashesAscend(c, t)
  {
    forall r | r in s.txs ensures t.txs[r].Core() == s.txs[r].Core() {
      assert t.txs[r].Signed() == s.txs[r].Signed();
    }
  }

  lemma StepAscends(c: Crypto, s: State, e: Event)
    requires Inv(c, s) && s.cur + 1 < TWO64 && HashesAscend(c, s)
    ensures HashesAscend(c, Step(c, s, e))
  {
    if e.Deposit? {
      assert Apply(c, s, e) == AddDepositBlock(c, s, e.owner, e.amount, e.signer);
      DepositAscends(c, s, e.owner, e.amount, e.signer);
    } else if e.Fix? && |s.mempool| > 0 {
      assert Apply(c, s, e) == AddBlock(c, s, e.signer);
      FixAscends(c, s, e.signer);
    } else {
      SameTxsStep(c, s, e);
      SameContentAscends(c, s, Step(c, s, e));
    }
  }

  /** In every reachable state, each block lists its transactions in ascending order of their hashes. */
  lemma {:induction false} BlocksAscendByHash(c: Crypto, run: seq<Event>)
    requires InRange(run)
    ensures HashesAscend(c, Exec(c, run))
  {
    if run != [] {
      BlocksAscendByHash(c, run[..|run| - 1]);
      RunInv(c, run[..|run| - 1]);
      StepAscends(c, Exec(c, run[..|run| - 1]), run[|run| - 1]);
    }
  }
}
