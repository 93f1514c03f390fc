/** Runs whose posted transactions are fresh: every output goes from unspent to pending to
    included, has at most one spender, and the token index says which. */
module Lifecycle {
  import opened Wrappers
  import opened Text
  import opened Order
  import opened Positions
  import opened Types
  import opened Ledger
  import opened Invariants
  import opened Sealing
  import opened Tokens

  // ---------- the hypotheses ----------

  ghost predicate FreshRun(run: seq<Event>) {
    forall i | 0 <= i < |run| && run[i].Post? :: run[i].tx.Fresh()
  }

  /** No two different transactions posted during the run have the same hash. */
  ghost predicate CollisionFree(c: Crypto, run: seq<Event>) {
    forall i, j | 0 <= i < |run| && 0 <= j < |run| && run[i].Post? && run[j].Post?
               && TxHash(c, run[i].tx) == TxHash(c, run[j].tx) ::
      run[i].tx.Core() == run[j].tx.Core()
  }

  // ---------- the invariant of fresh runs ----------

  ghost predicate DistinctEverywhere(s: State) {
    && (forall r | r in s.txs :: s.txs[r].DistinctInputs())
    && (forall k | k in s.mempool ::
          s.mempool[k].DistinctInputs() && !s.mempool[k].out0.isSpent && !s.mempool[k].out1.isSpent)
  }

  ghost predicate NamedAt(s: State, p: Site, o: OutRef) {
    HasSite(s, p) && Named(s, p) == o
  }

  /** Nothing is marked as spent without a spender. */
  ghost predicate SpentIsNamed(s: State) {
    forall o | IsOut(s, o) && OutAt(s, o).isSpent :: exists p :: NamedAt(s, p, o)
  }

  /** A confirmation signature stands only on a block input, and recovers to the owner of the
      output that input names. */
  ghost predicate ConfirmedAt(c: Crypto, s: State, p: Site)
    requires HasSite(s, p)
  {
    var tx := SiteTx(s, p);
    tx.Input(p.j).confSig != NULL_SIGNATURE ==>
      && p.InBlock? && IsOut(s, Named(s, p))
      && c.recover(c.confHash(c.txHash(tx.Core())), tx.Input(p.j).confSig) == Some(OutAt(s, Named(s, p)).owner)
  }

  ghost predicate Confirmations(c: Crypto, s: State) {
    forall p | HasSite(s, p) :: ConfirmedAt(c, s, p)
  }

  ghost predicate FreshInv(c: Crypto, s: State) {
    DistinctEverywhere(s) && SpentIsNamed(s) && Confirmations(c, s) && (PositionsFit(s) ==> TokenValues(s))
  }

  // ---------- steps that only touch flags and confirmations ----------

  lemma SameContentPositions(s: State, t: State)
    requires SameContent(s, t)
    ensures PositionsFit(s) == PositionsFit(t)
  {
    SameContentOutputs(s, t);
  }

  lemma SameBlockSites(s: State, t: State, p: Site)
    requires SameContent(s, t) && p.InBlock?
    ensures HasSite(s, p) <==> HasSite(t, p)
    ensures HasSite(s, p) ==> Named(s, p) == Named(t, p)
  {
    SameContentSites(s, t, p);
  }

  lemma SameContentTokenValues(s: State, t: State)
    requires SameContent(s, t) && TokenValues(s)
    ensures TokenValues(t)
  {
    SameContentOutputs(s, t);
    forall p | HasSite(t, p) && p.InBlock?
      ensures IsOut(t, Named(t, p)) && t.tokens[TokenOf(t, Named(t, p))] == InPosition(p.ref, p.j)
    {
      SameBlockSites(s, t, p);
      assert IsOut(s, Named(s, p));
    }
    forall o | IsOut(t, o) && t.tokens[TokenOf(t, o)] != 0 ensures exists p :: IncludedBy(t, p, o) {
      var p :| IncludedBy(s, p, o);
      SameBlockSites(s, t, p);
      assert IncludedBy(t, p, o);
    }
  }

  lemma QuietSpentIsNamed(s: State, t: State)
    requires Quiet(s, t) && SpentIsNamed(s)
    ensures SpentIsNamed(t)
  {
    QuietSites(s, t);
    forall o | IsOut(t, o) && OutAt(t, o).isSpent ensures exists p :: NamedAt(t, p, o) {
      assert IsOut(s, o) && OutAt(s, o).isSpent;
      var p :| NamedAt(s, p, o);
      assert NamedAt(t, p, o);
    }
  }

  lemma QuietDistinct(s: State, t: State)
    requires Quiet(s, t) && DistinctEverywhere(s)
    ensures DistinctEverywhere(t)
  {
    forall r | r in t.txs ensures t.txs[r].DistinctInputs() {
      assert t.txs[r].Signed() == s.txs[r].Signed();
    }
  }

  lemma QuietKeepsFresh(c: Crypto, s: State, t: State)
    requires Quiet(s, t) && FreshInv(c, s) && Confirmations(c, t)
    ensures FreshInv(c, t)
  {
    QuietDistinct(s, t);
    QuietSpentIsNamed(s, t);
    SameContentPositions(s, t);
    if PositionsFit(s) { SameContentTokenValues(s, t); }
  }

  /** A site keeps its confirmation when neither it nor its transaction's hash changes. */
  lemma ConfirmedKept(c: Crypto, s: State, t: State, p: Site)
    requires Quiet(s, t) && HasSite(t, p) && Confirmations(c, s)
    requires SiteTx(t, p).Input(p.j).confSig == (if HasTx(s, p) then SiteTx(s, p).Input(p.j).confSig else 0)
    ensures ConfirmedAt(c, t, p)
  {
    SameContentSites(s, t, p);
    SameContentOutputs(s, t);
    assert ConfirmedAt(c, s, p);
  }

  lemma ConfirmConfirms(c: Crypto, s: State, r: TxRef, j: nat, confSig: Signature)
    requires Confirmations(c, s) && ConfirmAt(c, s, r, j, confSig).status == Done
    ensures Confirmations(c, ConfirmAt(c, s, r, j, confSig).state)
  {
    var t := ConfirmAt(c, s, r, j, confSig).state;
    ConfirmAtIsQuiet(c, s, r, j, confSig);
    forall p | HasSite(t, p) ensures ConfirmedAt(c, t, p) {
      if p == InBlock(r, j) {
        SameContentSites(s, t, p);
        SameContentOutputs(s, t);
      } else {
        ConfirmedKept(c, s, t, p);
      }
    }
  }

  lemma ConfirmKeepsFresh(c: Crypto, s: State, pos: nat, confSig: Signature)
    requires FreshInv(c, s)
    ensures FreshInv(c, ConfirmTx(c, s, pos, confSig).state)
  {
    var a := ConfirmTx(c, s, pos, confSig);
    if a.status == Done {
      var p := ParsePosition(pos).value;
      ConfirmConfirms(c, s, TxRef(p.blk, p.idx), p.elem, confSig);
      ConfirmIsQuiet(c, s, pos, confSig);
      QuietKeepsFresh(c, s, a.state);
    } else {
      assert a.state == s;
    }
  }

  lemma ExitConfirms(c: Crypto, s: State, r: TxRef, j: nat)
    requires Confirmations(c, s) && ExitAt(s, r, j).status == Done
    ensures Confirmations(c, ExitAt(s, r, j).state)
  {
    var t := ExitAt(s, r, j).state;
    ExitAtIsQuiet(s, r, j);
    forall p | HasSite(t, p) ensures ConfirmedAt(c, t, p) {
      ConfirmedKept(c, s, t, p);
    }
  }

  lemma ExitKeepsFresh(c: Crypto, s: State, pos: nat)
    requires FreshInv(c, s)
    ensures FreshInv(c, ExitTxOut(s, pos).state)
  {
    var a := ExitTxOut(s, pos);
    if a.status == Done {
      var p := ParsePosition(pos).value;
      ExitConfirms(c, s, TxRef(p.blk, p.idx), p.elem);
      ExitIsQuiet(s, pos);
      QuietKeepsFresh(c, s, a.state);
    } else {
      assert a.state == s;
    }
  }

  // ---------- posting ----------

  lemma PostedSpender(c: Crypto, s: State, tx: Tx, t: State, o: OutRef) returns (p: Site)
    requires Posted(c, s, tx, t) && PoolKey(c, tx) !in s.mempool && SpentIsNamed(s)
    requires IsOut(t, o) && OutAt(t, o).isSpent
    ensures NamedAt(t, p, o)
  {
    PostedContent(c, s, tx, t);
    assert IsOut(s, o) && (o == OutRef(o.tx, 0) || o == OutRef(o.tx, 1));
    if OutAt(s, o).isSpent {
      p :| NamedAt(s, p, o);
      SameContentSites(s, t, p);
    } else {
      assert Names(tx, o);
      p := InPool(PoolKey(c, tx), if NamedBy(tx.in0, o) then 0 else 1);
    }
  }

  lemma PostedSpentIsNamed(c: Crypto, s: State, tx: Tx, t: State)
    requires Posted(c, s, tx, t) && PoolKey(c, tx) !in s.mempool && SpentIsNamed(s)
    ensures SpentIsNamed(t)
  {
    forall o | IsOut(t, o) && OutAt(t, o).isSpent ensures exists p :: NamedAt(t, p, o) {
      var p := PostedSpender(c, s, tx, t, o);
    }
  }

  lemma PostedConfirmations(c: Crypto, s: State, tx: Tx, t: State)
    requires Posted(c, s, tx, t) && tx.Fresh() && Confirmations(c, s)
    ensures Confirmations(c, t)
  {
    PostedContent(c, s, tx, t);
    SameContentOutputs(s, t);
    forall p | HasSite(t, p) ensures ConfirmedAt(c, t, p) {
      if !IsNewSite(c, tx, p) {
        SameContentSites(s, t, p);
        assert ConfirmedAt(c, s, p);
      }
    }
  }

  lemma PostedDistinct(c: Crypto, s: State, tx: Tx, t: State)
    requires Posted(c, s, tx, t) && tx.Fresh() && DistinctEverywhere(s)
    ensures DistinctEverywhere(t)
  {
    PostedContent(c, s, tx, t);
    forall r | r in t.txs ensures t.txs[r].DistinctInputs() {
      assert t.txs[r].Signed() == s.txs[r].Signed();
    }
  }

  lemma PostKeepsFresh(c: Crypto, s: State, tx: Tx)
    requires FreshInv(c, s) && tx.Fresh()
    requires AddTx(c, s, tx).status == Done ==> PoolKey(c, tx) !in s.mempool
    ensures FreshInv(c, AddTx(c, s, tx).state)
  {
    AddTxAllOrNothing(c, s, tx);
    var t := AddTx(c, s, tx).state;
    if AddTx(c, s, tx).status == Done {
      PostedDistinct(c, s, tx, t);
      PostedSpentIsNamed(c, s, tx, t);
      PostedConfirmations(c, s, tx, t);
      PostedContent(c, s, tx, t);
      SameContentPositions(s, t);
      if PositionsFit(s) { SameContentTokenValues(s, t); }
    }
  }

  // ---------- adding blocks ----------

  lemma SealedPositions(c: Crypto, s: State, txs: seq<Tx>, signer: Account, t: State)
    requires Sealed(c, s, txs, signer, t) && PositionsFit(t)
    ensures PositionsFit(s)
  {
    forall o | IsOut(s, o) ensures IsOut(t, o) {
    }
  }

  lemma SealTokenValues(c: Crypto, s: State, txs: seq<Tx>, signer: Account)
    requires TokenDomain(s) && OldBlocks(s) && TokenValues(s) && AllUnclaimed(s, txs)
    requires forall m | 0 <= m < |txs| :: InputsExist(s, txs[m])
    requires Addressable(Seal(c, s, txs, signer).state)
    requires Seal(c, s, txs, signer).status == Done
    ensures TokenValues(Seal(c, s, txs, signer).state)
  {
    StoreBlockDone(s, txs);
    assert Batch(s, s.cur, txs, 0, s);
    var b := StoreFrom(s, s.cur, txs, 0).state;
    var t := Seal(c, s, txs, signer).state;
    assert t.txs == b.txs && t.tokens == b.tokens;
    forall o | IsOut(b, o) ensures IsOut(t, o) {
    }
    StoreFromKeepsTokenValues(s, s.cur, txs, 0, s);
    TokenValuesOfSameTxs(b, t);
  }

  lemma TokenValuesOfSameTxs(b: State, t: State)
    requires t.txs == b.txs && t.tokens == b.tokens && TokenValues(b)
    ensures TokenValues(t)
  {
    forall o | IsOut(t, o) ensures IsOut(b, o) && TokenOf(b, o) == TokenOf(t, o) {
    }
    forall p | HasSite(t, p) && p.InBlock?
      ensures IsOut(t, Named(t, p)) && t.tokens[TokenOf(t, Named(t, p))] == InPosition(p.ref, p.j)
    {
      assert HasSite(b, p) && IsOut(b, Named(b, p));
    }
    forall o | IsOut(t, o) && t.tokens[TokenOf(t, o)] != 0 ensures exists p :: IncludedBy(t, p, o) {
      assert IsOut(b, o);
      var p :| IncludedBy(b, p, o);
      assert IncludedBy(t, p, o);
    }
  }

  lemma DepositTokenValues(c: Crypto, s: State, owner: Address, amount: nat, signer: Account)
    requires TokenDomain(s) && OldBlocks(s) && TokenValues(s)
    requires AddDepositBlock(c, s, owner, amount, signer).status == Done
    requires Addressable(AddDepositBlock(c, s, owner, amount, signer).state)
    ensures TokenValues(AddDepositBlock(c, s, owner, amount, signer).state)
  {
    var txs := [DepositTx(owner, amount)];
    assert txs[0].AllNull();
    SealTokenValues(c, s, txs, signer);
  }

  lemma DepositKeepsFresh(c: Crypto, s: State, owner: Address, amount: nat, signer: Account)
    requires Inv(c, s) && FreshInv(c, s) && s.cur + 1 < TWO64
    ensures FreshInv(c, AddDepositBlock(c, s, owner, amount, signer).state)
  {
    DepositKeeps(c, s, owner, amount, signer);
    var t := AddDepositBlock(c, s, owner, amount, signer).state;
    DepositFreshSites(c, s, owner, amount, signer, t);
    if PositionsFit(t) {
      ShapeAddressable(t);
      SealedPositions(c, s, [DepositTx(owner, amount)], signer, t);
      DepositTokenValues(c, s, owner, amount, signer);
    }
  }

  lemma DepositFreshSites(c: Crypto, s: State, owner: Address, amount: nat, signer: Account, t: State)
    requires Sealed(c, s, [DepositTx(owner, amount)], signer, t) && OldBlocks(s)
    requires DistinctEverywhere(s) && SpentIsNamed(s) && Confirmations(c, s)
    ensures DistinctEverywhere(t) && SpentIsNamed(t) && Confirmations(c, t)
  {
    var tx := DepositTx(owner, amount);
    DepositSites(c, s, owner, amount, signer, t);
    forall r | r in t.txs ensures (r in s.txs && t.txs[r] == s.txs[r]) || (r == TxRef(s.cur, 0) && t.txs[r] == tx) {
      if r !in s.txs {
        assert r == TxRef(s.cur, 0);
        assert t.txs[TxRef(s.cur, 0)] == [tx][0];
      }
    }
    forall o | IsOut(t, o) && OutAt(t, o).isSpent ensures exists p :: NamedAt(t, p, o) {
      assert IsOut(s, o) && OutAt(s, o).isSpent;
      var p :| NamedAt(s, p, o);
      assert NamedAt(t, p, o);
    }
    forall p | HasSite(t, p) ensures ConfirmedAt(c, t, p) {
      assert ConfirmedAt(c, s, p);
    }
  }

  lemma FixedNewTx(c: Crypto, s: State, signer: Account, t: State, r: TxRef)
    requires Fixed(c, s, signer, t) && r in t.txs && r !in s.txs
    ensures r.idx < |PoolOrder(s)| && t.txs[r] == s.mempool[PoolOrder(s)[r.idx]]
  {
    assert r == TxRef(s.cur, r.idx);
    assert t.txs[TxRef(s.cur, r.idx)] == PoolTxs(s)[r.idx];
  }

  lemma FixedDistinct(c: Crypto, s: State, signer: Account, t: State)
    requires Fixed(c, s, signer, t) && DistinctEverywhere(s)
    ensures DistinctEverywhere(t)
  {
    forall r | r in t.txs ensures t.txs[r].DistinctInputs() {
      if r !in s.txs { FixedNewTx(c, s, signer, t, r); }
    }
  }

  /** Outputs marked as spent after the fix were stored and marked before it. */
  lemma FixedSpentIsOld(c: Crypto, s: State, signer: Account, t: State, o: OutRef)
    requires Fixed(c, s, signer, t) && DistinctEverywhere(s) && IsOut(t, o) && OutAt(t, o).isSpent
    ensures IsOut(s, o) && OutAt(s, o).isSpent
  {
    if o.tx !in s.txs { FixedNewTx(c, s, signer, t, o.tx); }
  }

  lemma FixedSpentIsNamed(c: Crypto, s: State, signer: Account, t: State)
    requires Fixed(c, s, signer, t) && DistinctEverywhere(s) && SpentIsNamed(s)
    ensures SpentIsNamed(t)
  {
    forall o | IsOut(t, o) && OutAt(t, o).isSpent ensures exists p :: NamedAt(t, p, o) {
      FixedSpentIsOld(c, s, signer, t, o);
      var p :| NamedAt(s, p, o);
      var q := FixedImage(c, s, signer, t, p);
      assert NamedAt(t, q, o);
    }
  }

  lemma FixedConfirmations(c: Crypto, s: State, signer: Account, t: State)
    requires Fixed(c, s, signer, t) && Confirmations(c, s)
    ensures Confirmations(c, t)
  {
    forall p | HasSite(t, p) ensures ConfirmedAt(c, t, p) {
      FixedOrigin(c, s, signer, t, p);
      assert ConfirmedAt(c, s, Origin(s, p));
    }
  }

  lemma PoolImage(s: State, ks: seq<string>, n: nat, t: State, p: Site) returns (q: Site)
    requires HoldsPool(s, ks, n, t) && p.InPool? && HasSite(s, p)
    ensures HasSite(t, q) && SiteTx(t, q) == SiteTx(s, p) && q.j == p.j && q.InBlock?
  {
    assert p.key in ks;
    var i :| 0 <= i < |ks| && ks[i] == p.key;
    q := InBlock(TxRef(n, i), p.j);
  }

  /** Where a site goes when the mempool is fixed. */
  lemma FixedImage(c: Crypto, s: State, signer: Account, t: State, p: Site) returns (q: Site)
    requires Fixed(c, s, signer, t) && HasSite(s, p)
    ensures HasSite(t, q) && SiteTx(t, q) == SiteTx(s, p) && q.j == p.j && q.InBlock?
  {
    if p.InBlock? {
      q := p;
    } else {
      FixedHoldsPool(c, s, signer, t);
      q := PoolImage(s, PoolOrder(s), s.cur, t, p);
    }
  }

  /** What the mempool spends, nothing else does. */
  lemma PoolTxUnclaimed(s: State, m: nat)
    requires UniqueSpender(s) && DistinctEverywhere(s) && m < |PoolTxs(s)|
    ensures Unclaimed(s.(mempool := map[]), PoolTxs(s)[m])
  {
    var s0, tx := s.(mempool := map[]), PoolTxs(s)[m];
    forall p, j | HasSite(s0, p) && p.InBlock? && 0 <= j < 2 && !tx.Input(j).IsNull()
      ensures Named(s0, p) != tx.Input(j).ref
    {
      var q := InPool(PoolOrder(s)[m], j);
      assert HasSite(s, q) && HasSite(s, p) && !SameTx(p, q);
    }
  }

  lemma PoolTxsDisjoint(s: State, m: nat, m': nat, o: OutRef)
    requires UniqueSpender(s) && m < m' < |PoolTxs(s)| && Names(PoolTxs(s)[m], o)
    ensures !Names(PoolTxs(s)[m'], o)
  {
    var a, b := PoolTxs(s)[m], PoolTxs(s)[m'];
    var p := InPool(PoolOrder(s)[m], if NamedBy(a.in0, o) then 0 else 1);
    var q := InPool(PoolOrder(s)[m'], if NamedBy(b.in0, o) then 0 else 1);
    LessTotal(PoolOrder(s)[m], PoolOrder(s)[m']);
    assert HasSite(s, p) && Named(s, p) == o;
    assert Names(b, o) ==> HasSite(s, q) && Named(s, q) == o;
    assert !SameTx(p, q);
  }

  lemma PoolUnclaimed(c: Crypto, s: State)
    requires UniqueSpender(s) && DistinctEverywhere(s)
    ensures AllUnclaimed(s.(mempool := map[]), PoolTxs(s))
  {
    var txs := PoolTxs(s);
    forall m | 0 <= m < |txs| ensures Unclaimed(s.(mempool := map[]), txs[m]) {
      PoolTxUnclaimed(s, m);
    }
    forall m, m', o | 0 <= m < m' < |txs| && Names(txs[m], o) ensures !Names(txs[m'], o) {
      PoolTxsDisjoint(s, m, m', o);
    }
  }

  lemma FixTokenValues(c: Crypto, s: State, signer: Account)
    requires Inv(c, s) && DistinctEverywhere(s) && TokenValues(s) && s.cur + 1 < TWO64
    requires Addressable(Seal(c, s.(mempool := map[]), PoolTxs(s), signer).state)
    ensures TokenValues(Seal(c, s.(mempool := map[]), PoolTxs(s), signer).state)
  {
    var s0 := s.(mempool := map[]);
    TokenDomainOfSameTxs(s, s0);
    TokenValuesOfSameTxs(s, s0);
    PoolUnclaimed(c, s);
    forall m | 0 <= m < |PoolTxs(s)| ensures InputsExist(s0, PoolTxs(s)[m]) {
      PoolInputsExist(c, s, m);
    }
    PoolSealDone(c, s, signer);
    SealTokenValues(c, s0, PoolTxs(s), signer);
  }

  lemma FixKeepsFresh(c: Crypto, s: State, signer: Account)
    requires Inv(c, s) && FreshInv(c, s) && s.cur + 1 < TWO64
    ensures FreshInv(c, AddBlock(c, s, signer).state)
  {
    if |s.mempool| == 0 {
      EmptyFixFails(c, s, signer);
    } else {
      FixDone(c, s, signer);
      FixKeeps(c, s, signer);
      var s0 := s.(mempool := map[]);
      var t := AddBlock(c, s, signer).state;
      assert t == Seal(c, s0, PoolTxs(s), signer).state;
      FixedDistinct(c, s, signer, t);
      FixedSpentIsNamed(c, s, signer, t);
      FixedConfirmations(c, s, signer, t);
      if PositionsFit(t) {
        ShapeAddressable(t);
        SealedPositions(c, s0, PoolTxs(s), signer, t);
        assert PositionsFit(s) by { forall o | IsOut(s, o) ensures IsOut(s0, o) {} }
        FixTokenValues(c, s, signer);
      }
    }
  }
}
