/** The value of the token index: how addBlock's writes determine it, one transaction at a time. */
module Tokens {
  import opened Wrappers
  import opened Text
  import opened Positions
  import opened Types
  import opened Ledger
  import opened Invariants

  function CoordOf(o: OutRef): Coord {
    Coord(o.tx.blk, o.tx.idx, o.out)
  }

  /** The position of every stored output fits in 64 bits. */
  ghost predicate PositionsFit(s: State) {
    forall o | IsOut(s, o) :: Flat(CoordOf(o)) < TWO64
  }

  ghost predicate Addressable(s: State) {
    forall o | IsOut(s, o) :: 1 <= o.tx.blk && o.tx.idx < 100_000 && Flat(CoordOf(o)) < TWO64
  }

  lemma ShapeAddressable(s: State)
    requires Shape(s) && PositionsFit(s)
    ensures Addressable(s)
  {
  }

  lemma PositionParses(s: State, o: OutRef)
    requires Addressable(s) && IsOut(s, o)
    ensures ParsePosition(PositionOf(o)) == Some(CoordOf(o))
    ensures 0 < PositionOf(o) < TWO64
  {
    ParseStored(CoordOf(o));
  }

  lemma TokensDiffer(s: State, o: OutRef, o': OutRef)
    requires Addressable(s) && IsOut(s, o) && IsOut(s, o') && o != o'
    ensures TokenOf(s, o) != TokenOf(s, o')
  {
    PositionParses(s, o);
    PositionParses(s, o');
  }

  ghost predicate IncludedBy(s: State, p: Site, o: OutRef) {
    p.InBlock? && HasSite(s, p) && Named(s, p) == o
  }

  /** A token holds the position of the block input that spends its output, or 0 if there is none. */
  ghost predicate TokenValues(s: State) {
    && (forall o | IsOut(s, o) :: TokenOf(s, o) in s.tokens)
    && (forall p | HasSite(s, p) && p.InBlock? ::
          IsOut(s, Named(s, p)) && s.tokens[TokenOf(s, Named(s, p))] == InPosition(p.ref, p.j))
    && (forall o | IsOut(s, o) && s.tokens[TokenOf(s, o)] != 0 :: exists p :: IncludedBy(s, p, o))
  }

  /** t is s after StoreTx of a transaction whose inputs exist. */
  ghost predicate Stored(s: State, r: TxRef, tx: Tx, t: State) {
    && TokenDomain(s) && r !in s.txs && InputsExist(s, tx)
    && StoreTx(s, r, tx) == Outcome(t, Done)
    && t.txs == s.txs[r := tx]
    && Addressable(t)
  }

  function InputToken(s: State, i: TxIn): set<TokenId> {
    if !i.IsNull() && IsOut(s, i.ref) then {TokenOf(s, i.ref)} else {}
  }

  /** The four writes of StoreTx, in order. */
  lemma StoredWrites(s: State, r: TxRef, tx: Tx, t: State, k: TokenId)
    requires Stored(s, r, tx, t)
    ensures k in s.tokens ==> k in t.tokens
    ensures k == TokenOf(t, OutRef(r, 0)) || k == TokenOf(t, OutRef(r, 1)) ==> k in t.tokens && t.tokens[k] == 0
    ensures k != TokenOf(t, OutRef(r, 0)) && k != TokenOf(t, OutRef(r, 1)) && k in s.tokens ==>
      t.tokens[k] == (if k in InputToken(s, tx.in1) then InPosition(r, 1)
                      else if k in InputToken(s, tx.in0) then InPosition(r, 0)
                      else s.tokens[k])
  {
    assert !tx.Input(0).IsNull() ==> IsOut(s, tx.Input(0).ref);
    assert !tx.Input(1).IsNull() ==> IsOut(s, tx.Input(1).ref);
    assert TokenOf(t, OutRef(r, 0)) == TokenId(tx.out0.owner, PositionOf(OutRef(r, 0)));
    assert TokenOf(t, OutRef(r, 1)) == TokenId(tx.out1.owner, PositionOf(OutRef(r, 1)));
  }

  /** What StoreTx leaves in the token of an older output. */
  lemma StoredOldToken(s: State, r: TxRef, tx: Tx, t: State, o: OutRef)
    requires Stored(s, r, tx, t) && IsOut(s, o)
    ensures IsOut(t, o) && TokenOf(t, o) == TokenOf(s, o) && TokenOf(s, o) in s.tokens && TokenOf(t, o) in t.tokens
    ensures t.tokens[TokenOf(t, o)] ==
            (if NamedBy(tx.in1, o) then InPosition(r, 1)
             else if NamedBy(tx.in0, o) then InPosition(r, 0)
             else s.tokens[TokenOf(s, o)])
  {
    assert !tx.Input(0).IsNull() ==> IsOut(s, tx.Input(0).ref);
    assert !tx.Input(1).IsNull() ==> IsOut(s, tx.Input(1).ref);
    StoredWrites(s, r, tx, t, TokenOf(s, o));
    TokensDiffer(t, o, OutRef(r, 0));
    TokensDiffer(t, o, OutRef(r, 1));
    if !tx.in0.IsNull() && tx.in0.ref != o { TokensDiffer(t, o, tx.in0.ref); }
    if !tx.in1.IsNull() && tx.in1.ref != o { TokensDiffer(t, o, tx.in1.ref); }
  }

  lemma StoredNewToken(s: State, r: TxRef, tx: Tx, t: State, o: OutRef)
    requires Stored(s, r, tx, t) && IsOut(t, o) && o.tx == r
    ensures TokenOf(t, o) in t.tokens && t.tokens[TokenOf(t, o)] == 0
  {
    assert o == OutRef(r, 0) || o == OutRef(r, 1);
    StoredWrites(s, r, tx, t, TokenOf(t, o));
  }

  /** The inputs of tx are distinct and no stored input names them. */
  ghost predicate Unclaimed(s: State, tx: Tx) {
    && tx.DistinctInputs()
    && forall p, j | HasSite(s, p) && p.InBlock? && 0 <= j < 2 && !tx.Input(j).IsNull() ::
         Named(s, p) != tx.Input(j).ref
  }

  lemma StoreTxSites(s: State, r: TxRef, tx: Tx, t: State, p: Site)
    requires r !in s.txs && t.txs == s.txs[r := tx] && p.InBlock? && p.ref != r
    ensures HasSite(t, p) <==> HasSite(s, p)
    ensures HasSite(s, p) ==> Named(t, p) == Named(s, p)
  {
  }

  lemma StoredSiteValue(s: State, r: TxRef, tx: Tx, t: State, p: Site)
    requires Stored(s, r, tx, t) && TokenValues(s) && Unclaimed(s, tx) && HasSite(t, p) && p.InBlock?
    ensures IsOut(t, Named(t, p)) && TokenOf(t, Named(t, p)) in t.tokens
    ensures t.tokens[TokenOf(t, Named(t, p))] == InPosition(p.ref, p.j)
  {
    var o := Named(t, p);
    if p.ref == r {
      assert o == tx.Input(p.j).ref && IsOut(s, tx.Input(p.j).ref);
    } else {
      StoreTxSites(s, r, tx, t, p);
      assert IsOut(s, Named(s, p));
      assert Named(s, p) != tx.Input(0).ref || tx.Input(0).IsNull();
      assert Named(s, p) != tx.Input(1).ref || tx.Input(1).IsNull();
    }
    StoredOldToken(s, r, tx, t, o);
  }

  lemma StoredSpender(s: State, r: TxRef, tx: Tx, t: State, o: OutRef) returns (p: Site)
    requires Stored(s, r, tx, t) && TokenValues(s) && IsOut(t, o)
    requires TokenOf(t, o) in t.tokens && t.tokens[TokenOf(t, o)] != 0
    ensures IncludedBy(t, p, o)
  {
    if o.tx == r { StoredNewToken(s, r, tx, t, o); }
    StoredOldToken(s, r, tx, t, o);
    if NamedBy(tx.in1, o) {
      p := InBlock(r, 1);
    } else if NamedBy(tx.in0, o) {
      p := InBlock(r, 0);
    } else {
      p :| IncludedBy(s, p, o);
      StoreTxSites(s, r, tx, t, p);
    }
  }

  lemma StoreTxKeepsTokenValues(s: State, r: TxRef, tx: Tx, t: State)
    requires Stored(s, r, tx, t) && TokenValues(s) && Unclaimed(s, tx)
    ensures TokenValues(t)
  {
    forall o | IsOut(t, o) ensures TokenOf(t, o) in t.tokens {
      if o.tx == r { StoredNewToken(s, r, tx, t, o); } else { StoredOldToken(s, r, tx, t, o); }
    }
    forall p | HasSite(t, p) && p.InBlock?
      ensures IsOut(t, Named(t, p)) && t.tokens[TokenOf(t, Named(t, p))] == InPosition(p.ref, p.j)
    {
      StoredSiteValue(s, r, tx, t, p);
    }
    forall o | IsOut(t, o) && t.tokens[TokenOf(t, o)] != 0 ensures exists p :: IncludedBy(t, p, o) {
      var p := StoredSpender(s, r, tx, t, o);
    }
  }

  /** No input of txs is named by a stored input or by another input of txs. */
  ghost predicate AllUnclaimed(s: State, txs: seq<Tx>) {
    && (forall m | 0 <= m < |txs| :: Unclaimed(s, txs[m]))
    && (forall m, m', o | 0 <= m < m' < |txs| && Names(txs[m], o) :: !Names(txs[m'], o))
  }

  lemma BatchUnclaimed(s: State, n: nat, txs: seq<Tx>, i: nat, t: State)
    requires Batch(s, n, txs, i, t) && i < |txs| && AllUnclaimed(s, txs)
    ensures Unclaimed(t, txs[i])
  {
    var tx := txs[i];
    assert Unclaimed(s, tx);
    forall p, j | HasSite(t, p) && p.InBlock? && 0 <= j < 2 && !tx.Input(j).IsNull()
      ensures Named(t, p) != tx.Input(j).ref
    {
      assert Names(tx, tx.Input(j).ref);
      if p.ref in s.txs {
        assert HasSite(s, p) && Named(s, p) == Named(t, p);
      } else {
        assert p.ref == TxRef(n, p.ref.idx);
        assert t.txs[p.ref] == txs[p.ref.idx];
        assert Names(txs[p.ref.idx], Named(t, p));
      }
    }
  }

  lemma BatchStored(s: State, n: nat, txs: seq<Tx>, i: nat, t: State)
    requires Batch(s, n, txs, i, t) && i < |txs|
    requires forall r | r in s.txs :: r.blk < n
    requires InputsExist(s, txs[i])
    requires Addressable(StoreTx(t, TxRef(n, i), txs[i]).state)
    ensures Stored(t, TxRef(n, i), txs[i], StoreTx(t, TxRef(n, i), txs[i]).state)
  {
    forall j | 0 <= j < 2 && !txs[i].Input(j).IsNull() ensures IsOut(t, txs[i].Input(j).ref) {
      assert IsOut(s, txs[i].Input(j).ref);
    }
    StoreTxDone(t, TxRef(n, i), txs[i]);
  }

  /** Whatever one batch has stored, the following ones keep. */
  lemma BatchAddressable(s: State, n: nat, txs: seq<Tx>, i: nat, t: State, u: State)
    requires Batch(s, n, txs, i, t) && Batch(s, n, txs, |txs|, u) && Addressable(u)
    ensures Addressable(t)
  {
    forall o | IsOut(t, o) ensures IsOut(u, o) {
    }
  }

  lemma BatchStepValues(s: State, n: nat, txs: seq<Tx>, i: nat, t: State, u: State)
    requires Batch(s, n, txs, i, t) && i < |txs| && TokenValues(t)
    requires Batch(s, n, txs, i + 1, u) && u == StoreTx(t, TxRef(n, i), txs[i]).state && Addressable(u)
    requires forall r | r in s.txs :: r.blk < n
    requires InputsExist(s, txs[i]) && AllUnclaimed(s, txs)
    ensures TokenValues(u)
  {
    BatchStored(s, n, txs, i, t);
    BatchUnclaimed(s, n, txs, i, t);
    StoreTxKeepsTokenValues(t, TxRef(n, i), txs[i], u);
  }

  /** Storing a whole block keeps the token values. */
  lemma {:induction false} StoreFromKeepsTokenValues(s: State, n: nat, txs: seq<Tx>, i: nat, t: State)
    requires Batch(s, n, txs, i, t) && TokenValues(t)
    requires forall r | r in s.txs :: r.blk < n
    requires forall m | 0 <= m < |txs| :: InputsExist(s, txs[m])
    requires AllUnclaimed(s, txs)
    requires Addressable(StoreFrom(t, n, txs, i).state)
    ensures TokenValues(StoreFrom(t, n, txs, i).state)
    decreases |txs| - i
  {
    if i < |txs| {
      BatchStep(s, n, txs, i, t);
      var u := StoreTx(t, TxRef(n, i), txs[i]).state;
      StoreFromDone(s, n, txs, i + 1, u);
      assert StoreFrom(t, n, txs, i) == StoreFrom(u, n, txs, i + 1);
      BatchAddressable(s, n, txs, i + 1, u, StoreFrom(u, n, txs, i + 1).state);
      BatchStepValues(s, n, txs, i, t, u);
      StoreFromKeepsTokenValues(s, n, txs, i + 1, u);
    }
  }
}
