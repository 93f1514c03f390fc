/** Adding a block: AddDepositBlock and AddBlock keep the invariant, AddBlock drains the mempool
    exactly, and every run of events stays within the invariant. */
module Sealing {
  import opened Text
  import opened Order
  import opened Positions
  import opened Types
  import opened Ledger
  import opened Invariants

  /** t is s with txs added as block s.cur. */
  ghost predicate Sealed(c: Crypto, s: State, txs: seq<Tx>, signer: Account, t: State) {
    && t.cur == s.cur + 1
    && t.headers == s.headers[s.cur := SignedHeader(c, s.cur, txs, signer)]
    && t.mempool == s.mempool
    && (forall r :: r in t.txs <==> r in s.txs || (r.blk == s.cur && r.idx < |txs|))
    && (forall r | r in s.txs :: t.txs[r] == s.txs[r])
    && (forall m | 0 <= m < |txs| :: t.txs[TxRef(s.cur, m)] == txs[m])
    && TokenDomain(t)
  }

  ghost predicate OldBlocks(s: State) {
    forall r | r in s.txs :: r.blk < s.cur
  }

  lemma TokenDomainOfSameTxs(s: State, t: State)
    requires TokenDomain(s) && t.txs == s.txs && t.tokens == s.tokens
    ensures TokenDomain(t)
  {
    forall o | IsOut(t, o) ensures TokenOf(t, o) in t.tokens {
      assert IsOut(s, o) && TokenOf(s, o) == TokenOf(t, o);
    }
    forall k | k in t.tokens ensures exists o :: IsOut(t, o) && TokenOf(t, o) == k {
      var o :| IsOut(s, o) && TokenOf(s, o) == k;
      assert IsOut(t, o) && TokenOf(t, o) == k;
    }
  }

  lemma BatchSeals(c: Crypto, s: State, txs: seq<Tx>, signer: Account, b: State, t: State)
    requires Batch(s, s.cur, txs, |txs|, b)
    requires t == b.(headers := b.headers[s.cur := SignedHeader(c, s.cur, txs, signer)], cur := s.cur + 1)
    ensures Sealed(c, s, txs, signer, t)
  {
    TokenDomainOfSameTxs(b, t);
  }

  lemma StoreBlockDone(s: State, txs: seq<Tx>)
    requires TokenDomain(s) && OldBlocks(s)
    requires forall m | 0 <= m < |txs| :: InputsExist(s, txs[m])
    ensures StoreFrom(s, s.cur, txs, 0).status == Done
    ensures Batch(s, s.cur, txs, |txs|, StoreFrom(s, s.cur, txs, 0).state)
  {
    assert Batch(s, s.cur, txs, 0, s);
    StoreFromDone(s, s.cur, txs, 0, s);
  }

  lemma SealDone(c: Crypto, s: State, txs: seq<Tx>, signer: Account)
    requires TokenDomain(s) && OldBlocks(s) && s.cur + 1 < TWO64
    requires forall m | 0 <= m < |txs| :: InputsExist(s, txs[m])
    ensures Seal(c, s, txs, signer).status == Done
    ensures Sealed(c, s, txs, signer, Seal(c, s, txs, signer).state)
  {
    StoreBlockDone(s, txs);
    WrapOfSmall(s.cur + 1);
    var b := StoreFrom(s, s.cur, txs, 0).state;
    assert Seal(c, s, txs, signer) ==
      Outcome(b.(headers := b.headers[s.cur := SignedHeader(c, s.cur, txs, signer)], cur := s.cur + 1), Done);
    BatchSeals(c, s, txs, signer, b, Seal(c, s, txs, signer).state);
  }

  /** Only a block of one transaction may hold a transaction without inputs. */
  ghost predicate WellFormedBlock(txs: seq<Tx>) {
    && 0 < |txs| <= MAX_BLOCK_TXES
    && (|txs| > 1 ==> forall m | 0 <= m < |txs| :: !txs[m].AllNull())
  }

  lemma SealedKeepsShape(c: Crypto, s: State, txs: seq<Tx>, signer: Account, t: State)
    requires Shape(s) && WellFormedBlock(txs) && Sealed(c, s, txs, signer, t)
    ensures Shape(t)
  {
    forall r | r in t.txs ensures 1 <= r.blk < t.cur && r.idx < MAX_BLOCK_TXES {
    }
    forall r, i: nat | r in t.txs && i < r.idx ensures TxRef(r.blk, i) in t.txs {
      if r in s.txs { assert TxRef(r.blk, i) in s.txs; }
    }
    forall r | r in t.txs && t.txs[r].AllNull() ensures r.idx == 0 && TxRef(r.blk, 1) !in t.txs {
      if r !in s.txs {
        assert r == TxRef(s.cur, r.idx);
        assert t.txs[r] == txs[r.idx];
      }
    }
  }

  lemma SealedExtends(c: Crypto, s: State, txs: seq<Tx>, signer: Account, t: State)
    requires Shape(s) && Sealed(c, s, txs, signer, t)
    ensures Extends(s, t)
  {
  }

  /** Sites in old blocks stay as they were. */
  lemma SealedOldSite(c: Crypto, s: State, txs: seq<Tx>, signer: Account, t: State, p: Site)
    requires Sealed(c, s, txs, signer, t) && OldBlocks(s)
    requires p.InBlock? ==> p.ref.blk != s.cur
    ensures HasSite(t, p) <==> HasSite(s, p)
    ensures HasSite(s, p) ==> SiteTx(s, p) == SiteTx(t, p)
  {
  }

  // ---------- deposit blocks ----------

  lemma DepositSites(c: Crypto, s: State, owner: Address, amount: nat, signer: Account, t: State)
    requires Sealed(c, s, [DepositTx(owner, amount)], signer, t) && OldBlocks(s)
    ensures forall p :: HasSite(t, p) <==> HasSite(s, p)
    ensures forall p | HasSite(s, p) :: SiteTx(s, p) == SiteTx(t, p)
  {
    forall p ensures HasSite(t, p) <==> HasSite(s, p)
      ensures HasSite(s, p) ==> SiteTx(s, p) == SiteTx(t, p)
    {
      if p.InBlock? && p.ref.blk == s.cur {
        assert p.ref in t.txs ==> p.ref == TxRef(s.cur, 0);
        assert t.txs[TxRef(s.cur, 0)] == [DepositTx(owner, amount)][0];
      } else {
        SealedOldSite(c, s, [DepositTx(owner, amount)], signer, t, p);
      }
    }
  }

  lemma DepositKeeps(c: Crypto, s: State, owner: Address, amount: nat, signer: Account)
    requires Inv(c, s) && s.cur + 1 < TWO64
    ensures var a := AddDepositBlock(c, s, owner, amount, signer);
      a.status == Done && Sealed(c, s, [DepositTx(owner, amount)], signer, a.state) && Kept(c, s, a)
  {
    var txs := [DepositTx(owner, amount)];
    SealDone(c, s, txs, signer);
    var t := AddDepositBlock(c, s, owner, amount, signer).state;
    SealedKeepsShape(c, s, txs, signer, t);
    SealedExtends(c, s, txs, signer, t);
    DepositKeepsSites(c, s, owner, amount, signer, t);
  }

  lemma DepositKeepsSites(c: Crypto, s: State, owner: Address, amount: nat, signer: Account, t: State)
    requires Sealed(c, s, [DepositTx(owner, amount)], signer, t) && OldBlocks(s)
    requires SitesOk(c, s) && UniqueSpender(s)
    ensures SitesOk(c, t) && UniqueSpender(t)
  {
    DepositSites(c, s, owner, amount, signer, t);
    forall p | HasSite(t, p) ensures SiteOk(c, t, p) {
      assert SiteOk(c, s, p);
    }
    forall p, q | HasSite(t, p) && HasSite(t, q) && Named(t, p) == Named(t, q) ensures SameTx(p, q) {
      assert Named(s, p) == Named(s, q);
    }
  }

  // ---------- blocks fixed from the mempool ----------

  /** The site of s that a site of the next state comes from. */
  function Origin(s: State, p: Site): Site
    requires p.InBlock? && p.ref.blk == s.cur ==> p.ref.idx < |PoolOrder(s)|
  {
    if p.InBlock? && p.ref.blk == s.cur then InPool(PoolOrder(s)[p.ref.idx], p.j) else p
  }

  /** t is s with its whole mempool moved into block s.cur. */
  ghost predicate Fixed(c: Crypto, s: State, signer: Account, t: State) {
    Sealed(c, s.(mempool := map[]), PoolTxs(s), signer, t) && OldBlocks(s)
  }

  lemma FixedOrigin(c: Crypto, s: State, signer: Account, t: State, p: Site)
    requires Fixed(c, s, signer, t) && HasSite(t, p)
    ensures p.InBlock? && (p.ref.blk == s.cur ==> p.ref.idx < |PoolOrder(s)|)
    ensures HasSite(s, Origin(s, p)) && SiteTx(s, Origin(s, p)) == SiteTx(t, p)
  {
    if p.ref.blk == s.cur {
      assert p.ref == TxRef(s.cur, p.ref.idx);
      assert t.txs[p.ref] == PoolTxs(s)[p.ref.idx];
    } else {
      SealedOldSite(c, s.(mempool := map[]), PoolTxs(s), signer, t, p);
    }
  }

  lemma FixedSiteOk(c: Crypto, s: State, signer: Account, t: State, p: Site)
    requires Fixed(c, s, signer, t) && SitesOk(c, s) && HasSite(t, p)
    ensures SiteOk(c, t, p)
  {
    FixedOrigin(c, s, signer, t, p);
    assert SiteOk(c, s, Origin(s, p));
  }

  lemma FixedSameTx(c: Crypto, s: State, signer: Account, t: State, p: Site, q: Site)
    requires Fixed(c, s, signer, t) && UniqueSpender(s)
    requires HasSite(t, p) && HasSite(t, q) && Named(t, p) == Named(t, q)
    ensures SameTx(p, q)
  {
    FixedOrigin(c, s, signer, t, p);
    FixedOrigin(c, s, signer, t, q);
    assert Named(s, Origin(s, p)) == Named(s, Origin(s, q));
    assert SameTx(Origin(s, p), Origin(s, q));
    if p.ref.blk == s.cur {
      AscendingDistinct(PoolOrder(s), p.ref.idx, q.ref.idx);
    }
  }

  lemma FixedKeepsSites(c: Crypto, s: State, signer: Account, t: State)
    requires Fixed(c, s, signer, t) && SitesOk(c, s) && UniqueSpender(s)
    ensures SitesOk(c, t) && UniqueSpender(t)
  {
    forall p | HasSite(t, p) ensures SiteOk(c, t, p) {
      FixedSiteOk(c, s, signer, t, p);
    }
    forall p, q | HasSite(t, p) && HasSite(t, q) && Named(t, p) == Named(t, q) ensures SameTx(p, q) {
      FixedSameTx(c, s, signer, t, p, q);
    }
  }

  lemma PoolInputsExist(c: Crypto, s: State, m: nat)
    requires SitesOk(c, s) && m < |PoolTxs(s)|
    ensures InputsExist(s.(mempool := map[]), PoolTxs(s)[m])
  {
    var k := PoolOrder(s)[m];
    forall j | 0 <= j < 2 && !PoolTxs(s)[m].Input(j).IsNull() ensures IsOut(s, PoolTxs(s)[m].Input(j).ref) {
      assert HasSite(s, InPool(k, j));
      assert SiteOk(c, s, InPool(k, j));
    }
  }

  lemma PoolIsWellFormed(c: Crypto, s: State)
    requires PoolOk(c, s) && |s.mempool| > 0
    ensures WellFormedBlock(PoolTxs(s))
  {
  }

  lemma PoolSealDone(c: Crypto, s: State, signer: Account)
    requires Shape(s) && SitesOk(c, s) && TokenDomain(s) && s.cur + 1 < TWO64
    ensures Seal(c, s.(mempool := map[]), PoolTxs(s), signer).status == Done
    ensures Fixed(c, s, signer, Seal(c, s.(mempool := map[]), PoolTxs(s), signer).state)
  {
    var s0 := s.(mempool := map[]);
    TokenDomainOfSameTxs(s, s0);
    forall m | 0 <= m < |PoolTxs(s)| ensures InputsExist(s0, PoolTxs(s)[m]) {
      PoolInputsExist(c, s, m);
    }
    SealDone(c, s0, PoolTxs(s), signer);
  }

  lemma FixDone(c: Crypto, s: State, signer: Account)
    requires Inv(c, s) && s.cur + 1 < TWO64 && |s.mempool| > 0
    ensures AddBlock(c, s, signer).status == Done
    ensures Fixed(c, s, signer, AddBlock(c, s, signer).state)
  {
    PoolSealDone(c, s, signer);
  }

  lemma EmptyFixFails(c: Crypto, s: State, signer: Account)
    requires |s.mempool| == 0
    ensures AddBlock(c, s, signer) == Outcome(s, Failed(EmptyBlock))
  {
  }

  lemma FixKeeps(c: Crypto, s: State, signer: Account)
    requires Inv(c, s) && s.cur + 1 < TWO64
    ensures Kept(c, s, AddBlock(c, s, signer))
  {
    NothingIsQuiet(s);
    if |s.mempool| == 0 {
      EmptyFixFails(c, s, signer);
    } else {
      FixDone(c, s, signer);
      var t := AddBlock(c, s, signer).state;
      var s0 := s.(mempool := map[]);
      assert Shape(s0);
      PoolIsWellFormed(c, s);
      SealedKeepsShape(c, s0, PoolTxs(s), signer, t);
      SealedExtends(c, s0, PoolTxs(s), signer, t);
      FixedKeepsSites(c, s, signer, t);
    }
  }

  /** ks lists every key of the mempool exactly once. */
  ghost predicate Enumerates(ks: seq<string>, s: State) {
    && (forall k :: k in ks <==> k in s.mempool)
    && (forall i, j | 0 <= i < |ks| && 0 <= j < |ks| && ks[i] == ks[j] :: i == j)
  }

  lemma PoolOrderEnumerates(s: State)
    ensures Enumerates(PoolOrder(s), s)
  {
    var ks := PoolOrder(s);
    forall i, j | 0 <= i < |ks| && 0 <= j < |ks| && ks[i] == ks[j] ensures i == j {
      AscendingDistinct(ks, i, j);
    }
  }

  /** Block n of t holds exactly the mempool transactions of s, each once, in the order ks. */
  ghost predicate HoldsPool(s: State, ks: seq<string>, n: nat, t: State) {
    && Enumerates(ks, s)
    && (forall i: nat :: TxRef(n, i) in t.txs <==> i < |ks|)
    && (forall i | 0 <= i < |ks| :: t.txs[TxRef(n, i)] == s.mempool[ks[i]])
  }

  lemma FixedHoldsPool(c: Crypto, s: State, signer: Account, t: State)
    requires Fixed(c, s, signer, t)
    ensures HoldsPool(s, PoolOrder(s), s.cur, t)
  {
    PoolOrderEnumerates(s);
    forall i: nat ensures TxRef(s.cur, i) in t.txs <==> i < |PoolOrder(s)| {
      assert TxRef(s.cur, i) !in s.txs;
    }
    forall i | 0 <= i < |PoolOrder(s)| ensures t.txs[TxRef(s.cur, i)] == s.mempool[PoolOrder(s)[i]] {
      assert t.txs[TxRef(s.cur, i)] == PoolTxs(s)[i];
    }
  }

  /** The outcome of fixing a block: it succeeds exactly when the mempool is not empty; the new block
      then holds every mempool transaction exactly once, in scan order, and the mempool is empty. */
  ghost predicate Drains(s: State, a: Outcome) {
    if |s.mempool| == 0 then a == Outcome(s, Failed(EmptyBlock))
    else a.status == Done && a.state.mempool == map[] && a.state.cur == s.cur + 1
         && HoldsPool(s, PoolOrder(s), s.cur, a.state)
  }

  lemma AddBlockDrains(c: Crypto, s: State, signer: Account)
    requires Inv(c, s) && s.cur + 1 < TWO64
    ensures Drains(s, AddBlock(c, s, signer))
  {
    var a := AddBlock(c, s, signer);
    if |s.mempool| == 0 {
      EmptyFixFails(c, s, signer);
    } else {
      FixDone(c, s, signer);
      FixedHoldsPool(c, s, signer, a.state);
      assert a.state.cur == s.cur + 1 && a.state.mempool == map[];
    }
  }

  // ---------- runs ----------

  lemma GenesisInv(c: Crypto)
    ensures Inv(c, GENESIS)
  {
  }

  lemma BlockStepKeeps(c: Crypto, s: State, e: Event)
    requires Inv(c, s) && s.cur + 1 < TWO64 && (e.Deposit? || e.Fix?)
    ensures Kept(c, s, Apply(c, s, e))
  {
    if e.Deposit? {
      assert Apply(c, s, e) == AddDepositBlock(c, s, e.owner, e.amount, e.signer);
      DepositKeeps(c, s, e.owner, e.amount, e.signer);
    } else {
      assert Apply(c, s, e) == AddBlock(c, s, e.signer);
      FixKeeps(c, s, e.signer);
    }
  }

  lemma TxStepKeeps(c: Crypto, s: State, e: Event)
    requires Inv(c, s) && (e.Post? || e.Confirm? || e.Exit?)
    ensures Kept(c, s, Apply(c, s, e))
  {
    if e.Post? {
      assert Apply(c, s, e) == AddTx(c, s, e.tx);
      PostKeeps(c, s, e.tx);
    } else if e.Confirm? {
      assert Apply(c, s, e) == ConfirmTx(c, s, e.pos, e.confSig);
      ConfirmKeeps(c, s, e.pos, e.confSig);
    } else {
      assert Apply(c, s, e) == ExitTxOut(s, e.pos);
      ExitKeeps(c, s, e.pos);
    }
  }

  lemma TxStepSameCur(c: Crypto, s: State, e: Event)
    requires e.Post? || e.Confirm? || e.Exit?
    ensures Step(c, s, e).cur == s.cur
  {
    match e
    case Post(tx) => AddTxAllOrNothing(c, s, tx);
    case Confirm(pos, confSig) => ConfirmIsQuiet(c, s, pos, confSig);
    case Exit(pos) => ExitIsQuiet(s, pos);
  }

  lemma StepKeeps(c: Crypto, s: State, e: Event)
    requires Inv(c, s) && s.cur + 1 < TWO64
    ensures Kept(c, s, Apply(c, s, e))
  {
    if e.Deposit? || e.Fix? {
      BlockStepKeeps(c, s, e);
    } else {
      TxStepKeeps(c, s, e);
    }
  }

  /** The block counter is a uint64 and every event advances it at most once. */
  ghost predicate InRange(run: seq<Event>) {
    |run| + 1 < TWO64
  }

  lemma {:induction false} RunInv(c: Crypto, run: seq<Event>)
    requires InRange(run)
    ensures Inv(c, Exec(c, run)) && Exec(c, run).cur <= |run| + 1
  {
    if run == [] {
      GenesisInv(c);
    } else {
      RunInv(c, run[..|run| - 1]);
      StepKeeps(c, Exec(c, run[..|run| - 1]), run[|run| - 1]);
    }
  }

  lemma ExecAppend(c: Crypto, run: seq<Event>, e: Event)
    ensures Exec(c, run + [e]) == Step(c, Exec(c, run), e)
  {
    assert (run + [e])[..|run|] == run;
  }

  lemma StepExtends(c: Crypto, s: State, t: State, e: Event)
    requires Inv(c, t) && t.cur + 1 < TWO64 && Extends(s, t)
    ensures Extends(s, Step(c, t, e))
  {
    StepKeeps(c, t, e);
    ExtendsTransitive(s, t, Step(c, t, e));
  }

  /** Whatever is stored stays stored: every state extends every earlier state of its run. */
  lemma {:induction false} RunExtends(c: Crypto, run: seq<Event>, k: nat)
    requires InRange(run) && k <= |run|
    ensures Extends(Exec(c, run[..k]), Exec(c, run))
    decreases |run|
  {
    if k == |run| {
      assert run[..k] == run;
      NothingIsQuiet(Exec(c, run));
    } else {
      var init := run[..|run| - 1];
      RunExtends(c, init, k);
      assert init[..k] == run[..k];
      RunInv(c, init);
      StepExtends(c, Exec(c, run[..k]), Exec(c, init), run[|run| - 1]);
    }
  }
}
