/** What every step of the chain keeps, for any posted transactions whatever. */
module Invariants {
  import opened Wrappers
  import opened Text
  import opened Positions
  import opened Types
  import opened Ledger

  // ---------- places from which an output is named ----------

  /** An input of a transaction in a block, or of a transaction waiting in the mempool. */
  datatype Site = InBlock(ref: TxRef, j: nat) | InPool(key: string, j: nat)

  predicate HasTx(s: State, p: Site) {
    match p
    case InBlock(r, _) => r in s.txs
    case InPool(k, _) => k in s.mempool
  }

  function SiteTx(s: State, p: Site): Tx
    requires HasTx(s, p)
  {
    match p
    case InBlock(r, _) => s.txs[r]
    case InPool(k, _) => s.mempool[k]
  }

  predicate HasSite(s: State, p: Site) {
    p.j < 2 && HasTx(s, p) && !SiteTx(s, p).Input(p.j).IsNull()
  }

  function Named(s: State, p: Site): OutRef
    requires HasSite(s, p)
  {
    SiteTx(s, p).Input(p.j).ref
  }

  predicate SameTx(p: Site, q: Site) {
    match (p, q)
    case (InBlock(r, _), InBlock(r', _)) => r == r'
    case (InPool(k, _), InPool(k', _)) => k == k'
    case _ => false
  }

  // ---------- the invariant ----------

  ghost predicate Authorised(c: Crypto, tx: Tx, j: nat, owner: Address)
    requires j < 2
  {
    tx.Input(j).sig != NULL_SIGNATURE && c.recover(c.txHash(tx.Core()), tx.Input(j).sig) == Some(owner)
  }

  /** The number of the block a site belongs to, or would belong to if it were fixed now. */
  function SiteBlock(s: State, p: Site): nat {
    if p.InBlock? then p.ref.blk else s.cur
  }

  ghost predicate SiteOk(c: Crypto, s: State, p: Site)
    requires HasSite(s, p)
  {
    var o := Named(s, p);
    && IsOut(s, o)
    && OutAt(s, o).isSpent
    && o.tx.blk < SiteBlock(s, p)
    && Authorised(c, SiteTx(s, p), p.j, OutAt(s, o).owner)
  }

  ghost predicate SitesOk(c: Crypto, s: State) {
    forall p | HasSite(s, p) :: SiteOk(c, s, p)
  }

  ghost predicate UniqueSpender(s: State) {
    forall p, q | HasSite(s, p) && HasSite(s, q) && Named(s, p) == Named(s, q) :: SameTx(p, q)
  }

  /** Blocks 1..cur-1, each with transactions 0, 1, ... up to some last index. */
  ghost predicate Shape(s: State) {
    && 1 <= s.cur
    && (forall n :: n in s.headers <==> 1 <= n < s.cur)
    && (forall r | r in s.txs :: 1 <= r.blk < s.cur && r.idx < MAX_BLOCK_TXES)
    && (forall r, i: nat | r in s.txs && i < r.idx :: TxRef(r.blk, i) in s.txs)
    && (forall n | 1 <= n < s.cur :: TxRef(n, 0) in s.txs)
    && (forall r | r in s.txs && s.txs[r].AllNull() :: r.idx == 0 && TxRef(r.blk, 1) !in s.txs)
  }

  ghost predicate PoolOk(c: Crypto, s: State) {
    && |s.mempool| <= MEMPOOL_SIZE
    && forall k | k in s.mempool :: k == PoolKey(c, s.mempool[k]) && !s.mempool[k].AllNull()
  }

  /** The token index has one entry for each stored output and no other. */
  ghost predicate TokenDomain(s: State) {
    && (forall o | IsOut(s, o) :: TokenOf(s, o) in s.tokens)
    && (forall t | t in s.tokens :: exists o :: IsOut(s, o) && TokenOf(s, o) == t)
  }

  ghost predicate Inv(c: Crypto, s: State) {
    Shape(s) && SitesOk(c, s) && UniqueSpender(s) && PoolOk(c, s) && TokenDomain(s)
  }

  // ---------- what one state keeps of an earlier one ----------

  /** Only flags and confirmation signatures change, and flags are never cleared. */
  predicate Grows(a: Tx, b: Tx) {
    && a.Signed() == b.Signed()
    && (a.out0.isSpent ==> b.out0.isSpent) && (a.out1.isSpent ==> b.out1.isSpent)
    && (a.out0.isExited ==> b.out0.isExited) && (a.out1.isExited ==> b.out1.isExited)
  }

  /** No transaction is lost or altered, and none is added to an old block. */
  ghost predicate Extends(s: State, t: State) {
    && s.cur <= t.cur
    && (forall n | n in s.headers :: n in t.headers && t.headers[n] == s.headers[n])
    && (forall r | r in s.txs :: r in t.txs && Grows(s.txs[r], t.txs[r]))
    && (forall r | r in t.txs && r.blk < s.cur :: r in s.txs)
  }

  lemma ExtendsTransitive(s: State, t: State, u: State)
    requires Extends(s, t) && Extends(t, u)
    ensures Extends(s, u)
  {
    forall r | r in s.txs ensures r in u.txs && Grows(s.txs[r], u.txs[r]) {
      assert Grows(s.txs[r], t.txs[r]);
      assert Grows(t.txs[r], u.txs[r]);
    }
  }

  /** What every operation guarantees: the invariant, growth, one block at most, and no trace of
      a failed operation, although no operation rolls anything back. */
  ghost predicate Kept(c: Crypto, s: State, a: Outcome) {
    && Inv(c, a.state)
    && Extends(s, a.state)
    && a.state.cur <= s.cur + 1
    && (a.status.Failed? ==> a.state == s)
  }

  // ---------- transactions whose hashed content stays the same ----------

  /** Same blocks, mempool and token index, and the same signed content everywhere. */
  ghost predicate SameContent(s: State, t: State) {
    && t.cur == s.cur && t.headers == s.headers && t.tokens == s.tokens
    && t.txs.Keys == s.txs.Keys
    && forall r | r in s.txs :: t.txs[r].Signed() == s.txs[r].Signed()
  }

  lemma SameContentKeepsShape(s: State, t: State)
    requires Shape(s) && SameContent(s, t)
    ensures Shape(t)
  {
    forall r | r in t.txs && t.txs[r].AllNull() ensures s.txs[r].AllNull() {
      assert t.txs[r].Signed() == s.txs[r].Signed();
    }
  }

  lemma SameContentOutputs(s: State, t: State)
    requires SameContent(s, t)
    ensures forall o :: IsOut(t, o) == IsOut(s, o)
    ensures forall o | IsOut(s, o) :: TokenOf(t, o) == TokenOf(s, o)
    ensures forall o | IsOut(s, o) :: OutAt(t, o).owner == OutAt(s, o).owner && OutAt(t, o).amount == OutAt(s, o).amount
  {
    forall o | IsOut(s, o)
      ensures OutAt(t, o).owner == OutAt(s, o).owner && OutAt(t, o).amount == OutAt(s, o).amount
    {
      assert t.txs[o.tx].Signed() == s.txs[o.tx].Signed();
    }
  }

  lemma SameContentKeepsTokenDomain(s: State, t: State)
    requires TokenDomain(s) && SameContent(s, t)
    ensures TokenDomain(t)
  {
    SameContentOutputs(s, t);
    forall k | k in t.tokens ensures exists o :: IsOut(t, o) && TokenOf(t, o) == k {
      var o :| IsOut(s, o) && TokenOf(s, o) == k;
      assert IsOut(t, o) && TokenOf(t, o) == k;
    }
  }

  /** A site survives with the output it names unless it is a mempool site. */
  lemma SameContentSites(s: State, t: State, p: Site)
    requires SameContent(s, t)
    requires p.InPool? ==> p.key in s.mempool && p.key in t.mempool && t.mempool[p.key] == s.mempool[p.key]
    ensures HasSite(s, p) <==> HasSite(t, p)
    ensures HasSite(s, p) ==> Named(s, p) == Named(t, p) && SiteTx(s, p).Signed() == SiteTx(t, p).Signed()
  {
    if HasTx(s, p) { assert SiteTx(s, p).Signed() == SiteTx(t, p).Signed(); }
  }

  ghost predicate SpentKept(s: State, t: State) {
    forall o | IsOut(s, o) && IsOut(t, o) && OutAt(s, o).isSpent :: OutAt(t, o).isSpent
  }

  lemma SameContentSiteOk(c: Crypto, s: State, t: State, p: Site)
    requires SameContent(s, t) && SpentKept(s, t)
    requires p.InPool? ==> p.key in s.mempool && p.key in t.mempool && t.mempool[p.key] == s.mempool[p.key]
    requires HasSite(s, p) && SiteOk(c, s, p)
    ensures HasSite(t, p) && SiteOk(c, t, p)
  {
    SameContentSites(s, t, p);
    SameContentOutputs(s, t);
  }

  // ---------- steps that only touch flags and confirmations ----------

  ghost predicate Quiet(s: State, t: State) {
    SameContent(s, t) && t.mempool == s.mempool
    && forall r | r in s.txs ::
         && t.txs[r].out0.isSpent == s.txs[r].out0.isSpent
         && t.txs[r].out1.isSpent == s.txs[r].out1.isSpent
  }

  lemma QuietSites(s: State, t: State)
    requires Quiet(s, t)
    ensures forall p :: HasSite(s, p) <==> HasSite(t, p)
    ensures forall p | HasSite(s, p) :: Named(s, p) == Named(t, p)
  {
    forall p ensures HasSite(s, p) <==> HasSite(t, p)
      ensures HasSite(s, p) ==> Named(s, p) == Named(t, p)
    {
      if HasTx(s, p) { SameContentSites(s, t, p); }
    }
  }

  lemma QuietKeepsSitesOk(c: Crypto, s: State, t: State)
    requires SitesOk(c, s) && Quiet(s, t)
    ensures SitesOk(c, t)
  {
    forall p | HasSite(t, p) ensures SiteOk(c, t, p) {
      SameContentSites(s, t, p);
      assert SiteOk(c, s, p);
      SameContentSiteOk(c, s, t, p);
    }
  }

  lemma QuietKeepsInv(c: Crypto, s: State, t: State)
    requires Inv(c, s) && Quiet(s, t)
    ensures Inv(c, t)
  {
    SameContentKeepsShape(s, t);
    SameContentKeepsTokenDomain(s, t);
    QuietKeepsSitesOk(c, s, t);
    QuietSites(s, t);
  }

  lemma PutIsQuiet(s: State, r: TxRef, tx: Tx)
    requires r in s.txs && Grows(s.txs[r], tx)
    requires tx.out0.isSpent == s.txs[r].out0.isSpent && tx.out1.isSpent == s.txs[r].out1.isSpent
    ensures Quiet(s, PutTx(s, r, tx)) && Extends(s, PutTx(s, r, tx))
  {
  }

  lemma ConfirmGrows(tx: Tx, j: nat, confSig: Signature)
    requires j < 2
    ensures Grows(tx, tx.Confirm(j, confSig))
    ensures tx.Confirm(j, confSig).out0 == tx.out0 && tx.Confirm(j, confSig).out1 == tx.out1
  {
  }

  lemma NothingIsQuiet(s: State)
    ensures Quiet(s, s) && Extends(s, s)
  {
  }

  lemma ConfirmAtIsQuiet(c: Crypto, s: State, r: TxRef, j: nat, confSig: Signature)
    ensures var t := ConfirmAt(c, s, r, j, confSig).state; Quiet(s, t) && Extends(s, t)
  {
    var t := ConfirmAt(c, s, r, j, confSig).state;
    if ConfirmAt(c, s, r, j, confSig).status == Done {
      var tx := s.txs[r].Confirm(j, confSig);
      assert t == PutTx(s, r, tx);
      ConfirmGrows(s.txs[r], j, confSig);
      PutIsQuiet(s, r, tx);
    } else {
      assert t == s;
      NothingIsQuiet(s);
    }
  }

  lemma ExitAtIsQuiet(s: State, r: TxRef, j: nat)
    ensures var t := ExitAt(s, r, j).state; Quiet(s, t) && Extends(s, t)
  {
    if ExitAt(s, r, j).status == Done {
      PutIsQuiet(s, r, s.txs[r].Exit(j));
    } else {
      NothingIsQuiet(s);
    }
  }

  lemma ConfirmIsQuiet(c: Crypto, s: State, pos: nat, confSig: Signature)
    ensures Quiet(s, ConfirmTx(c, s, pos, confSig).state)
    ensures Extends(s, ConfirmTx(c, s, pos, confSig).state)
  {
    match ParsePosition(pos)
    case None => NothingIsQuiet(s);
    case Some(p) => ConfirmAtIsQuiet(c, s, TxRef(p.blk, p.idx), p.elem, confSig);
  }

  lemma ExitIsQuiet(s: State, pos: nat)
    ensures Quiet(s, ExitTxOut(s, pos).state)
    ensures Extends(s, ExitTxOut(s, pos).state)
  {
    match ParsePosition(pos)
    case None => NothingIsQuiet(s);
    case Some(p) => ExitAtIsQuiet(s, TxRef(p.blk, p.idx), p.elem);
  }

  lemma ConfirmKeeps(c: Crypto, s: State, pos: nat, confSig: Signature)
    requires Inv(c, s)
    ensures Kept(c, s, ConfirmTx(c, s, pos, confSig))
  {
    ConfirmIsQuiet(c, s, pos, confSig);
    QuietKeepsInv(c, s, ConfirmTx(c, s, pos, confSig).state);
  }

  lemma ExitKeeps(c: Crypto, s: State, pos: nat)
    requires Inv(c, s)
    ensures Kept(c, s, ExitTxOut(s, pos))
  {
    ExitIsQuiet(s, pos);
    QuietKeepsInv(c, s, ExitTxOut(s, pos).state);
  }

  // ---------- AddTxToMempool ----------

  /** What acceptance by ValidateTx means. */
  ghost predicate Acceptable(c: Crypto, s: State, tx: Tx) {
    && !tx.AllNull()
    && (forall j | 0 <= j < 2 && !tx.Input(j).IsNull() ::
          && IsOut(s, tx.Input(j).ref)
          && !OutAt(s, tx.Input(j).ref).isSpent
          && !OutAt(s, tx.Input(j).ref).isExited
          && Authorised(c, tx, j, OutAt(s, tx.Input(j).ref).owner))
    && tx.OutTotal() <= InTotal(s, tx)
  }

  lemma InputVerdictMeans(c: Crypto, s: State, tx: Tx, j: nat)
    requires j < 2
    ensures InputVerdict(c, s, tx, j) == Done <==>
      tx.Input(j).IsNull() ||
      (&& IsOut(s, tx.Input(j).ref)
       && !OutAt(s, tx.Input(j).ref).isSpent
       && !OutAt(s, tx.Input(j).ref).isExited
       && Authorised(c, tx, j, OutAt(s, tx.Input(j).ref).owner))
  {
  }

  /** ValidateTx accepts exactly the acceptable transactions. */
  lemma VerdictSoundAndComplete(c: Crypto, s: State, tx: Tx)
    ensures Verdict(c, s, tx) == Done <==> Acceptable(c, s, tx)
  {
    InputVerdictMeans(c, s, tx, 0);
    InputVerdictMeans(c, s, tx, 1);
    assert Acceptable(c, s, tx) ==> InputVerdict(c, s, tx, 0) == Done && InputVerdict(c, s, tx, 1) == Done;
  }

  predicate NamedBy(i: TxIn, o: OutRef) {
    !i.IsNull() && i.ref == o
  }

  predicate Names(tx: Tx, o: OutRef) {
    NamedBy(tx.in0, o) || NamedBy(tx.in1, o)
  }

  /** The transaction stored at r, with its outputs marked as spent where so asked. */
  function Marked(tx: Tx, mark0: bool, mark1: bool): Tx {
    tx.(out0 := tx.out0.(isSpent := tx.out0.isSpent || mark0),
        out1 := tx.out1.(isSpent := tx.out1.isSpent || mark1))
  }

  /** t is s with exactly the outputs named by tx marked as spent. */
  ghost predicate SpentBy(s: State, tx: Tx, t: State) {
    && t == s.(txs := t.txs)
    && t.txs.Keys == s.txs.Keys
    && forall r | r in s.txs :: t.txs[r] == Marked(s.txs[r], Names(tx, OutRef(r, 0)), Names(tx, OutRef(r, 1)))
  }

  lemma SpendInputMarks(s: State, i: TxIn)
    requires i.IsNull() || IsOut(s, i.ref)
    ensures var a := SpendInput(s, i);
      && a.status == Done && a.state == s.(txs := a.state.txs) && a.state.txs.Keys == s.txs.Keys
      && forall r | r in s.txs ::
           a.state.txs[r] == Marked(s.txs[r], NamedBy(i, OutRef(r, 0)), NamedBy(i, OutRef(r, 1)))
  {
    assert !i.IsNull() ==> i.ref == OutRef(i.ref.tx, 0) || i.ref == OutRef(i.ref.tx, 1);
  }

  lemma SpendInputsMark(s: State, tx: Tx)
    requires InputsExist(s, tx)
    ensures SpendInputs(s, tx).status == Done
    ensures SpentBy(s, tx, SpendInputs(s, tx).state)
  {
    assert !tx.Input(0).IsNull() ==> IsOut(s, tx.Input(0).ref);
    assert !tx.Input(1).IsNull() ==> IsOut(s, tx.Input(1).ref);
    SpendInputMarks(s, tx.in0);
    var a := SpendInput(s, tx.in0).state;
    SpendInputMarks(a, tx.in1);
    var t := SpendInput(a, tx.in1).state;
    MarkedTwice(s, tx, a, t);
  }

  lemma MarkedTwice(s: State, tx: Tx, a: State, t: State)
    requires a == s.(txs := a.txs) && t == a.(txs := t.txs)
    requires a.txs.Keys == s.txs.Keys && t.txs.Keys == a.txs.Keys
    requires forall r | r in s.txs ::
      a.txs[r] == Marked(s.txs[r], NamedBy(tx.in0, OutRef(r, 0)), NamedBy(tx.in0, OutRef(r, 1)))
    requires forall r | r in a.txs ::
      t.txs[r] == Marked(a.txs[r], NamedBy(tx.in1, OutRef(r, 0)), NamedBy(tx.in1, OutRef(r, 1)))
    ensures SpentBy(s, tx, t)
  {
  }

  ghost predicate InputsExist(s: State, tx: Tx) {
    forall j | 0 <= j < 2 && !tx.Input(j).IsNull() :: IsOut(s, tx.Input(j).ref)
  }

  /** Once ValidateTx accepts, the spend loop cannot fail, and it marks exactly the named outputs,
      also when both inputs name outputs of the same transaction, or the same output. */
  lemma SpendLoopComplete(c: Crypto, s: State, tx: Tx)
    requires Verdict(c, s, tx) == Done
    ensures SpendInputs(s, tx).status == Done
    ensures SpentBy(s, tx, SpendInputs(s, tx).state)
  {
    VerdictSoundAndComplete(c, s, tx);
    SpendInputsMark(s, tx);
  }

  /** AddTxToMempool is all-or-nothing. */
  lemma AddTxAllOrNothing(c: Crypto, s: State, tx: Tx)
    ensures var a := AddTx(c, s, tx);
      if a.status == Done then
        && |s.mempool| < MEMPOOL_SIZE && Acceptable(c, s, tx)
        && SpentBy(s.(mempool := s.mempool[PoolKey(c, tx) := tx]), tx, a.state)
      else
        && a.state == s
        && (|s.mempool| >= MEMPOOL_SIZE || !Acceptable(c, s, tx))
  {
    VerdictSoundAndComplete(c, s, tx);
    if Verdict(c, s, tx) == Done { SpendLoopComplete(c, s, tx); }
  }

  /** The state after an accepted post. */
  ghost predicate Posted(c: Crypto, s: State, tx: Tx, t: State) {
    Acceptable(c, s, tx) && SpentBy(s.(mempool := s.mempool[PoolKey(c, tx) := tx]), tx, t)
  }

  predicate IsNewSite(c: Crypto, tx: Tx, p: Site) {
    p.InPool? && p.key == PoolKey(c, tx)
  }

  lemma PostedContent(c: Crypto, s: State, tx: Tx, t: State)
    requires Posted(c, s, tx, t)
    ensures SameContent(s, t) && SpentKept(s, t) && Extends(s, t)
  {
  }

  /** Old sites name outputs that were already spent ... */
  lemma PostedOldSite(c: Crypto, s: State, tx: Tx, t: State, p: Site)
    requires Posted(c, s, tx, t) && SitesOk(c, s) && HasSite(t, p) && !IsNewSite(c, tx, p)
    ensures HasSite(s, p) && Named(s, p) == Named(t, p) && SiteOk(c, t, p)
    ensures IsOut(s, Named(t, p)) && OutAt(s, Named(t, p)).isSpent
  {
    PostedContent(c, s, tx, t);
    SameContentSites(s, t, p);
    assert SiteOk(c, s, p);
    SameContentSiteOk(c, s, t, p);
  }

  /** ... and new ones outputs that were not. */
  lemma PostedNewSite(c: Crypto, s: State, tx: Tx, t: State, p: Site)
    requires Posted(c, s, tx, t) && Shape(s) && HasSite(t, p) && IsNewSite(c, tx, p)
    ensures SiteOk(c, t, p)
    ensures IsOut(s, Named(t, p)) && !OutAt(s, Named(t, p)).isSpent
  {
    var o := Named(t, p);
    assert SiteTx(t, p) == tx && tx.Input(p.j).ref == o;
    assert IsOut(s, o) && Names(tx, o);
    assert o == OutRef(o.tx, 0) || o == OutRef(o.tx, 1);
    PostedContent(c, s, tx, t);
    SameContentOutputs(s, t);
  }

  lemma PostedSite(c: Crypto, s: State, tx: Tx, t: State, p: Site)
    requires Posted(c, s, tx, t) && Shape(s) && SitesOk(c, s) && HasSite(t, p)
    ensures SiteOk(c, t, p) && IsOut(s, Named(t, p))
    ensures OutAt(s, Named(t, p)).isSpent <==> !IsNewSite(c, tx, p)
    ensures !IsNewSite(c, tx, p) ==> HasSite(s, p) && Named(s, p) == Named(t, p)
  {
    if IsNewSite(c, tx, p) { PostedNewSite(c, s, tx, t, p); } else { PostedOldSite(c, s, tx, t, p); }
  }

  lemma PostedKeepsSites(c: Crypto, s: State, tx: Tx, t: State)
    requires Posted(c, s, tx, t) && Shape(s) && SitesOk(c, s) && UniqueSpender(s)
    ensures SitesOk(c, t) && UniqueSpender(t)
  {
    forall p | HasSite(t, p) ensures SiteOk(c, t, p) {
      PostedSite(c, s, tx, t, p);
    }
    forall p, q | HasSite(t, p) && HasSite(t, q) && Named(t, p) == Named(t, q) ensures SameTx(p, q) {
      PostedSite(c, s, tx, t, p);
      PostedSite(c, s, tx, t, q);
    }
  }

  lemma PostedKeepsPoolOk(c: Crypto, s: State, tx: Tx, t: State)
    requires Posted(c, s, tx, t) && PoolOk(c, s) && |s.mempool| < MEMPOOL_SIZE
    ensures PoolOk(c, t)
  {
  }

  lemma PostKeeps(c: Crypto, s: State, tx: Tx)
    requires Inv(c, s)
    ensures Kept(c, s, AddTx(c, s, tx))
  {
    NothingIsQuiet(s);
    AddTxAllOrNothing(c, s, tx);
    var t := AddTx(c, s, tx).state;
    if AddTx(c, s, tx).status == Done {
      PostedContent(c, s, tx, t);
      SameContentKeepsShape(s, t);
      SameContentKeepsTokenDomain(s, t);
      PostedKeepsSites(c, s, tx, t);
      PostedKeepsPoolOk(c, s, tx, t);
    }
  }

  // ---------- storing a block ----------

  lemma IndexInputKeeps(s: State, r: TxRef, tx: Tx, j: nat)
    requires j < 2 && TokenDomain(s)
    requires !tx.Input(j).IsNull() ==> IsOut(s, tx.Input(j).ref)
    ensures IndexInput(s, r, tx, j).status == Done
    ensures IndexInput(s, r, tx, j).state == s.(tokens := IndexInput(s, r, tx, j).state.tokens)
    ensures IndexInput(s, r, tx, j).state.tokens.Keys == s.tokens.Keys
    ensures TokenDomain(IndexInput(s, r, tx, j).state)
  {
    var t := IndexInput(s, r, tx, j).state;
    if !tx.Input(j).IsNull() {
      assert TokenOf(s, tx.Input(j).ref) in s.tokens;
    }
    assert forall o :: IsOut(t, o) == IsOut(s, o);
    assert forall o | IsOut(s, o) :: TokenOf(t, o) == TokenOf(s, o);
    forall k | k in t.tokens ensures exists o :: IsOut(t, o) && TokenOf(t, o) == k {
      var o :| IsOut(s, o) && TokenOf(s, o) == k;
      assert IsOut(t, o) && TokenOf(t, o) == k;
    }
  }

  /** Storing one transaction cannot fail when its inputs exist. */
  lemma StoreTxDone(s: State, r: TxRef, tx: Tx)
    requires TokenDomain(s) && r !in s.txs && InputsExist(s, tx)
    ensures StoreTx(s, r, tx).status == Done
    ensures var t := StoreTx(s, r, tx).state;
      t == s.(tokens := t.tokens, txs := s.txs[r := tx]) && TokenDomain(t)
  {
    IndexInputKeeps(s, r, tx, 0);
    var a := IndexInput(s, r, tx, 0).state;
    IndexInputKeeps(a, r, tx, 1);
    var b := IndexInput(a, r, tx, 1).state;
    StoredKeepsTokenDomain(b, r, tx);
  }

  lemma StoredKeepsTokenDomain(b: State, r: TxRef, tx: Tx)
    requires TokenDomain(b) && r !in b.txs
    ensures TokenDomain(PutTx(IndexOutput(IndexOutput(b, r, tx, 0), r, tx, 1), r, tx))
  {
    var t := PutTx(IndexOutput(IndexOutput(b, r, tx, 0), r, tx, 1), r, tx);
    var o0, o1 := OutRef(r, 0), OutRef(r, 1);
    assert IsOut(t, o0) && IsOut(t, o1);
    assert t.tokens.Keys == b.tokens.Keys + {TokenOf(t, o0), TokenOf(t, o1)};
    forall o | IsOut(t, o) ensures TokenOf(t, o) in t.tokens {
      if o.tx != r {
        assert IsOut(b, o) && TokenOf(b, o) == TokenOf(t, o);
      } else {
        assert o == o0 || o == o1;
      }
    }
    forall k | k in t.tokens ensures exists o :: IsOut(t, o) && TokenOf(t, o) == k {
      if k in b.tokens {
        var o :| IsOut(b, o) && TokenOf(b, o) == k;
        assert IsOut(t, o) && TokenOf(t, o) == k;
      }
    }
  }

  /** t is s after the first i of txs have been stored as block n. */
  ghost predicate Batch(s: State, n: nat, txs: seq<Tx>, i: nat, t: State) {
    && i <= |txs|
    && t == s.(tokens := t.tokens, txs := t.txs)
    && (forall r :: r in t.txs <==> r in s.txs || (r.blk == n && r.idx < i))
    && (forall r | r in s.txs :: t.txs[r] == s.txs[r])
    && (forall m | 0 <= m < i :: t.txs[TxRef(n, m)] == txs[m])
    && TokenDomain(t)
  }

  lemma BatchStep(s: State, n: nat, txs: seq<Tx>, i: nat, t: State)
    requires Batch(s, n, txs, i, t) && i < |txs|
    requires forall r | r in s.txs :: r.blk < n
    requires InputsExist(s, txs[i])
    ensures StoreTx(t, TxRef(n, i), txs[i]).status == Done
    ensures Batch(s, n, txs, i + 1, StoreTx(t, TxRef(n, i), txs[i]).state)
  {
    assert InputsExist(t, txs[i]) by {
      forall j | 0 <= j < 2 && !txs[i].Input(j).IsNull() ensures IsOut(t, txs[i].Input(j).ref) {
        assert IsOut(s, txs[i].Input(j).ref);
      }
    }
    assert TxRef(n, i) !in t.txs;
    StoreTxDone(t, TxRef(n, i), txs[i]);
  }

  /** addBlock cannot fail on transactions whose inputs exist, and stores each exactly once. */
  lemma {:induction false} StoreFromDone(s: State, n: nat, txs: seq<Tx>, i: nat, t: State)
    requires Batch(s, n, txs, i, t)
    requires forall r | r in s.txs :: r.blk < n
    requires forall m | 0 <= m < |txs| :: InputsExist(s, txs[m])
    ensures StoreFrom(t, n, txs, i).status == Done
    ensures Batch(s, n, txs, |txs|, StoreFrom(t, n, txs, i).state)
    decreases |txs| - i
  {
    if i < |txs| {
      BatchStep(s, n, txs, i, t);
      StoreFromDone(s, n, txs, i + 1, StoreTx(t, TxRef(n, i), txs[i]).state);
    }
  }
}
