/** ConfirmTx and ExitTxOut: which input or output a position reaches, what the step changes there,
    and what an exit does not stop. */
module Updates {
  import opened Wrappers
  import opened Text
  import opened Positions
  import opened Types
  import opened Ledger
  import opened Invariants
  import opened Sealing
  import opened Tokens
  import opened Lifecycle
  import opened Runs

  // ---------- reaching an element by its position ----------

  /** pos is the position of element j of the stored transaction r. */
  ghost predicate At(s: State, pos: nat, r: TxRef, j: nat) {
    r in s.txs && j < 2 && pos == InPosition(r, j)
  }

  lemma ElementParses(s: State, pos: nat, r: TxRef, j: nat)
    requires Addressable(s) && At(s, pos, r, j)
    ensures ParsePosition(pos) == Some(Coord(r.blk, r.idx, j))
  {
    PositionParses(s, OutRef(r, j));
  }

  lemma ParsedElementAt(s: State, pos: U64, p: Coord)
    requires Addressable(s) && ParsePosition(pos) == Some(p)
    requires TxRef(p.blk, p.idx) in s.txs && p.elem < 2
    ensures At(s, pos, TxRef(p.blk, p.idx), p.elem)
  {
    assert IsOut(s, OutRef(TxRef(p.blk, p.idx), p.elem));
    assert pos / 10_000 / 100_000 >= 1;
    BuildAfterParseOfBlocks(pos);
  }

  // ---------- exits ----------

  /** t is s with output o marked as exited. */
  ghost predicate OnlyExits(s: State, o: OutRef, t: State) {
    && t == s.(txs := t.txs) && t.txs.Keys == s.txs.Keys
    && (forall r | r in s.txs :: t.txs[r].in0 == s.txs[r].in0 && t.txs[r].in1 == s.txs[r].in1)
    && (forall o' | IsOut(s, o') ::
          OutAt(t, o') == if o' == o then OutAt(s, o).(isExited := true) else OutAt(s, o'))
  }

  lemma ExitAtMarks(s: State, o: OutRef)
    requires IsOut(s, o)
    ensures ExitAt(s, o.tx, o.out).status == Done
    ensures OnlyExits(s, o, ExitAt(s, o.tx, o.out).state)
  {
  }

  lemma ExitReaches(s: State, o: OutRef)
    requires Addressable(s) && IsOut(s, o)
    ensures ExitTxOut(s, PositionOf(o)) == ExitAt(s, o.tx, o.out)
  {
    ElementParses(s, PositionOf(o), o.tx, o.out);
  }

  /** An exit succeeds exactly for the positions of stored outputs. */
  lemma ExitSucceedsIff(s: State, pos: U64)
    requires Addressable(s)
    ensures ExitTxOut(s, pos).status == Done <==> exists o :: IsOut(s, o) && PositionOf(o) == pos
  {
    if ExitTxOut(s, pos).status == Done {
      var p := ParsePosition(pos).value;
      ParsedElementAt(s, pos, p);
      assert PositionOf(OutRef(TxRef(p.blk, p.idx), p.elem)) == pos;
    }
    if o :| IsOut(s, o) && PositionOf(o) == pos {
      ExitReaches(s, o);
      ExitAtMarks(s, o);
    }
  }

  /** ... and marks that output and nothing else; at every other position it changes nothing. */
  lemma ExitMarksOne(c: Crypto, run: seq<Event>, pos: U64)
    requires InRange(run) && PositionsFit(Exec(c, run))
    ensures var s := Exec(c, run); var a := ExitTxOut(s, pos);
      && (a.status == Done <==> exists o :: IsOut(s, o) && PositionOf(o) == pos)
      && (a.status.Failed? ==> a.state == s)
      && (forall o | IsOut(s, o) && PositionOf(o) == pos :: OnlyExits(s, o, a.state))
  {
    var s := Exec(c, run);
    RunInv(c, run);
    ShapeAddressable(s);
    ExitSucceedsIff(s, pos);
    forall o | IsOut(s, o) && PositionOf(o) == pos ensures OnlyExits(s, o, ExitTxOut(s, pos).state) {
      ExitReaches(s, o);
      ExitAtMarks(s, o);
    }
  }

  // ---------- confirmations ----------

  /** confSig recovers, over the hash of the hash of the transaction's references, owners and amounts,
      to the owner of the output that input j names. */
  ghost predicate Confirmable(c: Crypto, s: State, r: TxRef, j: nat, confSig: Signature) {
    && r in s.txs && j < 2
    && var tx := s.txs[r];
       var ref := if j == 0 then tx.in0.ref else tx.in1.ref;
       var core := TxCore(tx.in0.ref, tx.in1.ref,
                          OutCore(tx.out0.owner, tx.out0.amount), OutCore(tx.out1.owner, tx.out1.amount));
       ref != OutRef(TxRef(0, 0), 0) && IsOut(s, ref)
       && c.recover(c.confHash(c.txHash(core)), confSig) == Some(OutAt(s, ref).owner)
  }

  /** t is s with confSig written to input j of transaction r. */
  ghost predicate OnlyConfirms(s: State, r: TxRef, j: nat, confSig: Signature, t: State) {
    && t == s.(txs := t.txs) && t.txs.Keys == s.txs.Keys
    && (forall o | IsOut(s, o) :: OutAt(t, o) == OutAt(s, o))
    && (forall q, k | q in s.txs && 0 <= k < 2 :: t.txs[q].Input(k) ==
          if q == r && k == j then s.txs[r].Input(j).(confSig := confSig) else s.txs[q].Input(k))
  }

  lemma ConfirmAtWrites(c: Crypto, s: State, r: TxRef, j: nat, confSig: Signature)
    ensures ConfirmAt(c, s, r, j, confSig).status == Done <==> Confirmable(c, s, r, j, confSig)
    ensures Confirmable(c, s, r, j, confSig) ==>
      OnlyConfirms(s, r, j, confSig, ConfirmAt(c, s, r, j, confSig).state)
  {
  }

  lemma ConfirmReaches(c: Crypto, s: State, pos: nat, r: TxRef, j: nat, confSig: Signature)
    requires Addressable(s) && At(s, pos, r, j)
    ensures ConfirmTx(c, s, pos, confSig) == ConfirmAt(c, s, r, j, confSig)
  {
    ElementParses(s, pos, r, j);
  }

  /** At the position of an input, a confirmation is accepted exactly when it recovers to the owner of
      the named output, and is then written to that input and nowhere else. */
  lemma ConfirmWritesOne(c: Crypto, run: seq<Event>, r: TxRef, j: nat, confSig: Signature)
    requires InRange(run) && PositionsFit(Exec(c, run)) && r in Exec(c, run).txs && j < 2
    ensures var s := Exec(c, run); var a := ConfirmTx(c, s, InPosition(r, j), confSig);
      && (a.status == Done <==> Confirmable(c, s, r, j, confSig))
      && (if a.status == Done then OnlyConfirms(s, r, j, confSig, a.state) else a.state == s)
  {
    RunInv(c, run);
    ShapeAddressable(Exec(c, run));
    ConfirmReaches(c, Exec(c, run), InPosition(r, j), r, j, confSig);
    ConfirmAtWrites(c, Exec(c, run), r, j, confSig);
  }

  /** At any position whatever, a confirmation succeeds exactly if an input stands there that the
      signature confirms. */
  lemma ConfirmSucceedsIff(c: Crypto, run: seq<Event>, pos: U64, confSig: Signature)
    requires InRange(run) && PositionsFit(Exec(c, run))
    ensures var s := Exec(c, run); var a := ConfirmTx(c, s, pos, confSig);
      && (a.status == Done <==> exists r, j :: At(s, pos, r, j) && Confirmable(c, s, r, j, confSig))
      && (a.status.Failed? ==> a.state == s)
      && (forall r, j | At(s, pos, r, j) && Confirmable(c, s, r, j, confSig) ::
            OnlyConfirms(s, r, j, confSig, a.state))
  {
    var s := Exec(c, run);
    RunInv(c, run);
    ShapeAddressable(s);
    ConfirmDoneIsAt(c, s, pos, confSig);
    forall r, j | At(s, pos, r, j) && Confirmable(c, s, r, j, confSig)
      ensures ConfirmTx(c, s, pos, confSig).status == Done
      ensures OnlyConfirms(s, r, j, confSig, ConfirmTx(c, s, pos, confSig).state)
    {
      ConfirmReaches(c, s, pos, r, j, confSig);
      ConfirmAtWrites(c, s, r, j, confSig);
    }
  }

  lemma ConfirmDoneIsAt(c: Crypto, s: State, pos: U64, confSig: Signature)
    requires Addressable(s)
    ensures ConfirmTx(c, s, pos, confSig).status == Done ==>
      exists r, j :: At(s, pos, r, j) && Confirmable(c, s, r, j, confSig)
    ensures ConfirmTx(c, s, pos, confSig).status.Failed? ==> ConfirmTx(c, s, pos, confSig).state == s
  {
    if ConfirmTx(c, s, pos, confSig).status == Done {
      var p := ParsePosition(pos).value;
      ConfirmAtWrites(c, s, TxRef(p.blk, p.idx), p.elem, confSig);
      ParsedElementAt(s, pos, p);
    }
  }

  // ---------- what an exit does not stop ----------

  /** A pending spend of o has become part of a block although o has exited. */
  ghost predicate IncludedAfterExit(s: State, p: Site, t: State, q: Site)
    requires HasSite(s, p)
  {
    && q.InBlock? && HasSite(t, q) && SiteTx(t, q) == SiteTx(s, p) && q.j == p.j
    && IsOut(t, Named(s, p)) && OutAt(t, Named(s, p)).isExited
  }

  lemma FixedAfterExit(c: Crypto, s: State, p: Site, u: State, signer: Account, t: State) returns (q: Site)
    requires p.InPool? && HasSite(s, p) && IsOut(s, Named(s, p)) && OnlyExits(s, Named(s, p), u)
    requires Fixed(c, u, signer, t)
    ensures IncludedAfterExit(s, p, t, q)
  {
    assert u.mempool == s.mempool;
    q := FixedImage(c, u, signer, t, p);
    assert IsOut(u, Named(s, p)) && t.txs[Named(s, p).tx] == u.txs[Named(s, p).tx];
  }

  lemma PendingFixDone(c: Crypto, u: State, key: string, signer: Account)
    requires Inv(c, u) && u.cur + 1 < TWO64 && key in u.mempool
    ensures Fixed(c, u, signer, Step(c, u, Fix(signer)))
  {
    assert Apply(c, u, Fix(signer)) == AddBlock(c, u, signer);
    assert |u.mempool| > 0;
    FixDone(c, u, signer);
  }

  lemma ExitStepMarks(c: Crypto, s: State, o: OutRef)
    requires Addressable(s) && IsOut(s, o)
    ensures OnlyExits(s, o, Step(c, s, Exit(PositionOf(o))))
  {
    ExitReaches(s, o);
    ExitAtMarks(s, o);
    assert Apply(c, s, Exit(PositionOf(o))) == ExitAt(s, o.tx, o.out);
  }

  lemma ExitOfNamed(c: Crypto, s: State, p: Site)
    requires Inv(c, s) && PositionsFit(s) && HasSite(s, p)
    ensures IsOut(s, Named(s, p))
    ensures OnlyExits(s, Named(s, p), Step(c, s, Exit(PositionOf(Named(s, p)))))
  {
    assert SiteOk(c, s, p);
    ShapeAddressable(s);
    ExitStepMarks(c, s, Named(s, p));
  }

  /** The exit guard acts at admission only: once a spend of an output is pending, exiting the output
      does not keep the next block from including the spend. */
  lemma ExitDoesNotStopInclusion(c: Crypto, run: seq<Event>, p: Site, signer: Account) returns (q: Site)
    requires |run| + 3 < TWO64 && PositionsFit(Exec(c, run))
    requires HasSite(Exec(c, run), p) && p.InPool?
    ensures var s := Exec(c, run);
      IncludedAfterExit(s, p, Exec(c, run + [Exit(PositionOf(Named(s, p)))] + [Fix(signer)]), q)
  {
    var s := Exec(c, run);
    var run' := run + [Exit(PositionOf(Named(s, p)))];
    var u := Exec(c, run');
    RunInv(c, run);
    ExitOfNamed(c, s, p);
    ExecAppend(c, run, Exit(PositionOf(Named(s, p))));
    ExecAppend(c, run', Fix(signer));
    RunInv(c, run');
    PendingFixDone(c, u, p.key, signer);
    q := FixedAfterExit(c, s, p, u, signer, Step(c, u, Fix(signer)));
  }

  // ---------- what an exit does stop ----------

  ghost predicate IsNamed(s: State, o: OutRef) {
    exists p :: NamedAt(s, p, o)
  }

  /** t, reached from s, in which o has exited: o is spent in t only if it was in s, and named in t
      only if it was in s. */
  ghost predicate Frozen(s: State, o: OutRef, t: State) {
    && IsOut(s, o) && IsOut(t, o)
    && OutAt(t, o).isExited && OutAt(t, o).isSpent == OutAt(s, o).isSpent
    && (IsNamed(t, o) ==> IsNamed(s, o))
  }

  lemma FrozenTransitive(s: State, t: State, u: State, o: OutRef)
    requires Frozen(s, o, t) && Frozen(t, o, u)
    ensures Frozen(s, o, u)
  {
  }

  lemma NothingFreezes(s: State, o: OutRef)
    requires IsOut(s, o) && OutAt(s, o).isExited
    ensures Frozen(s, o, s)
  {
  }

  lemma PostFreezes(c: Crypto, s: State, tx: Tx, o: OutRef)
    requires IsOut(s, o) && OutAt(s, o).isExited
    ensures Frozen(s, o, AddTx(c, s, tx).state)
  {
    AddTxAllOrNothing(c, s, tx);
    if AddTx(c, s, tx).status == Done {
      AcceptedFreezes(c, s, tx, AddTx(c, s, tx).state, o);
    } else {
      NothingFreezes(s, o);
    }
  }

  lemma NamedByPostOrBefore(c: Crypto, s: State, tx: Tx, t: State, p: Site)
    requires Posted(c, s, tx, t) && HasSite(t, p)
    ensures NamedBy(tx.Input(p.j), Named(t, p)) || NamedAt(s, p, Named(t, p))
  {
    if !IsNewSite(c, tx, p) {
      PostedContent(c, s, tx, t);
      SameContentSites(s, t, p);
    }
  }

  /** An accepted transaction names no exited output. */
  lemma AcceptedFreezes(c: Crypto, s: State, tx: Tx, t: State, o: OutRef)
    requires Posted(c, s, tx, t) && IsOut(s, o) && OutAt(s, o).isExited
    ensures Frozen(s, o, t)
  {
    assert o == OutRef(o.tx, 0) || o == OutRef(o.tx, 1);
    assert !NamedBy(tx.Input(0), o) && !NamedBy(tx.Input(1), o);
    forall p | NamedAt(t, p, o) ensures NamedAt(s, p, o) {
      NamedByPostOrBefore(c, s, tx, t, p);
    }
  }

  lemma DepositFreezes(c: Crypto, s: State, owner: Address, amount: nat, signer: Account, o: OutRef)
    requires Inv(c, s) && s.cur + 1 < TWO64 && IsOut(s, o) && OutAt(s, o).isExited
    ensures Frozen(s, o, AddDepositBlock(c, s, owner, amount, signer).state)
  {
    DepositKeeps(c, s, owner, amount, signer);
    var t := AddDepositBlock(c, s, owner, amount, signer).state;
    DepositSites(c, s, owner, amount, signer, t);
    forall p | NamedAt(t, p, o) ensures NamedAt(s, p, o) {
    }
  }

  lemma FixedFreezes(c: Crypto, s: State, signer: Account, t: State, o: OutRef)
    requires Fixed(c, s, signer, t) && IsOut(s, o) && OutAt(s, o).isExited
    ensures Frozen(s, o, t)
  {
    forall p | NamedAt(t, p, o) ensures NamedAt(s, Origin(s, p), o) {
      FixedOrigin(c, s, signer, t, p);
    }
  }

  lemma FixFreezes(c: Crypto, s: State, signer: Account, o: OutRef)
    requires Inv(c, s) && s.cur + 1 < TWO64 && IsOut(s, o) && OutAt(s, o).isExited
    ensures Frozen(s, o, AddBlock(c, s, signer).state)
  {
    if |s.mempool| == 0 {
      EmptyFixFails(c, s, signer);
      NothingFreezes(s, o);
    } else {
      FixDone(c, s, signer);
      FixedFreezes(c, s, signer, AddBlock(c, s, signer).state, o);
    }
  }

  lemma QuietFreezes(s: State, o: OutRef, t: State)
    requires Quiet(s, t) && Extends(s, t) && IsOut(s, o) && OutAt(s, o).isExited
    ensures Frozen(s, o, t)
  {
    assert Grows(s.txs[o.tx], t.txs[o.tx]);
    assert o == OutRef(o.tx, 0) || o == OutRef(o.tx, 1);
    QuietSites(s, t);
    forall p | NamedAt(t, p, o) ensures NamedAt(s, p, o) {
    }
  }

  lemma TouchFreezes(c: Crypto, s: State, e: Event, o: OutRef)
    requires (e.Confirm? || e.Exit?) && IsOut(s, o) && OutAt(s, o).isExited
    ensures Frozen(s, o, Step(c, s, e))
  {
    if e.Confirm? {
      assert Apply(c, s, e) == ConfirmTx(c, s, e.pos, e.confSig);
      ConfirmIsQuiet(c, s, e.pos, e.confSig);
    } else {
      assert Apply(c, s, e) == ExitTxOut(s, e.pos);
      ExitIsQuiet(s, e.pos);
    }
    QuietFreezes(s, o, Step(c, s, e));
  }

  lemma BlockFreezes(c: Crypto, s: State, e: Event, o: OutRef)
    requires Inv(c, s) && s.cur + 1 < TWO64 && (e.Deposit? || e.Fix?) && IsOut(s, o) && OutAt(s, o).isExited
    ensures Frozen(s, o, Step(c, s, e))
  {
    if e.Deposit? {
      assert Apply(c, s, e) == AddDepositBlock(c, s, e.owner, e.amount, e.signer);
      DepositFreezes(c, s, e.owner, e.amount, e.signer, o);
    } else {
      assert Apply(c, s, e) == AddBlock(c, s, e.signer);
      FixFreezes(c, s, e.signer, o);
    }
  }

  lemma StepFreezes(c: Crypto, s: State, e: Event, o: OutRef)
    requires Inv(c, s) && s.cur + 1 < TWO64 && IsOut(s, o) && OutAt(s, o).isExited
    ensures Frozen(s, o, Step(c, s, e))
  {
    if e.Deposit? || e.Fix? {
      BlockFreezes(c, s, e, o);
    } else if e.Post? {
      assert Apply(c, s, e) == AddTx(c, s, e.tx);
      PostFreezes(c, s, e.tx, o);
    } else {
      TouchFreezes(c, s, e, o);
    }
  }

  /** An output that has exited keeps its spent flag for ever, and unless an input names it already,
      none ever will. */
  lemma {:induction false} ExitFreezes(c: Crypto, run: seq<Event>, k: nat, o: OutRef)
    requires InRange(run) && k <= |run|
    requires IsOut(Exec(c, run[..k]), o) && OutAt(Exec(c, run[..k]), o).isExited
    ensures Frozen(Exec(c, run[..k]), o, Exec(c, run))
    decreases |run|
  {
    if k == |run| {
      assert run[..k] == run;
      NothingFreezes(Exec(c, run), o);
    } else {
      var init := run[..|run| - 1];
      assert init[..k] == run[..k];
      ExitFreezes(c, init, k, o);
      RunInv(c, init);
      StepFreezes(c, Exec(c, init), run[|run| - 1], o);
      FrozenTransitive(Exec(c, run[..k]), Exec(c, init), Exec(c, run), o);
    }
  }

  lemma UnspentIsUnnamed(c: Crypto, run: seq<Event>, o: OutRef)
    requires InRange(run) && IsOut(Exec(c, run), o) && !OutAt(Exec(c, run), o).isSpent
    ensures !IsNamed(Exec(c, run), o)
  {
    RunInv(c, run);
    forall p ensures !NamedAt(Exec(c, run), p, o) {
      assert HasSite(Exec(c, run), p) ==> SiteOk(c, Exec(c, run), p);
    }
  }

  /** An output that exits while it is unspent stays unspent and unnamed at every later moment. */
  lemma ExitedUnspentStaysUnspent(c: Crypto, run: seq<Event>, k: nat, o: OutRef)
    requires InRange(run) && k <= |run| && IsOut(Exec(c, run[..k]), o)
    requires OutAt(Exec(c, run[..k]), o).isExited && !OutAt(Exec(c, run[..k]), o).isSpent
    ensures IsOut(Exec(c, run), o) && OutAt(Exec(c, run), o).isExited && !OutAt(Exec(c, run), o).isSpent
    ensures forall p :: !NamedAt(Exec(c, run), p, o)
  {
    UnspentIsUnnamed(c, run[..k], o);
    ExitFreezes(c, run, k, o);
  }

  ghost predicate SpentInBlock(s: State, o: OutRef) {
    exists p: Site :: p.InBlock? && NamedAt(s, p, o)
  }

  /** Some continuation of the run puts a spend of o into a block. */
  ghost predicate CanBeSpentAfter(c: Crypto, run: seq<Event>, o: OutRef) {
    exists more: seq<Event> :: InRange(run + more) && SpentInBlock(Exec(c, run + more), o)
  }

  lemma ExitKeepsNamed(c: Crypto, s: State, o: OutRef, p: Site)
    requires NamedAt(s, p, o)
    ensures NamedAt(Step(c, s, Exit(PositionOf(o))), p, o)
  {
    ExitIsQuiet(s, PositionOf(o));
    QuietSites(s, ExitTxOut(s, PositionOf(o)).state);
    assert Apply(c, s, Exit(PositionOf(o))) == ExitTxOut(s, PositionOf(o));
  }

  lemma NamedCanBeSpent(c: Crypto, run: seq<Event>, o: OutRef, p: Site)
    requires |run| + 3 < TWO64 && PositionsFit(Exec(c, run)) && NamedAt(Exec(c, run), p, o)
    ensures CanBeSpentAfter(c, run + [Exit(PositionOf(o))], o)
  {
    var exited := run + [Exit(PositionOf(o))];
    if p.InPool? {
      var q := ExitDoesNotStopInclusion(c, run, p, Account(0));
      var more := [Fix(Account(0))];
      assert NamedAt(Exec(c, exited + more), q, o);
      assert InRange(exited + more) && SpentInBlock(Exec(c, exited + more), o);
    } else {
      ExitKeepsNamed(c, Exec(c, run), o, p);
      ExecAppend(c, run, Exit(PositionOf(o)));
      assert exited + [] == exited;
      assert InRange(exited + []) && SpentInBlock(Exec(c, exited + []), o);
    }
  }

  lemma ExitedNow(c: Crypto, run: seq<Event>, o: OutRef)
    requires InRange(run) && PositionsFit(Exec(c, run)) && IsOut(Exec(c, run), o)
    ensures OnlyExits(Exec(c, run), o, Exec(c, run + [Exit(PositionOf(o))]))
  {
    RunInv(c, run);
    ShapeAddressable(Exec(c, run));
    ExitStepMarks(c, Exec(c, run), o);
    ExecAppend(c, run, Exit(PositionOf(o)));
  }

  lemma SpentAfterWasNamed(c: Crypto, run: seq<Event>, o: OutRef, more: seq<Event>)
    requires PositionsFit(Exec(c, run)) && IsOut(Exec(c, run), o)
    requires InRange(run + [Exit(PositionOf(o))] + more)
    requires SpentInBlock(Exec(c, run + [Exit(PositionOf(o))] + more), o)
    ensures IsNamed(Exec(c, run), o)
  {
    var exited := run + [Exit(PositionOf(o))];
    ExitedNow(c, run, o);
    assert (exited + more)[..|exited|] == exited;
    ExitFreezes(c, exited + more, |exited|, o);
    assert IsNamed(Exec(c, exited), o);
    var s, t := Exec(c, run), Exec(c, exited);
    var p :| NamedAt(t, p, o);
    assert NamedAt(s, p, o) by { OnlyExitsSites(s, o, t, p); }
  }

  lemma OnlyExitsSites(s: State, o: OutRef, t: State, p: Site)
    requires OnlyExits(s, o, t)
    ensures HasSite(t, p) <==> HasSite(s, p)
    ensures HasSite(s, p) ==> Named(t, p) == Named(s, p)
  {
  }

  /** After an output exits, a spend of it can still reach a block if and only if an input named it at
      the moment of the exit, pending or in a block. */
  lemma ExitStopsSpendingIff(c: Crypto, run: seq<Event>, o: OutRef)
    requires |run| + 3 < TWO64 && PositionsFit(Exec(c, run)) && IsOut(Exec(c, run), o)
    ensures CanBeSpentAfter(c, run + [Exit(PositionOf(o))], o) <==> IsNamed(Exec(c, run), o)
  {
    var exited := run + [Exit(PositionOf(o))];
    if p :| NamedAt(Exec(c, run), p, o) { NamedCanBeSpent(c, run, o, p); }
    if CanBeSpentAfter(c, exited, o) {
      var more: seq<Event> :| InRange(exited + more) && SpentInBlock(Exec(c, exited + more), o);
      SpentAfterWasNamed(c, run, o, more);
    }
  }

  /** In a fresh run that condition is the output's own spent flag. */
  lemma FreshExitStopsSpendingIff(c: Crypto, run: seq<Event>, o: OutRef)
    requires |run| + 3 < TWO64 && FreshRun(run) && CollisionFree(c, run)
    requires PositionsFit(Exec(c, run)) && IsOut(Exec(c, run), o)
    ensures CanBeSpentAfter(c, run + [Exit(PositionOf(o))], o) <==> OutAt(Exec(c, run), o).isSpent
  {
    ExitStopsSpendingIff(c, run, o);
    FreshRunInv(c, run);
    if !OutAt(Exec(c, run), o).isSpent { UnspentIsUnnamed(c, run, o); }
  }
}
