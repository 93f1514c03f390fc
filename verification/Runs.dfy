/** The theorems about whole runs of the chain. */
module Runs {
  import opened Wrappers
  import opened Text
  import opened Positions
  import opened Types
  import opened Ledger
  import opened Invariants
  import opened Sealing
  import opened Conservation
  import opened Tokens
  import opened Lifecycle

  // ---------- any posted transactions ----------

  /** No output is named by inputs of two different transactions, in blocks and mempool together,
      and every named output exists in an older block and is marked as spent. */
  lemma NoDoubleSpend(c: Crypto, run: seq<Event>, p: Site, q: Site)
    requires InRange(run)
    requires HasSite(Exec(c, run), p) && HasSite(Exec(c, run), q)
    requires Named(Exec(c, run), p) == Named(Exec(c, run), q)
    ensures SameTx(p, q)
    ensures IsOut(Exec(c, run), Named(Exec(c, run), p)) && OutAt(Exec(c, run), Named(Exec(c, run), p)).isSpent
  {
    RunInv(c, run);
    assert SiteOk(c, Exec(c, run), p);
  }

  /** Every input ever admitted carries a signature, over its own transaction's hash, of the owner
      of the output it names. */
  lemma EveryInputAuthorised(c: Crypto, run: seq<Event>, p: Site)
    requires InRange(run) && HasSite(Exec(c, run), p)
    ensures var s := Exec(c, run); var tx := SiteTx(s, p);
      var core := TxCore(tx.in0.ref, tx.in1.ref,
                         OutCore(tx.out0.owner, tx.out0.amount), OutCore(tx.out1.owner, tx.out1.amount));
      && IsOut(s, Named(s, p))
      && tx.Input(p.j).sig != 0
      && c.recover(c.txHash(core), tx.Input(p.j).sig) == Some(OutAt(s, Named(s, p)).owner)
  {
    RunInv(c, run);
    assert SiteOk(c, Exec(c, run), p);
  }

  /** Blocks are numbered 1, 2, ... without gaps, each has transactions 0, 1, ... without gaps and at
      least one, and a header. */
  lemma ChainShape(c: Crypto, run: seq<Event>)
    requires InRange(run)
    ensures var s := Exec(c, run);
      && 1 <= s.cur <= |run| + 1
      && (forall n :: n in s.headers <==> 1 <= n < s.cur)
      && (forall n: nat :: TxRef(n, 0) in s.txs <==> 1 <= n < s.cur)
      && (forall r, i: nat | r in s.txs && i < r.idx :: TxRef(r.blk, i) in s.txs)
  {
    RunInv(c, run);
  }

  /** No operation rolls anything back, and yet a failed one leaves no trace. */
  lemma FailuresLeaveNoTrace(c: Crypto, run: seq<Event>, e: Event)
    requires InRange(run + [e]) && Apply(c, Exec(c, run), e).status.Failed?
    ensures Exec(c, run + [e]) == Exec(c, run)
  {
    RunInv(c, run);
    StepKeeps(c, Exec(c, run), e);
    ExecAppend(c, run, e);
  }

  /** In every reachable state the mempool is within its bound and can be fixed, unless it is empty:
      the block size limit and the input lookups of addBlock never fail. */
  lemma EveryFixDrains(c: Crypto, run: seq<Event>, signer: Account)
    requires InRange(run + [Fix(signer)])
    ensures |Exec(c, run).mempool| <= MEMPOOL_SIZE
    ensures Drains(Exec(c, run), AddBlock(c, Exec(c, run), signer))
  {
    RunInv(c, run);
    AddBlockDrains(c, Exec(c, run), signer);
  }

  /** A walk from an output back through block inputs: each next output is named by an input of the
      transaction that holds the one before it. */
  ghost predicate Walk(s: State, w: seq<OutRef>) {
    && |w| > 0
    && (forall k | 0 <= k < |w| :: IsOut(s, w[k]))
    && (forall k | 0 <= k < |w| - 1 :: Names(s.txs[w[k].tx], w[k + 1]))
  }

  lemma WalkStep(c: Crypto, s: State, r: TxRef, o: OutRef)
    requires SitesOk(c, s) && r in s.txs && Names(s.txs[r], o)
    ensures o.tx.blk < r.blk
  {
    var j := if NamedBy(s.txs[r].in0, o) then 0 else 1;
    assert HasSite(s, InBlock(r, j)) && SiteOk(c, s, InBlock(r, j));
  }

  lemma {:induction false} WalkFalls(c: Crypto, s: State, w: seq<OutRef>, n: nat)
    requires SitesOk(c, s) && Walk(s, w) && n < |w|
    ensures w[n].tx.blk + n <= w[0].tx.blk
  {
    if n > 0 {
      WalkFalls(c, s, w, n - 1);
      assert Names(s.txs[w[n - 1].tx], w[(n - 1) + 1]);
      WalkStep(c, s, w[n - 1].tx, w[n]);
    }
  }

  /** A walk strictly descends in block numbers, so it has fewer steps than there are blocks. */
  lemma WalkDescends(c: Crypto, run: seq<Event>, w: seq<OutRef>)
    requires InRange(run) && Walk(Exec(c, run), w)
    ensures w[|w| - 1].tx.blk + |w| - 1 <= w[0].tx.blk
    ensures |w| < Exec(c, run).cur
  {
    RunInv(c, run);
    WalkFalls(c, Exec(c, run), w, |w| - 1);
    assert IsOut(Exec(c, run), w[0]) && IsOut(Exec(c, run), w[|w| - 1]);
  }

  /** The numbers of the blocks added by deposits. */
  ghost function DepositBlocks(c: Crypto, run: seq<Event>): set<nat> {
    if run == [] then {} else
      var init := run[..|run| - 1];
      DepositBlocks(c, init) + (if run[|run| - 1].Deposit? then {Exec(c, init).cur} else {})
  }

  ghost predicate NullOnlyIn(s: State, blocks: set<nat>) {
    forall r | r in s.txs :: s.txs[r].AllNull() <==> r.blk in blocks
  }

  lemma DepositNullOnly(c: Crypto, s: State, owner: Address, amount: nat, signer: Account, t: State, blocks: set<nat>)
    requires Sealed(c, s, [DepositTx(owner, amount)], signer, t) && OldBlocks(s) && NullOnlyIn(s, blocks)
    ensures NullOnlyIn(t, blocks + {s.cur})
  {
    var tx := DepositTx(owner, amount);
    forall r | r in t.txs ensures t.txs[r].AllNull() <==> r.blk in blocks + {s.cur} {
      if r !in s.txs {
        assert r == TxRef(s.cur, 0) && t.txs[TxRef(s.cur, 0)] == [tx][0];
      }
    }
  }

  lemma FixNullOnly(c: Crypto, s: State, signer: Account, t: State, blocks: set<nat>)
    requires Fixed(c, s, signer, t) && PoolOk(c, s) && NullOnlyIn(s, blocks)
    requires s.cur !in blocks
    ensures NullOnlyIn(t, blocks)
  {
    FixedHoldsPool(c, s, signer, t);
    forall r | r in t.txs ensures t.txs[r].AllNull() <==> r.blk in blocks {
      if r !in s.txs {
        assert r == TxRef(s.cur, r.idx);
        assert t.txs[TxRef(s.cur, r.idx)] == s.mempool[PoolOrder(s)[r.idx]];
      }
    }
  }

  lemma SameContentNullOnly(s: State, t: State, blocks: set<nat>)
    requires SameContent(s, t) && NullOnlyIn(s, blocks)
    ensures NullOnlyIn(t, blocks)
  {
    forall r | r in t.txs ensures t.txs[r].AllNull() == s.txs[r].AllNull() {
      assert t.txs[r].Signed() == s.txs[r].Signed();
    }
  }

  lemma FixStepNullOnly(c: Crypto, s: State, signer: Account, blocks: set<nat>)
    requires Inv(c, s) && s.cur + 1 < TWO64 && |s.mempool| > 0 && NullOnlyIn(s, blocks) && s.cur !in blocks
    ensures NullOnlyIn(AddBlock(c, s, signer).state, blocks)
  {
    FixDone(c, s, signer);
    FixNullOnly(c, s, signer, AddBlock(c, s, signer).state, blocks);
  }

  lemma StepNullOnly(c: Crypto, s: State, e: Event, blocks: set<nat>)
    requires Inv(c, s) && s.cur + 1 < TWO64 && NullOnlyIn(s, blocks)
    requires s.cur !in blocks
    ensures NullOnlyIn(Step(c, s, e), blocks + (if e.Deposit? then {s.cur} else {}))
  {
    if e.Deposit? {
      DepositKeeps(c, s, e.owner, e.amount, e.signer);
      DepositNullOnly(c, s, e.owner, e.amount, e.signer, Step(c, s, e), blocks);
    } else {
      assert blocks + {} == blocks;
      if e.Fix? && |s.mempool| > 0 {
        FixStepNullOnly(c, s, e.signer, blocks);
      } else {
        SameTxsStep(c, s, e);
        SameContentNullOnly(s, Step(c, s, e), blocks);
      }
    }
  }

  lemma SameTxsStep(c: Crypto, s: State, e: Event)
    requires !e.Deposit? && (e.Fix? ==> |s.mempool| == 0)
    ensures SameContent(s, Step(c, s, e))
  {
    match e
    case Post(tx) =>
      AddTxAllOrNothing(c, s, tx);
      if AddTx(c, s, tx).status == Done { PostedContent(c, s, tx, AddTx(c, s, tx).state); }
    case Fix(signer) => EmptyFixFails(c, s, signer);
    case Confirm(pos, confSig) => ConfirmIsQuiet(c, s, pos, confSig);
    case Exit(pos) => ExitIsQuiet(s, pos);
  }

  lemma LastCurAdvances(c: Crypto, run: seq<Event>)
    requires InRange(run) && run != []
    ensures Exec(c, run).cur >= Exec(c, run[..|run| - 1]).cur + (if run[|run| - 1].Deposit? then 1 else 0)
  {
    RunInv(c, run[..|run| - 1]);
    CurAdvances(c, Exec(c, run[..|run| - 1]), run[|run| - 1]);
  }

  lemma {:induction false} DepositBlocksBelow(c: Crypto, run: seq<Event>)
    requires InRange(run)
    ensures forall n | n in DepositBlocks(c, run) :: n < Exec(c, run).cur
  {
    if run != [] {
      DepositBlocksBelow(c, run[..|run| - 1]);
      LastCurAdvances(c, run);
    }
  }

  lemma {:induction false} NullOnlyInDepositBlocks(c: Crypto, run: seq<Event>)
    requires InRange(run)
    ensures NullOnlyIn(Exec(c, run), DepositBlocks(c, run))
  {
    if run != [] {
      var init, e := run[..|run| - 1], run[|run| - 1];
      NullOnlyInDepositBlocks(c, init);
      DepositBlocksBelow(c, init);
      RunInv(c, init);
      StepNullOnly(c, Exec(c, init), e, DepositBlocks(c, init));
    }
  }

  /** A stored transaction has no inputs exactly when a deposit made its block; it is then alone in it. */
  lemma OnlyDepositsCreateValue(c: Crypto, run: seq<Event>)
    requires InRange(run)
    ensures NullOnlyIn(Exec(c, run), DepositBlocks(c, run))
    ensures forall n | n in DepositBlocks(c, run) :: TxRef(n, 1) !in Exec(c, run).txs
  {
    NullOnlyInDepositBlocks(c, run);
    RunInv(c, run);
    var s := Exec(c, run);
    assert forall n | n in DepositBlocks(c, run) && TxRef(n, 1) in s.txs :: s.txs[TxRef(n, 1)].AllNull();
  }

  /** From any output, some walk back through inputs ends in a transaction without inputs. */
  lemma {:induction false} WalkToDeposit(c: Crypto, s: State, o: OutRef) returns (w: seq<OutRef>)
    requires SitesOk(c, s) && IsOut(s, o)
    ensures Walk(s, w) && w[0] == o && s.txs[w[|w| - 1].tx].AllNull()
    decreases o.tx.blk
  {
    var tx := s.txs[o.tx];
    if tx.AllNull() {
      w := [o];
    } else {
      var j := if tx.in0.IsNull() then 1 else 0;
      assert HasSite(s, InBlock(o.tx, j)) && SiteOk(c, s, InBlock(o.tx, j));
      WalkStep(c, s, o.tx, tx.Input(j).ref);
      var rest := WalkToDeposit(c, s, tx.Input(j).ref);
      w := [o] + rest;
    }
  }

  /** Every output of a reachable state goes back, in fewer steps than there are blocks, to a deposit. */
  lemma EveryOutputFromDeposits(c: Crypto, run: seq<Event>, o: OutRef) returns (w: seq<OutRef>)
    requires InRange(run) && IsOut(Exec(c, run), o)
    ensures Walk(Exec(c, run), w) && w[0] == o && |w| < Exec(c, run).cur
    ensures w[|w| - 1].tx.blk in DepositBlocks(c, run)
  {
    RunInv(c, run);
    w := WalkToDeposit(c, Exec(c, run), o);
    WalkDescends(c, run, w);
    NullOnlyInDepositBlocks(c, run);
  }

  lemma CurAdvances(c: Crypto, s: State, e: Event)
    requires Inv(c, s) && s.cur + 1 < TWO64
    ensures Step(c, s, e).cur >= s.cur + (if e.Deposit? then 1 else 0)
  {
    if e.Deposit? {
      DepositKeeps(c, s, e.owner, e.amount, e.signer);
    } else {
      StepKeeps(c, s, e);
    }
  }

  lemma SpentInputRefused(c: Crypto, s: State, tx: Tx, j: nat)
    requires j < 2 && !tx.Input(j).IsNull() && IsOut(s, tx.Input(j).ref) && OutAt(s, tx.Input(j).ref).isSpent
    ensures AddTx(c, s, tx).status.Failed? && AddTx(c, s, tx).state == s
  {
    assert !Acceptable(c, s, tx);
    AddTxAllOrNothing(c, s, tx);
  }

  /** The post at step k of the run was admitted. */
  ghost predicate AdmittedAt(c: Crypto, run: seq<Event>, k: nat) {
    k < |run| && run[k].Post? && AddTx(c, Exec(c, run[..k]), run[k].tx).status == Done
  }

  lemma StepOf(c: Crypto, run: seq<Event>, k: nat)
    requires k < |run|
    ensures Exec(c, run[..k + 1]) == Step(c, Exec(c, run[..k]), run[k])
  {
    assert run[..k + 1] == run[..k] + [run[k]];
    ExecAppend(c, run[..k], run[k]);
  }

  lemma AcceptedSpends(c: Crypto, s: State, tx: Tx, i: nat)
    requires AddTx(c, s, tx).status == Done && i < 2 && !tx.Input(i).IsNull()
    ensures IsOut(AddTx(c, s, tx).state, tx.Input(i).ref) && OutAt(AddTx(c, s, tx).state, tx.Input(i).ref).isSpent
  {
    AddTxAllOrNothing(c, s, tx);
    var o := tx.Input(i).ref;
    assert IsOut(s, o) && Names(tx, o);
    assert o == OutRef(o.tx, 0) || o == OutRef(o.tx, 1);
  }

  /** What an admission marks as spent is marked at every later moment. */
  lemma AdmittedStaysSpent(c: Crypto, run: seq<Event>, k: nat, i: nat)
    requires InRange(run) && AdmittedAt(c, run, k) && i < 2 && !run[k].tx.Input(i).IsNull()
    ensures IsOut(Exec(c, run), run[k].tx.Input(i).ref) && OutAt(Exec(c, run), run[k].tx.Input(i).ref).isSpent
  {
    var o := run[k].tx.Input(i).ref;
    StepOf(c, run, k);
    AcceptedSpends(c, Exec(c, run[..k]), run[k].tx, i);
    RunExtends(c, run, k + 1);
    assert Grows(Exec(c, run[..k + 1]).txs[o.tx], Exec(c, run).txs[o.tx]);
  }

  /** Once a transaction naming an output has been admitted, no transaction naming it is admitted
      at any later moment; in particular not the same one, whether pending or in a block. */
  lemma NeverAdmittedAgain(c: Crypto, run: seq<Event>, k: nat, i: nat, tx: Tx, j: nat)
    requires InRange(run) && AdmittedAt(c, run, k) && i < 2 && !run[k].tx.Input(i).IsNull()
    requires j < 2 && NamedBy(tx.Input(j), run[k].tx.Input(i).ref)
    ensures AddTx(c, Exec(c, run), tx).status.Failed? && AddTx(c, Exec(c, run), tx).state == Exec(c, run)
  {
    AdmittedStaysSpent(c, run, k, i);
    SpentInputRefused(c, Exec(c, run), tx, j);
  }

  // ---------- no overwriting in the mempool ----------

  lemma PoolAfterPost(c: Crypto, s: State, tx: Tx)
    ensures var t := AddTx(c, s, tx).state;
      t.mempool == s.mempool || t.mempool == s.mempool[PoolKey(c, tx) := tx]
  {
    AddTxAllOrNothing(c, s, tx);
  }

  lemma PoolAfterFix(c: Crypto, s: State, signer: Account)
    requires Inv(c, s) && s.cur + 1 < TWO64
    ensures AddBlock(c, s, signer).state.mempool == map[]
  {
    if |s.mempool| == 0 { EmptyFixFails(c, s, signer); } else { FixDone(c, s, signer); }
  }

  lemma PoolAfterDeposit(c: Crypto, s: State, owner: Address, amount: nat, signer: Account)
    requires Inv(c, s) && s.cur + 1 < TWO64
    ensures AddDepositBlock(c, s, owner, amount, signer).state.mempool == s.mempool
  {
    DepositKeeps(c, s, owner, amount, signer);
  }

  lemma PoolAfterTouch(c: Crypto, s: State, e: Event)
    requires e.Confirm? || e.Exit?
    ensures Step(c, s, e).mempool == s.mempool
  {
    if e.Confirm? {
      assert Apply(c, s, e) == ConfirmTx(c, s, e.pos, e.confSig);
      ConfirmIsQuiet(c, s, e.pos, e.confSig);
    } else {
      assert Apply(c, s, e) == ExitTxOut(s, e.pos);
      ExitIsQuiet(s, e.pos);
    }
  }

  /** What one step can do to the mempool. */
  lemma PoolAfter(c: Crypto, s: State, e: Event)
    requires Inv(c, s) && s.cur + 1 < TWO64
    ensures var m := Step(c, s, e).mempool;
      m == s.mempool || m == map[] || (e.Post? && m == s.mempool[PoolKey(c, e.tx) := e.tx])
  {
    match e
    case Post(tx) => PoolAfterPost(c, s, tx);
    case Fix(signer) => PoolAfterFix(c, s, signer);
    case Deposit(owner, amount, signer) => PoolAfterDeposit(c, s, owner, amount, signer);
    case _ => PoolAfterTouch(c, s, e);
  }

  lemma PoolSources(c: Crypto, s: State, e: Event, k: string)
    requires Inv(c, s) && s.cur + 1 < TWO64 && k in Step(c, s, e).mempool
    ensures e == Post(Step(c, s, e).mempool[k]) || (k in s.mempool && s.mempool[k] == Step(c, s, e).mempool[k])
  {
    PoolAfter(c, s, e);
  }

  lemma LastPoolSource(c: Crypto, run: seq<Event>, k: string)
    requires InRange(run) && run != [] && k in Exec(c, run).mempool
    ensures var s, tx := Exec(c, run[..|run| - 1]), Exec(c, run).mempool[k];
      run[|run| - 1] == Post(tx) || (k in s.mempool && s.mempool[k] == tx)
  {
    RunInv(c, run[..|run| - 1]);
    PoolSources(c, Exec(c, run[..|run| - 1]), run[|run| - 1], k);
  }

  /** Everything in the mempool was posted in the run. */
  lemma {:induction false} PoolFromRun(c: Crypto, run: seq<Event>, k: string) returns (i: nat)
    requires InRange(run) && k in Exec(c, run).mempool
    ensures i < |run| && run[i] == Post(Exec(c, run).mempool[k])
  {
    var init, e := run[..|run| - 1], run[|run| - 1];
    LastPoolSource(c, run, k);
    if e == Post(Exec(c, run).mempool[k]) {
      i := |run| - 1;
    } else {
      i := PoolFromRun(c, init, k);
      assert run[i] == init[i];
    }
  }

  /** Two posted transactions with one mempool key have one core, unless hashes collide. */
  lemma SameKeySameCore(c: Crypto, run: seq<Event>, i: nat, j: nat)
    requires CollisionFree(c, run) && i < |run| && j < |run| && run[i].Post? && run[j].Post?
    requires PoolKey(c, run[i].tx) == PoolKey(c, run[j].tx)
    ensures run[i].tx.Core() == run[j].tx.Core()
  {
    HashToHexInjective(TxHash(c, run[i].tx), TxHash(c, run[j].tx));
  }

  /** A transaction whose core is already waiting in the mempool is refused. */
  lemma PendingCoreRefused(c: Crypto, s: State, p: Site, tx: Tx)
    requires HasSite(s, p) && SiteOk(c, s, p) && SiteTx(s, p).Core() == tx.Core()
    ensures AddTx(c, s, tx).status.Failed?
  {
    assert tx.Input(p.j).ref == Named(s, p);
    SpentInputRefused(c, s, tx, p.j);
  }

  lemma AcceptedKeyIsNew(c: Crypto, run: seq<Event>, tx: Tx)
    requires InRange(run) && CollisionFree(c, run + [Post(tx)])
    requires AddTx(c, Exec(c, run), tx).status == Done
    ensures PoolKey(c, tx) !in Exec(c, run).mempool
  {
    var k, all := PoolKey(c, tx), run + [Post(tx)];
    if k in Exec(c, run).mempool {
      var i := PoolFromRun(c, run, k);
      RunInv(c, run);
      assert all[i] == run[i] && all[|run|] == Post(tx);
      SameKeySameCore(c, all, i, |run|);
      var p := InPool(k, if Exec(c, run).mempool[k].in0.IsNull() then 1 else 0);
      assert HasSite(Exec(c, run), p) && SiteOk(c, Exec(c, run), p);
      PendingCoreRefused(c, Exec(c, run), p, tx);
    }
  }

  /** Without hash collisions an accepted post adds a new mempool key. */
  lemma NoOverwrite(c: Crypto, run: seq<Event>, tx: Tx)
    requires InRange(run) && CollisionFree(c, run + [Post(tx)])
    requires AddTx(c, Exec(c, run), tx).status == Done
    ensures PoolKey(c, tx) !in Exec(c, run).mempool
    ensures |AddTx(c, Exec(c, run), tx).state.mempool| == |Exec(c, run).mempool| + 1
  {
    var s, k := Exec(c, run), PoolKey(c, tx);
    AcceptedKeyIsNew(c, run, tx);
    AddTxAllOrNothing(c, s, tx);
    CountPut(s.mempool, k, tx);
  }

  lemma CountPut(m: map<string, Tx>, k: string, tx: Tx)
    requires k !in m
    ensures |m[k := tx]| == |m| + 1
  {
    assert m[k := tx].Keys == m.Keys + {k};
    assert |m[k := tx]| == |m[k := tx].Keys| && |m| == |m.Keys|;
  }

  // ---------- fresh runs ----------

  lemma PrefixHypotheses(c: Crypto, run: seq<Event>, k: nat)
    requires k <= |run|
    ensures FreshRun(run) ==> FreshRun(run[..k])
    ensures CollisionFree(c, run) ==> CollisionFree(c, run[..k])
  {
    if CollisionFree(c, run) {
      var init := run[..k];
      forall i, j | 0 <= i < k && 0 <= j < k && init[i].Post? && init[j].Post?
                 && TxHash(c, init[i].tx) == TxHash(c, init[j].tx)
        ensures init[i].tx.Core() == init[j].tx.Core()
      {
        assert run[i] == init[i] && run[j] == init[j];
      }
    }
  }

  lemma GenesisFresh(c: Crypto)
    ensures FreshInv(c, GENESIS)
  {
  }

  lemma BlockStepKeepsFresh(c: Crypto, s: State, e: Event)
    requires Inv(c, s) && FreshInv(c, s) && s.cur + 1 < TWO64 && (e.Deposit? || e.Fix?)
    ensures FreshInv(c, Step(c, s, e))
  {
    if e.Deposit? {
      assert Apply(c, s, e) == AddDepositBlock(c, s, e.owner, e.amount, e.signer);
      DepositKeepsFresh(c, s, e.owner, e.amount, e.signer);
    } else {
      assert Apply(c, s, e) == AddBlock(c, s, e.signer);
      FixKeepsFresh(c, s, e.signer);
    }
  }

  lemma TxStepKeepsFresh(c: Crypto, s: State, e: Event)
    requires FreshInv(c, s) && (e.Post? || e.Confirm? || e.Exit?)
    requires e.Post? ==> e.tx.Fresh() && (AddTx(c, s, e.tx).status == Done ==> PoolKey(c, e.tx) !in s.mempool)
    ensures FreshInv(c, Step(c, s, e))
  {
    if e.Post? {
      assert Apply(c, s, e) == AddTx(c, s, e.tx);
      PostKeepsFresh(c, s, e.tx);
    } else if e.Confirm? {
      assert Apply(c, s, e) == ConfirmTx(c, s, e.pos, e.confSig);
      ConfirmKeepsFresh(c, s, e.pos, e.confSig);
    } else {
      assert Apply(c, s, e) == ExitTxOut(s, e.pos);
      ExitKeepsFresh(c, s, e.pos);
    }
  }

  /** The last post of a collision-free run, if accepted, got a new key. */
  lemma LastKeyIsNew(c: Crypto, run: seq<Event>)
    requires InRange(run) && CollisionFree(c, run) && run != [] && run[|run| - 1].Post?
    ensures var s, tx := Exec(c, run[..|run| - 1]), run[|run| - 1].tx;
      AddTx(c, s, tx).status == Done ==> PoolKey(c, tx) !in s.mempool
  {
    var init, tx := run[..|run| - 1], run[|run| - 1].tx;
    assert init + [Post(tx)] == run;
    if AddTx(c, Exec(c, init), tx).status == Done { AcceptedKeyIsNew(c, init, tx); }
  }

  lemma {:induction false} FreshRunInv(c: Crypto, run: seq<Event>)
    requires InRange(run) && FreshRun(run) && CollisionFree(c, run)
    ensures FreshInv(c, Exec(c, run))
  {
    if run == [] {
      GenesisFresh(c);
    } else {
      var init, e := run[..|run| - 1], run[|run| - 1];
      PrefixHypotheses(c, run, |run| - 1);
      FreshRunInv(c, init);
      if e.Deposit? || e.Fix? {
        RunInv(c, init);
        BlockStepKeepsFresh(c, Exec(c, init), e);
      } else {
        if e.Post? { LastKeyIsNew(c, run); }
        TxStepKeepsFresh(c, Exec(c, init), e);
      }
    }
  }

  /** In a fresh run a confirmation signature stands only on a block input, and recovers, over the
      confirmation hash of its transaction, to the owner of the output that input names. */
  lemma ConfirmationsStand(c: Crypto, run: seq<Event>, p: Site)
    requires InRange(run) && FreshRun(run) && CollisionFree(c, run) && HasSite(Exec(c, run), p)
    ensures ConfirmedAt(c, Exec(c, run), p)
  {
    FreshRunInv(c, run);
  }

  datatype Stage = Unspent | Pending | Included

  function Rank(g: Stage): nat {
    match g case Unspent => 0 case Pending => 1 case Included => 2
  }

  /** The stage of a stored output, read off its flag and its token. */
  function StageOf(s: State, o: OutRef): Stage
    requires IsOut(s, o)
  {
    if !OutAt(s, o).isSpent then Unspent
    else if TokenOf(s, o) in s.tokens && s.tokens[TokenOf(s, o)] != 0 then Included
    else Pending
  }

  /** What flag and token promise: no spender and token 0; or one pending spender and token 0;
      or one spender, in a block, whose position the token holds. */
  ghost predicate StageMeaning(s: State, o: OutRef)
    requires IsOut(s, o)
  {
    TokenOf(s, o) in s.tokens &&
    match StageOf(s, o)
    case Unspent => s.tokens[TokenOf(s, o)] == 0 && forall p :: !NamedAt(s, p, o)
    case Pending => s.tokens[TokenOf(s, o)] == 0
      && exists p: Site :: p.InPool? && NamedAt(s, p, o) && forall q | NamedAt(s, q, o) :: q == p
    case Included =>
      exists p: Site :: p.InBlock? && NamedAt(s, p, o) && s.tokens[TokenOf(s, o)] == InPosition(p.ref, p.j)
        && forall q | NamedAt(s, q, o) :: q == p
  }

  lemma SingleSpender(c: Crypto, s: State, p: Site, q: Site, o: OutRef)
    requires Inv(c, s) && DistinctEverywhere(s) && NamedAt(s, p, o) && NamedAt(s, q, o)
    ensures p == q
  {
    assert SameTx(p, q);
    assert SiteTx(s, p).DistinctInputs();
  }

  lemma InclusionNonzero(s: State, p: Site)
    requires Addressable(s) && HasSite(s, p) && p.InBlock?
    ensures InPosition(p.ref, p.j) != 0
  {
    assert IsOut(s, OutRef(p.ref, p.j));
    PositionParses(s, OutRef(p.ref, p.j));
  }

  lemma StageMeaningOf(c: Crypto, s: State, o: OutRef)
    requires Inv(c, s) && FreshInv(c, s) && PositionsFit(s) && IsOut(s, o)
    ensures StageMeaning(s, o)
  {
    ShapeAddressable(s);
    var token := s.tokens[TokenOf(s, o)];
    if token != 0 {
      var p :| IncludedBy(s, p, o);
      assert NamedAt(s, p, o) && SiteOk(c, s, p);
      forall q | NamedAt(s, q, o) ensures q == p { SingleSpender(c, s, p, q, o); }
    } else if OutAt(s, o).isSpent {
      var p :| NamedAt(s, p, o);
      if p.InBlock? { InclusionNonzero(s, p); }
      forall q | NamedAt(s, q, o) ensures q == p { SingleSpender(c, s, p, q, o); }
    } else {
      forall p ensures !NamedAt(s, p, o) {
        assert HasSite(s, p) ==> SiteOk(c, s, p);
      }
    }
  }

  /** Every output stored in a fresh run is in exactly one stage, with its full meaning. */
  lemma OutputLifecycle(c: Crypto, run: seq<Event>, o: OutRef)
    requires InRange(run) && FreshRun(run) && CollisionFree(c, run)
    requires PositionsFit(Exec(c, run)) && IsOut(Exec(c, run), o)
    ensures StageMeaning(Exec(c, run), o)
  {
    RunInv(c, run);
    FreshRunInv(c, run);
    StageMeaningOf(c, Exec(c, run), o);
  }

  /** Stages only move forward. */
  lemma StagesMoveForward(c: Crypto, run: seq<Event>, k: nat, o: OutRef)
    requires InRange(run) && FreshRun(run) && CollisionFree(c, run) && k <= |run|
    requires PositionsFit(Exec(c, run)) && IsOut(Exec(c, run[..k]), o)
    ensures IsOut(Exec(c, run), o)
    ensures Rank(StageOf(Exec(c, run[..k]), o)) <= Rank(StageOf(Exec(c, run), o))
  {
    var s, t := Exec(c, run[..k]), Exec(c, run);
    RunExtends(c, run, k);
    assert Grows(s.txs[o.tx], t.txs[o.tx]);
    forall o' | IsOut(s, o') ensures IsOut(t, o') {
    }
    PrefixHypotheses(c, run, k);
    OutputLifecycle(c, run[..k], o);
    OutputLifecycle(c, run, o);
    if StageOf(s, o) == Included {
      var p: Site :| p.InBlock? && NamedAt(s, p, o);
      assert Grows(s.txs[p.ref], t.txs[p.ref]);
      assert NamedAt(t, p, o);
    }
  }

  lemma FreshRecord(c: Crypto, s: State, b: Books, e: Event)
    requires e.Post? ==> e.tx.Fresh() && (AddTx(c, s, e.tx).status == Done ==> PoolKey(c, e.tx) !in s.mempool)
    ensures var b' := Record(c, s, b, e); b'.doubled == b.doubled && b'.preset == b.preset && b'.lost == b.lost
  {
  }

  lemma {:induction false} FreshBooks(c: Crypto, run: seq<Event>)
    requires InRange(run) && FreshRun(run) && CollisionFree(c, run)
    ensures BooksOf(c, run).doubled == 0 && BooksOf(c, run).preset == 0 && BooksOf(c, run).lost == 0
  {
    if run != [] {
      var init, e := run[..|run| - 1], run[|run| - 1];
      PrefixHypotheses(c, run, |run| - 1);
      FreshBooks(c, init);
      if e.Post? { LastKeyIsNew(c, run); }
      FreshRecord(c, Exec(c, init), BooksOf(c, init), e);
    }
  }

  /** Conservation: in a fresh run, unspent stored outputs, outputs waiting in the mempool and fees
      make up exactly what was deposited. */
  lemma FreshConservation(c: Crypto, run: seq<Event>)
    requires InRange(run) && FreshRun(run) && CollisionFree(c, run)
    ensures Sum(Exec(c, run).txs) + Sum(Exec(c, run).mempool) + BooksOf(c, run).fees == BooksOf(c, run).deposited
    ensures forall k | k in Exec(c, run).mempool ::
              Live(Exec(c, run).mempool[k]) == Exec(c, run).mempool[k].OutTotal()
  {
    AccountingLaw(c, run);
    FreshBooks(c, run);
    FreshRunInv(c, run);
  }

  lemma LowPositionFits(o: OutRef)
    requires o.tx.blk < 18_446_744_073 && o.tx.idx < 99_999 && o.out < 2
    ensures Flat(CoordOf(o)) < TWO64
  {
  }

  /** Every position fits in 64 bits in the first 18446744072 blocks. */
  lemma FirstBlocksFit(c: Crypto, run: seq<Event>)
    requires InRange(run) && Exec(c, run).cur <= 18_446_744_073
    ensures PositionsFit(Exec(c, run))
  {
    RunInv(c, run);
    forall o | IsOut(Exec(c, run), o) ensures Flat(CoordOf(o)) < TWO64 {
      LowPositionFits(o);
    }
  }

  // ---------- a run that creates value ----------

  /** Deposit, then post a transaction both of whose inputs name the deposited output. */
  function DoublingTx(c: Crypto, a: Account, amount: nat): Tx {
    var ref := OutRef(TxRef(1, 0), 0);
    var bare := Tx(NewTxIn(ref), NewTxIn(ref), NewTxOut(c.address(a), 2 * amount), NewTxOut(NULL_ADDRESS, 0));
    var sig := c.sign(a, TxHash(c, bare));
    bare.(in0 := bare.in0.(sig := sig), in1 := bare.in1.(sig := sig))
  }

  lemma DoublingAccepted(c: Crypto, a: Account, amount: nat, s: State)
    requires Honest(c)
    requires Sealed(c, GENESIS, [DepositTx(c.address(a), amount)], a, s)
    ensures AddTx(c, s, DoublingTx(c, a, amount)).status == Done
  {
    var tx := DoublingTx(c, a, amount);
    var ref := OutRef(TxRef(1, 0), 0);
    assert s.txs[TxRef(1, 0)] == [DepositTx(c.address(a), amount)][0];
    assert OutAt(s, ref) == NewTxOut(c.address(a), amount);
    assert tx.Core() == DoublingTx(c, a, amount).Core();
    assert tx.in0.sig == c.sign(a, TxHash(c, tx));
    assert InputVerdict(c, s, tx, 0) == Done && InputVerdict(c, s, tx, 1) == Done;
    AddTxAllOrNothing(c, s, tx);
    VerdictSoundAndComplete(c, s, tx);
  }

  lemma RunOfTwo(c: Crypto, e0: Event, e1: Event)
    ensures var s := Step(c, GENESIS, e0);
      && Exec(c, [e0, e1]) == Step(c, s, e1)
      && BooksOf(c, [e0, e1]) == Record(c, s, Record(c, GENESIS, Books(0, 0, 0, 0, 0), e0), e1)
  {
    assert [e0, e1][..1] == [e0] && [e0][..0] == [];
    assert Exec(c, [e0]) == Step(c, GENESIS, e0);
    assert BooksOf(c, [e0]) == Record(c, GENESIS, Books(0, 0, 0, 0, 0), e0);
  }

  /** The books after the doubling post. */
  lemma DoublingRecorded(c: Crypto, a: Account, amount: nat, s: State, b: Books)
    requires Honest(c)
    requires Sealed(c, GENESIS, [DepositTx(c.address(a), amount)], a, s)
    ensures Record(c, s, b, Post(DoublingTx(c, a, amount))) == b.(doubled := b.doubled + amount)
  {
    DoublingAccepted(c, a, amount, s);
    var tx := DoublingTx(c, a, amount);
    assert s.txs[TxRef(1, 0)] == [DepositTx(c.address(a), amount)][0];
    assert OutAt(s, OutRef(TxRef(1, 0), 0)) == NewTxOut(c.address(a), amount);
    assert InAmount(s, tx.in0) == amount && InAmount(s, tx.in1) == amount;
    assert Fee(s, tx) == 0 && Doubled(s, tx) == amount && Preset(tx) == 0 && Replaced(c, s, tx) == 0;
  }

  lemma FirstDepositRecorded(c: Crypto, owner: Address, amount: nat, signer: Account)
    ensures var e := Deposit(owner, amount, signer);
      && Sealed(c, GENESIS, [DepositTx(owner, amount)], signer, Step(c, GENESIS, e))
      && Record(c, GENESIS, Books(0, 0, 0, 0, 0), e) == Books(amount, 0, 0, 0, 0)
  {
    GenesisInv(c);
    DepositKeeps(c, GENESIS, owner, amount, signer);
  }

  /** Conservation is false without freshness: from a deposit of any amount, anyone holding it
      makes twice that amount. */
  lemma ValueCanBeDoubled(c: Crypto, a: Account, amount: nat)
    requires Honest(c)
    ensures var run := [Deposit(c.address(a), amount, a), Post(DoublingTx(c, a, amount))];
      BooksOf(c, run).deposited == amount && BooksOf(c, run).fees == 0 && Wealth(Exec(c, run)) == 2 * amount
  {
    var e0, e1 := Deposit(c.address(a), amount, a), Post(DoublingTx(c, a, amount));
    FirstDepositRecorded(c, c.address(a), amount, a);
    RunOfTwo(c, e0, e1);
    DoublingRecorded(c, a, amount, Step(c, GENESIS, e0), Books(amount, 0, 0, 0, 0));
    AccountingLaw(c, [e0, e1]);
  }
}
