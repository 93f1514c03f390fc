/** What becomes of an admitted transaction: it is never lost and never duplicated. */
module Admissions {
  import opened Text
  import opened Types
  import opened Ledger
  import opened Invariants
  import opened Sealing
  import opened Lifecycle
  import opened Runs

  ghost predicate Waiting(c: Crypto, s: State, tx: Tx) {
    PoolKey(c, tx) in s.mempool && s.mempool[PoolKey(c, tx)] == tx
  }

  ghost predicate StoredAt(s: State, tx: Tx, r: TxRef) {
    r in s.txs && s.txs[r].Signed() == tx.Signed()
  }

  /** tx waits in the mempool, or its signed content is in a block. */
  ghost predicate Retained(c: Crypto, s: State, tx: Tx) {
    Waiting(c, s, tx) || exists r :: StoredAt(s, tx, r)
  }

  lemma ExtendsKeepsStored(s: State, t: State, tx: Tx, r: TxRef)
    requires Extends(s, t) && StoredAt(s, tx, r)
    ensures StoredAt(t, tx, r)
  {
    assert Grows(s.txs[r], t.txs[r]);
  }

  lemma HeldIsStored(c: Crypto, s: State, ks: seq<string>, t: State, tx: Tx) returns (r: TxRef)
    requires HoldsPool(s, ks, s.cur, t) && Waiting(c, s, tx)
    ensures StoredAt(t, tx, r)
  {
    assert PoolKey(c, tx) in ks;
    var i :| 0 <= i < |ks| && ks[i] == PoolKey(c, tx);
    r := TxRef(s.cur, i);
  }

  /** Fixing moves a pending transaction into the new block. */
  lemma FixStores(c: Crypto, s: State, signer: Account, tx: Tx) returns (r: TxRef)
    requires Inv(c, s) && s.cur + 1 < TWO64 && Waiting(c, s, tx)
    ensures StoredAt(AddBlock(c, s, signer).state, tx, r)
  {
    assert |s.mempool| > 0;
    FixDone(c, s, signer);
    FixedHoldsPool(c, s, signer, AddBlock(c, s, signer).state);
    r := HeldIsStored(c, s, PoolOrder(s), AddBlock(c, s, signer).state, tx);
  }

  lemma PostKeepsWaiting(c: Crypto, s: State, other: Tx, tx: Tx)
    requires Waiting(c, s, tx)
    requires AddTx(c, s, other).status == Done ==> PoolKey(c, other) !in s.mempool
    ensures Waiting(c, Step(c, s, Post(other)), tx)
  {
    AddTxAllOrNothing(c, s, other);
    assert Apply(c, s, Post(other)) == AddTx(c, s, other);
  }

  lemma WaitingStep(c: Crypto, s: State, e: Event, tx: Tx)
    requires Inv(c, s) && s.cur + 1 < TWO64 && Waiting(c, s, tx)
    requires e.Post? && AddTx(c, s, e.tx).status == Done ==> PoolKey(c, e.tx) !in s.mempool
    ensures Retained(c, Step(c, s, e), tx)
  {
    match e
    case Fix(signer) => var r := FixStores(c, s, signer, tx);
    case Post(other) => PostKeepsWaiting(c, s, other, tx);
    case Deposit(owner, amount, signer) => PoolAfterDeposit(c, s, owner, amount, signer);
    case _ => PoolAfterTouch(c, s, e);
  }

  lemma RetainedStep(c: Crypto, s: State, e: Event, tx: Tx)
    requires Inv(c, s) && s.cur + 1 < TWO64 && Retained(c, s, tx)
    requires e.Post? && AddTx(c, s, e.tx).status == Done ==> PoolKey(c, e.tx) !in s.mempool
    ensures Retained(c, Step(c, s, e), tx)
  {
    if Waiting(c, s, tx) {
      WaitingStep(c, s, e, tx);
    } else {
      var r :| StoredAt(s, tx, r);
      StepKeeps(c, s, e);
      ExtendsKeepsStored(s, Step(c, s, e), tx, r);
    }
  }

  lemma LastStepRetains(c: Crypto, run: seq<Event>, tx: Tx)
    requires InRange(run) && CollisionFree(c, run) && run != [] && Retained(c, Exec(c, run[..|run| - 1]), tx)
    ensures Retained(c, Exec(c, run), tx)
  {
    RunInv(c, run[..|run| - 1]);
    if run[|run| - 1].Post? { LastKeyIsNew(c, run); }
    RetainedStep(c, Exec(c, run[..|run| - 1]), run[|run| - 1], tx);
  }

  lemma AcceptedWaits(c: Crypto, s: State, tx: Tx)
    requires AddTx(c, s, tx).status == Done
    ensures Waiting(c, AddTx(c, s, tx).state, tx)
  {
    AddTxAllOrNothing(c, s, tx);
  }

  lemma LastAdmittedWaits(c: Crypto, run: seq<Event>)
    requires run != [] && AdmittedAt(c, run, |run| - 1)
    ensures Waiting(c, Exec(c, run), run[|run| - 1].tx)
  {
    var s, tx := Exec(c, run[..|run| - 1]), run[|run| - 1].tx;
    assert Apply(c, s, Post(tx)) == AddTx(c, s, tx);
    AcceptedWaits(c, s, tx);
  }

  lemma {:induction false} AdmittedIsRetained(c: Crypto, run: seq<Event>, k: nat)
    requires InRange(run) && CollisionFree(c, run) && AdmittedAt(c, run, k)
    ensures Retained(c, Exec(c, run), run[k].tx)
    decreases |run|
  {
    var init := run[..|run| - 1];
    if k == |run| - 1 {
      LastAdmittedWaits(c, run);
    } else {
      assert init[..k] == run[..k] && init[k] == run[k];
      PrefixHypotheses(c, run, |run| - 1);
      AdmittedIsRetained(c, init, k);
      LastStepRetains(c, run, run[k].tx);
    }
  }

  /** tx is in exactly one place: pending and in no block, or in one block and not pending. */
  ghost predicate InOnePlace(c: Crypto, s: State, tx: Tx) {
    if Waiting(c, s, tx) then forall r :: !StoredAt(s, tx, r)
    else exists r :: StoredAt(s, tx, r) && forall q | StoredAt(s, tx, q) :: q == r
  }

  lemma OnePlace(s: State, tx: Tx, r: TxRef, p: Site)
    requires UniqueSpender(s) && !tx.AllNull() && StoredAt(s, tx, r)
    requires HasTx(s, p) && SiteTx(s, p).Signed() == tx.Signed() && p.j == (if tx.in0.IsNull() then 1 else 0)
    ensures p.InBlock? && p.ref == r
  {
    var q := InBlock(r, p.j);
    assert s.txs[r].Core() == tx.Core() && SiteTx(s, p).Core() == tx.Core();
    assert HasSite(s, p) && HasSite(s, q) && Named(s, p) == Named(s, q);
    assert SameTx(p, q);
  }

  lemma RetainedInOnePlace(c: Crypto, s: State, tx: Tx)
    requires UniqueSpender(s) && !tx.AllNull() && Retained(c, s, tx)
    ensures InOnePlace(c, s, tx)
  {
    var j := if tx.in0.IsNull() then 1 else 0;
    forall r, q | StoredAt(s, tx, r) && StoredAt(s, tx, q) ensures q == r {
      OnePlace(s, tx, r, InBlock(q, j));
    }
    forall r | StoredAt(s, tx, r) ensures !Waiting(c, s, tx) {
      if Waiting(c, s, tx) { OnePlace(s, tx, r, InPool(PoolKey(c, tx), j)); }
    }
  }

  /** Without hash collisions nothing admitted is lost or duplicated: at every later moment it waits
      in the mempool as posted, or stands with its signed content in exactly one block. */
  lemma AdmittedInOnePlace(c: Crypto, run: seq<Event>, k: nat)
    requires InRange(run) && CollisionFree(c, run) && AdmittedAt(c, run, k)
    ensures InOnePlace(c, Exec(c, run), run[k].tx)
  {
    AdmittedIsRetained(c, run, k);
    AddTxAllOrNothing(c, Exec(c, run[..k]), run[k].tx);
    RunInv(c, run);
    RetainedInOnePlace(c, Exec(c, run), run[k].tx);
  }
}
