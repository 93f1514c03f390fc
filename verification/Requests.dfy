/** What the requests of clients are answered in reachable states, in terms of the stored fields, and
    what a stored transaction keeps. */
module Requests {
  import opened Wrappers
  import opened Text
  import opened Positions
  import opened Types
  import opened Ledger
  import opened Invariants
  import opened Sealing
  import opened Tokens
  import opened Blocks
  import opened Updates

  // ---------- deposits ----------

  ghost predicate Untouched(tx: Tx) {
    && tx.in0.confSig == 0 && tx.in1.confSig == 0
    && !tx.out0.isSpent && !tx.out0.isExited && !tx.out1.isSpent && !tx.out1.isExited
  }

  /** Block n holds one transaction, the deposit of amount to owner. */
  ghost predicate DepositBlock(s: State, n: nat, owner: Address, amount: nat) {
    HasSize(s, n, 1) && TxRef(n, 0) in s.txs && HoldsDeposit(s.txs[TxRef(n, 0)], owner, amount)
  }

  lemma SealedDeposit(c: Crypto, s: State, owner: Address, amount: nat, signer: Account, t: State)
    requires Sealed(c, s, [DepositTx(owner, amount)], signer, t) && OldBlocks(s)
    ensures DepositBlock(t, s.cur, owner, amount) && Untouched(t.txs[TxRef(s.cur, 0)])
  {
    assert t.txs[TxRef(s.cur, 0)] == [DepositTx(owner, amount)][0];
    forall i: nat ensures TxRef(s.cur, i) in t.txs <==> i < 1 {
      assert TxRef(s.cur, i) !in s.txs;
    }
  }

  /** A deposit always succeeds and adds a block with the deposit alone: no inputs, the amount for the
      owner, an empty second output, and nothing spent, exited or confirmed. */
  lemma DepositAnswers(c: Crypto, run: seq<Event>, owner: Address, amount: nat, signer: Account)
    requires InRange(run + [Deposit(owner, amount, signer)])
    ensures var s, a := Exec(c, run), AddDepositBlock(c, Exec(c, run), owner, amount, signer);
      && a.status == Done && a.state.cur == s.cur + 1
      && DepositBlock(a.state, s.cur, owner, amount) && Untouched(a.state.txs[TxRef(s.cur, 0)])
  {
    RunInv(c, run);
    DepositKeeps(c, Exec(c, run), owner, amount, signer);
    SealedDeposit(c, Exec(c, run), owner, amount, signer,
                  AddDepositBlock(c, Exec(c, run), owner, amount, signer).state);
  }

  lemma StepAt(c: Crypto, run: seq<Event>, k: nat)
    requires k < |run|
    ensures run[..k + 1] == run[..k] + [run[k]]
    ensures Exec(c, run[..k + 1]) == Step(c, Exec(c, run[..k]), run[k])
  {
    assert run[..k + 1] == run[..k] + [run[k]];
    ExecAppend(c, run[..k], run[k]);
  }

  /** ... and the block stays that deposit at every later moment. */
  lemma DepositsStay(c: Crypto, run: seq<Event>, k: nat)
    requires InRange(run) && k < |run| && run[k].Deposit?
    ensures DepositBlock(Exec(c, run), Exec(c, run[..k]).cur, run[k].owner, run[k].amount)
  {
    var s, n := Exec(c, run[..k + 1]), Exec(c, run[..k]).cur;
    StepAt(c, run, k);
    DepositAnswers(c, run[..k], run[k].owner, run[k].amount, run[k].signer);
    RunExtends(c, run, k + 1);
    assert Grows(s.txs[TxRef(n, 0)], Exec(c, run).txs[TxRef(n, 0)]);
  }

  // ---------- what a stored transaction keeps ----------

  /** b has the references, signatures, owners and amounts of a, and every flag of a that is set. */
  ghost predicate SameFields(a: Tx, b: Tx) {
    && b.in0.ref == a.in0.ref && b.in0.sig == a.in0.sig
    && b.in1.ref == a.in1.ref && b.in1.sig == a.in1.sig
    && b.out0.owner == a.out0.owner && b.out0.amount == a.out0.amount
    && b.out1.owner == a.out1.owner && b.out1.amount == a.out1.amount
    && (a.out0.isSpent ==> b.out0.isSpent) && (a.out0.isExited ==> b.out0.isExited)
    && (a.out1.isSpent ==> b.out1.isSpent) && (a.out1.isExited ==> b.out1.isExited)
  }

  lemma StoredFieldsStay(c: Crypto, run: seq<Event>, k: nat, r: TxRef)
    requires InRange(run) && k <= |run| && r in Exec(c, run[..k]).txs
    ensures r in Exec(c, run).txs && SameFields(Exec(c, run[..k]).txs[r], Exec(c, run).txs[r])
  {
    RunExtends(c, run, k);
    assert Grows(Exec(c, run[..k]).txs[r], Exec(c, run).txs[r]);
  }

  // ---------- posts ----------

  /** The output at ref is there, unspent and unexited, and sig recovers to its owner over hash h. */
  ghost predicate Spendable(c: Crypto, s: State, ref: OutRef, h: Hash, sig: Signature) {
    && ref.tx in s.txs && ref.out < 2
    && var o := if ref.out == 0 then s.txs[ref.tx].out0 else s.txs[ref.tx].out1;
       !o.isSpent && !o.isExited && sig != 0 && c.recover(h, sig) == Some(o.owner)
  }

  /** Why an input that is not spendable is refused. */
  ghost predicate InputRefused(s: State, ref: OutRef, e: Error) {
    if ref.tx !in s.txs || ref.out >= 2 then e == InvalidTxIn
    else
      var o := if ref.out == 0 then s.txs[ref.tx].out0 else s.txs[ref.tx].out1;
      if o.isSpent then e == TxOutAlreadySpent
      else if o.isExited then e == TxOutAlreadyExited
      else e == InvalidTxSignature
  }

  ghost function ValueAt(s: State, ref: OutRef): nat
    requires ref.tx in s.txs && ref.out < 2
  {
    if ref.out == 0 then s.txs[ref.tx].out0.amount else s.txs[ref.tx].out1.amount
  }

  lemma InputAnswers(c: Crypto, s: State, tx: Tx, j: nat)
    requires j < 2
    ensures var i := if j == 0 then tx.in0 else tx.in1;
      var core := TxCore(tx.in0.ref, tx.in1.ref,
                         OutCore(tx.out0.owner, tx.out0.amount), OutCore(tx.out1.owner, tx.out1.amount));
      var v := InputVerdict(c, s, tx, j);
      && (v == Done <==> i.ref == OutRef(TxRef(0, 0), 0) || Spendable(c, s, i.ref, c.txHash(core), i.sig))
      && (v.Failed? ==> InputRefused(s, i.ref, v.error))
  {
  }

  /** How a post is answered: refused when the mempool is full, when its first bad input says so, when it
      has no input at all, or when it gives out more than it takes in; and otherwise admitted. */
  ghost predicate PostAnswer(c: Crypto, s: State, tx: Tx, st: Status) {
    var none := OutRef(TxRef(0, 0), 0);
    var core := TxCore(tx.in0.ref, tx.in1.ref,
                       OutCore(tx.out0.owner, tx.out0.amount), OutCore(tx.out1.owner, tx.out1.amount));
    if |s.mempool| >= 99_999 then st == Failed(MempoolFull)
    else if tx.in0.ref != none && !Spendable(c, s, tx.in0.ref, c.txHash(core), tx.in0.sig) then
      st.Failed? && InputRefused(s, tx.in0.ref, st.error)
    else if tx.in1.ref != none && !Spendable(c, s, tx.in1.ref, c.txHash(core), tx.in1.sig) then
      st.Failed? && InputRefused(s, tx.in1.ref, st.error)
    else if tx.in0.ref == none && tx.in1.ref == none then st == Failed(InvalidTxIn)
    else if tx.out0.amount + tx.out1.amount
            > (if tx.in0.ref == none then 0 else ValueAt(s, tx.in0.ref))
              + (if tx.in1.ref == none then 0 else ValueAt(s, tx.in1.ref))
      then st == Failed(InvalidTxBalance)
    else st == Done
  }

  lemma VerdictAnswers(c: Crypto, s: State, tx: Tx)
    requires |s.mempool| < 99_999
    ensures PostAnswer(c, s, tx, Verdict(c, s, tx))
  {
    InputAnswers(c, s, tx, 0);
    InputAnswers(c, s, tx, 1);
  }

  /** Every post is answered so, in every state. */
  lemma PostAnswers(c: Crypto, s: State, tx: Tx)
    ensures PostAnswer(c, s, tx, AddTx(c, s, tx).status)
  {
    AddTxAllOrNothing(c, s, tx);
    if |s.mempool| < 99_999 {
      VerdictAnswers(c, s, tx);
      if Verdict(c, s, tx) == Done { SpendLoopComplete(c, s, tx); }
    }
  }

  // ---------- confirmations and exits ----------

  /** How a confirmation is answered in reachable states. */
  ghost predicate ConfirmAnswer(c: Crypto, s: State, pos: U64, confSig: Signature, st: Status) {
    if pos < 10_000 then st == Failed(DivideByZero)
    else
      var r := TxRef(pos / 1_000_000_000, pos / 10_000 % 100_000);
      if r !in s.txs then st == Failed(TxNotFound)
      else if pos % 10_000 >= 2 then st == Failed(TxInNotFound)
      else
        var ref := if pos % 10_000 == 0 then s.txs[r].in0.ref else s.txs[r].in1.ref;
        if ref == OutRef(TxRef(0, 0), 0) then st == Failed(NullTxInConfirmation)
        else if Confirmable(c, s, r, pos % 10_000, confSig) then st == Done
        else st == Failed(InvalidTxConfirmationSignature)
  }

  /** At the positions of stored transactions, the element index is the position modulo 10000. */
  lemma StoredElement(s: State, pos: U64)
    requires Shape(s) && pos >= 10_000 && TxRef(pos / 1_000_000_000, pos / 10_000 % 100_000) in s.txs
    ensures pos % 10_000 % (pos / 10_000) == pos % 10_000
  {
    assert 1 <= TxRef(pos / 1_000_000_000, pos / 10_000 % 100_000).blk;
    RemainderIsIdentity(pos % 10_000, pos / 10_000);
  }

  lemma ConfirmAtAnswers(c: Crypto, s: State, r: TxRef, j: nat, confSig: Signature)
    requires SitesOk(c, s) && r in s.txs && j < 2
    ensures var st := ConfirmAt(c, s, r, j, confSig).status;
      if (if j == 0 then s.txs[r].in0.ref else s.txs[r].in1.ref) == OutRef(TxRef(0, 0), 0)
      then st == Failed(NullTxInConfirmation)
      else if Confirmable(c, s, r, j, confSig) then st == Done
      else st == Failed(InvalidTxConfirmationSignature)
  {
    ConfirmAtWrites(c, s, r, j, confSig);
    assert HasSite(s, InBlock(r, j)) ==> SiteOk(c, s, InBlock(r, j));
  }

  lemma ConfirmStateAnswers(c: Crypto, s: State, pos: U64, confSig: Signature)
    requires Shape(s) && SitesOk(c, s)
    ensures ConfirmAnswer(c, s, pos, confSig, ConfirmTx(c, s, pos, confSig).status)
  {
    if pos >= 10_000 {
      ParsedDigits(pos);
      var r := TxRef(pos / 1_000_000_000, pos / 10_000 % 100_000);
      if r in s.txs {
        StoredElement(s, pos);
        if pos % 10_000 < 2 { ConfirmAtAnswers(c, s, r, pos % 10_000, confSig); }
      }
    }
  }

  lemma ConfirmAnswers(c: Crypto, run: seq<Event>, pos: U64, confSig: Signature)
    requires InRange(run)
    ensures ConfirmAnswer(c, Exec(c, run), pos, confSig, ConfirmTx(c, Exec(c, run), pos, confSig).status)
  {
    RunInv(c, run);
    ConfirmStateAnswers(c, Exec(c, run), pos, confSig);
  }

  /** How an exit is answered in reachable states. */
  ghost predicate ExitAnswer(s: State, pos: U64, st: Status) {
    if pos < 10_000 then st == Failed(DivideByZero)
    else if TxRef(pos / 1_000_000_000, pos / 10_000 % 100_000) !in s.txs then st == Failed(TxNotFound)
    else if pos % 10_000 >= 2 then st == Failed(TxOutNotFound)
    else st == Done
  }

  lemma ExitAnswers(c: Crypto, run: seq<Event>, pos: U64)
    requires InRange(run)
    ensures ExitAnswer(Exec(c, run), pos, ExitTxOut(Exec(c, run), pos).status)
  {
    RunInv(c, run);
    ExitStateAnswers(Exec(c, run), pos);
  }

  lemma ExitStateAnswers(s: State, pos: U64)
    requires Shape(s)
    ensures ExitAnswer(s, pos, ExitTxOut(s, pos).status)
  {
    if pos >= 10_000 {
      ParsedDigits(pos);
      if TxRef(pos / 1_000_000_000, pos / 10_000 % 100_000) in s.txs { StoredElement(s, pos); }
    }
  }

  // ---------- proofs ----------

  /** How a proof request is answered: for stored transactions with the leaves of their block as read
      back, and their own index; for all others with an error. */
  ghost predicate ProofAnswer(s: State, txPos: nat, a: Result<ProofRequest, Error>) {
    var n, i := txPos / 100_000, txPos % 100_000;
    if TxRef(n, i) !in s.txs then a == Err(TxNotFound)
    else GetBlock(s, n).Ok? && a == Ok(ProofRequest(Leaves(GetBlock(s, n).value.txs), i))
  }

  lemma ProofStateAnswers(s: State, txPos: nat)
    requires Shape(s)
    ensures ProofAnswer(s, txPos, GetTxProof(s, txPos))
  {
    var r := TxRef(txPos / 100_000, txPos % 100_000);
    if r in s.txs {
      assert 1 <= r.blk < s.cur;
      BlockFound(s, r.blk);
    }
  }

  lemma ProofAnswers(c: Crypto, run: seq<Event>, txPos: nat)
    requires InRange(run)
    ensures ProofAnswer(Exec(c, run), txPos, GetTxProof(Exec(c, run), txPos))
  {
    RunInv(c, run);
    ProofStateAnswers(Exec(c, run), txPos);
  }
}
