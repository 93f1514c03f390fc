/** Block signatures: what the operator signed when a block was added, and when a block read back
    still verifies against it. */
module Signatures {
  import opened Wrappers
  import opened Text
  import opened Types
  import opened Ledger
  import opened Invariants
  import opened Sealing
  import opened Blocks

  /** The header of block n is the operator's, over the first k transactions of n in storage order. */
  ghost predicate HeaderSigned(c: Crypto, s: State, op: Account, n: nat, k: nat)
    requires HasSize(s, n, k)
  {
    n in s.headers && s.headers[n] == SignedHeader(c, n, StoredTxs(s, n, k), op)
  }

  ghost predicate HeadersSigned(c: Crypto, s: State, op: Account) {
    forall n, k | 1 <= n < s.cur && HasSize(s, n, k) :: HeaderSigned(c, s, op, n, k)
  }

  lemma ExtendsKeepsSize(s: State, t: State, n: nat, k: nat)
    requires Extends(s, t) && n < s.cur
    ensures HasSize(s, n, k) <==> HasSize(t, n, k)
  {
    assert forall i: nat :: TxRef(n, i) in s.txs <==> TxRef(n, i) in t.txs;
  }

  lemma ExtendsKeepsHeader(c: Crypto, s: State, t: State, op: Account, n: nat, k: nat)
    requires Extends(s, t) && 1 <= n < s.cur && HasSize(t, n, k) && HeadersSigned(c, s, op)
    ensures HeaderSigned(c, t, op, n, k)
  {
    ExtendsKeepsSize(s, t, n, k);
    assert HeaderSigned(c, s, op, n, k);
    forall i | 0 <= i < k ensures Leaves(StoredTxs(s, n, k))[i] == Leaves(StoredTxs(t, n, k))[i] {
      assert Grows(s.txs[TxRef(n, i)], t.txs[TxRef(n, i)]);
    }
    assert Leaves(StoredTxs(s, n, k)) == Leaves(StoredTxs(t, n, k));
  }

  lemma SameCurKeepsHeaders(c: Crypto, s: State, t: State, op: Account)
    requires Extends(s, t) && t.cur == s.cur && HeadersSigned(c, s, op)
    ensures HeadersSigned(c, t, op)
  {
    forall n, k | 1 <= n < t.cur && HasSize(t, n, k) ensures HeaderSigned(c, t, op, n, k) {
      ExtendsKeepsHeader(c, s, t, op, n, k);
    }
  }

  lemma SealedHeader(c: Crypto, s: State, txs: seq<Tx>, op: Account, t: State, k: nat)
    requires Sealed(c, s, txs, op, t) && OldBlocks(s) && HasSize(t, s.cur, k)
    ensures HeaderSigned(c, t, op, s.cur, k)
  {
    assert TxRef(s.cur, |txs|) !in t.txs;
    assert TxRef(s.cur, k) !in t.txs;
    assert StoredTxs(t, s.cur, k) == txs;
  }

  lemma SealedKeepsHeaders(c: Crypto, s: State, s0: State, txs: seq<Tx>, op: Account, t: State)
    requires Extends(s, t) && HeadersSigned(c, s, op)
    requires Sealed(c, s0, txs, op, t) && OldBlocks(s0) && s0.cur == s.cur
    ensures HeadersSigned(c, t, op)
  {
    forall n, k | 1 <= n < t.cur && HasSize(t, n, k) ensures HeaderSigned(c, t, op, n, k) {
      if n < s.cur { ExtendsKeepsHeader(c, s, t, op, n, k); } else { SealedHeader(c, s0, txs, op, t, k); }
    }
  }

  lemma DepositKeepsHeaders(c: Crypto, s: State, owner: Address, amount: nat, op: Account)
    requires Inv(c, s) && s.cur + 1 < TWO64 && HeadersSigned(c, s, op)
    ensures HeadersSigned(c, AddDepositBlock(c, s, owner, amount, op).state, op)
  {
    DepositKeeps(c, s, owner, amount, op);
    SealedKeepsHeaders(c, s, s, [DepositTx(owner, amount)], op, AddDepositBlock(c, s, owner, amount, op).state);
  }

  lemma FixKeepsHeaders(c: Crypto, s: State, op: Account)
    requires Inv(c, s) && s.cur + 1 < TWO64 && HeadersSigned(c, s, op)
    ensures HeadersSigned(c, AddBlock(c, s, op).state, op)
  {
    if |s.mempool| == 0 {
      EmptyFixFails(c, s, op);
    } else {
      FixKeeps(c, s, op);
      FixDone(c, s, op);
      SealedKeepsHeaders(c, s, s.(mempool := map[]), PoolTxs(s), op, AddBlock(c, s, op).state);
    }
  }

  lemma TxStepKeepsHeaders(c: Crypto, s: State, e: Event, op: Account)
    requires Inv(c, s) && HeadersSigned(c, s, op) && (e.Post? || e.Confirm? || e.Exit?)
    ensures HeadersSigned(c, Step(c, s, e), op)
  {
    TxStepKeeps(c, s, e);
    TxStepSameCur(c, s, e);
    SameCurKeepsHeaders(c, s, Step(c, s, e), op);
  }

  /** All blocks of the run are signed by the operator. */
  ghost predicate SignedBy(run: seq<Event>, op: Account) {
    forall i | 0 <= i < |run| ::
      (run[i].Deposit? ==> run[i].signer == op) && (run[i].Fix? ==> run[i].signer == op)
  }

  lemma {:induction false} RunHeadersSigned(c: Crypto, run: seq<Event>, op: Account)
    requires InRange(run) && SignedBy(run, op)
    ensures HeadersSigned(c, Exec(c, run), op)
  {
    if run != [] {
      var init, e := run[..|run| - 1], run[|run| - 1];
      RunHeadersSigned(c, init, op);
      RunInv(c, init);
      var s := Exec(c, init);
      if e.Deposit? {
        assert Exec(c, run) == AddDepositBlock(c, s, e.owner, e.amount, op).state;
        DepositKeepsHeaders(c, s, e.owner, e.amount, op);
      } else if e.Fix? {
        assert Exec(c, run) == AddBlock(c, s, op).state;
        FixKeepsHeaders(c, s, op);
      } else {
        TxStepKeepsHeaders(c, s, e, op);
      }
    }
  }

  /** What the operator signed when block n was added: its number and its leaves in storage order. */
  ghost function SignedHash(c: Crypto, s: State, n: nat): Hash
    requires HasSize(s, n, Size(s, n))
  {
    c.blockHash(n, Leaves(StoredTxs(s, n, Size(s, n))))
  }

  /** Block n as read back carries the operator's signature over its leaves in storage order. */
  ghost predicate SignatureStands(c: Crypto, s: State, op: Account, n: nat) {
    && HasSize(s, n, Size(s, n)) && GetBlock(s, n).Ok?
    && GetBlock(s, n).value.header == Header(n, c.sign(op, SignedHash(c, s, n)))
  }

  lemma SignatureOf(c: Crypto, s: State, op: Account, n: nat)
    requires Shape(s) && HeadersSigned(c, s, op) && 1 <= n < s.cur
    ensures SignatureStands(c, s, op, n)
  {
    SizeCounts(s, n);
    BlockFound(s, n);
    assert HeaderSigned(c, s, op, n, Size(s, n));
  }

  /** In every reachable state, for every block. */
  lemma BlockSignatures(c: Crypto, run: seq<Event>, op: Account, n: nat)
    requires InRange(run) && SignedBy(run, op) && 1 <= n < Exec(c, run).cur
    ensures SignatureStands(c, Exec(c, run), op, n)
  {
    RunInv(c, run);
    RunHeadersSigned(c, run, op);
    SignatureOf(c, Exec(c, run), op, n);
  }

  /** The signature of block b recovers, over the hash of b as read back, to the operator. */
  predicate Verifies(c: Crypto, op: Account, b: Block) {
    c.recover(c.blockHash(b.header.number, Leaves(b.txs)), b.header.signature) == Some(c.address(op))
  }

  /** A signature of op recovers to op over no other hash than the one that was signed. */
  ghost predicate Binding(c: Crypto, op: Account) {
    forall g: Hash, h: Hash :: c.recover(g, c.sign(op, h)) == Some(c.address(op)) ==> g == h
  }

  /** Storage order and read-back order of block n do not collide under the block hash. */
  ghost predicate OrdersDoNotCollide(c: Crypto, s: State, n: nat)
    requires HasSize(s, n, Size(s, n))
  {
    c.blockHash(n, ScanLeaves(s, n)) == SignedHash(c, s, n) ==>
      ScanLeaves(s, n) == Leaves(StoredTxs(s, n, Size(s, n)))
  }

  lemma VerifiesIff(c: Crypto, s: State, op: Account, n: nat)
    requires Honest(c) && Inv(c, s) && 1 <= n < s.cur && SignatureStands(c, s, op, n)
    ensures Size(s, n) <= 10 ==> Verifies(c, op, GetBlock(s, n).value)
    ensures Binding(c, op) && OrdersDoNotCollide(c, s, n) ==>
      (Verifies(c, op, GetBlock(s, n).value) <==> Size(s, n) <= 10)
  {
    LeafOrderIff(c, s, n);
    BlockFound(s, n);
    assert Leaves(GetBlock(s, n).value.txs) == ScanLeaves(s, n);
  }

  /** In every reachable state the signature of a block of at most ten transactions verifies against
      the block as read back; unless hashes collide, that of a larger block never does. */
  lemma BlockVerifiesIff(c: Crypto, run: seq<Event>, op: Account, n: nat)
    requires Honest(c) && InRange(run) && SignedBy(run, op) && 1 <= n < Exec(c, run).cur
    ensures var s := Exec(c, run);
      && HasSize(s, n, Size(s, n)) && GetBlock(s, n).Ok?
      && (Size(s, n) <= 10 ==> Verifies(c, op, GetBlock(s, n).value))
      && (Binding(c, op) && OrdersDoNotCollide(c, s, n) ==>
            (Verifies(c, op, GetBlock(s, n).value) <==> Size(s, n) <= 10))
  {
    RunInv(c, run);
    BlockSignatures(c, run, op, n);
    VerifiesIff(c, Exec(c, run), op, n);
  }
}
