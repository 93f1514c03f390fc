/** Runs that reach the cases in which a block is not read back in storage order, and in which a post
    leaves the two chains out of step. */
module Witnesses {
  import opened Wrappers
  import opened Text
  import opened Positions
  import opened Types
  import opened Ledger
  import opened Invariants
  import opened Sealing
  import opened Conservation
  import opened Lifecycle
  import opened Runs
  import opened Blocks
  import opened Wallet
  import opened Bridge

  // ---------- m deposits, m transfers, one block ----------

  /** The output of the i-th deposit, counted from 0. */
  function DepositOut(i: nat): OutRef {
    OutRef(TxRef(i + 1, 0), 0)
  }

  function Coin(c: Crypto, a: Account): TxOut {
    NewTxOut(c.address(a), 1)
  }

  /** a sends the i-th deposited coin to itself. */
  function SelfTransfer(c: Crypto, a: Account, i: nat): Tx {
    Transfer(c, DepositOut(i), Coin(c, a), c.address(a), 1, a)
  }

  function Coins(c: Crypto, a: Account, m: nat): seq<Event> {
    seq(m, (i: nat) => Deposit(c.address(a), 1, a))
  }

  function Transfers(c: Crypto, a: Account, j: nat): seq<Event> {
    seq(j, (i: nat) => Post(SelfTransfer(c, a, i)))
  }

  /** m coins have been deposited, and those from the j-th on are unspent. */
  ghost predicate Holds(c: Crypto, a: Account, m: nat, j: nat, s: State) {
    && s.cur == m + 1 && |s.mempool| == j
    && forall i: nat | j <= i < m :: IsOut(s, DepositOut(i)) && OutAt(s, DepositOut(i)) == Coin(c, a)
  }

  lemma CoinAdded(c: Crypto, a: Account, m: nat, s: State)
    requires Inv(c, s) && s.cur + 1 < TWO64 && m > 0 && Holds(c, a, m - 1, 0, s)
    ensures Holds(c, a, m, 0, Step(c, s, Deposit(c.address(a), 1, a)))
  {
    DepositKeeps(c, s, c.address(a), 1, a);
    var t := AddDepositBlock(c, s, c.address(a), 1, a).state;
    assert Apply(c, s, Deposit(c.address(a), 1, a)).state == t;
    assert t.txs[TxRef(s.cur, 0)] == [DepositTx(c.address(a), 1)][0];
    forall i: nat | i < m ensures IsOut(t, DepositOut(i)) && OutAt(t, DepositOut(i)) == Coin(c, a) {
      if i < m - 1 { assert IsOut(s, DepositOut(i)); }
    }
  }

  lemma CoinsNext(c: Crypto, a: Account, m: nat)
    requires m > 0
    ensures Coins(c, a, m) == Coins(c, a, m - 1) + [Deposit(c.address(a), 1, a)]
    ensures Exec(c, Coins(c, a, m)) == Step(c, Exec(c, Coins(c, a, m - 1)), Deposit(c.address(a), 1, a))
  {
    assert Coins(c, a, m) == Coins(c, a, m - 1) + [Deposit(c.address(a), 1, a)];
    ExecAppend(c, Coins(c, a, m - 1), Deposit(c.address(a), 1, a));
  }

  lemma {:induction false} CoinsHeld(c: Crypto, a: Account, m: nat)
    requires m + 1 < TWO64
    ensures Holds(c, a, m, 0, Exec(c, Coins(c, a, m)))
  {
    if m > 0 {
      var s := Exec(c, Coins(c, a, m - 1));
      CoinsHeld(c, a, m - 1);
      RunInv(c, Coins(c, a, m - 1));
      CoinAdded(c, a, m, s);
      CoinsNext(c, a, m);
    }
  }

  lemma CoinMoved(c: Crypto, a: Account, m: nat, j: nat, s: State, t: State)
    requires Holds(c, a, m, j, s) && j < m && |t.mempool| == j + 1
    requires SpentBy(s.(mempool := t.mempool), SelfTransfer(c, a, j), t)
    ensures Holds(c, a, m, j + 1, t)
  {
    forall i: nat | j + 1 <= i < m ensures IsOut(t, DepositOut(i)) && OutAt(t, DepositOut(i)) == Coin(c, a) {
      assert IsOut(s, DepositOut(i));
      assert !Names(SelfTransfer(c, a, j), DepositOut(i));
    }
  }

  lemma TransferStep(c: Crypto, a: Account, m: nat, j: nat, run: seq<Event>)
    requires Honest(c) && InRange(run) && CollisionFree(c, run + [Post(SelfTransfer(c, a, j))])
    requires Holds(c, a, m, j, Exec(c, run)) && j < m <= MEMPOOL_SIZE
    ensures Holds(c, a, m, j + 1, Exec(c, run + [Post(SelfTransfer(c, a, j))]))
  {
    var s, tx := Exec(c, run), SelfTransfer(c, a, j);
    RunInv(c, run);
    assert IsOut(s, DepositOut(j)) && OutAt(s, DepositOut(j)) == Coin(c, a);
    TransferAccepted(c, s, DepositOut(j), c.address(a), 1, a);
    AcceptedMoves(c, a, m, j, run);
    ExecAppend(c, run, Post(tx));
    assert Apply(c, s, Post(tx)) == AddTx(c, s, tx);
  }

  lemma AcceptedMoves(c: Crypto, a: Account, m: nat, j: nat, run: seq<Event>)
    requires InRange(run) && CollisionFree(c, run + [Post(SelfTransfer(c, a, j))])
    requires Holds(c, a, m, j, Exec(c, run)) && j < m
    requires AddTx(c, Exec(c, run), SelfTransfer(c, a, j)).status == Done
    ensures Holds(c, a, m, j + 1, AddTx(c, Exec(c, run), SelfTransfer(c, a, j)).state)
  {
    var s, tx := Exec(c, run), SelfTransfer(c, a, j);
    NoOverwrite(c, run, tx);
    AddTxAllOrNothing(c, s, tx);
    CoinMoved(c, a, m, j, s, AddTx(c, s, tx).state);
  }

  /** m deposits and the first j transfers. */
  function Filling(c: Crypto, a: Account, m: nat, j: nat): seq<Event> {
    Coins(c, a, m) + Transfers(c, a, j)
  }

  lemma FillingNext(c: Crypto, a: Account, m: nat, j: nat)
    ensures Filling(c, a, m, j + 1) == Filling(c, a, m, j) + [Post(SelfTransfer(c, a, j))]
  {
    assert Transfers(c, a, j + 1) == Transfers(c, a, j) + [Post(SelfTransfer(c, a, j))];
  }

  lemma {:induction false} TransfersHeld(c: Crypto, a: Account, m: nat, j: nat)
    requires Honest(c) && j <= m <= MEMPOOL_SIZE && CollisionFree(c, Filling(c, a, m, j))
    ensures Holds(c, a, m, j, Exec(c, Filling(c, a, m, j)))
  {
    if j == 0 {
      assert Filling(c, a, m, 0) == Coins(c, a, m);
      CoinsHeld(c, a, m);
    } else {
      var run := Filling(c, a, m, j - 1);
      FillingNext(c, a, m, j - 1);
      PrefixHypotheses(c, Filling(c, a, m, j), |run|);
      assert Filling(c, a, m, j)[..|run|] == run;
      TransfersHeld(c, a, m, j - 1);
      TransferStep(c, a, m, j - 1, run);
    }
  }

  /** Deposit m coins, transfer each, and fix the block. */
  function BlockRun(c: Crypto, a: Account, m: nat): seq<Event> {
    Filling(c, a, m, m) + [Fix(a)]
  }

  lemma SizeIs(s: State, n: nat, k: nat)
    requires Shape(s) && HasSize(s, n, k)
    ensures Size(s, n) == k
  {
    SizeCounts(s, n);
    assert TxRef(n, k) !in s.txs && TxRef(n, Size(s, n)) !in s.txs;
  }

  lemma FixSize(c: Crypto, s: State, signer: Account)
    requires Inv(c, s) && s.cur + 1 < TWO64 && |s.mempool| > 0
    ensures HasSize(Step(c, s, Fix(signer)), s.cur, |s.mempool|) && Step(c, s, Fix(signer)).cur == s.cur + 1
  {
    assert Apply(c, s, Fix(signer)) == AddBlock(c, s, signer);
    FixedShape(c, s, signer);
    FixedStoresPool(c, s, signer, AddBlock(c, s, signer).state);
  }

  /** Blocks of every size up to the capacity of the mempool are reached. */
  lemma BlocksOfEverySize(c: Crypto, a: Account, m: nat)
    requires Honest(c) && 0 < m <= MEMPOOL_SIZE && CollisionFree(c, Filling(c, a, m, m))
    ensures InRange(BlockRun(c, a, m)) && Exec(c, BlockRun(c, a, m)).cur == m + 2
    ensures Size(Exec(c, BlockRun(c, a, m)), m + 1) == m
  {
    var run := Filling(c, a, m, m);
    TransfersHeld(c, a, m, m);
    RunInv(c, run);
    FixSize(c, Exec(c, run), a);
    ExecAppend(c, run, Fix(a));
    RunInv(c, BlockRun(c, a, m));
    SizeIs(Exec(c, BlockRun(c, a, m)), m + 1, m);
  }

  /** Eleven transfers make a block some of whose proof requests are about another transaction. */
  lemma WrongProofReached(c: Crypto, a: Account) returns (i: nat)
    requires Honest(c) && CollisionFree(c, Filling(c, a, 11, 11))
    ensures i < 11 && Size(Exec(c, BlockRun(c, a, 11)), 12) == 11
    ensures !ProofRight(Exec(c, BlockRun(c, a, 11)), 12, i)
  {
    BlocksOfEverySize(c, a, 11);
    ProofRequestsRightIff(c, BlockRun(c, a, 11), 12);
    i :| i < 11 && !ProofRight(Exec(c, BlockRun(c, a, 11)), 12, i);
  }

  // ---------- a late commitment ----------

  /** One coin, deposited at the contract, delivered, and transferred at the child. */
  function BridgeRun(c: Crypto, op: Account): seq<Move> {
    [UserDeposit(Request(c.address(op), 1)), HandleDeposit, Client(Post(SelfTransfer(c, op, 0)))]
  }

  lemma OneTransfer(c: Crypto, op: Account)
    requires Honest(c)
    ensures Holds(c, op, 1, 1, Exec(c, Filling(c, op, 1, 1)))
    ensures Exec(c, Filling(c, op, 1, 1))
         == Step(c, Step(c, GENESIS, Deposit(c.address(op), 1, op)), Post(SelfTransfer(c, op, 0)))
  {
    var d, p := Deposit(c.address(op), 1, op), Post(SelfTransfer(c, op, 0));
    assert Filling(c, op, 1, 1) == [d, p];
    RunOfTwo(c, d, p);
    TransfersHeld(c, op, 1, 1);
  }

  lemma BridgeRunChild(c: Crypto, op: Account)
    ensures PlayAll(c, op, BridgeRun(c, op)).child
         == Step(c, Step(c, GENESIS, Deposit(c.address(op), 1, op)), Post(SelfTransfer(c, op, 0)))
    ensures PlayAll(c, op, BridgeRun(c, op)).root.next == 2
  {
    var moves := BridgeRun(c, op);
    assert moves[..3] == moves && moves[..2][..1] == moves[..1] && moves[..1][..0] == [];
    var w1 := RootDeposit(START, Request(c.address(op), 1));
    assert PlayAll(c, op, moves[..1]) == w1;
    assert moves[..2][1] == HandleDeposit;
    assert PlayAll(c, op, moves[..2]) == Deliver(c, op, w1);
    assert Apply(c, GENESIS, Deposit(c.address(op), 1, op)) == AddDepositBlock(c, GENESIS, c.address(op), 1, op);
  }

  lemma OnePosts(c: Crypto, s: State)
    requires s.cur == 2 && |s.mempool| == 1 && forall l: Leaf :: c.merkleRoot([l]).Some?
    ensures Posts(c, s, 2)
  {
    var txs := ByNumeral(PoolTxs(s));
    assert Leaves(txs) == [txs[0].Signed()];
    WrapOfSmall(2);
  }

  lemma BridgeRunPosts(c: Crypto, op: Account)
    requires Honest(c) && forall l: Leaf :: c.merkleRoot([l]).Some?
    ensures Posts(c, PlayAll(c, op, BridgeRun(c, op)).child, PlayAll(c, op, BridgeRun(c, op)).root.next)
  {
    OneTransfer(c, op);
    BridgeRunChild(c, op);
    OnePosts(c, PlayAll(c, op, BridgeRun(c, op)).child);
  }

  /** A reachable synchronised pair of chains on which a deposit in the middle of a post, or a failed
      commit after it, leaves them out of step. */
  lemma DesynchronisationReached(c: Crypto, op: Account, d: Request)
    requires Honest(c) && forall l: Leaf :: c.merkleRoot([l]).Some?
    ensures var w := PlayAll(c, op, BridgeRun(c, op));
      && Good(c, w) && Posts(c, w.child, w.root.next)
      && Good(c, PostBlock(c, op, w, [], Smooth))
      && !Good(c, PostBlock(c, op, w, [d], Smooth))
      && !Good(c, PostBlock(c, op, w, [], CommitFails))
  {
    var w := PlayAll(c, op, BridgeRun(c, op));
    BridgeRunPosts(c, op);
    ChainsStaySynchronised(c, op, BridgeRun(c, op));
    PostKeepsIff(c, op, w, [], Smooth);
    PostKeepsIff(c, op, w, [d], Smooth);
    PostKeepsIff(c, op, w, [], CommitFails);
  }
}
