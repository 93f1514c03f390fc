/** What the two-chain protocol keeps without discipline, and what a disturbed post leaves behind for
    good: a late commitment a block that never matches, a failed database commit a gap in the numbers. */
module Drift {
  import opened Wrappers
  import opened Text
  import opened Positions
  import opened Types
  import opened Ledger
  import opened Invariants
  import opened Sealing
  import opened Blocks
  import opened Bridge

  // ---------- numbers ----------

  /** The contract is d blocks ahead of the child and its pending events. */
  ghost predicate Gap(c: Crypto, w: World, d: nat) {
    Inv(c, w.child) && w.root.next == w.child.cur + |w.queue| + d
  }

  lemma DeliverKeepsGap(c: Crypto, op: Account, w: World, d: nat)
    requires Gap(c, w, d) && w.root.next < TWO64
    ensures Gap(c, Deliver(c, op, w), d)
  {
    if w.queue != [] { DepositKeeps(c, w.child, w.queue[0].owner, w.queue[0].amount, op); }
  }

  lemma ClientKeepsGap(c: Crypto, w: World, e: Event, d: nat)
    requires Gap(c, w, d) && (e.Post? || e.Confirm? || e.Exit?)
    ensures Gap(c, w.(child := Step(c, w.child, e)), d)
  {
    TxStepKeeps(c, w.child, e);
    TxStepSameCur(c, w.child, e);
  }

  /** Ahead of the child, the contract's number fails the guard. */
  lemma GapBlocksPosts(c: Crypto, op: Account, w: World, d: nat)
    requires Gap(c, w, d) && d > 0 && w.root.next < TWO64
    ensures !Posts(c, w.child, w.root.next) && Prepare(c, op, w.child, w.root.next).None?
  {
    WrapOfSmall(w.root.next);
  }

  lemma SettleKeepsGap(c: Crypto, w: World, between: seq<Request>, t: State, h: Hash, fate: Fate)
    requires Gap(c, w, 0) && w.queue == [] && Inv(c, t) && t.cur == w.child.cur + 1 && !fate.CommitFails?
    ensures Gap(c, Settle(RootDeposits(w, between), Some((t, h)), fate), 0)
  {
    RootDepositsCount(w, between);
  }

  lemma PreparedAtGap(c: Crypto, op: Account, w: World, t: State, h: Hash)
    requires Gap(c, w, 0) && w.root.next + 1 < TWO64 && Prepare(c, op, w.child, w.root.next) == Some((t, h))
    ensures w.queue == [] && Inv(c, t) && t.cur == w.child.cur + 1
  {
    Prepared(c, op, w.child, w.root.next);
    GuardMeansNoPending(w);
  }

  lemma PostKeepsGap(c: Crypto, op: Account, w: World, between: seq<Request>, fate: Fate, d: nat)
    requires Gap(c, w, d) && w.root.next + 1 < TWO64 && (fate.CommitFails? ==> d > 0)
    ensures Gap(c, PostBlock(c, op, w, between, fate), d)
  {
    RootDepositsCount(w, between);
    if d > 0 {
      GapBlocksPosts(c, op, w, d);
    } else if Prepare(c, op, w.child, w.root.next).Some? {
      var (t, h) := Prepare(c, op, w.child, w.root.next).value;
      PreparedAtGap(c, op, w, t, h);
      SettleKeepsGap(c, w, between, t, h, fate);
    }
  }

  lemma MoveKeepsGap(c: Crypto, op: Account, w: World, m: Move, d: nat)
    requires Gap(c, w, d) && w.root.next + 1 < TWO64 && ByClient(m)
    requires m.PostBlocks? && m.fate.CommitFails? ==> d > 0
    ensures Gap(c, Play(c, op, w, m), d)
  {
    match m
    case UserDeposit(_) =>
    case HandleDeposit => DeliverKeepsGap(c, op, w, d);
    case PostBlocks(between, fate) => PostKeepsGap(c, op, w, between, fate, d);
    case Client(e) => ClientKeepsGap(c, w, e, d);
  }

  lemma NumbersGrow(c: Crypto, op: Account, w: World, m: Move)
    ensures Play(c, op, w, m).root.next >= w.root.next
  {
    if m.PostBlocks? { RootDepositsCount(w, m.between); }
  }

  /** Nothing is deposited at the child directly. */
  ghost predicate FromClients(moves: seq<Move>) {
    forall i | 0 <= i < |moves| :: ByClient(moves[i])
  }

  ghost predicate NoCommitFails(moves: seq<Move>) {
    forall i | 0 <= i < |moves| && moves[i].PostBlocks? :: !moves[i].fate.CommitFails?
  }

  lemma PlayAppend(c: Crypto, op: Account, moves: seq<Move>, m: Move)
    ensures PlayAll(c, op, moves + [m]) == Play(c, op, PlayAll(c, op, moves), m)
  {
    assert (moves + [m])[..|moves|] == moves;
  }

  lemma PlayLast(c: Crypto, op: Account, moves: seq<Move>, more: seq<Move>)
    requires more != []
    ensures PlayAll(c, op, moves + more)
         == Play(c, op, PlayAll(c, op, moves + more[..|more| - 1]), more[|more| - 1])
  {
    assert moves + more == moves + more[..|more| - 1] + [more[|more| - 1]];
    PlayAppend(c, op, moves + more[..|more| - 1], more[|more| - 1]);
  }

  lemma {:induction false} NumbersGrowAll(c: Crypto, op: Account, moves: seq<Move>, more: seq<Move>)
    ensures PlayAll(c, op, moves + more).root.next >= PlayAll(c, op, moves).root.next
    decreases |more|
  {
    if more == [] {
      assert moves + more == moves;
    } else {
      NumbersGrowAll(c, op, moves, more[..|more| - 1]);
      PlayLast(c, op, moves, more);
      NumbersGrow(c, op, PlayAll(c, op, moves + more[..|more| - 1]), more[|more| - 1]);
    }
  }

  lemma {:induction false} GapPersists(c: Crypto, op: Account, moves: seq<Move>, more: seq<Move>, d: nat)
    requires Gap(c, PlayAll(c, op, moves), d) && FromClients(more) && (d > 0 || NoCommitFails(more))
    requires PlayAll(c, op, moves + more).root.next + 1 < TWO64
    ensures Gap(c, PlayAll(c, op, moves + more), d)
    decreases |more|
  {
    if more == [] {
      assert moves + more == moves;
    } else {
      var init := more[..|more| - 1];
      PlayLast(c, op, moves, more);
      NumbersGrow(c, op, PlayAll(c, op, moves + init), more[|more| - 1]);
      GapPersists(c, op, moves, init, d);
      MoveKeepsGap(c, op, PlayAll(c, op, moves + init), more[|more| - 1], d);
    }
  }

  /** The number equation needs no atomicity: whatever deposits come between check and commitment, and
      whatever fails before the commitment, contract number = child number + pending events. */
  lemma NumbersAgree(c: Crypto, op: Account, moves: seq<Move>)
    requires FromClients(moves) && NoCommitFails(moves) && PlayAll(c, op, moves).root.next + 1 < TWO64
    ensures Gap(c, PlayAll(c, op, moves), 0)
  {
    GenesisInv(c);
    assert [] + moves == moves;
    GapPersists(c, op, [], moves, 0);
  }

  lemma FailedCommitOpensGap(c: Crypto, op: Account, w: World, between: seq<Request>)
    requires Gap(c, w, 0) && Posts(c, w.child, w.root.next) && w.child.cur + 1 < TWO64
    ensures Gap(c, PostBlock(c, op, w, between, CommitFails), 1)
  {
    PreparesIff(c, op, w.child, w.root.next);
    RootDepositsCount(w, between);
  }

  /** Once the database fails to commit after its root has been committed, the contract stays one block
      ahead: the number check refuses every later post. */
  lemma FailedCommitStopsPosts(c: Crypto, op: Account, moves: seq<Move>, between: seq<Request>, more: seq<Move>)
    requires FromClients(moves) && NoCommitFails(moves) && FromClients(more)
    requires Posts(c, PlayAll(c, op, moves).child, PlayAll(c, op, moves).root.next)
    requires PlayAll(c, op, moves + [PostBlocks(between, CommitFails)] + more).root.next + 1 < TWO64
    ensures var w := PlayAll(c, op, moves + [PostBlocks(between, CommitFails)] + more);
      w.root.next == w.child.cur + |w.queue| + 1 && !Posts(c, w.child, w.root.next)
  {
    var failed := moves + [PostBlocks(between, CommitFails)];
    assert failed + more == moves + ([PostBlocks(between, CommitFails)] + more);
    NumbersGrowAll(c, op, moves, [PostBlocks(between, CommitFails)] + more);
    NumbersAgree(c, op, moves);
    PlayAppend(c, op, moves, PostBlocks(between, CommitFails));
    FailedCommitOpensGap(c, op, PlayAll(c, op, moves), between);
    GapPersists(c, op, failed, more, 1);
    GapBlocksPosts(c, op, PlayAll(c, op, failed + more), 1);
  }

  // ---------- contents ----------

  /** Block n is a deposit at the contract and holds a transfer at the child. */
  ghost predicate Mismatch(w: World, n: nat) {
    && 1 <= n < w.child.cur && n < w.root.next
    && n in w.root.blocks && w.root.blocks[n].DepositRoot?
    && TxRef(n, 0) in w.child.txs && !w.child.txs[TxRef(n, 0)].AllNull()
  }

  lemma MismatchUnsynchronised(c: Crypto, w: World, n: nat)
    requires Mismatch(w, n)
    ensures !BlocksMatch(c, w.root.blocks, w.child)
  {
    assert !Matches(c, w.root.blocks[n], w.child, n);
  }

  lemma {:induction false} RootDepositsKeepBlocks(w: World, ds: seq<Request>, n: nat)
    requires n < w.root.next && n in w.root.blocks
    ensures n < RootDeposits(w, ds).root.next && n in RootDeposits(w, ds).root.blocks
    ensures RootDeposits(w, ds).root.blocks[n] == w.root.blocks[n]
  {
    if ds != [] {
      RootDepositsKeepBlocks(w, ds[..|ds| - 1], n);
      RootDepositsCount(w, ds[..|ds| - 1]);
    }
  }

  lemma SettleKeepsBlock(v: World, prepared: Option<(State, Hash)>, fate: Fate, n: nat)
    requires n < v.root.next && n in v.root.blocks
    ensures n < Settle(v, prepared, fate).root.next && n in Settle(v, prepared, fate).root.blocks
    ensures Settle(v, prepared, fate).root.blocks[n] == v.root.blocks[n]
  {
  }

  lemma MoveKeepsRootBlock(c: Crypto, op: Account, w: World, m: Move, n: nat)
    requires n < w.root.next && n in w.root.blocks
    ensures n < Play(c, op, w, m).root.next && n in Play(c, op, w, m).root.blocks
    ensures Play(c, op, w, m).root.blocks[n] == w.root.blocks[n]
  {
    match m
    case PostBlocks(between, fate) =>
      RootDepositsKeepBlocks(w, between, n);
      SettleKeepsBlock(RootDeposits(w, between), Prepare(c, op, w.child, w.root.next), fate, n);
    case _ =>
  }

  ghost predicate ChildGrows(c: Crypto, s: State, t: State) {
    Inv(c, t) && Extends(s, t) && t.cur <= s.cur + 1
  }

  lemma PreparedGrows(c: Crypto, op: Account, s: State, rootNumber: nat)
    requires Inv(c, s) && s.cur + 1 < TWO64 && Prepare(c, op, s, rootNumber).Some?
    ensures ChildGrows(c, s, Prepare(c, op, s, rootNumber).value.0)
  {
    Prepared(c, op, s, rootNumber);
  }

  lemma SettleGrows(c: Crypto, v: World, prepared: Option<(State, Hash)>, fate: Fate)
    requires ChildGrows(c, v.child, v.child)
    requires prepared.Some? ==> ChildGrows(c, v.child, prepared.value.0)
    ensures ChildGrows(c, v.child, Settle(v, prepared, fate).child)
  {
  }

  lemma StayingGrows(c: Crypto, s: State)
    requires Inv(c, s)
    ensures ChildGrows(c, s, s)
  {
    NothingIsQuiet(s);
  }

  lemma PostGrowsChild(c: Crypto, op: Account, w: World, between: seq<Request>, fate: Fate)
    requires Inv(c, w.child) && w.child.cur + 1 < TWO64
    ensures ChildGrows(c, w.child, PostBlock(c, op, w, between, fate).child)
  {
    StayingGrows(c, w.child);
    RootDepositsCount(w, between);
    var prepared := Prepare(c, op, w.child, w.root.next);
    if prepared.Some? { PreparedGrows(c, op, w.child, w.root.next); }
    SettleGrows(c, RootDeposits(w, between), prepared, fate);
  }

  lemma DeliverGrowsChild(c: Crypto, op: Account, w: World)
    requires Inv(c, w.child) && w.child.cur + 1 < TWO64
    ensures ChildGrows(c, w.child, Deliver(c, op, w).child)
  {
    StayingGrows(c, w.child);
    if w.queue != [] { DepositKeeps(c, w.child, w.queue[0].owner, w.queue[0].amount, op); }
  }

  lemma MoveGrowsChild(c: Crypto, op: Account, w: World, m: Move)
    requires Inv(c, w.child) && w.child.cur + 1 < TWO64
    ensures ChildGrows(c, w.child, Play(c, op, w, m).child)
  {
    match m
    case UserDeposit(_) => StayingGrows(c, w.child);
    case HandleDeposit => DeliverGrowsChild(c, op, w);
    case PostBlocks(between, fate) => PostGrowsChild(c, op, w, between, fate);
    case Client(e) => StepKeeps(c, w.child, e);
  }

  lemma MoveKeepsMismatch(c: Crypto, op: Account, w: World, m: Move, n: nat)
    requires Mismatch(w, n) && Inv(c, w.child) && w.child.cur + 1 < TWO64
    ensures Mismatch(Play(c, op, w, m), n) && ChildGrows(c, w.child, Play(c, op, w, m).child)
  {
    MoveKeepsRootBlock(c, op, w, m, n);
    MoveGrowsChild(c, op, w, m);
    assert Grows(w.child.txs[TxRef(n, 0)], Play(c, op, w, m).child.txs[TxRef(n, 0)]);
  }

  lemma {:induction false} MismatchPersists(c: Crypto, op: Account, moves: seq<Move>, more: seq<Move>, n: nat)
    requires Mismatch(PlayAll(c, op, moves), n) && Inv(c, PlayAll(c, op, moves).child)
    requires PlayAll(c, op, moves).child.cur + |more| < TWO64
    ensures Mismatch(PlayAll(c, op, moves + more), n) && Inv(c, PlayAll(c, op, moves + more).child)
    ensures PlayAll(c, op, moves + more).child.cur <= PlayAll(c, op, moves).child.cur + |more|
    decreases |more|
  {
    if more == [] {
      assert moves + more == moves;
    } else {
      var init := more[..|more| - 1];
      MismatchPersists(c, op, moves, init, n);
      PlayLast(c, op, moves, more);
      MoveKeepsMismatch(c, op, PlayAll(c, op, moves + init), more[|more| - 1], n);
    }
  }

  lemma {:induction false} FirstRootDeposit(w: World, ds: seq<Request>)
    requires ds != []
    ensures w.root.next in RootDeposits(w, ds).root.blocks
    ensures RootDeposits(w, ds).root.blocks[w.root.next] == DepositRoot(ds[0].owner, ds[0].amount)
  {
    var init := ds[..|ds| - 1];
    if init == [] {
      assert RootDeposits(w, init) == w;
    } else {
      FirstRootDeposit(w, init);
      RootDepositsCount(w, init);
    }
  }

  /** t is the child with one more block, which holds transfers. */
  ghost predicate NewTransfers(c: Crypto, w: World, t: State) {
    && Inv(c, t) && 1 <= w.child.cur == w.root.next && t.cur == w.child.cur + 1
    && TxRef(w.child.cur, 0) in t.txs && !t.txs[TxRef(w.child.cur, 0)].AllNull()
  }

  lemma LateSettleMismatches(c: Crypto, w: World, between: seq<Request>, t: State, h: Hash)
    requires NewTransfers(c, w, t) && between != []
    ensures Mismatch(Settle(RootDeposits(w, between), Some((t, h)), Smooth), w.root.next)
    ensures Settle(RootDeposits(w, between), Some((t, h)), Smooth).child == t
  {
    RootDepositsCount(w, between);
    FirstRootDeposit(w, between);
  }

  lemma PostAtNumber(c: Crypto, op: Account, w: World) returns (t: State, h: Hash)
    requires Good(c, w) && w.root.next + 1 < TWO64 && Posts(c, w.child, w.root.next)
    ensures Prepare(c, op, w.child, w.root.next) == Some((t, h)) && NewTransfers(c, w, t)
  {
    PreparesIff(c, op, w.child, w.root.next);
    Prepared(c, op, w.child, w.root.next);
    GuardMeansNoPending(w);
    t, h := Prepare(c, op, w.child, w.root.next).value.0, Prepare(c, op, w.child, w.root.next).value.1;
  }

  lemma LateCommitSettles(c: Crypto, op: Account, w: World, between: seq<Request>) returns (t: State, h: Hash)
    requires Good(c, w) && w.root.next + 1 < TWO64 && Posts(c, w.child, w.root.next)
    ensures NewTransfers(c, w, t)
    ensures PostBlock(c, op, w, between, Smooth) == Settle(RootDeposits(w, between), Some((t, h)), Smooth)
  {
    t, h := PostAtNumber(c, op, w);
  }

  lemma LateWorld(c: Crypto, op: Account, moves: seq<Move>, between: seq<Request>)
    requires Disciplined(moves) && between != [] && |moves| + 3 < TWO64
    requires Posts(c, PlayAll(c, op, moves).child, PlayAll(c, op, moves).root.next)
    ensures var w := PlayAll(c, op, moves + [PostBlocks(between, Smooth)]);
      Mismatch(w, PlayAll(c, op, moves).root.next) && Inv(c, w.child) && w.child.cur <= |moves| + 2
  {
    var w := PlayAll(c, op, moves);
    ChainsStaySynchronised(c, op, moves);
    var t, h := LateCommitSettles(c, op, w, between);
    LateSettleMismatches(c, w, between, t, h);
    PlayAppend(c, op, moves, PostBlocks(between, Smooth));
  }

  /** After a deposit has come between the check and the commitment of a post, the block of that number
      is a deposit at the contract and a block of transfers at the child, whatever happens later. */
  lemma LateCommitNeverHeals(c: Crypto, op: Account, moves: seq<Move>, between: seq<Request>, more: seq<Move>)
    requires Disciplined(moves) && between != [] && |moves| + |more| + 3 < TWO64
    requires Posts(c, PlayAll(c, op, moves).child, PlayAll(c, op, moves).root.next)
    ensures var w := PlayAll(c, op, moves + [PostBlocks(between, Smooth)] + more);
      Mismatch(w, PlayAll(c, op, moves).root.next) && !BlocksMatch(c, w.root.blocks, w.child)
  {
    var late, n := moves + [PostBlocks(between, Smooth)], PlayAll(c, op, moves).root.next;
    LateWorld(c, op, moves, between);
    MismatchPersists(c, op, late, more, n);
    MismatchUnsynchronised(c, PlayAll(c, op, late + more), n);
  }
}
