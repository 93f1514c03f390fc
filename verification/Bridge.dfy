/** The root chain and the child chain side by side: deposits reach the child as events, blocks reach
    the root through the guarded post. The contract is an environment with a block counter. */
module Bridge {
  import opened Wrappers
  import opened Text
  import opened Positions
  import opened Types
  import opened Ledger
  import opened Invariants
  import opened Sealing
  import opened Blocks

  /** What the contract holds under a block number. */
  datatype RootBlock = DepositRoot(owner: Address, amount: nat) | CommittedRoot(root: Hash)

  datatype Root = Root(next: nat, blocks: map<nat, RootBlock>)

  /** A DepositCreated event not yet handled, with the number the contract gave the deposit. */
  datatype DepositCreated = DepositCreated(owner: Address, amount: nat, number: nat)

  datatype World = World(root: Root, queue: seq<DepositCreated>, child: State)

  datatype Request = Request(owner: Address, amount: nat)

  const START: World := World(Root(1, map[]), [], GENESIS)

  // ---------- the contract ----------

  function Append(root: Root, b: RootBlock): Root {
    Root(root.next + 1, root.blocks[root.next := b])
  }

  function RootDeposit(w: World, d: Request): World {
    w.(root := Append(w.root, DepositRoot(d.owner, d.amount)),
       queue := w.queue + [DepositCreated(d.owner, d.amount, w.root.next)])
  }

  function RootDeposits(w: World, ds: seq<Request>): World {
    if ds == [] then w else RootDeposit(RootDeposits(w, ds[..|ds| - 1]), ds[|ds| - 1])
  }

  // ---------- the operator ----------

  /** watchDepositCreated: handle the oldest event. */
  function Deliver(c: Crypto, op: Account, w: World): World {
    if w.queue == [] then w else
      w.(queue := w.queue[1..],
         child := AddDepositBlock(c, w.child, w.queue[0].owner, w.queue[0].amount, op).state)
  }

  /** The Merkle root of block n as read back. */
  function RootOf(c: Crypto, s: State, n: nat): Option<Hash> {
    match GetBlock(s, n)
    case Err(_) => None
    case Ok(b) => c.merkleRoot(Leaves(b.txs))
  }

  /** The child state and root hash once a block has been added, or nothing if an error comes first. */
  function PrepareBlock(c: Crypto, op: Account, child: State): Option<(State, Hash)> {
    var a := AddBlock(c, child, op);
    if a.status.Failed? then None else
      match RootOf(c, a.state, child.cur)
      case None => None
      case Some(h) => Some((a.state, h))
  }

  /** The same behind the number check; the root counter is read as a uint64. */
  function Prepare(c: Crypto, op: Account, child: State, rootNumber: nat): Option<(State, Hash)> {
    if Wrap(rootNumber) != child.cur then None else PrepareBlock(c, op, child)
  }

  /** How the world outside treats a post: the counter cannot be read, the commitment is refused, the
      database transaction cannot be committed afterwards, or nothing fails. */
  datatype Fate = NoNumber | RootRefuses | CommitFails | Smooth

  /** What becomes of a prepared block. */
  function Settle(v: World, prepared: Option<(State, Hash)>, fate: Fate): World {
    match prepared
    case None => v
    case Some((child, h)) =>
      match fate
      case NoNumber => v
      case RootRefuses => v
      case CommitFails => v.(root := Append(v.root, CommittedRoot(h)))
      case Smooth => v.(root := Append(v.root, CommittedRoot(h)), child := child)
  }

  /** PostBlockHandler; between are the deposits the contract accepts after its counter was read and
      before the commitment reaches it. */
  function PostBlock(c: Crypto, op: Account, w: World, between: seq<Request>, fate: Fate): World {
    Settle(RootDeposits(w, between), Prepare(c, op, w.child, w.root.next), fate)
  }

  datatype Move =
    | UserDeposit(d: Request)
    | HandleDeposit
    | PostBlocks(between: seq<Request>, fate: Fate)
    | Client(e: Event)

  function Play(c: Crypto, op: Account, w: World, m: Move): World {
    match m
    case UserDeposit(d) => RootDeposit(w, d)
    case HandleDeposit => Deliver(c, op, w)
    case PostBlocks(between, fate) => PostBlock(c, op, w, between, fate)
    case Client(e) => w.(child := Step(c, w.child, e))
  }

  function PlayAll(c: Crypto, op: Account, moves: seq<Move>): World {
    if moves == [] then START else Play(c, op, PlayAll(c, op, moves[..|moves| - 1]), moves[|moves| - 1])
  }

  // ---------- synchronisation ----------

  /** Root block b and child block n are about the same thing. */
  ghost predicate Matches(c: Crypto, b: RootBlock, s: State, n: nat) {
    match b
    case DepositRoot(owner, amount) =>
      HasSize(s, n, 1) && TxRef(n, 0) in s.txs && HoldsDeposit(s.txs[TxRef(n, 0)], owner, amount)
    case CommittedRoot(h) => RootOf(c, s, n) == Some(h)
  }

  /** Each pending deposit will be applied at the number the root gave it. */
  ghost predicate QueueInOrder(w: World) {
    forall k | 0 <= k < |w.queue| ::
      && w.queue[k].number == w.child.cur + k
      && w.queue[k].number in w.root.blocks
      && w.root.blocks[w.queue[k].number] == DepositRoot(w.queue[k].owner, w.queue[k].amount)
  }

  ghost predicate BlocksMatch(c: Crypto, blocks: map<nat, RootBlock>, s: State) {
    forall n | 1 <= n < s.cur :: n in blocks && Matches(c, blocks[n], s, n)
  }

  ghost predicate Synchronised(c: Crypto, w: World) {
    && w.root.next == w.child.cur + |w.queue|
    && QueueInOrder(w)
    && BlocksMatch(c, w.root.blocks, w.child)
  }

  ghost predicate Good(c: Crypto, w: World) {
    Inv(c, w.child) && Synchronised(c, w)
  }

  lemma ExtendsKeepsMatch(c: Crypto, b: RootBlock, s: State, t: State, n: nat)
    requires Shape(s) && Shape(t) && Extends(s, t) && 1 <= n < s.cur && Matches(c, b, s, n)
    ensures Matches(c, b, t, n)
  {
    if b.DepositRoot? {
      assert Grows(s.txs[TxRef(n, 0)], t.txs[TxRef(n, 0)]);
    } else {
      ExtendsKeepsCommitment(s, t, n);
    }
  }

  /** Old root blocks go on matching; at most one new child block has to be accounted for. */
  lemma BlocksGoOnMatching(c: Crypto, blocks: map<nat, RootBlock>, s: State, more: map<nat, RootBlock>, t: State)
    requires Shape(s) && Shape(t) && Extends(s, t) && t.cur <= s.cur + 1 && BlocksMatch(c, blocks, s)
    requires forall n | n in blocks && n < s.cur :: n in more && more[n] == blocks[n]
    requires t.cur == s.cur + 1 ==> s.cur in more && Matches(c, more[s.cur], t, s.cur)
    ensures BlocksMatch(c, more, t)
  {
    forall n | 1 <= n < t.cur ensures n in more && Matches(c, more[n], t, n) {
      if n < s.cur { ExtendsKeepsMatch(c, blocks[n], s, t, n); }
    }
  }

  /** A child step that adds no block keeps everything. */
  lemma SameNumberKeeps(c: Crypto, w: World, t: State)
    requires Good(c, w) && Inv(c, t) && Extends(w.child, t) && t.cur == w.child.cur
    ensures Good(c, w.(child := t))
  {
    BlocksGoOnMatching(c, w.root.blocks, w.child, w.root.blocks, t);
  }

  lemma RootDepositKeepsQueue(w: World, d: Request)
    requires QueueInOrder(w) && w.root.next == w.child.cur + |w.queue|
    ensures QueueInOrder(RootDeposit(w, d))
  {
    var v := RootDeposit(w, d);
    forall k | 0 <= k < |v.queue|
      ensures v.queue[k].number == v.child.cur + k && v.queue[k].number in v.root.blocks
      ensures v.root.blocks[v.queue[k].number] == DepositRoot(v.queue[k].owner, v.queue[k].amount)
    {
      if k < |w.queue| { assert v.queue[k] == w.queue[k]; }
    }
  }

  lemma RootDepositKeeps(c: Crypto, w: World, d: Request)
    requires Good(c, w)
    ensures Good(c, RootDeposit(w, d))
  {
    RootDepositKeepsQueue(w, d);
    NothingIsQuiet(w.child);
    BlocksGoOnMatching(c, w.root.blocks, w.child, RootDeposit(w, d).root.blocks, w.child);
  }

  lemma {:induction false} RootDepositsCount(w: World, ds: seq<Request>)
    ensures RootDeposits(w, ds).child == w.child
    ensures |RootDeposits(w, ds).queue| == |w.queue| + |ds|
    ensures RootDeposits(w, ds).root.next == w.root.next + |ds|
  {
    if ds != [] { RootDepositsCount(w, ds[..|ds| - 1]); }
  }

  lemma {:induction false} RootDepositsKeep(c: Crypto, w: World, ds: seq<Request>)
    requires Good(c, w)
    ensures Good(c, RootDeposits(w, ds))
  {
    if ds != [] {
      RootDepositsKeep(c, w, ds[..|ds| - 1]);
      RootDepositKeeps(c, RootDeposits(w, ds[..|ds| - 1]), ds[|ds| - 1]);
    }
  }

  lemma RootDepositsQueue(c: Crypto, w: World, ds: seq<Request>)
    requires Good(c, w)
    ensures QueueInOrder(RootDeposits(w, ds))
  {
    RootDepositsKeep(c, w, ds);
  }

  lemma DepositBlockMatches(c: Crypto, s: State, owner: Address, amount: nat, op: Account)
    requires Inv(c, s) && s.cur + 1 < TWO64
    ensures Matches(c, DepositRoot(owner, amount), AddDepositBlock(c, s, owner, amount, op).state, s.cur)
  {
    DepositKeeps(c, s, owner, amount, op);
    var t := AddDepositBlock(c, s, owner, amount, op).state;
    forall i: nat ensures TxRef(s.cur, i) in t.txs <==> i < 1 {
      assert TxRef(s.cur, i) !in s.txs;
    }
    assert t.txs[TxRef(s.cur, 0)] == [DepositTx(owner, amount)][0];
  }

  lemma DeliverKeepsQueue(w: World, t: State)
    requires QueueInOrder(w) && w.queue != [] && t.cur == w.child.cur + 1
    ensures QueueInOrder(w.(queue := w.queue[1..], child := t))
  {
    forall k | 0 <= k < |w.queue[1..]| ensures w.queue[1..][k] == w.queue[k + 1] {
    }
  }

  lemma DeliverSynchronises(c: Crypto, w: World, t: State)
    requires Shape(w.child) && Synchronised(c, w) && w.queue != []
    requires Shape(t) && Extends(w.child, t) && t.cur == w.child.cur + 1
    requires Matches(c, DepositRoot(w.queue[0].owner, w.queue[0].amount), t, w.child.cur)
    ensures Synchronised(c, w.(queue := w.queue[1..], child := t))
  {
    DeliverKeepsQueue(w, t);
    assert w.queue[0].number == w.child.cur + 0;
    BlocksGoOnMatching(c, w.root.blocks, w.child, w.root.blocks, t);
  }

  /** Handling an event applies the deposit at the number the root gave it. */
  lemma DeliverKeeps(c: Crypto, op: Account, w: World)
    requires Good(c, w) && w.root.next < TWO64
    ensures Good(c, Deliver(c, op, w))
    ensures w.queue != [] ==> (
      && Deliver(c, op, w).child.cur == w.queue[0].number + 1
      && Matches(c, DepositRoot(w.queue[0].owner, w.queue[0].amount), Deliver(c, op, w).child, w.queue[0].number))
  {
    if w.queue != [] {
      var d := w.queue[0];
      assert d.number == w.child.cur + 0;
      DepositKeeps(c, w.child, d.owner, d.amount, op);
      DepositBlockMatches(c, w.child, d.owner, d.amount, op);
      DeliverSynchronises(c, w, AddDepositBlock(c, w.child, d.owner, d.amount, op).state);
    }
  }

  /** The handler would go through with its post: the numbers agree, there is something to put into the
      block, and the Merkle library accepts the block in the order in which it is read back. */
  predicate Posts(c: Crypto, child: State, rootNumber: nat) {
    && Wrap(rootNumber) == child.cur && |child.mempool| > 0
    && c.merkleRoot(Leaves(ByNumeral(PoolTxs(child)))).Some?
  }

  lemma FixedStoresPool(c: Crypto, s: State, op: Account, t: State)
    requires Fixed(c, s, op, t)
    ensures HasSize(t, s.cur, |s.mempool|) && StoredTxs(t, s.cur, |s.mempool|) == PoolTxs(s)
  {
    FixedHoldsPool(c, s, op, t);
    forall i | 0 <= i < |s.mempool| ensures StoredTxs(t, s.cur, |s.mempool|)[i] == PoolTxs(s)[i] {
      assert t.txs[TxRef(s.cur, i)] == s.mempool[PoolOrder(s)[i]];
    }
  }

  lemma FixedRoot(c: Crypto, s: State, op: Account, t: State)
    requires Fixed(c, s, op, t) && Shape(t) && 1 <= s.cur
    ensures RootOf(c, t, s.cur) == c.merkleRoot(Leaves(ByNumeral(PoolTxs(s))))
  {
    FixedStoresPool(c, s, op, t);
    ScansByNumeral(t, s.cur, |s.mempool|);
    BlockFound(t, s.cur);
  }

  lemma FixedShape(c: Crypto, s: State, op: Account)
    requires Inv(c, s) && s.cur + 1 < TWO64 && |s.mempool| > 0
    ensures AddBlock(c, s, op).status == Done
    ensures Fixed(c, s, op, AddBlock(c, s, op).state) && Shape(AddBlock(c, s, op).state) && 1 <= s.cur
  {
    FixKeeps(c, s, op);
    FixDone(c, s, op);
  }

  lemma PreparesBlockIff(c: Crypto, op: Account, s: State)
    requires Inv(c, s) && s.cur + 1 < TWO64
    ensures PrepareBlock(c, op, s).Some? <==>
      |s.mempool| > 0 && c.merkleRoot(Leaves(ByNumeral(PoolTxs(s)))).Some?
  {
    if |s.mempool| == 0 {
      EmptyFixFails(c, s, op);
    } else {
      FixedShape(c, s, op);
      FixedRoot(c, s, op, AddBlock(c, s, op).state);
    }
  }

  /** Whether a block can be prepared is decided by the state before. */
  lemma PreparesIff(c: Crypto, op: Account, s: State, rootNumber: nat)
    requires Inv(c, s) && s.cur + 1 < TWO64
    ensures Prepare(c, op, s, rootNumber).Some? <==> Posts(c, s, rootNumber)
  {
    PreparesBlockIff(c, op, s);
  }

  /** A post that goes through adds one child block, whose Merkle root it sends. */
  lemma Prepared(c: Crypto, op: Account, s: State, rootNumber: nat)
    requires Inv(c, s) && s.cur + 1 < TWO64 && Prepare(c, op, s, rootNumber).Some?
    ensures var (t, h) := Prepare(c, op, s, rootNumber).value;
      && Wrap(rootNumber) == s.cur && Inv(c, t) && Extends(s, t) && t.cur == s.cur + 1
      && Matches(c, CommittedRoot(h), t, s.cur)
      && TxRef(s.cur, 0) in t.txs && !t.txs[TxRef(s.cur, 0)].AllNull()
  {
    FixKeeps(c, s, op);
    if |s.mempool| == 0 {
      EmptyFixFails(c, s, op);
    } else {
      FixDone(c, s, op);
      FixedHoldsPool(c, s, op, AddBlock(c, s, op).state);
    }
  }

  /** Commit a prepared block when nothing came between. */
  lemma CommitKeeps(c: Crypto, w: World, t: State, h: Hash)
    requires Shape(w.child) && Synchronised(c, w) && w.queue == []
    requires Shape(t) && Extends(w.child, t) && t.cur == w.child.cur + 1
    requires Matches(c, CommittedRoot(h), t, w.child.cur)
    ensures Synchronised(c, w.(root := Append(w.root, CommittedRoot(h)), child := t))
  {
    BlocksGoOnMatching(c, w.root.blocks, w.child, Append(w.root, CommittedRoot(h)).blocks, t);
  }

  /** Commit a prepared block after deposits came between: their events carry numbers already used. */
  lemma LateCommitBreaks(w: World, v: World, t: State, h: Hash)
    requires w.queue == [] && |v.queue| > 0 && QueueInOrder(v) && v.child == w.child && t.cur == w.child.cur + 1
    ensures !QueueInOrder(v.(root := Append(v.root, CommittedRoot(h)), child := t))
  {
    assert v.queue[0].number == w.child.cur + 0;
  }

  /** The guard passes only when no event is pending. */
  lemma GuardMeansNoPending(w: World)
    requires w.root.next == w.child.cur + |w.queue| && w.root.next < TWO64
    requires Wrap(w.root.next) == w.child.cur
    ensures w.queue == []
  {
    WrapOfSmall(w.root.next);
  }

  /** The commitment reaches the contract. */
  predicate Commits(c: Crypto, w: World, fate: Fate) {
    Posts(c, w.child, w.root.next) && (fate.CommitFails? || fate.Smooth?)
  }

  /** t, with Merkle root h, is what a post makes of the child when no event is pending. */
  ghost predicate NextChild(c: Crypto, w: World, t: State, h: Hash) {
    && w.queue == [] && Inv(c, t) && Extends(w.child, t) && t.cur == w.child.cur + 1
    && Matches(c, CommittedRoot(h), t, w.child.cur)
  }

  lemma PreparedIsNext(c: Crypto, op: Account, w: World, t: State, h: Hash)
    requires Good(c, w) && w.root.next + 1 < TWO64 && Prepare(c, op, w.child, w.root.next) == Some((t, h))
    ensures NextChild(c, w, t, h)
  {
    Prepared(c, op, w.child, w.root.next);
    GuardMeansNoPending(w);
  }

  lemma SmoothKeeps(c: Crypto, w: World, t: State, h: Hash)
    requires Good(c, w) && NextChild(c, w, t, h)
    ensures Good(c, Settle(w, Some((t, h)), Smooth))
  {
    CommitKeeps(c, w, t, h);
  }

  lemma SmoothLateBreaks(c: Crypto, w: World, between: seq<Request>, t: State, h: Hash)
    requires Good(c, w) && NextChild(c, w, t, h) && between != []
    ensures !QueueInOrder(Settle(RootDeposits(w, between), Some((t, h)), Smooth))
  {
    RootDepositsCount(w, between);
    RootDepositsQueue(c, w, between);
    LateCommitBreaks(w, RootDeposits(w, between), t, h);
  }

  lemma FailedCommitBreaks(w: World, between: seq<Request>, t: State, h: Hash)
    requires w.root.next == w.child.cur + |w.queue|
    ensures var v := Settle(RootDeposits(w, between), Some((t, h)), CommitFails);
      v.root.next != v.child.cur + |v.queue|
  {
    RootDepositsCount(w, between);
  }

  lemma EarlyEndKeeps(c: Crypto, op: Account, w: World, between: seq<Request>, fate: Fate)
    requires Good(c, w) && w.root.next + 1 < TWO64 && !Commits(c, w, fate)
    ensures Good(c, PostBlock(c, op, w, between, fate))
  {
    PreparesIff(c, op, w.child, w.root.next);
    RootDepositsKeep(c, w, between);
    assert PostBlock(c, op, w, between, fate) == RootDeposits(w, between);
  }

  /** The post keeps the chains synchronised exactly when its commitment does not reach the contract, or
      the database transaction is committed after it and no deposit reached the contract in between. */
  lemma PostKeepsIff(c: Crypto, op: Account, w: World, between: seq<Request>, fate: Fate)
    requires Good(c, w) && w.root.next + 1 < TWO64
    ensures Good(c, PostBlock(c, op, w, between, fate))
       <==> !Commits(c, w, fate) || (fate.Smooth? && between == [])
  {
    PreparesIff(c, op, w.child, w.root.next);
    if !Commits(c, w, fate) {
      EarlyEndKeeps(c, op, w, between, fate);
    } else {
      var (t, h) := Prepare(c, op, w.child, w.root.next).value;
      FailedCommitBreaks(w, between, t, h);
      PreparedIsNext(c, op, w, t, h);
      if between == [] { SmoothKeeps(c, w, t, h); } else { SmoothLateBreaks(c, w, between, t, h); }
    }
  }

  lemma ClientKeeps(c: Crypto, w: World, e: Event)
    requires Good(c, w) && (e.Post? || e.Confirm? || e.Exit?)
    ensures Good(c, w.(child := Step(c, w.child, e)))
  {
    TxStepKeeps(c, w.child, e);
    TxStepSameCur(c, w.child, e);
    SameNumberKeeps(c, w, Step(c, w.child, e));
  }

  // ---------- runs ----------

  /** Clients post, confirm and exit; nothing is deposited at the child directly. */
  predicate ByClient(m: Move) {
    m.Client? ==> m.e.Post? || m.e.Confirm? || m.e.Exit?
  }

  /** Moreover no deposit comes between the number check and the commitment of a post, and no commit of
      the database fails after the commitment. */
  ghost predicate Disciplined(moves: seq<Move>) {
    forall i | 0 <= i < |moves| ::
      ByClient(moves[i]) && (moves[i].PostBlocks? ==> moves[i].between == [] && !moves[i].fate.CommitFails?)
  }

  lemma MoveKeeps(c: Crypto, op: Account, w: World, m: Move)
    requires Good(c, w) && w.root.next + 1 < TWO64 && ByClient(m)
    requires m.PostBlocks? ==> m.between == [] && !m.fate.CommitFails?
    ensures Good(c, Play(c, op, w, m)) && Play(c, op, w, m).root.next <= w.root.next + 1
  {
    match m
    case UserDeposit(d) => RootDepositKeeps(c, w, d);
    case HandleDeposit => DeliverKeeps(c, op, w);
    case PostBlocks(between, fate) => PostKeepsIff(c, op, w, between, fate);
    case Client(e) => ClientKeeps(c, w, e);
  }

  lemma StartGood(c: Crypto)
    ensures Good(c, START)
  {
    GenesisInv(c);
  }

  /** After any disciplined run: root number = child number + pending deposits, every pending deposit
      will land on its own number, and every child block matches the root block of its number. */
  lemma {:induction false} ChainsStaySynchronised(c: Crypto, op: Account, moves: seq<Move>)
    requires Disciplined(moves) && |moves| + 2 < TWO64
    ensures Good(c, PlayAll(c, op, moves)) && PlayAll(c, op, moves).root.next <= |moves| + 1
  {
    if moves == [] {
      StartGood(c);
    } else {
      ChainsStaySynchronised(c, op, moves[..|moves| - 1]);
      MoveKeeps(c, op, PlayAll(c, op, moves[..|moves| - 1]), moves[|moves| - 1]);
    }
  }
}
