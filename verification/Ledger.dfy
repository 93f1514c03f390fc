/** The child chain as a state machine over typed sub-stores: what each operation of
    core/childchain.go does to the current block number, the headers, the transactions,
    the mempool and the token index. */
module Ledger {
  import opened Wrappers
  import opened Text
  import opened Order
  import opened Positions
  import opened Types

  const MEMPOOL_SIZE: nat := 99999
  const MAX_BLOCK_TXES: nat := 99999

  datatype TokenId = TokenId(owner: Address, pos: nat)

  datatype State = State(
    cur: nat,
    headers: map<nat, Header>,
    txs: map<TxRef, Tx>,
    mempool: map<string, Tx>,      // keyed by the hexadecimal transaction hash
    tokens: map<TokenId, nat>)     // position of the spending input, or 0

  const GENESIS: State := State(1, map[], map[], map[], map[])

  /** The store after an operation, complete or broken off, and how the operation ended. */
  datatype Outcome = Outcome(state: State, status: Status)

  // ---------- outputs ----------

  predicate IsOut(s: State, o: OutRef) {
    o.tx in s.txs && o.out < 2
  }

  function OutAt(s: State, o: OutRef): TxOut
    requires IsOut(s, o)
  {
    s.txs[o.tx].Output(o.out)
  }

  function PositionOf(o: OutRef): U64 {
    NewPosition(Coord(o.tx.blk, o.tx.idx, o.out))
  }

  function InPosition(r: TxRef, j: nat): U64 {
    NewPosition(Coord(r.blk, r.idx, j))
  }

  function TokenOf(s: State, o: OutRef): TokenId
    requires IsOut(s, o)
  {
    TokenId(OutAt(s, o).owner, PositionOf(o))
  }

  function PoolKey(c: Crypto, tx: Tx): string {
    HashToHex(TxHash(c, tx))
  }

  // ---------- ValidateTx ----------

  /** The checks on one input, in the order in which they are made. */
  function InputVerdict(c: Crypto, s: State, tx: Tx, j: nat): Status
    requires j < 2
  {
    var i := tx.Input(j);
    if i.IsNull() then Done
    else if !IsOut(s, i.ref) then Failed(InvalidTxIn)
    else if OutAt(s, i.ref).isSpent then Failed(TxOutAlreadySpent)
    else if OutAt(s, i.ref).isExited then Failed(TxOutAlreadyExited)
    else if SignerAddress(c, tx, j).None? then Failed(InvalidTxSignature)
    else if i.sig == NULL_SIGNATURE || SignerAddress(c, tx, j).value != OutAt(s, i.ref).owner
      then Failed(InvalidTxSignature)
    else Done
  }

  function InAmount(s: State, i: TxIn): nat {
    if !i.IsNull() && IsOut(s, i.ref) then OutAt(s, i.ref).amount else 0
  }

  function InTotal(s: State, tx: Tx): nat {
    InAmount(s, tx.in0) + InAmount(s, tx.in1)
  }

  function Verdict(c: Crypto, s: State, tx: Tx): Status {
    var v0, v1 := InputVerdict(c, s, tx, 0), InputVerdict(c, s, tx, 1);
    if v0.Failed? then v0
    else if v1.Failed? then v1
    else if tx.AllNull() then Failed(InvalidTxIn)
    else if tx.OutTotal() > InTotal(s, tx) then Failed(InvalidTxBalance)
    else Done
  }

  // ---------- AddTxToMempool ----------

  function SpendInput(s: State, i: TxIn): Outcome {
    if i.IsNull() then Outcome(s, Done)
    else if !IsOut(s, i.ref) then Outcome(s, Failed(InvalidTxIn))
    else Outcome(s.(txs := s.txs[i.ref.tx := s.txs[i.ref.tx].Spend(i.ref.out)]), Done)
  }

  function SpendInputs(s: State, tx: Tx): Outcome {
    var a := SpendInput(s, tx.in0);
    if a.status.Failed? then a else SpendInput(a.state, tx.in1)
  }

  function AddTx(c: Crypto, s: State, tx: Tx): Outcome {
    if |s.mempool| >= MEMPOOL_SIZE then Outcome(s, Failed(MempoolFull))
    else if Verdict(c, s, tx).Failed? then Outcome(s, Verdict(c, s, tx))
    else
      var a := SpendInputs(s, tx);
      if a.status.Failed? then a
      else Outcome(a.state.(mempool := a.state.mempool[PoolKey(c, tx) := tx]), Done)
  }

  // ---------- AddBlock and AddDepositBlock ----------

  /** Record in the token index by which input of block n a token was spent. */
  function IndexInput(s: State, r: TxRef, tx: Tx, j: nat): Outcome
    requires j < 2
  {
    var i := tx.Input(j);
    if i.IsNull() then Outcome(s, Done)
    else if i.ref.tx !in s.txs then Outcome(s, Failed(KeyNotFound))
    else if i.ref.out >= 2 then Outcome(s, Failed(NilDereference))
    else Outcome(s.(tokens := s.tokens[TokenOf(s, i.ref) := InPosition(r, j)]), Done)
  }

  function IndexOutput(s: State, r: TxRef, tx: Tx, j: nat): State
    requires j < 2
  {
    s.(tokens := s.tokens[TokenId(tx.Output(j).owner, PositionOf(OutRef(r, j))) := 0])
  }

  function PutTx(s: State, r: TxRef, tx: Tx): State {
    s.(txs := s.txs[r := tx])
  }

  function StoreTx(s: State, r: TxRef, tx: Tx): Outcome {
    var a := IndexInput(s, r, tx, 0);
    if a.status.Failed? then a else
      var b := IndexInput(a.state, r, tx, 1);
      if b.status.Failed? then b else
        Outcome(PutTx(IndexOutput(IndexOutput(b.state, r, tx, 0), r, tx, 1), r, tx), Done)
  }

  /** The outer loop of addBlock from index i on. */
  function StoreFrom(s: State, n: nat, txs: seq<Tx>, i: nat): Outcome
    requires i <= |txs|
    decreases |txs| - i
  {
    if i == |txs| then Outcome(s, Done) else
      var a := StoreTx(s, TxRef(n, i), txs[i]);
      if a.status.Failed? then a else StoreFrom(a.state, n, txs, i + 1)
  }

  function SignedHeader(c: Crypto, n: nat, txs: seq<Tx>, signer: Account): Header {
    Header(n, c.sign(signer, c.blockHash(n, Leaves(txs))))
  }

  /** addBlock followed by incrementCurrentBlockNumber. */
  function Seal(c: Crypto, s: State, txs: seq<Tx>, signer: Account): Outcome {
    var a := StoreFrom(s, s.cur, txs, 0);
    if a.status.Failed? then a else
      Outcome(a.state.(headers := a.state.headers[s.cur := SignedHeader(c, s.cur, txs, signer)],
                       cur := Wrap(s.cur + 1)),
              Done)
  }

  function PoolOrder(s: State): (ks: seq<string>)
    ensures |ks| == |s.mempool|
    ensures forall k | 0 <= k < |ks| :: ks[k] in s.mempool
  {
    assert |s.mempool.Keys| == |s.mempool|;
    var ks := SortKeys(s.mempool.Keys);
    assert forall k | 0 <= k < |ks| :: ks[k] in ks;
    ks
  }

  /** The mempool in scan order. */
  function PoolTxs(s: State): (r: seq<Tx>)
    ensures |r| == |s.mempool|
    ensures forall k | 0 <= k < |r| :: r[k] == s.mempool[PoolOrder(s)[k]]
  {
    seq(|s.mempool|, k requires 0 <= k < |s.mempool| => s.mempool[PoolOrder(s)[k]])
  }

  function Elements(ks: seq<string>): set<string> {
    set x | x in ks
  }

  /** The state without the mempool entries that precede position k of the scan. */
  function Drained(s: State, k: nat): State
    requires k <= |PoolOrder(s)|
  {
    s.(mempool := s.mempool - Elements(PoolOrder(s)[..k]))
  }

  function AddBlock(c: Crypto, s: State, signer: Account): Outcome {
    var txs := PoolTxs(s);
    if |txs| > MAX_BLOCK_TXES then Outcome(Drained(s, MAX_BLOCK_TXES), Failed(BlockTxesNumExceedsLimit))
    else if txs == [] then Outcome(s, Failed(EmptyBlock))
    else Seal(c, s.(mempool := map[]), txs, signer)
  }

  function AddDepositBlock(c: Crypto, s: State, owner: Address, amount: nat, signer: Account): Outcome {
    Seal(c, s, [DepositTx(owner, amount)], signer)
  }

  // ---------- ConfirmTx and ExitTxOut ----------

  function ConfirmAt(c: Crypto, s: State, r: TxRef, j: nat, confSig: Signature): Outcome {
    if r !in s.txs then Outcome(s, Failed(TxNotFound))
    else if j >= 2 then Outcome(s, Failed(TxInNotFound))
    else
      var tx := s.txs[r];
      var i := tx.Input(j);
      if i.IsNull() then Outcome(s, Failed(NullTxInConfirmation))
      else if !IsOut(s, i.ref) then Outcome(s, Failed(InvalidTxIn))
      else if c.recover(ConfirmationHash(c, tx), confSig) != Some(OutAt(s, i.ref).owner)
        then Outcome(s, Failed(InvalidTxConfirmationSignature))
      else Outcome(PutTx(s, r, tx.Confirm(j, confSig)), Done)
  }

  function ConfirmTx(c: Crypto, s: State, pos: nat, confSig: Signature): Outcome {
    match ParsePosition(pos)
    case None => Outcome(s, Failed(DivideByZero))
    case Some(p) => ConfirmAt(c, s, TxRef(p.blk, p.idx), p.elem, confSig)
  }

  function ExitAt(s: State, r: TxRef, j: nat): Outcome {
    if r !in s.txs then Outcome(s, Failed(TxNotFound))
    else if j >= 2 then Outcome(s, Failed(TxOutNotFound))
    else Outcome(PutTx(s, r, s.txs[r].Exit(j)), Done)
  }

  function ExitTxOut(s: State, pos: nat): Outcome {
    match ParsePosition(pos)
    case None => Outcome(s, Failed(DivideByZero))
    case Some(p) => ExitAt(s, TxRef(p.blk, p.idx), p.elem)
  }

  // ---------- queries ----------

  /** The transaction indices of block n as the scan of its keys meets them: by decimal string. */
  function ScanOrder(s: State, n: nat): seq<string> {
    SortKeys(set r | r in s.txs && r.blk == n :: Dec(r.idx))
  }

  lemma ScanOrderMeets(s: State, n: nat, k: nat)
    requires k < |ScanOrder(s, n)|
    ensures AllDigits(ScanOrder(s, n)[k])
    ensures Dec(Value(ScanOrder(s, n)[k])) == ScanOrder(s, n)[k]
    ensures TxRef(n, Value(ScanOrder(s, n)[k])) in s.txs
  {
    var x := ScanOrder(s, n)[k];
    assert x in ScanOrder(s, n);
    var r :| r in s.txs && r.blk == n && x == Dec(r.idx);
    ValueOfDec(r.idx);
    assert r == TxRef(n, r.idx);
  }

  /** The index of the k-th transaction the scan of block n meets. */
  function ScanIndex(s: State, n: nat, k: nat): nat
    requires k < |ScanOrder(s, n)|
    ensures TxRef(n, ScanIndex(s, n, k)) in s.txs
    ensures Dec(ScanIndex(s, n, k)) == ScanOrder(s, n)[k]
  {
    ScanOrderMeets(s, n, k);
    Value(ScanOrder(s, n)[k])
  }

  function ScanTxs(s: State, n: nat): (r: seq<Tx>)
    ensures |r| == |ScanOrder(s, n)|
    ensures forall k | 0 <= k < |r| :: r[k] == s.txs[TxRef(n, ScanIndex(s, n, k))]
  {
    seq(|ScanOrder(s, n)|, k requires 0 <= k < |ScanOrder(s, n)| => s.txs[TxRef(n, ScanIndex(s, n, k))])
  }

  function GetBlock(s: State, n: nat): Result<Block, Error> {
    if n !in s.headers then Err(BlockNotFound)
    else if |ScanTxs(s, n)| > MAX_BLOCK_TXES then Err(BlockTxesNumExceedsLimit)
    else Ok(Block(s.headers[n], ScanTxs(s, n)))
  }

  /** What GetTxProof hands to the Merkle library: the leaf vector and the leaf index. */
  datatype ProofRequest = ProofRequest(leaves: seq<Leaf>, index: nat)

  function GetTxProof(s: State, txPos: nat): Result<ProofRequest, Error> {
    var (blk, idx) := ParseTxPosition(txPos);
    if TxRef(blk, idx) !in s.txs then Err(TxNotFound)
    else match GetBlock(s, blk)
      case Err(BlockNotFound) => Err(KeyNotFound)
      case Err(e) => Err(e)
      case Ok(b) => Ok(ProofRequest(Leaves(b.txs), idx))
  }

  // ---------- steps and runs ----------

  datatype Event =
    | Deposit(owner: Address, amount: nat, signer: Account)
    | Post(tx: Tx)
    | Fix(signer: Account)
    | Confirm(pos: nat, confSig: Signature)
    | Exit(pos: nat)

  function Apply(c: Crypto, s: State, e: Event): Outcome {
    match e
    case Deposit(owner, amount, signer) => AddDepositBlock(c, s, owner, amount, signer)
    case Post(tx) => AddTx(c, s, tx)
    case Fix(signer) => AddBlock(c, s, signer)
    case Confirm(pos, confSig) => ConfirmTx(c, s, pos, confSig)
    case Exit(pos) => ExitTxOut(s, pos)
  }

  function Step(c: Crypto, s: State, e: Event): State {
    Apply(c, s, e).state
  }

  /** The state after a run of events, the last of them last. */
  function Exec(c: Crypto, run: seq<Event>): State {
    if run == [] then GENESIS else Step(c, Exec(c, run[..|run| - 1]), run[|run| - 1])
  }
}
