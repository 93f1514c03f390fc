/** Transactions, headers and the cryptographic primitives they rest on. */
module Types {
  import opened Wrappers
  import opened Text

  /** A 65-byte signature read as a number; the null signature is all zeros. */
  type Signature = nat
  const NULL_SIGNATURE: Signature := 0
  const NULL_ADDRESS: Address := 0

  datatype Account = Account(key: nat)

  datatype TxRef = TxRef(blk: nat, idx: nat)
  datatype OutRef = OutRef(tx: TxRef, out: nat)

  const NULL_REF: OutRef := OutRef(TxRef(0, 0), 0)

  datatype TxIn = TxIn(ref: OutRef, sig: Signature, confSig: Signature) {
    predicate IsNull() { ref == NULL_REF }
  }

  datatype TxOut = TxOut(owner: Address, amount: nat, isSpent: bool, isExited: bool)

  function NewTxIn(ref: OutRef): TxIn { TxIn(ref, NULL_SIGNATURE, NULL_SIGNATURE) }

  function NewTxOut(owner: Address, amount: nat): TxOut { TxOut(owner, amount, false, false) }

  /** The part of an output that is hashed. */
  datatype OutCore = OutCore(owner: Address, amount: nat)

  /** What Encode serialises: input references and output cores. */
  datatype TxCore = TxCore(in0: OutRef, in1: OutRef, out0: OutCore, out1: OutCore)

  /** What MerkleLeaf and the block encoding serialise: the core and both signatures. */
  datatype Leaf = Leaf(core: TxCore, sig0: Signature, sig1: Signature)

  /** A decoded transaction; TxElementsNum is 2. */
  datatype Tx = Tx(in0: TxIn, in1: TxIn, out0: TxOut, out1: TxOut) {
    function Input(j: nat): TxIn
      requires j < 2
    { if j == 0 then in0 else in1 }

    function Output(j: nat): TxOut
      requires j < 2
    { if j == 0 then out0 else out1 }

    function WithOutput(j: nat, o: TxOut): Tx
      requires j < 2
    { if j == 0 then this.(out0 := o) else this.(out1 := o) }

    function WithInput(j: nat, i: TxIn): Tx
      requires j < 2
    { if j == 0 then this.(in0 := i) else this.(in1 := i) }

    function Spend(j: nat): Tx
      requires j < 2
    { WithOutput(j, Output(j).(isSpent := true)) }

    function Exit(j: nat): Tx
      requires j < 2
    { WithOutput(j, Output(j).(isExited := true)) }

    function Confirm(j: nat, confSig: Signature): Tx
      requires j < 2
    { WithInput(j, Input(j).(confSig := confSig)) }

    function Core(): TxCore {
      TxCore(in0.ref, in1.ref, OutCore(out0.owner, out0.amount), OutCore(out1.owner, out1.amount))
    }

    function Signed(): Leaf { Leaf(Core(), in0.sig, in1.sig) }

    function OutTotal(): nat { out0.amount + out1.amount }

    predicate AllNull() { in0.IsNull() && in1.IsNull() }

    /** The two inputs do not name the same output. */
    predicate DistinctInputs() { in0.IsNull() || in1.IsNull() || in0.ref != in1.ref }

    /** What NewTx, NewTxIn and NewTxOut build; AddTxToMempool checks none of it. */
    predicate Fresh() {
      && DistinctInputs()
      && !out0.isSpent && !out0.isExited && !out1.isSpent && !out1.isExited
      && in0.confSig == NULL_SIGNATURE && in1.confSig == NULL_SIGNATURE
    }
  }

  function NewTx(): Tx {
    Tx(NewTxIn(NULL_REF), NewTxIn(NULL_REF), NewTxOut(NULL_ADDRESS, 0), NewTxOut(NULL_ADDRESS, 0))
  }

  function DepositTx(owner: Address, amount: nat): Tx {
    NewTx().(out0 := NewTxOut(owner, amount))
  }

  /** tx spends nothing and pays amount to owner: null references and signatures, an empty second output. */
  predicate HoldsDeposit(tx: Tx, owner: Address, amount: nat) {
    && tx.in0.ref == OutRef(TxRef(0, 0), 0) && tx.in0.sig == 0
    && tx.in1.ref == OutRef(TxRef(0, 0), 0) && tx.in1.sig == 0
    && tx.out0.owner == owner && tx.out0.amount == amount
    && tx.out1.owner == 0 && tx.out1.amount == 0
  }

  function Leaves(txs: seq<Tx>): (r: seq<Leaf>)
    ensures |r| == |txs|
    ensures forall k | 0 <= k < |txs| :: r[k] == txs[k].Signed()
  {
    seq(|txs|, k requires 0 <= k < |txs| => txs[k].Signed())
  }

  datatype Header = Header(number: nat, signature: Signature)

  /** A block as read back from the store. */
  datatype Block = Block(header: Header, txs: seq<Tx>)

  /** Keccak, ECDSA and the Merkle tree, as functions about which nothing is assumed. */
  datatype Crypto = Crypto(
    txHash: TxCore -> Hash,
    confHash: Hash -> Hash,
    blockHash: (nat, seq<Leaf>) -> Hash,
    merkleRoot: seq<Leaf> -> Option<Hash>,
    sign: (Account, Hash) -> Signature,
    address: Account -> Address,
    recover: (Hash, Signature) -> Option<Address>)

  /** A signature recovers to its signer, and no signature is all zeros. */
  ghost predicate Honest(c: Crypto) {
    forall a: Account, h: Hash ::
      c.recover(h, c.sign(a, h)) == Some(c.address(a)) && c.sign(a, h) != NULL_SIGNATURE
  }

  function TxHash(c: Crypto, tx: Tx): Hash { c.txHash(tx.Core()) }

  function ConfirmationHash(c: Crypto, tx: Tx): Hash { c.confHash(TxHash(c, tx)) }

  /** Tx.SignerAddress: the null signature yields the null address instead of an error. */
  function SignerAddress(c: Crypto, tx: Tx, j: nat): Option<Address>
    requires j < 2
  {
    var sig := tx.Input(j).sig;
    if sig == NULL_SIGNATURE then Some(NULL_ADDRESS) else c.recover(TxHash(c, tx), sig)
  }

  datatype Error =
    | MempoolFull | BlockNotFound | EmptyBlock | TxNotFound
    | InvalidTxSignature | InvalidTxConfirmationSignature | InvalidTxBalance
    | TxInNotFound | InvalidTxIn | NullTxInConfirmation
    | TxOutNotFound | TxOutAlreadySpent | TxOutAlreadyExited
    | InvalidTxInIndex | InvalidTxOutIndex | BlockTxesNumExceedsLimit
    | KeyNotFound | NotANumber
    // run-time panics
    | NilDereference | DivideByZero

  datatype Status = Done | Failed(error: Error)
}
