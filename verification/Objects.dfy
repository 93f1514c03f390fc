/** The mutable objects of core/types: a decoded transaction and a block under construction. */
module Objects {
  import opened Text
  import opened Types
  import opened Ledger

  class TxObject {
    const inputs: array<TxIn>
    const outputs: array<TxOut>

    ghost predicate Valid() {
      inputs.Length == 2 && outputs.Length == 2
    }

    function Value(): Tx
      requires Valid()
      reads inputs, outputs
    {
      Tx(inputs[0], inputs[1], outputs[0], outputs[1])
    }

    /** What Encode collects from the two arrays. */
    ghost function Hashed(): TxCore
      requires Valid()
      reads inputs, outputs
    {
      TxCore(inputs[0].ref, inputs[1].ref,
             OutCore(outputs[0].owner, outputs[0].amount), OutCore(outputs[1].owner, outputs[1].amount))
    }

    /** NewTx: null inputs and empty outputs. */
    constructor ()
      ensures Valid() && fresh(inputs) && fresh(outputs)
      ensures Value() == NewTx()
      ensures forall j | 0 <= j < 2 ::
        && inputs[j] == TxIn(OutRef(TxRef(0, 0), 0), 0, 0)
        && outputs[j] == TxOut(0, 0, false, false)
    {
      inputs := new TxIn[2];
      outputs := new TxOut[2];
      new;
      for i := 0 to 2
        invariant forall k | 0 <= k < i ::
          inputs[k] == NewTxIn(NULL_REF) && outputs[k] == NewTxOut(NULL_ADDRESS, 0)
      {
        inputs[i] := NewTxIn(NULL_REF);
        outputs[i] := NewTxOut(NULL_ADDRESS, 0);
      }
    }

    /** A fresh object holding a decoded value. */
    constructor Decode(tx: Tx)
      ensures Valid() && fresh(inputs) && fresh(outputs)
      ensures Value() == tx
    {
      inputs := new TxIn[2];
      outputs := new TxOut[2];
      new;
      inputs[0], inputs[1] := tx.in0, tx.in1;
      outputs[0], outputs[1] := tx.out0, tx.out1;
    }

    method SetInput(j: nat, i: TxIn) returns (st: Status)
      requires Valid()
      modifies inputs
      ensures st == if j < 2 then Done else Failed(InvalidTxInIndex)
      ensures Value() == if j < 2 then old(Value()).WithInput(j, i) else old(Value())
    {
      if j >= 2 { return Failed(InvalidTxInIndex); }
      inputs[j] := i;
      return Done;
    }

    method SetOutput(j: nat, o: TxOut) returns (st: Status)
      requires Valid()
      modifies outputs
      ensures st == if j < 2 then Done else Failed(InvalidTxOutIndex)
      ensures Value() == if j < 2 then old(Value()).WithOutput(j, o) else old(Value())
    {
      if j >= 2 { return Failed(InvalidTxOutIndex); }
      outputs[j] := o;
      return Done;
    }

    method SpendOutput(j: nat) returns (st: Status)
      requires Valid()
      modifies outputs
      ensures st == if j < 2 then Done else Failed(InvalidTxOutIndex)
      ensures Value() == if j < 2 then old(Value()).Spend(j) else old(Value())
    {
      if j >= 2 { return Failed(InvalidTxOutIndex); }
      outputs[j] := outputs[j].(isSpent := true);
      return Done;
    }

    method ExitOutput(j: nat) returns (st: Status)
      requires Valid()
      modifies outputs
      ensures st == if j < 2 then Done else Failed(InvalidTxOutIndex)
      ensures Value() == if j < 2 then old(Value()).Exit(j) else old(Value())
    {
      if j >= 2 { return Failed(InvalidTxOutIndex); }
      outputs[j] := outputs[j].(isExited := true);
      return Done;
    }

    method SetConfirmationSignature(j: nat, confSig: Signature) returns (st: Status)
      requires Valid()
      modifies inputs
      ensures st == if j < 2 then Done else Failed(InvalidTxInIndex)
      ensures Value() == if j < 2 then old(Value()).Confirm(j, confSig) else old(Value())
    {
      if j >= 2 { return Failed(InvalidTxInIndex); }
      inputs[j] := inputs[j].(confSig := confSig);
      return Done;
    }

    /** Signing writes one signature and leaves the hashed core, hence the hash, as it was. */
    method Sign(c: Crypto, j: nat, signer: Account) returns (st: Status)
      requires Valid()
      modifies inputs
      ensures st == if j < 2 then Done else Failed(InvalidTxInIndex)
      ensures Value().Core() == old(Value()).Core()
      ensures j < 2 ==> Value() == old(Value()).WithInput(j,
        old(Value()).Input(j).(sig := c.sign(signer, TxHash(c, Value()))))
      ensures j < 2 ==> inputs[j].sig == c.sign(signer, c.txHash(Hashed()))
      ensures j >= 2 ==> Value() == old(Value())
    {
      if j >= 2 { return Failed(InvalidTxInIndex); }
      var h := TxHash(c, Value());
      inputs[j] := inputs[j].(sig := c.sign(signer, h));
      assert Value().Core() == old(Value()).Core();
      return Done;
    }

    method Confirm(c: Crypto, j: nat, signer: Account) returns (st: Status)
      requires Valid()
      modifies inputs
      ensures st == if j < 2 then Done else Failed(InvalidTxInIndex)
      ensures Value().Core() == old(Value()).Core()
      ensures j < 2 ==> Value() == old(Value()).Confirm(j, c.sign(signer, ConfirmationHash(c, Value())))
      ensures j < 2 ==> inputs[j].confSig == c.sign(signer, c.confHash(c.txHash(Hashed())))
      ensures j >= 2 ==> Value() == old(Value())
    {
      if j >= 2 { return Failed(InvalidTxInIndex); }
      var h := ConfirmationHash(c, Value());
      inputs[j] := inputs[j].(confSig := c.sign(signer, h));
      assert Value().Core() == old(Value()).Core();
      return Done;
    }
  }

  class BlockObject {
    const number: nat
    var signature: Signature
    var txes: seq<Tx>

    constructor (txes: seq<Tx>, number: nat)
      ensures this.txes == txes && this.number == number && signature == NULL_SIGNATURE
    {
      this.txes := txes;
      this.number := number;
      this.signature := NULL_SIGNATURE;
    }

    /** NewBlock refuses one transaction less than AddTx does. */
    static method NewBlock(txes: seq<Tx>, number: nat) returns (b: BlockObject?, st: Status)
      ensures |txes| >= MAX_BLOCK_TXES ==> b == null && st == Failed(BlockTxesNumExceedsLimit)
      ensures |txes| < MAX_BLOCK_TXES ==>
        st == Done && b != null && fresh(b) && b.txes == txes && b.number == number && b.signature == NULL_SIGNATURE
    {
      if |txes| >= MAX_BLOCK_TXES { return null, Failed(BlockTxesNumExceedsLimit); }
      b := new BlockObject(txes, number);
      st := Done;
    }

    method AddTx(tx: Tx) returns (st: Status)
      modifies this`txes
      ensures st == if |old(txes)| < MAX_BLOCK_TXES then Done else Failed(BlockTxesNumExceedsLimit)
      ensures txes == if |old(txes)| < MAX_BLOCK_TXES then old(txes) + [tx] else old(txes)
    {
      if |txes| >= MAX_BLOCK_TXES { return Failed(BlockTxesNumExceedsLimit); }
      txes := txes + [tx];
      return Done;
    }

    /** The leaves of the Merkle tree, which are also what the block encoding holds. */
    method LeafVector() returns (leaves: seq<Leaf>)
      ensures leaves == Leaves(txes)
    {
      leaves := [];
      for i := 0 to |txes|
        invariant leaves == Leaves(txes)[..i]
      {
        leaves := leaves + [txes[i].Signed()];
      }
    }

    method Sign(c: Crypto, signer: Account)
      modifies this`signature
      ensures Header(number, signature) == SignedHeader(c, number, txes, signer)
    {
      var leaves := LeafVector();
      signature := c.sign(signer, c.blockHash(number, leaves));
    }
  }
}
