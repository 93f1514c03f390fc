/** The command-line transfer: spend one output, send an amount, keep the change. */
module Wallet {
  import opened Wrappers
  import opened Text
  import opened Positions
  import opened Types
  import opened Ledger
  import opened Invariants
  import opened Sealing
  import opened Conservation
  import opened Tokens
  import opened Utxos
  import opened Objects

  /** A run-time panic, an amount the output does not cover, or one that cannot be encoded. */
  datatype TransferError = Panic(error: Error) | InvalidAmount | NegativeAmount

  /** The transfer of amount out of an output, signed by the sender. */
  function Transfer(c: Crypto, ref: OutRef, o: TxOut, to: Address, amount: nat, signer: Account): Tx
    requires amount <= o.amount
  {
    var change := if o.amount > amount then NewTxOut(o.owner, o.amount - amount) else NewTxOut(NULL_ADDRESS, 0);
    var bare := Tx(NewTxIn(ref), NewTxIn(NULL_REF), NewTxOut(to, amount), change);
    bare.(in0 := bare.in0.(sig := c.sign(signer, TxHash(c, bare))))
  }

  /** The transfer the wallet makes of the output at pos, whose transaction is inTx. A negative amount
      passes the check and is refused when the transaction is encoded for signing. */
  function TransferFrom(c: Crypto, inTx: Tx, pos: nat, to: Address, amount: int, signer: Account)
    : Result<Tx, TransferError>
  {
    match ParsePosition(pos)
    case None => Err(Panic(DivideByZero))
    case Some(p) =>
      if p.elem >= 2 then Err(Panic(NilDereference))
      else if amount > inTx.Output(p.elem).amount then Err(InvalidAmount)
      else if amount < 0 then Err(NegativeAmount)
      else Ok(Transfer(c, OutRef(TxRef(p.blk, p.idx), p.elem), inTx.Output(p.elem), to, amount, signer))
  }

  /** pos parses to one of the two outputs of inTx, and amount is between 0 and what that output holds. */
  predicate Covers(inTx: Tx, pos: nat, amount: int) {
    && pos >= 10_000
    && var elem := pos % 10_000 % (pos / 10_000);
       && (elem == 0 || elem == 1)
       && 0 <= amount <= (if elem == 0 then inTx.out0 else inTx.out1).amount
  }

  /** tx moves exactly amount from the output at pos to its receiver and the rest, if any, back to the
      owner, signed over its own hash. */
  predicate Moves(c: Crypto, inTx: Tx, pos: nat, to: Address, amount: int, signer: Account, tx: Tx)
    requires Covers(inTx, pos, amount)
  {
    var elem := pos % 10_000 % (pos / 10_000);
    var o := if elem == 0 then inTx.out0 else inTx.out1;
    var core := TxCore(tx.in0.ref, tx.in1.ref,
                       OutCore(tx.out0.owner, tx.out0.amount), OutCore(tx.out1.owner, tx.out1.amount));
    && tx.in0 == TxIn(OutRef(TxRef(pos / 1_000_000_000, pos / 10_000 % 100_000), elem),
                      c.sign(signer, c.txHash(core)), 0)
    && tx.in1 == TxIn(OutRef(TxRef(0, 0), 0), 0, 0)
    && tx.out0 == TxOut(to, amount, false, false)
    && tx.out1 == (if amount < o.amount then TxOut(o.owner, o.amount - amount, false, false)
                   else TxOut(0, 0, false, false))
  }

  /** Why a transfer is refused. */
  predicate Refuses(inTx: Tx, pos: nat, amount: int, e: TransferError) {
    if pos < 10_000 then e == Panic(DivideByZero)
    else
      var elem := pos % 10_000 % (pos / 10_000);
      if elem >= 2 then e == Panic(NilDereference)
      else if amount > (if elem == 0 then inTx.out0 else inTx.out1).amount then e == InvalidAmount
      else amount < 0 && e == NegativeAmount
  }

  lemma TransferIsSigned(c: Crypto, ref: OutRef, o: TxOut, to: Address, amount: nat, signer: Account)
    requires amount <= o.amount
    ensures var tx := Transfer(c, ref, o, to, amount, signer);
      var core := TxCore(tx.in0.ref, tx.in1.ref,
                         OutCore(tx.out0.owner, tx.out0.amount), OutCore(tx.out1.owner, tx.out1.amount));
      && tx.in0 == TxIn(ref, c.sign(signer, c.txHash(core)), 0)
      && tx.in1 == TxIn(OutRef(TxRef(0, 0), 0), 0, 0)
  {
  }

  /** The wallet builds a transfer exactly for the amounts the output at pos covers. */
  lemma TransferAnswers(c: Crypto, inTx: Tx, pos: nat, to: Address, amount: int, signer: Account)
    ensures var r := TransferFrom(c, inTx, pos, to, amount, signer);
      && (r.Ok? <==> Covers(inTx, pos, amount))
      && (r.Ok? ==> Moves(c, inTx, pos, to, amount, signer, r.value))
      && (r.Err? ==> Refuses(inTx, pos, amount, r.error))
  {
    if pos >= 10_000 {
      ParsedDigits(pos);
      var p := ParsePosition(pos).value;
      if Covers(inTx, pos, amount) {
        TransferIsSigned(c, OutRef(TxRef(p.blk, p.idx), p.elem), inTx.Output(p.elem), to, amount, signer);
      }
    }
  }

  /** cmdTxPost, given the transaction the server returned for the position. */
  method BuildTransfer(c: Crypto, inTx: Tx, pos: nat, to: Address, amount: int, signer: Account)
    returns (r: Result<Tx, TransferError>)
    ensures r == TransferFrom(c, inTx, pos, to, amount, signer)
    ensures r.Ok? <==> Covers(inTx, pos, amount)
    ensures r.Ok? ==> Moves(c, inTx, pos, to, amount, signer, r.value)
    ensures r.Err? ==> Refuses(inTx, pos, amount, r.error)
  {
    TransferAnswers(c, inTx, pos, to, amount, signer);
    var parsed := ParsePosition(pos);
    if parsed.None? { return Err(Panic(DivideByZero)); }
    var p := parsed.value;
    if p.elem >= 2 { return Err(Panic(NilDereference)); }
    var o := inTx.Output(p.elem);
    if amount > o.amount { return Err(InvalidAmount); }
    var change := o.amount - amount;
    if amount < 0 { return Err(NegativeAmount); }
    var tx := new TxObject();
    var st := tx.SetInput(0, NewTxIn(OutRef(TxRef(p.blk, p.idx), p.elem)));
    st := tx.SetOutput(0, NewTxOut(to, amount));
    if change > 0 {
      st := tx.SetOutput(1, NewTxOut(o.owner, change));
    }
    ghost var bare := tx.Value();
    st := tx.Sign(c, 0, signer);
    assert TxHash(c, tx.Value()) == TxHash(c, bare);
    return Ok(tx.Value());
  }

  /** The transfer of a live output by its owner is accepted, is fresh, and pays no fee. */
  lemma TransferAccepted(c: Crypto, s: State, ref: OutRef, to: Address, amount: nat, signer: Account)
    requires Honest(c) && Inv(c, s) && |s.mempool| < MEMPOOL_SIZE
    requires IsOut(s, ref) && !OutAt(s, ref).isSpent && !OutAt(s, ref).isExited
    requires OutAt(s, ref).owner == c.address(signer) && amount <= OutAt(s, ref).amount
    ensures var tx := Transfer(c, ref, OutAt(s, ref), to, amount, signer);
      tx.Fresh() && AddTx(c, s, tx).status == Done && Fee(s, tx) == 0
  {
    var tx := Transfer(c, ref, OutAt(s, ref), to, amount, signer);
    assert ref != NULL_REF by { assert 1 <= ref.tx.blk; }
    assert Authorised(c, tx, 0, OutAt(s, ref).owner);
    assert tx.in1.IsNull() && Acceptable(c, s, tx);
    AddTxAllOrNothing(c, s, tx);
  }

  /** tx spends o and nothing else, pays amount to the recipient and returns the rest to the owner. */
  ghost predicate Pays(s: State, o: OutRef, to: Address, amount: nat, tx: Tx)
    requires IsOut(s, o)
  {
    && tx.in0.ref == o && tx.in1.IsNull()
    && tx.out0.owner == to && tx.out0.amount == amount
    && tx.out0.amount + tx.out1.amount == OutAt(s, o).amount
    && (tx.out1.amount > 0 ==> tx.out1.owner == OutAt(s, o).owner)
  }

  /** In every reachable state, what the wallet builds from the position of a live output, for its
      owner and any amount the output covers, pays as asked, is accepted and pays no fee. */
  lemma WalletTransferAccepted(c: Crypto, run: seq<Event>, o: OutRef, to: Address, amount: nat, signer: Account)
    requires Honest(c) && InRange(run) && PositionsFit(Exec(c, run)) && |Exec(c, run).mempool| < MEMPOOL_SIZE
    requires LiveOut(Exec(c, run), c.address(signer), o) && amount <= OutAt(Exec(c, run), o).amount
    ensures var s := Exec(c, run); var r := TransferFrom(c, s.txs[o.tx], PositionOf(o), to, amount, signer);
      && r.Ok? && r.value.Fresh() && Pays(s, o, to, amount, r.value)
      && AddTx(c, s, r.value).status == Done && Fee(s, r.value) == 0
  {
    var s := Exec(c, run);
    RunInv(c, run);
    ShapeAddressable(s);
    PositionParses(s, o);
    assert OutRef(TxRef(CoordOf(o).blk, CoordOf(o).idx), CoordOf(o).elem) == o;
    TransferAccepted(c, s, o, to, amount, signer);
  }
}
