/** core/childchain.go over its database: a class whose methods read and write raw keys, proved to
    carry out the operations of the ledger. */
module ChildChain {
  import opened Wrappers
  import opened Text
  import opened Order
  import opened Positions
  import opened Types
  import opened Ledger
  import opened Invariants
  import opened Sealing
  import opened Utxos
  import opened Keys
  import opened Objects

  /** What getTxOut returns: an error, a nil output, or an output. */
  datatype OutLookup = NoTx | NoOutput | Output(out: TxOut)

  class Chain {
    const c: Crypto
    var kv: Store
    ghost var s: State             // what kv stands for
    ghost var run: seq<Event>      // every operation so far

    ghost predicate Rep()
      reads this
    {
      Represents(kv, s)
    }

    ghost predicate Valid()
      reads this
    {
      Rep() && s == Exec(c, run)
    }

    /** NewChildChain on an empty database, or on one that already holds the chain of a run. */
    constructor (c: Crypto, db: Store, ghost run: seq<Event>)
      requires (db == map[] && run == []) || Represents(db, Exec(c, run))
      ensures Valid() && this.run == run && this.c == c
      ensures db != map[] ==> kv == db
    {
      this.c := c;
      kv := if Raw(Current) in db then db else db[Raw(Current) := Number(1)];
      s := Exec(c, run);
      this.run := run;
      new;
      if db == map[] {
        FirstNumberRepresents();
      } else {
        assert Get(db, Raw(Current)) == Lookup(s, Current);
      }
    }

    /** Discard a database transaction: go back to the store as it was. */
    method Discard(before: Store, ghost s: State, ghost run: seq<Event>)
      requires Represents(before, s) && s == Exec(c, run)
      modifies this
      ensures Valid() && kv == before && this.s == s && this.run == run
    {
      kv := before;
      this.s := s;
      this.run := run;
    }

    // ---------- entries ----------

    method GetCurrentBlockNumber() returns (n: nat)
      requires Rep()
      ensures n == s.cur
    {
      assert Get(kv, Raw(Current)) == Lookup(s, Current);
      n := kv[Raw(Current)].n;
    }

    method SetCurrentBlockNumber(n: nat)
      requires Rep()
      modifies `kv, `s
      ensures Rep() && s == old(s).(cur := n)
    {
      SetKeeps(kv, s, Current, Number(n), s.(cur := n));
      kv := kv[Raw(Current) := Number(n)];
      s := s.(cur := n);
    }

    method SetBlockHeader(n: nat, h: Header)
      requires Rep()
      modifies `kv, `s
      ensures Rep() && s == old(s).(headers := old(s).headers[n := h])
    {
      SetKeeps(kv, s, HeaderKey(n), HeaderValue(h), s.(headers := s.headers[n := h]));
      kv := kv[Raw(HeaderKey(n)) := HeaderValue(h)];
      s := s.(headers := s.headers[n := h]);
    }

    method FindBlockHeader(n: nat) returns (h: Option<Header>)
      requires Rep()
      ensures h == if n in s.headers then Some(s.headers[n]) else None
    {
      assert Get(kv, Raw(HeaderKey(n))) == Lookup(s, HeaderKey(n));
      match Get(kv, Raw(HeaderKey(n))) {
        case Some(HeaderValue(header)) => h := Some(header);
        case _ => h := None;
      }
    }

    method FindTx(r: TxRef) returns (o: Option<Tx>)
      requires Rep()
      ensures o == if r in s.txs then Some(s.txs[r]) else None
    {
      assert Get(kv, Raw(TxKey(r))) == Lookup(s, TxKey(r));
      match Get(kv, Raw(TxKey(r))) {
        case Some(TxValue(tx)) => o := Some(tx);
        case _ => o := None;
      }
    }

    method FindTxOut(o: OutRef) returns (l: OutLookup)
      requires Rep()
      ensures l.NoTx? <==> o.tx !in s.txs
      ensures l.Output? <==> IsOut(s, o)
      ensures l.Output? ==> l.out == OutAt(s, o)
    {
      var tx := FindTx(o.tx);
      match tx {
        case None => l := NoTx;
        case Some(t) => l := if o.out < 2 then Output(t.Output(o.out)) else NoOutput;
      }
    }

    method SetTx(r: TxRef, tx: Tx)
      requires Rep()
      modifies `kv, `s
      ensures Rep() && s == PutTx(old(s), r, tx)
    {
      SetKeeps(kv, s, TxKey(r), TxValue(tx), PutTx(s, r, tx));
      kv := kv[Raw(TxKey(r)) := TxValue(tx)];
      s := PutTx(s, r, tx);
    }

    method SetToken(owner: Address, pos: nat, spender: nat)
      requires Rep()
      modifies `kv, `s
      ensures Rep() && s == old(s).(tokens := old(s).tokens[TokenId(owner, pos) := spender])
    {
      var id := TokenId(owner, pos);
      SetKeeps(kv, s, Token(id), PositionValue(spender), s.(tokens := s.tokens[id := spender]));
      kv := kv[Raw(Token(id)) := PositionValue(spender)];
      s := s.(tokens := s.tokens[id := spender]);
    }

    method PutInMempool(tx: Tx)
      requires Rep()
      modifies `kv, `s
      ensures Rep() && s == old(s).(mempool := old(s).mempool[PoolKey(c, tx) := tx])
    {
      var h := PoolKey(c, tx);
      SetKeeps(kv, s, PoolEntry(h), TxValue(tx), s.(mempool := s.mempool[h := tx]));
      kv := kv[Raw(PoolEntry(h)) := TxValue(tx)];
      s := s.(mempool := s.mempool[h := tx]);
    }

    method CountTxesInMempool() returns (cnt: nat)
      requires Rep()
      ensures cnt == |s.mempool|
    {
      var keys := ScanKeys(kv, POOL_PREFIX);
      cnt := 0;
      for i := 0 to |keys|
        invariant cnt == i
      {
        cnt := cnt + 1;
      }
      PoolScan(kv, s);
    }

    // ---------- AddTxToMempool ----------

    method ValidateTx(tx: Tx) returns (st: Status)
      requires Rep()
      ensures st == Verdict(c, s, tx)
      ensures st == Done <==> Acceptable(c, s, tx)
    {
      VerdictSoundAndComplete(c, s, tx);
      var nulls, iAmount, oAmount := 0, 0, 0;
      for j := 0 to 2
        invariant oAmount == (if j > 0 then tx.out0.amount else 0) + (if j > 1 then tx.out1.amount else 0)
      {
        oAmount := oAmount + tx.Output(j).amount;
      }
      for j := 0 to 2
        invariant nulls == (if j > 0 && tx.in0.IsNull() then 1 else 0) + (if j > 1 && tx.in1.IsNull() then 1 else 0)
        invariant iAmount == (if j > 0 then InAmount(s, tx.in0) else 0) + (if j > 1 then InAmount(s, tx.in1) else 0)
        invariant j > 0 ==> InputVerdict(c, s, tx, 0) == Done
        invariant j > 1 ==> InputVerdict(c, s, tx, 1) == Done
      {
        var i := tx.Input(j);
        if i.IsNull() {
          nulls := nulls + 1;
          continue;
        }
        var l := FindTxOut(i.ref);
        if !l.Output? { return Failed(InvalidTxIn); }
        if l.out.isSpent { return Failed(TxOutAlreadySpent); }
        if l.out.isExited { return Failed(TxOutAlreadyExited); }
        var signer := SignerAddress(c, tx, j);
        if signer.None? { return Failed(InvalidTxSignature); }
        if i.sig == NULL_SIGNATURE || signer.value != l.out.owner { return Failed(InvalidTxSignature); }
        iAmount := iAmount + l.out.amount;
      }
      if nulls == 2 { return Failed(InvalidTxIn); }
      if oAmount > iAmount { return Failed(InvalidTxBalance); }
      return Done;
    }

    /** One turn of the spend loop: read, modify, write. */
    method SpendOne(i: TxIn) returns (st: Status)
      requires Rep()
      modifies `kv, `s
      ensures Rep() && Outcome(s, st) == SpendInput(old(s), i)
    {
      if i.IsNull() { return Done; }
      var found := FindTx(i.ref.tx);
      if found.None? { return Failed(InvalidTxIn); }
      var tx := new TxObject.Decode(found.value);
      st := tx.SpendOutput(i.ref.out);
      if st == Failed(InvalidTxOutIndex) { return Failed(InvalidTxIn); }
      SetTx(i.ref.tx, tx.Value());
    }

    method Admit(tx: Tx) returns (st: Status)
      requires Rep()
      modifies `kv, `s
      ensures Rep() && Outcome(s, st) == AddTx(c, old(s), tx)
    {
      var cnt := CountTxesInMempool();
      if cnt >= MEMPOOL_SIZE { return Failed(MempoolFull); }
      st := ValidateTx(tx);
      if st.Failed? { return; }
      for j := 0 to 2
        invariant Rep()
        invariant j == 0 ==> s == old(s)
        invariant j == 1 ==> Outcome(s, Done) == SpendInput(old(s), tx.in0)
        invariant j == 2 ==> Outcome(s, Done) == SpendInputs(old(s), tx)
      {
        st := SpendOne(tx.Input(j));
        if st.Failed? { return; }
      }
      PutInMempool(tx);
      st := Done;
    }

    method AddTxToMempool(tx: Tx) returns (st: Status)
      requires Valid()
      modifies this
      ensures Valid() && run == old(run) + [Post(tx)]
      ensures Outcome(s, st) == AddTx(c, old(s), tx)
    {
      st := Admit(tx);
      ExecAppend(c, run, Post(tx));
      run := run + [Post(tx)];
    }

    // ---------- AddBlock and AddDepositBlock ----------

    method DeleteFromMempool(h: string)
      requires Rep()
      modifies `kv, `s
      ensures Rep() && s == old(s).(mempool := old(s).mempool - {h})
    {
      DeleteKeeps(kv, s, PoolEntry(h), s.(mempool := s.mempool - {h}));
      kv := kv - {Raw(PoolEntry(h))};
      s := s.(mempool := s.mempool - {h});
    }

    /** One turn of an iterator that appends what it reads to a block. */
    static method CollectOne(b: BlockObject, kv: Store, keys: seq<string>, ghost txs: seq<Tx>, i: nat)
      returns (st: Status)
      requires Reads(kv, keys, txs) && i < |keys| && i <= MAX_BLOCK_TXES && b.txes == txs[..i]
      modifies b`txes
      ensures i == MAX_BLOCK_TXES ==> st == Failed(BlockTxesNumExceedsLimit) && b.txes == txs[..i]
      ensures i < MAX_BLOCK_TXES ==> st == Done && b.txes == txs[..i + 1]
    {
      st := b.AddTx(kv[keys[i]].tx);
    }

    /** fixCurrentBlock: collect the mempool into a block and delete what is collected. The iterator
        runs over the keys as they were when it was opened. */
    method FixCurrentBlock() returns (b: BlockObject, st: Status)
      requires Rep()
      modifies `kv, `s
      ensures Rep() && fresh(b) && b.number == old(s).cur
      ensures if |old(s).mempool| > MAX_BLOCK_TXES
        then st == Failed(BlockTxesNumExceedsLimit) && s == Drained(old(s), MAX_BLOCK_TXES)
        else st == Done && s == old(s).(mempool := map[]) && b.txes == PoolTxs(old(s))
    {
      var n := GetCurrentBlockNumber();
      b, st := BlockObject.NewBlock([], n);
      var snapshot := kv;
      var keys := ScanKeys(snapshot, POOL_PREFIX);
      PoolScanReads(kv, s);
      ghost var s0, txs := s, PoolTxs(s);
      DrainedNone(s0);
      for i := 0 to |keys|
        invariant keys == Shift(POOL_PREFIX, PoolOrder(s0)) && Reads(snapshot, keys, txs)
        invariant Rep() && s == Drained(s0, i) && i <= MAX_BLOCK_TXES
        invariant fresh(b) && b.number == n && b.txes == txs[..i]
      {
        st := CollectOne(b, snapshot, keys, txs, i);
        if st.Failed? { return; }
        DrainedNext(s0, i);
        ShiftStrips(POOL_PREFIX, PoolOrder(s0), i);
        DeleteFromMempool(keys[i][|POOL_PREFIX|..]);
      }
      assert txs[..|keys|] == txs;
      DrainedAll(s0);
      st := Done;
    }

    /** One turn of the outer loop of addBlock. */
    method StoreOne(r: TxRef, tx: Tx) returns (st: Status)
      requires Rep()
      modifies `kv, `s
      ensures Rep() && Outcome(s, st) == StoreTx(old(s), r, tx)
    {
      for j := 0 to 2
        invariant Rep()
        invariant j == 0 ==> s == old(s)
        invariant j == 1 ==> Outcome(s, Done) == IndexInput(old(s), r, tx, 0)
        invariant j == 2 ==>
          IndexInput(old(s), r, tx, 0).status == Done
          && Outcome(s, Done) == IndexInput(IndexInput(old(s), r, tx, 0).state, r, tx, 1)
      {
        var i := tx.Input(j);
        if i.IsNull() { continue; }
        var l := FindTxOut(i.ref);
        if l.NoTx? { return Failed(KeyNotFound); }
        if l.NoOutput? { return Failed(NilDereference); }
        SetToken(l.out.owner, PositionOf(i.ref), InPosition(r, j));
      }
      ghost var s1 := s;
      for j := 0 to 2
        invariant Rep()
        invariant j == 0 ==> s == s1
        invariant j == 1 ==> s == IndexOutput(s1, r, tx, 0)
        invariant j == 2 ==> s == IndexOutput(IndexOutput(s1, r, tx, 0), r, tx, 1)
      {
        SetToken(tx.Output(j).owner, PositionOf(OutRef(r, j)), 0);
      }
      SetTx(r, tx);
      st := Done;
    }

    /** addBlock and incrementCurrentBlockNumber, for a block signed under the current number. */
    method Append(b: BlockObject, ghost signer: Account) returns (st: Status)
      requires Rep() && b.number == s.cur
      requires Header(b.number, b.signature) == SignedHeader(c, b.number, b.txes, signer)
      modifies `kv, `s
      ensures Rep() && Outcome(s, st) == Seal(c, old(s), b.txes, signer)
    {
      for i := 0 to |b.txes|
        invariant Rep()
        invariant StoreFrom(old(s), b.number, b.txes, 0) == StoreFrom(s, b.number, b.txes, i)
        invariant s.cur == b.number
      {
        ghost var before := s;
        st := StoreOne(TxRef(b.number, i), b.txes[i]);
        StoreTxKeepsCur(before, TxRef(b.number, i), b.txes[i]);
        if st.Failed? { return; }
      }
      SetBlockHeader(b.number, Header(b.number, b.signature));
      var n := GetCurrentBlockNumber();
      SetCurrentBlockNumber(Wrap(n + 1));
      st := Done;
    }

    method FixAndAppend(signer: Account) returns (st: Status)
      requires Rep()
      modifies `kv, `s
      ensures Rep() && Outcome(s, st) == Ledger.AddBlock(c, old(s), signer)
    {
      var b;
      b, st := FixCurrentBlock();
      if st.Failed? { return; }
      if |b.txes| == 0 {
        assert s == old(s);
        return Failed(EmptyBlock);
      }
      b.Sign(c, signer);
      st := Append(b, signer);
    }

    method AddBlock(signer: Account) returns (r: Result<nat, Error>)
      requires Valid()
      modifies this
      ensures Valid() && run == old(run) + [Fix(signer)]
      ensures s == Ledger.AddBlock(c, old(s), signer).state
      ensures r == match Ledger.AddBlock(c, old(s), signer).status
                   case Done => Ok(old(s).cur)
                   case Failed(e) => Err(e)
    {
      var n := GetCurrentBlockNumber();
      var st := FixAndAppend(signer);
      ExecAppend(c, run, Fix(signer));
      run := run + [Fix(signer)];
      match st {
        case Done => r := Ok(n);
        case Failed(e) => r := Err(e);
      }
    }

    method AddDepositBlock(owner: Address, amount: nat, signer: Account) returns (r: Result<nat, Error>)
      requires Valid()
      modifies this
      ensures Valid() && run == old(run) + [Deposit(owner, amount, signer)]
      ensures s == Ledger.AddDepositBlock(c, old(s), owner, amount, signer).state
      ensures r == match Ledger.AddDepositBlock(c, old(s), owner, amount, signer).status
                   case Done => Ok(old(s).cur)
                   case Failed(e) => Err(e)
    {
      var tx := new TxObject();
      var st := tx.SetOutput(0, NewTxOut(owner, amount));
      var n := GetCurrentBlockNumber();
      var b;
      b, st := BlockObject.NewBlock([tx.Value()], n);
      b.Sign(c, signer);
      st := Append(b, signer);
      ExecAppend(c, run, Deposit(owner, amount, signer));
      run := run + [Deposit(owner, amount, signer)];
      match st {
        case Done => r := Ok(n);
        case Failed(e) => r := Err(e);
      }
    }

    // ---------- ConfirmTx and ExitTxOut ----------

    method ConfirmInput(pos: nat, confSig: Signature) returns (st: Status)
      requires Rep()
      modifies `kv, `s
      ensures Rep() && Outcome(s, st) == Ledger.ConfirmTx(c, old(s), pos, confSig)
    {
      var parsed := ParsePosition(pos);
      if parsed.None? { return Failed(DivideByZero); }
      var r, j := TxRef(parsed.value.blk, parsed.value.idx), parsed.value.elem;
      var found := FindTx(r);
      if found.None? { return Failed(TxNotFound); }
      if j >= 2 { return Failed(TxInNotFound); }
      var tx := new TxObject.Decode(found.value);
      var i := tx.inputs[j];
      if i.IsNull() { return Failed(NullTxInConfirmation); }
      var l := FindTxOut(i.ref);
      if !l.Output? { return Failed(InvalidTxIn); }
      var signer := c.recover(ConfirmationHash(c, tx.Value()), confSig);
      if signer.None? || signer.value != l.out.owner { return Failed(InvalidTxConfirmationSignature); }
      st := tx.SetConfirmationSignature(j, confSig);
      SetTx(r, tx.Value());
    }

    method ConfirmTx(pos: nat, confSig: Signature) returns (st: Status)
      requires Valid()
      modifies this
      ensures Valid() && run == old(run) + [Confirm(pos, confSig)]
      ensures Outcome(s, st) == Ledger.ConfirmTx(c, old(s), pos, confSig)
    {
      st := ConfirmInput(pos, confSig);
      ExecAppend(c, run, Confirm(pos, confSig));
      run := run + [Confirm(pos, confSig)];
    }

    method ExitOutput(pos: nat) returns (st: Status)
      requires Rep()
      modifies `kv, `s
      ensures Rep() && Outcome(s, st) == Ledger.ExitTxOut(old(s), pos)
    {
      var parsed := ParsePosition(pos);
      if parsed.None? { return Failed(DivideByZero); }
      var r := TxRef(parsed.value.blk, parsed.value.idx);
      var found := FindTx(r);
      if found.None? { return Failed(TxNotFound); }
      var tx := new TxObject.Decode(found.value);
      st := tx.ExitOutput(parsed.value.elem);
      if st == Failed(InvalidTxOutIndex) { return Failed(TxOutNotFound); }
      SetTx(r, tx.Value());
    }

    method ExitTxOut(pos: nat) returns (st: Status)
      requires Valid()
      modifies this
      ensures Valid() && run == old(run) + [Exit(pos)]
      ensures Outcome(s, st) == Ledger.ExitTxOut(old(s), pos)
    {
      st := ExitOutput(pos);
      ExecAppend(c, run, Exit(pos));
      run := run + [Exit(pos)];
    }

    // ---------- queries ----------

    method GetBlock(n: nat) returns (r: Result<Block, Error>)
      requires Rep()
      ensures r == Ledger.GetBlock(s, n)
    {
      var h := FindBlockHeader(n);
      if h.None? { return Err(BlockNotFound); }
      var b := new BlockObject([], n);
      var keys := ScanKeys(kv, TxPrefix(n));
      ghost var txs := ScanTxs(s, n);
      TxScanReads(kv, s, n);
      for i := 0 to |keys|
        invariant fresh(b) && i <= MAX_BLOCK_TXES && b.txes == txs[..i]
      {
        var st := CollectOne(b, kv, keys, txs, i);
        if st.Failed? { return Err(BlockTxesNumExceedsLimit); }
      }
      assert txs[..|keys|] == txs;
      return Ok(Block(h.value, b.txes));
    }

    method GetTx(txPos: nat) returns (r: Result<Tx, Error>)
      requires Rep()
      ensures r == var (blk, idx) := ParseTxPosition(txPos);
        if TxRef(blk, idx) in s.txs then Ok(s.txs[TxRef(blk, idx)]) else Err(TxNotFound)
    {
      var (blk, idx) := ParseTxPosition(txPos);
      var found := FindTx(TxRef(blk, idx));
      match found {
        case None => r := Err(TxNotFound);
        case Some(tx) => r := Ok(tx);
      }
    }

    method GetTxProof(txPos: nat) returns (r: Result<ProofRequest, Error>)
      requires Rep()
      ensures r == Ledger.GetTxProof(s, txPos)
    {
      var (blk, idx) := ParseTxPosition(txPos);
      var found := FindTx(TxRef(blk, idx));
      if found.None? { return Err(TxNotFound); }
      var b := GetBlock(blk);
      match b {
        case Err(BlockNotFound) => return Err(KeyNotFound);
        case Err(e) => return Err(e);
        case Ok(block) =>
          var o := new BlockObject(block.txs, blk);
          var leaves := o.LeafVector();
          return Ok(ProofRequest(leaves, idx));
      }
    }

    /** One turn of the token scan. */
    method VisitToken(numeral: string) returns (r: Result<Option<nat>, Error>)
      requires Rep()
      ensures r == Visit(s, numeral)
    {
      var pos := ParseUint64(numeral);
      if pos.None? { return Err(NotANumber); }
      var p := ParsePosition(pos.value);
      if p.None? { return Err(DivideByZero); }
      var l := FindTxOut(OutRef(TxRef(p.value.blk, p.value.idx), p.value.elem));
      match l {
        case NoTx => r := Err(KeyNotFound);
        case NoOutput => r := Err(NilDereference);
        case Output(out) => r := Ok(if out.isSpent || out.isExited then None else pos);
      }
    }

    /** Append the position the turn reports, if any. */
    method CollectToken(ghost ks: seq<string>, ghost i: nat, numeral: string, poses: seq<nat>)
      returns (r: Result<seq<nat>, Error>)
      requires Rep() && i < |ks| && ks[i] == numeral && Collected(s, ks, i) == Ok(poses)
      ensures r == Collected(s, ks, i + 1)
    {
      var v := VisitToken(numeral);
      match v {
        case Err(e) => r := Err(e);
        case Ok(None) => r := Ok(poses);
        case Ok(Some(pos)) => r := Ok(poses + [pos]);
      }
    }

    method GetUTXOPositions(owner: Address) returns (r: Result<seq<nat>, Error>)
      requires Rep()
      ensures r == GetUtxos(s, owner)
    {
      var prefix := TokenPrefix(owner);
      var keys := ScanKeys(kv, prefix);
      TokenKeyScan(kv, s, owner);
      ghost var ks := TokenScan(s, owner);
      var poses := [];
      for i := 0 to |keys|
        invariant keys == Shift(prefix, ks) && Collected(s, ks, i) == Ok(poses)
      {
        ShiftStrips(prefix, ks, i);
        var collected := CollectToken(ks, i, keys[i][|prefix|..], poses);
        if collected.Err? {
          CollectedFails(s, ks, i + 1, |ks|);
          return collected;
        }
        poses := collected.value;
      }
      return Ok(poses);
    }
  }

  // ---------- facts about the specification functions ----------

  lemma FirstNumberRepresents()
    ensures Represents(map[Raw(Current) := Number(1)], GENESIS)
  {
    var kv: Store := map[Raw(Current) := Number(1)];
    forall k: Key ensures Get(kv, Raw(k)) == Lookup(GENESIS, k) {
      if Raw(k) == Raw(Current) { RawInjective(k, Current); }
    }
  }

  lemma DrainedNone(s: State)
    ensures Drained(s, 0) == s
  {
    assert Elements(PoolOrder(s)[..0]) == {};
  }

  lemma ElementsNext(ks: seq<string>, i: nat)
    requires i < |ks|
    ensures Elements(ks[..i + 1]) == Elements(ks[..i]) + {ks[i]}
  {
    assert ks[..i + 1] == ks[..i] + [ks[i]];
  }

  lemma MinusNext(m: map<string, Tx>, ks: set<string>, k: string)
    ensures m - (ks + {k}) == m - ks - {k}
  {
  }

  lemma MinusAll(m: map<string, Tx>, ks: set<string>)
    requires forall k | k in m :: k in ks
    ensures m - ks == map[]
  {
  }

  lemma DrainedNext(s: State, i: nat)
    requires i < |PoolOrder(s)|
    ensures Drained(s, i + 1) == Drained(s, i).(mempool := Drained(s, i).mempool - {PoolOrder(s)[i]})
  {
    ElementsNext(PoolOrder(s), i);
    MinusNext(s.mempool, Elements(PoolOrder(s)[..i]), PoolOrder(s)[i]);
  }

  lemma DrainedAll(s: State)
    ensures Drained(s, |s.mempool|) == s.(mempool := map[])
  {
    var ks := PoolOrder(s);
    assert ks[..|ks|] == ks;
    PoolOrderEnumerates(s);
    MinusAll(s.mempool, Elements(ks));
  }

  lemma StoreTxKeepsCur(s: State, r: TxRef, tx: Tx)
    ensures StoreTx(s, r, tx).state.cur == s.cur
  {
  }

  /** Once a turn has failed, the whole scan has. */
  lemma {:induction false} CollectedFails(s: State, ks: seq<string>, i: nat, n: nat)
    requires i <= n <= |ks|
    ensures Collected(s, ks, i).Err? ==> Collected(s, ks, n) == Collected(s, ks, i)
  {
    if i < n { CollectedFails(s, ks, i, n - 1); }
  }
}
