/** An exact accounting law for every run, and when it amounts to conservation of value. */
module Conservation {
  import opened Text
  import opened Positions
  import opened Types
  import opened Ledger
  import opened Invariants
  import opened Sealing

  // ---------- sums over stored transactions ----------

  /** The value of the outputs of tx that are not marked as spent. */
  function Live(tx: Tx): nat {
    (if tx.out0.isSpent then 0 else tx.out0.amount) + (if tx.out1.isSpent then 0 else tx.out1.amount)
  }

  ghost function Sum<K>(m: map<K, Tx>): nat {
    if m == map[] then 0 else
      var k :| k in m; Live(m[k]) + Sum(m - {k})
  }

  lemma {:induction false} SumWithout<K>(m: map<K, Tx>, k: K)
    requires k in m
    ensures Sum(m) == Live(m[k]) + Sum(m - {k})
    decreases |m|
  {
    var j :| j in m && Sum(m) == Live(m[j]) + Sum(m - {j});
    if j != k {
      SumWithout(m - {j}, k);
      SumWithout(m - {k}, j);
      assert m - {j} - {k} == m - {k} - {j};
    }
  }

  lemma SumPut<K>(m: map<K, Tx>, k: K, tx: Tx)
    ensures Sum(m[k := tx]) + (if k in m then Live(m[k]) else 0) == Sum(m) + Live(tx)
  {
    SumWithout(m[k := tx], k);
    if k in m {
      SumWithout(m, k);
      assert m[k := tx] - {k} == m - {k};
    } else {
      assert m[k := tx] - {k} == m;
    }
  }

  function SumSeq(txs: seq<Tx>): nat {
    if txs == [] then 0 else SumSeq(txs[..|txs| - 1]) + Live(txs[|txs| - 1])
  }

  /** Splitting a sum at distinct keys ks, under which m holds txs. */
  lemma {:induction false} SumSplit<K>(m: map<K, Tx>, ks: seq<K>, txs: seq<Tx>, rest: map<K, Tx>)
    requires |ks| == |txs|
    requires forall i, j | 0 <= i < j < |ks| :: ks[i] != ks[j]
    requires forall i | 0 <= i < |ks| :: ks[i] in m && m[ks[i]] == txs[i]
    requires rest == map k | k in m && k !in ks :: m[k]
    ensures Sum(m) == Sum(rest) + SumSeq(txs)
    decreases |ks|
  {
    if ks == [] {
      assert rest == m;
    } else {
      var n := |ks| - 1;
      SumWithout(m, ks[n]);
      assert forall k :: k in ks <==> k in ks[..n] || k == ks[n];
      SumSplit(m - {ks[n]}, ks[..n], txs[..n], rest);
    }
  }

  // ---------- the books ----------

  /** Running totals: value deposited, fees paid, value counted twice because both inputs of a
      transaction named one output, value posted in outputs already marked as spent, and value of
      mempool transactions replaced under a colliding hash. */
  datatype Books = Books(deposited: nat, fees: nat, doubled: nat, preset: nat, lost: nat)

  function Doubled(s: State, tx: Tx): nat {
    if tx.DistinctInputs() then 0 else InAmount(s, tx.in1)
  }

  function Preset(tx: Tx): nat {
    tx.OutTotal() - Live(tx)
  }

  function Replaced(c: Crypto, s: State, tx: Tx): nat {
    if PoolKey(c, tx) in s.mempool then Live(s.mempool[PoolKey(c, tx)]) else 0
  }

  function Fee(s: State, tx: Tx): nat {
    if tx.OutTotal() <= InTotal(s, tx) then InTotal(s, tx) - tx.OutTotal() else 0
  }

  function Record(c: Crypto, s: State, b: Books, e: Event): Books {
    if Apply(c, s, e).status.Failed? then b else
    match e
    case Deposit(_, amount, _) => b.(deposited := b.deposited + amount)
    case Post(tx) => b.(
      fees := b.fees + Fee(s, tx),
      doubled := b.doubled + Doubled(s, tx),
      preset := b.preset + Preset(tx),
      lost := b.lost + Replaced(c, s, tx))
    case _ => b
  }

  function BooksOf(c: Crypto, run: seq<Event>): Books {
    if run == [] then Books(0, 0, 0, 0, 0) else
      var init := run[..|run| - 1];
      Record(c, Exec(c, init), BooksOf(c, init), run[|run| - 1])
  }

  /** The unspent value held in blocks and in the mempool. */
  ghost function Wealth(s: State): nat {
    Sum(s.txs) + Sum(s.mempool)
  }

  ghost predicate Balanced(s: State, b: Books) {
    Wealth(s) + b.fees + b.preset + b.lost == b.deposited + b.doubled
  }

  // ---------- each step ----------

  function LiveAmount(s: State, i: TxIn): nat {
    if i.IsNull() || !IsOut(s, i.ref) || OutAt(s, i.ref).isSpent then 0 else OutAt(s, i.ref).amount
  }

  lemma SpendInputSum(s: State, i: TxIn)
    requires i.IsNull() || IsOut(s, i.ref)
    ensures Sum(SpendInput(s, i).state.txs) + LiveAmount(s, i) == Sum(s.txs)
  {
    if !i.IsNull() {
      SumPut(s.txs, i.ref.tx, s.txs[i.ref.tx].Spend(i.ref.out));
    }
  }

  lemma SpendInputsSum(c: Crypto, s: State, tx: Tx)
    requires Acceptable(c, s, tx)
    ensures Sum(SpendInputs(s, tx).state.txs) + InTotal(s, tx) == Sum(s.txs) + Doubled(s, tx)
  {
    assert !tx.Input(0).IsNull() ==> IsOut(s, tx.Input(0).ref) && !OutAt(s, tx.Input(0).ref).isSpent;
    assert !tx.Input(1).IsNull() ==> IsOut(s, tx.Input(1).ref) && !OutAt(s, tx.Input(1).ref).isSpent;
    SpendInputSum(s, tx.in0);
    var a := SpendInput(s, tx.in0).state;
    SpendInputSum(a, tx.in1);
  }

  /** The exact change of value an accepted post makes. */
  lemma PostBalance(c: Crypto, s: State, tx: Tx)
    requires AddTx(c, s, tx).status == Done
    ensures Wealth(AddTx(c, s, tx).state) + Fee(s, tx) + Preset(tx) + Replaced(c, s, tx)
         == Wealth(s) + Doubled(s, tx)
  {
    VerdictSoundAndComplete(c, s, tx);
    SpendInputsSum(c, s, tx);
    SumPut(s.mempool, PoolKey(c, tx), tx);
    var a := SpendInputs(s, tx);
    assert a.state.mempool == s.mempool;
  }

  lemma SealBalance(c: Crypto, s: State, txs: seq<Tx>, signer: Account, t: State)
    requires Sealed(c, s, txs, signer, t) && OldBlocks(s)
    ensures Sum(t.txs) == Sum(s.txs) + SumSeq(txs)
  {
    var ks := seq(|txs|, (i: nat) => TxRef(s.cur, i));
    var rest := map k | k in t.txs && k !in ks :: t.txs[k];
    assert forall r | r in t.txs && r.blk == s.cur :: r == ks[r.idx];
    assert forall r | r in s.txs :: r !in ks;
    assert rest == s.txs;
    SumSplit(t.txs, ks, txs, rest);
  }

  lemma PoolSum(s: State)
    ensures Sum(s.mempool) == SumSeq(PoolTxs(s))
  {
    PoolOrderEnumerates(s);
    SumSplit(s.mempool, PoolOrder(s), PoolTxs(s), map[]);
  }

  lemma FixBalance(c: Crypto, s: State, signer: Account, t: State)
    requires Fixed(c, s, signer, t)
    ensures Wealth(t) == Wealth(s)
  {
    SealBalance(c, s.(mempool := map[]), PoolTxs(s), signer, t);
    PoolSum(s);
  }

  lemma DepositBalance(c: Crypto, s: State, owner: Address, amount: nat, signer: Account, t: State)
    requires Sealed(c, s, [DepositTx(owner, amount)], signer, t) && OldBlocks(s)
    ensures Wealth(t) == Wealth(s) + amount
  {
    var txs := [DepositTx(owner, amount)];
    SealBalance(c, s, txs, signer, t);
    assert txs[..0] == [];
    assert SumSeq(txs) == SumSeq(txs[..0]) + Live(txs[0]);
  }

  lemma QuietPutBalance(s: State, r: TxRef, tx: Tx)
    requires r in s.txs && Live(tx) == Live(s.txs[r])
    ensures Wealth(PutTx(s, r, tx)) == Wealth(s)
  {
    SumPut(s.txs, r, tx);
  }

  lemma ConfirmBalance(c: Crypto, s: State, pos: nat, confSig: Signature)
    ensures Wealth(ConfirmTx(c, s, pos, confSig).state) == Wealth(s)
  {
    if ConfirmTx(c, s, pos, confSig).status == Done {
      var p := ParsePosition(pos).value;
      var r := TxRef(p.blk, p.idx);
      QuietPutBalance(s, r, s.txs[r].Confirm(p.elem, confSig));
    }
  }

  lemma ExitBalance(s: State, pos: nat)
    ensures Wealth(ExitTxOut(s, pos).state) == Wealth(s)
  {
    if ExitTxOut(s, pos).status == Done {
      var p := ParsePosition(pos).value;
      var r := TxRef(p.blk, p.idx);
      QuietPutBalance(s, r, s.txs[r].Exit(p.elem));
    }
  }

  lemma DepositStepBalance(c: Crypto, s: State, b: Books, owner: Address, amount: nat, signer: Account)
    requires Inv(c, s) && s.cur + 1 < TWO64 && Balanced(s, b)
    ensures var e := Deposit(owner, amount, signer); Balanced(Step(c, s, e), Record(c, s, b, e))
  {
    DepositKeeps(c, s, owner, amount, signer);
    DepositBalance(c, s, owner, amount, signer, AddDepositBlock(c, s, owner, amount, signer).state);
  }

  lemma FixWealth(c: Crypto, s: State, signer: Account)
    requires Inv(c, s) && s.cur + 1 < TWO64
    ensures Wealth(AddBlock(c, s, signer).state) == Wealth(s)
  {
    if |s.mempool| == 0 {
      EmptyFixFails(c, s, signer);
    } else {
      FixDone(c, s, signer);
      FixBalance(c, s, signer, AddBlock(c, s, signer).state);
    }
  }

  lemma FixStepBalance(c: Crypto, s: State, b: Books, signer: Account)
    requires Inv(c, s) && s.cur + 1 < TWO64 && Balanced(s, b)
    ensures Balanced(Step(c, s, Fix(signer)), Record(c, s, b, Fix(signer)))
  {
    FixWealth(c, s, signer);
    assert Step(c, s, Fix(signer)) == AddBlock(c, s, signer).state;
    assert Record(c, s, b, Fix(signer)) == b;
  }

  lemma PostStepBalance(c: Crypto, s: State, b: Books, tx: Tx)
    requires Balanced(s, b)
    ensures Balanced(Step(c, s, Post(tx)), Record(c, s, b, Post(tx)))
  {
    AddTxAllOrNothing(c, s, tx);
    if AddTx(c, s, tx).status == Done { PostBalance(c, s, tx); }
  }

  lemma StepBalance(c: Crypto, s: State, b: Books, e: Event)
    requires Inv(c, s) && s.cur + 1 < TWO64 && Balanced(s, b)
    ensures Balanced(Step(c, s, e), Record(c, s, b, e))
  {
    match e
    case Deposit(owner, amount, signer) => DepositStepBalance(c, s, b, owner, amount, signer);
    case Fix(signer) => FixStepBalance(c, s, b, signer);
    case Post(tx) => PostStepBalance(c, s, b, tx);
    case Confirm(pos, confSig) => ConfirmBalance(c, s, pos, confSig);
    case Exit(pos) => ExitBalance(s, pos);
  }

  /** For every run, whatever was posted: unspent value, fees, preset and replaced value make up
      what was deposited plus what was counted twice. */
  lemma {:induction false} AccountingLaw(c: Crypto, run: seq<Event>)
    requires InRange(run)
    ensures Balanced(Exec(c, run), BooksOf(c, run))
  {
    if run != [] {
      var init := run[..|run| - 1];
      AccountingLaw(c, init);
      RunInv(c, init);
      StepBalance(c, Exec(c, init), BooksOf(c, init), run[|run| - 1]);
    }
  }

  /** An accepted post conserves value exactly when what it counts twice is what it marks as
      spent beforehand. */
  lemma PostConservesIff(c: Crypto, s: State, tx: Tx)
    requires AddTx(c, s, tx).status == Done && PoolKey(c, tx) !in s.mempool
    ensures Wealth(AddTx(c, s, tx).state) + Fee(s, tx) == Wealth(s) <==> Doubled(s, tx) == Preset(tx)
  {
    PostBalance(c, s, tx);
  }
}
