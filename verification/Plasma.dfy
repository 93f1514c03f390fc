/** The application: the handlers of app/handler_block.go and app/plasma.go over the child chain's
    database and the contract. */
module Plasma {
  import opened Wrappers
  import opened Text
  import opened Positions
  import opened Types
  import Ledger
  import opened ChildChain
  import opened Objects
  import B = Bridge

  datatype HandlerError =
    | BlockchainNotSynchronized | ChildError(error: Error) | MerkleTreeError
    | RootChainError | DatabaseError

  class Plasma {
    const operator: Account
    const chain: Chain
    var root: B.Root
    var queue: seq<B.DepositCreated>

    ghost predicate Valid()
      reads this, chain
    {
      chain.Valid()
    }

    ghost function World(): B.World
      reads this, chain
    {
      B.World(root, queue, chain.s)
    }

    constructor (operator: Account, chain: Chain)
      requires chain.Valid() && chain.run == []
      ensures this.operator == operator && this.chain == chain && Valid() && World() == B.START
    {
      this.operator := operator;
      this.chain := chain;
      this.root := B.Root(1, map[]);
      this.queue := [];
    }

    /** Deposits accepted by the contract; each emits an event. */
    method Environment(deposits: seq<B.Request>)
      requires Valid()
      modifies this
      ensures Valid() && World() == B.RootDeposits(old(World()), deposits)
    {
      for i := 0 to |deposits|
        invariant World() == B.RootDeposits(old(World()), deposits[..i])
      {
        assert deposits[..i + 1][..i] == deposits[..i];
        var d := deposits[i];
        queue := queue + [B.DepositCreated(d.owner, d.amount, root.next)];
        root := B.Append(root, B.DepositRoot(d.owner, d.amount));
      }
      assert deposits[..|deposits|] == deposits;
    }

    method CurrentPlasmaBlockNumber() returns (n: nat)
      ensures n == Wrap(root.next)
    {
      n := Wrap(root.next);
    }

    method CommitPlasmaBlockRoot(h: Hash)
      modifies `root
      ensures root == B.Append(old(root), B.CommittedRoot(h))
    {
      root := B.Append(root, B.CommittedRoot(h));
    }

    /** Add the block inside the open transaction and compute its Merkle root. */
    method BuildBlock() returns (r: Result<Hash, HandlerError>, n: nat)
      requires Valid()
      modifies chain
      ensures Valid() && n == old(chain.s).cur
      ensures r.Ok? <==> B.PrepareBlock(chain.c, operator, old(chain.s)).Some?
      ensures r.Ok? ==> B.PrepareBlock(chain.c, operator, old(chain.s)) == Some((chain.s, r.value))
      ensures r.Err? ==> r.error.ChildError? || r.error.MerkleTreeError?
      ensures match Ledger.AddBlock(chain.c, old(chain.s), operator).status
              case Failed(e) => r == Err(ChildError(e))
              case Done => true
      ensures chain.s == Ledger.AddBlock(chain.c, old(chain.s), operator).state
    {
      n := chain.GetCurrentBlockNumber();
      var added := chain.AddBlock(operator);
      if added.Err? { return Err(ChildError(added.error)), n; }
      var block := chain.GetBlock(n);
      if block.Err? { return Err(ChildError(block.error)), n; }
      var b := new BlockObject(block.value.txs, n);
      var leaves := b.LeafVector();
      var h := chain.c.merkleRoot(leaves);
      if h.None? { return Err(MerkleTreeError), n; }
      return Ok(h.value), n;
    }

    /** The same, discarding the transaction when something fails. */
    method BuildOrDiscard() returns (r: Result<Hash, HandlerError>)
      requires Valid()
      modifies chain
      ensures Valid()
      ensures match B.PrepareBlock(chain.c, operator, old(chain.s))
              case Some((child, h)) => chain.s == child && r == Ok(h)
              case None => chain.s == old(chain.s) && r.Err? && (r.error.ChildError? || r.error.MerkleTreeError?)
      ensures match Ledger.AddBlock(chain.c, old(chain.s), operator).status
              case Failed(e) => r == Err(ChildError(e))
              case Done => true
    {
      var before := chain.kv;
      ghost var s, run := chain.s, chain.run;
      var n;
      r, n := BuildBlock();
      if r.Err? { chain.Discard(before, s, run); }
    }

    /** Add the block, commit its root to the contract, and only then commit the database transaction;
        any error discards it. */
    method SettleBlock(fate: B.Fate) returns (r: Result<nat, HandlerError>)
      requires Valid() && !fate.NoNumber?
      modifies `root, chain
      ensures Valid()
      ensures World() == B.Settle(old(World()), B.PrepareBlock(chain.c, operator, old(chain.s)), fate)
      ensures r.Ok? <==> fate.Smooth? && B.PrepareBlock(chain.c, operator, old(chain.s)).Some?
      ensures if r.Ok? then r.value == old(chain.s).cur else r.error != BlockchainNotSynchronized
      ensures match Ledger.AddBlock(chain.c, old(chain.s), operator).status
              case Failed(e) => r == Err(ChildError(e))
              case Done => true
      ensures B.PrepareBlock(chain.c, operator, old(chain.s)).Some? ==>
        (fate.RootRefuses? ==> r == Err(RootChainError)) && (fate.CommitFails? ==> r == Err(DatabaseError))
    {
      var before := chain.kv;
      ghost var s, run := chain.s, chain.run;
      var n := chain.GetCurrentBlockNumber();
      var built := BuildOrDiscard();
      if built.Err? { return Err(built.error); }
      if fate.RootRefuses? {
        chain.Discard(before, s, run);
        return Err(RootChainError);
      }
      CommitPlasmaBlockRoot(built.value);
      if fate.CommitFails? {
        chain.Discard(before, s, run);
        return Err(DatabaseError);
      }
      return Ok(n);
    }

    /** PostBlockHandler: compare the numbers, then settle a block. between is what the contract accepts
        after its counter was read, fate what the outside calls answer. */
    method PostBlockHandler(between: seq<B.Request>, fate: B.Fate) returns (r: Result<nat, HandlerError>)
      requires Valid()
      modifies this, chain
      ensures Valid() && World() == B.PostBlock(chain.c, operator, old(World()), between, fate)
      ensures r.Ok? <==> fate.Smooth? && B.Prepare(chain.c, operator, old(World()).child, old(root).next).Some?
      ensures r.Ok? ==> r.value == old(World()).child.cur
      ensures r == Err(BlockchainNotSynchronized) <==>
        !fate.NoNumber? && Wrap(old(root).next) != old(World()).child.cur
      ensures fate.NoNumber? ==> r == Err(RootChainError)
      ensures !fate.NoNumber? && Wrap(old(root).next) == old(World()).child.cur
              && Ledger.AddBlock(chain.c, old(World()).child, operator).status.Failed? ==>
        r == Err(ChildError(Ledger.AddBlock(chain.c, old(World()).child, operator).status.error))
      ensures B.Prepare(chain.c, operator, old(World()).child, old(root).next).Some? ==>
        (fate.RootRefuses? ==> r == Err(RootChainError)) && (fate.CommitFails? ==> r == Err(DatabaseError))
    {
      var rootNumber := CurrentPlasmaBlockNumber();
      Environment(between);
      B.RootDepositsCount(old(World()), between);
      if fate.NoNumber? { return Err(RootChainError); }
      var n := chain.GetCurrentBlockNumber();
      if rootNumber != n { return Err(BlockchainNotSynchronized); }
      r := SettleBlock(fate);
    }

    /** One turn of watchDepositCreated. The transaction is committed whatever AddDepositBlock reports. */
    method HandleDepositCreated()
      requires Valid()
      modifies this, chain
      ensures Valid() && World() == B.Deliver(chain.c, operator, old(World()))
    {
      if queue == [] { return; }
      var log := queue[0];
      queue := queue[1..];
      var r := chain.AddDepositBlock(log.owner, log.amount, operator);
    }

    /** One turn of watchExitStarted; the position is the low 64 bits of the event's. A position that
        cannot be parsed panics the watcher, for which nothing recovers. */
    method HandleExitStarted(utxoPosition: nat) returns (panics: bool)
      requires Valid()
      modifies this, chain
      ensures Valid()
      ensures World() == old(World()).(child := Ledger.ExitTxOut(old(World()).child, Wrap(utxoPosition)).state)
      ensures panics <==> Wrap(utxoPosition) < 10_000
      ensures panics ==> World() == old(World())
    {
      var st := chain.ExitTxOut(Wrap(utxoPosition));
      panics := st == Failed(DivideByZero);
    }
  }
}
