/** GetUTXOPositions: the token index agrees with the ledger. */
module Utxos {
  import opened Wrappers
  import opened Text
  import opened Order
  import opened Positions
  import opened Types
  import opened Ledger
  import opened Invariants
  import opened Sealing
  import opened Tokens

  /** The numerals met by the scan of the token keys of an owner. */
  function TokenScan(s: State, owner: Address): seq<string> {
    SortKeys(set k | k in s.tokens && k.owner == owner :: Dec(k.pos))
  }

  /** One turn of the scan: whether the position is to be returned. */
  function Visit(s: State, numeral: string): Result<Option<nat>, Error> {
    match ParseUint64(numeral)
    case None => Err(NotANumber)
    case Some(pos) =>
      match ParsePosition(pos)
      case None => Err(DivideByZero)
      case Some(p) =>
        var o := OutRef(TxRef(p.blk, p.idx), p.elem);
        if o.tx !in s.txs then Err(KeyNotFound)
        else if !IsOut(s, o) then Err(NilDereference)
        else if OutAt(s, o).isSpent || OutAt(s, o).isExited then Ok(None)
        else Ok(Some(pos))
  }

  /** What has been collected after i turns. */
  function Collected(s: State, ks: seq<string>, i: nat): Result<seq<nat>, Error>
    requires i <= |ks|
  {
    if i == 0 then Ok([]) else
      match Collected(s, ks, i - 1)
      case Err(e) => Err(e)
      case Ok(ps) =>
        match Visit(s, ks[i - 1])
        case Err(e) => Err(e)
        case Ok(None) => Ok(ps)
        case Ok(Some(pos)) => Ok(ps + [pos])
  }

  function GetUtxos(s: State, owner: Address): Result<seq<nat>, Error> {
    var ks := TokenScan(s, owner);
    Collected(s, ks, |ks|)
  }

  /** Output o is unspent, not exited, and belongs to owner. */
  predicate LiveOut(s: State, owner: Address, o: OutRef) {
    IsOut(s, o) && OutAt(s, o).owner == owner && !OutAt(s, o).isSpent && !OutAt(s, o).isExited
  }

  /** Every token key of an owner is the position of an output the owner holds. */
  lemma ScannedOutput(s: State, owner: Address, m: nat) returns (o: OutRef)
    requires TokenDomain(s) && m < |TokenScan(s, owner)|
    ensures IsOut(s, o) && OutAt(s, o).owner == owner && TokenScan(s, owner)[m] == Dec(PositionOf(o))
  {
    var x := TokenScan(s, owner)[m];
    assert x in TokenScan(s, owner);
    var k :| k in s.tokens && k.owner == owner && x == Dec(k.pos);
    o :| IsOut(s, o) && TokenOf(s, o) == k;
  }

  lemma VisitOutput(s: State, o: OutRef)
    requires Addressable(s) && IsOut(s, o)
    ensures Visit(s, Dec(PositionOf(o))) ==
      Ok(if OutAt(s, o).isSpent || OutAt(s, o).isExited then None else Some(PositionOf(o)))
  {
    PositionParses(s, o);
    ParseDec(PositionOf(o));
    assert OutRef(TxRef(CoordOf(o).blk, CoordOf(o).idx), CoordOf(o).elem) == o;
  }

  /** p is the position of a live output whose numeral is among the first i. */
  ghost predicate Found(s: State, owner: Address, ks: seq<string>, i: nat, p: nat)
    requires i <= |ks|
  {
    exists o, m :: 0 <= m < i && LiveOut(s, owner, o) && PositionOf(o) == p && ks[m] == Dec(p)
  }

  lemma FoundNext(s: State, owner: Address, ks: seq<string>, i: nat, p: nat)
    requires i < |ks|
    ensures Found(s, owner, ks, i + 1, p) <==>
      Found(s, owner, ks, i, p) || (ks[i] == Dec(p) && exists o :: LiveOut(s, owner, o) && PositionOf(o) == p)
  {
    if Found(s, owner, ks, i + 1, p) {
      var o, m :| 0 <= m < i + 1 && LiveOut(s, owner, o) && PositionOf(o) == p && ks[m] == Dec(p);
      assert m < i || m == i;
    }
    if ks[i] == Dec(p) && exists o :: LiveOut(s, owner, o) && PositionOf(o) == p {
      var o :| LiveOut(s, owner, o) && PositionOf(o) == p;
      assert 0 <= i < i + 1;
    }
  }

  ghost predicate Distinct(ps: seq<nat>) {
    forall a, b | 0 <= a < b < |ps| :: ps[a] != ps[b]
  }

  /** The numerals of ps are in byte order. */
  ghost predicate InScanOrder(ps: seq<nat>) {
    forall a, b | 0 <= a < b < |ps| :: Less(Dec(ps[a]), Dec(ps[b]))
  }

  /** ps lists, each once and in scan order, the live positions among the first i numerals. */
  ghost predicate ListsFound(s: State, owner: Address, ks: seq<string>, i: nat, ps: seq<nat>)
    requires i <= |ks|
  {
    && Distinct(ps) && InScanOrder(ps)
    && forall p :: p in ps <==> Found(s, owner, ks, i, p)
  }

  /** The position visited in turn i has not been collected before. */
  lemma NotYetFound(s: State, owner: Address, i: nat, o: OutRef)
    requires i < |TokenScan(s, owner)| && TokenScan(s, owner)[i] == Dec(PositionOf(o))
    ensures !Found(s, owner, TokenScan(s, owner), i, PositionOf(o))
  {
    var ks := TokenScan(s, owner);
    forall m | 0 <= m < i ensures ks[m] != Dec(PositionOf(o)) {
      LessTotal(ks[m], ks[i]);
    }
  }

  /** Turn i visits the position of o, an output of owner not visited before. */
  ghost predicate Meets(s: State, owner: Address, ks: seq<string>, i: nat, o: OutRef) {
    && i < |ks| && IsOut(s, o) && OutAt(s, o).owner == owner
    && ks[i] == Dec(PositionOf(o)) && !Found(s, owner, ks, i, PositionOf(o))
  }

  /** The output whose position the numeral stands for. */
  function VisitedOut(numeral: string): OutRef {
    match ParseUint64(numeral)
    case None => NULL_REF
    case Some(pos) =>
      match ParsePosition(pos)
      case None => NULL_REF
      case Some(p) => OutRef(TxRef(p.blk, p.idx), p.elem)
  }

  lemma VisitedOutOf(s: State, o: OutRef)
    requires Addressable(s) && IsOut(s, o)
    ensures VisitedOut(Dec(PositionOf(o))) == o
  {
    PositionParses(s, o);
    ParseDec(PositionOf(o));
  }

  ghost predicate AlwaysMeets(s: State, owner: Address, ks: seq<string>) {
    forall i: nat | i < |ks| :: Meets(s, owner, ks, i, VisitedOut(ks[i]))
  }

  lemma TurnMeets(s: State, owner: Address, i: nat)
    requires TokenDomain(s) && Addressable(s) && i < |TokenScan(s, owner)|
    ensures Meets(s, owner, TokenScan(s, owner), i, VisitedOut(TokenScan(s, owner)[i]))
  {
    var o := ScannedOutput(s, owner, i);
    VisitedOutOf(s, o);
    NotYetFound(s, owner, i, o);
  }

  lemma ScanMeets(s: State, owner: Address)
    requires TokenDomain(s) && Addressable(s)
    ensures AlwaysMeets(s, owner, TokenScan(s, owner))
  {
    var ks := TokenScan(s, owner);
    forall i: nat | i < |ks| ensures Meets(s, owner, ks, i, VisitedOut(ks[i])) {
      TurnMeets(s, owner, i);
    }
  }

  /** Turn i finds exactly the live position it visits. */
  lemma TurnFinds(s: State, owner: Address, ks: seq<string>, i: nat, o: OutRef, p: nat)
    requires Addressable(s) && Meets(s, owner, ks, i, o)
    ensures Found(s, owner, ks, i + 1, p) <==>
      Found(s, owner, ks, i, p) || (p == PositionOf(o) && LiveOut(s, owner, o))
  {
    FoundNext(s, owner, ks, i, p);
    if ks[i] == Dec(p) {
      DecInjective(p, PositionOf(o));
      forall o' | LiveOut(s, owner, o') && PositionOf(o') == p ensures o' == o {
        PositionParses(s, o);
        PositionParses(s, o');
      }
    }
  }

  /** The positions collected once output o has been visited. */
  function Extended(s: State, owner: Address, o: OutRef, ps: seq<nat>): seq<nat> {
    if LiveOut(s, owner, o) then ps + [PositionOf(o)] else ps
  }

  lemma CollectedNext(s: State, owner: Address, ks: seq<string>, i: nat, o: OutRef, ps: seq<nat>)
    requires Addressable(s) && 0 < i <= |ks| && Meets(s, owner, ks, i - 1, o)
    requires Collected(s, ks, i - 1) == Ok(ps)
    ensures Collected(s, ks, i) == Ok(Extended(s, owner, o, ps))
  {
    VisitOutput(s, o);
  }

  lemma ExtendedInOrder(s: State, owner: Address, ks: seq<string>, i: nat, o: OutRef, ps: seq<nat>)
    requires Ascending(ks) && 0 < i <= |ks| && Meets(s, owner, ks, i - 1, o)
    requires ListsFound(s, owner, ks, i - 1, ps)
    ensures InScanOrder(Extended(s, owner, o, ps))
  {
    forall a | 0 <= a < |ps| ensures Less(Dec(ps[a]), Dec(PositionOf(o))) {
      assert ps[a] in ps;
      var o', m :| 0 <= m < i - 1 && LiveOut(s, owner, o') && PositionOf(o') == ps[a] && ks[m] == Dec(ps[a]);
    }
  }

  lemma ListsNext(s: State, owner: Address, ks: seq<string>, i: nat, o: OutRef, ps: seq<nat>)
    requires Ascending(ks) && Addressable(s) && 0 < i <= |ks| && Meets(s, owner, ks, i - 1, o)
    requires ListsFound(s, owner, ks, i - 1, ps)
    ensures ListsFound(s, owner, ks, i, Extended(s, owner, o, ps))
  {
    ExtendedInOrder(s, owner, ks, i, o, ps);
    assert PositionOf(o) !in ps;
    forall p ensures p in Extended(s, owner, o, ps) <==> Found(s, owner, ks, i, p) {
      TurnFinds(s, owner, ks, i - 1, o, p);
      assert p in ps <==> Found(s, owner, ks, i - 1, p);
    }
  }

  /** After i turns nothing has failed, and the live positions met so far are collected once each. */
  ghost predicate Collects(s: State, owner: Address, ks: seq<string>, i: nat, ps: seq<nat>)
    requires i <= |ks|
  {
    Collected(s, ks, i) == Ok(ps) && ListsFound(s, owner, ks, i, ps)
  }

  lemma Turn(s: State, owner: Address, ks: seq<string>, i: nat, o: OutRef, ps: seq<nat>)
    requires Ascending(ks) && Addressable(s) && 0 < i <= |ks| && Meets(s, owner, ks, i - 1, o)
    requires Collects(s, owner, ks, i - 1, ps)
    ensures Collects(s, owner, ks, i, Extended(s, owner, o, ps))
  {
    CollectedNext(s, owner, ks, i, o, ps);
    ListsNext(s, owner, ks, i, o, ps);
  }

  lemma {:induction false} AllCollected(s: State, owner: Address, ks: seq<string>, i: nat) returns (ps: seq<nat>)
    requires Ascending(ks) && Addressable(s) && AlwaysMeets(s, owner, ks) && i <= |ks|
    ensures Collects(s, owner, ks, i, ps)
  {
    if i == 0 {
      ps := [];
    } else {
      var before := AllCollected(s, owner, ks, i - 1);
      var o := VisitedOut(ks[i - 1]);
      Turn(s, owner, ks, i, o, before);
      ps := Extended(s, owner, o, before);
    }
  }

  /** ps lists, each once and in the byte order of their numerals, the positions of the live outputs
      of owner. */
  ghost predicate ListsLive(s: State, owner: Address, ps: seq<nat>) {
    && Distinct(ps) && InScanOrder(ps)
    && forall p :: p in ps <==> exists o :: LiveOut(s, owner, o) && PositionOf(o) == p
  }

  /** The scan reaches every live output. */
  lemma FoundInTheEnd(s: State, owner: Address, o: OutRef)
    requires TokenDomain(s) && LiveOut(s, owner, o)
    ensures Found(s, owner, TokenScan(s, owner), |TokenScan(s, owner)|, PositionOf(o))
  {
    var ks := TokenScan(s, owner);
    assert TokenOf(s, o) in s.tokens;
    assert Dec(TokenOf(s, o).pos) in ks;
    var m :| 0 <= m < |ks| && ks[m] == Dec(PositionOf(o));
  }

  lemma AllFound(s: State, owner: Address, ks: seq<string>, ps: seq<nat>)
    requires ListsFound(s, owner, ks, |ks|, ps)
    requires forall o | LiveOut(s, owner, o) :: Found(s, owner, ks, |ks|, PositionOf(o))
    ensures ListsLive(s, owner, ps)
  {
  }

  lemma UtxosRight(s: State, owner: Address)
    requires TokenDomain(s) && Addressable(s)
    ensures GetUtxos(s, owner).Ok? && ListsLive(s, owner, GetUtxos(s, owner).value)
  {
    var ks := TokenScan(s, owner);
    ScanMeets(s, owner);
    var ps := AllCollected(s, owner, ks, |ks|);
    forall o | LiveOut(s, owner, o) ensures Found(s, owner, ks, |ks|, PositionOf(o)) {
      FoundInTheEnd(s, owner, o);
    }
    AllFound(s, owner, ks, ps);
  }

  /** In every reachable state whose positions fit in 64 bits, the query succeeds and returns exactly
      the positions of the owner's unspent and unexited outputs, each once. */
  lemma TokenIndexAgrees(c: Crypto, run: seq<Event>, owner: Address)
    requires InRange(run) && PositionsFit(Exec(c, run))
    ensures GetUtxos(Exec(c, run), owner).Ok?
    ensures ListsLive(Exec(c, run), owner, GetUtxos(Exec(c, run), owner).value)
  {
    RunInv(c, run);
    ShapeAddressable(Exec(c, run));
    UtxosRight(Exec(c, run), owner);
  }
}
