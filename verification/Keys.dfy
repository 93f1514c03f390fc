/** The key layout of the database: five kinds of keys in one ordered store of byte strings. */
module Keys {
  import opened Wrappers
  import opened Text
  import opened Order
  import opened Types
  import opened Ledger
  import opened Utxos

  datatype Key =
    | Current
    | HeaderKey(n: nat)
    | TxKey(ref: TxRef)
    | PoolEntry(hex: string)
    | Token(id: TokenId)

  const POOL_PREFIX: string := "mempool_tx_"

  function TxPrefix(n: nat): string {
    "tx_" + (Dec(n) + "_")
  }

  function TokenPrefix(owner: Address): string {
    "token_" + (AddressToHex(owner) + "_")
  }

  /** The bytes of a key. */
  function Raw(k: Key): string {
    match k
    case Current => "current_blknum"
    case HeaderKey(n) => "blk_header_" + Dec(n)
    case TxKey(r) => TxPrefix(r.blk) + Dec(r.idx)
    case PoolEntry(h) => POOL_PREFIX + h
    case Token(id) => TokenPrefix(id.owner) + Dec(id.pos)
  }

  /** One key of each kind, as text. */
  lemma KeyTexts()
    ensures Raw(Current) == "current_blknum" && Raw(HeaderKey(12)) == "blk_header_12"
    ensures Raw(TxKey(TxRef(12, 10))) == "tx_12_10" && Raw(PoolEntry("0x0a")) == "mempool_tx_0x0a"
    ensures Raw(Token(TokenId(0, 12))) == "token_" + AddressToHex(0) + "_12"
  {
    assert Dec(12) == "12" by { assert Dec(12) == Dec(1) + [Digit(2)]; }
    assert Dec(10) == "10" by { assert Dec(10) == Dec(1) + [Digit(0)]; }
    assert "token_" + (AddressToHex(0) + "_") + "12" == "token_" + AddressToHex(0) + "_12";
  }

  // ---------- unambiguity ----------

  /** The first two bytes tell the kinds apart. */
  lemma KindFromRaw(k: Key)
    ensures |Raw(k)| >= 3
    ensures k.Current? <==> Raw(k)[0] == 'c'
    ensures k.HeaderKey? <==> Raw(k)[0] == 'b'
    ensures k.PoolEntry? <==> Raw(k)[0] == 'm'
    ensures k.TxKey? <==> Raw(k)[0] == 't' && Raw(k)[1] == 'x'
    ensures k.Token? <==> Raw(k)[0] == 't' && Raw(k)[1] == 'o'
  {
  }

  lemma DropCommon(p: string, a: string, b: string)
    requires p + a == p + b
    ensures a == b
  {
    assert a == (p + a)[|p|..] && b == (p + b)[|p|..];
  }

  lemma TxKeyInjective(r: TxRef, q: TxRef)
    requires Raw(TxKey(r)) == Raw(TxKey(q))
    ensures r == q
  {
    var a, b := Dec(r.blk) + "_" + Dec(r.idx), Dec(q.blk) + "_" + Dec(q.idx);
    assert Raw(TxKey(r)) == "tx_" + a && Raw(TxKey(q)) == "tx_" + b;
    DropCommon("tx_", a, b);
    SplitAtSeparator(Dec(r.blk), Dec(q.blk), Dec(r.idx), Dec(q.idx));
    DecInjective(r.blk, q.blk);
    DecInjective(r.idx, q.idx);
  }

  lemma TokenKeyInjective(i: TokenId, j: TokenId)
    requires Raw(Token(i)) == Raw(Token(j))
    ensures i == j
  {
    TokenPrefixDecides(i.owner, j);
    DropCommon(TokenPrefix(i.owner), Dec(i.pos), Dec(j.pos));
    DecInjective(i.pos, j.pos);
  }

  lemma SameLengthParts(a: string, x: string, b: string, y: string)
    requires |a| == |b| && a + x == b + y
    ensures a == b && x == y
  {
    assert a == (a + x)[..|a|] && b == (b + y)[..|b|];
    assert x == (a + x)[|a|..] && y == (b + y)[|b|..];
  }

  lemma TokenPrefixDecides(owner: Address, id: TokenId)
    ensures TokenPrefix(owner) <= Raw(Token(id)) <==> id.owner == owner
  {
    var p, x := TokenPrefix(owner), Raw(Token(id));
    var a, b := AddressToHex(owner), AddressToHex(id.owner);
    if p <= x {
      var rest := x[|p|..];
      assert x == p + rest;
      assert p + rest == "token_" + (a + ("_" + rest));
      assert x == "token_" + (b + ("_" + Dec(id.pos)));
      DropCommon("token_", a + ("_" + rest), b + ("_" + Dec(id.pos)));
      SameLengthParts(a, "_" + rest, b, "_" + Dec(id.pos));
      AddressToHexInjective(owner, id.owner);
    }
  }

  /** Different keys have different bytes. */
  lemma RawInjective(k: Key, j: Key)
    requires Raw(k) == Raw(j)
    ensures k == j
  {
    KindFromRaw(k);
    KindFromRaw(j);
    match k
    case Current =>
    case HeaderKey(n) =>
      DropCommon("blk_header_", Dec(n), Dec(j.n));
      DecInjective(n, j.n);
    case TxKey(r) => TxKeyInjective(r, j.ref);
    case PoolEntry(h) => DropCommon(POOL_PREFIX, h, j.hex);
    case Token(id) => TokenKeyInjective(id, j.id);
  }

  // ---------- prefix scans ----------

  lemma PrefixUnderCommon(p: string, a: string, x: string)
    ensures p + a <= p + x <==> a <= x
  {
    if p + a <= p + x {
      var rest := (p + x)[|p + a|..];
      assert p + x == p + (a + rest);
      DropCommon(p, x, a + rest);
    }
    if a <= x {
      assert x == a + x[|a|..];
      assert p + x == p + a + x[|a|..];
    }
  }

  lemma SeparatedPrefix(a: string, b: string, y: string)
    requires AllDigits(a) && AllDigits(b) && a + "_" <= b + "_" + y
    ensures a == b
  {
    var x := (b + "_" + y)[|a + "_"|..];
    assert a + "_" + x == b + "_" + y;
    SplitAtSeparator(a, b, x, y);
  }

  lemma TxPrefixOfTx(n: nat, r: TxRef)
    ensures TxPrefix(n) <= Raw(TxKey(r)) <==> r.blk == n
  {
    var a, b, y := Dec(n) + "_", Dec(r.blk) + "_", Dec(r.idx);
    assert Raw(TxKey(r)) == "tx_" + (b + y);
    PrefixUnderCommon("tx_", a, b + y);
    if a <= b + y {
      SeparatedPrefix(Dec(n), Dec(r.blk), y);
      DecInjective(n, r.blk);
    }
  }

  /** Each prefix selects exactly its own kind, and its own block or owner. */
  lemma PrefixSelects(k: Key, n: nat, owner: Address)
    ensures TxPrefix(n) <= Raw(k) <==> k.TxKey? && k.ref.blk == n
    ensures POOL_PREFIX <= Raw(k) <==> k.PoolEntry?
    ensures TokenPrefix(owner) <= Raw(k) <==> k.Token? && k.id.owner == owner
  {
    KindFromRaw(k);
    assert TxPrefix(n)[0] == 't' && TxPrefix(n)[1] == 'x';
    assert TokenPrefix(owner)[0] == 't' && TokenPrefix(owner)[1] == 'o';
    assert POOL_PREFIX[0] == 'm';
    if k.TxKey? { TxPrefixOfTx(n, k.ref); }
    if k.Token? { TokenPrefixDecides(owner, k.id); }
  }

  /** Stripping the token prefix and parsing the decimal gives back the position. */
  lemma TokenKeyParses(id: TokenId)
    requires id.pos < TWO64
    ensures ParseUint64(Raw(Token(id))[|TokenPrefix(id.owner)|..]) == Some(id.pos)
  {
    assert Raw(Token(id))[|TokenPrefix(id.owner)|..] == Dec(id.pos);
    ParseDec(id.pos);
  }

  // ---------- the raw store and the typed state ----------

  /** Decoded values; the RLP and varint codecs are taken to be lossless. */
  datatype Value = Number(n: nat) | HeaderValue(header: Header) | TxValue(tx: Tx) | PositionValue(pos: nat)

  type Store = map<string, Value>

  function Get(kv: Store, x: string): Option<Value> {
    if x in kv then Some(kv[x]) else None
  }

  function Lookup(s: State, k: Key): Option<Value> {
    match k
    case Current => Some(Number(s.cur))
    case HeaderKey(n) => if n in s.headers then Some(HeaderValue(s.headers[n])) else None
    case TxKey(r) => if r in s.txs then Some(TxValue(s.txs[r])) else None
    case PoolEntry(h) => if h in s.mempool then Some(TxValue(s.mempool[h])) else None
    case Token(id) => if id in s.tokens then Some(PositionValue(s.tokens[id])) else None
  }

  /** kv holds exactly the entries of s, under their keys. */
  ghost predicate Represents(kv: Store, s: State) {
    && (forall k: Key :: Get(kv, Raw(k)) == Lookup(s, k))
    && (forall x | x in kv :: exists k: Key :: Raw(k) == x)
  }

  lemma SetKeeps(kv: Store, s: State, k: Key, v: Value, t: State)
    requires Represents(kv, s) && Lookup(t, k) == Some(v)
    requires forall j: Key | j != k :: Lookup(t, j) == Lookup(s, j)
    ensures Represents(kv[Raw(k) := v], t)
  {
    forall j: Key ensures Get(kv[Raw(k) := v], Raw(j)) == Lookup(t, j) {
      if Raw(j) == Raw(k) { RawInjective(j, k); }
    }
  }

  lemma OtherKeySurvives(kv: Store, k: Key, j: Key)
    requires j != k
    ensures Get(kv - {Raw(k)}, Raw(j)) == Get(kv, Raw(j))
  {
    if Raw(j) == Raw(k) { RawInjective(j, k); }
  }

  lemma DeleteKeeps(kv: Store, s: State, k: Key, t: State)
    requires Represents(kv, s) && Lookup(t, k) == None
    requires forall j: Key | j != k :: Lookup(t, j) == Lookup(s, j)
    ensures Represents(kv - {Raw(k)}, t)
  {
    var rest := kv - {Raw(k)};
    forall j: Key ensures Get(rest, Raw(j)) == Lookup(t, j) {
      if j != k {
        OtherKeySurvives(kv, k, j);
        assert Get(kv, Raw(j)) == Lookup(s, j);
      }
    }
    forall x | x in rest ensures exists j: Key :: Raw(j) == x {
      assert x in kv;
    }
  }

  /** The keys an iterator visits between Seek(p) and the end of ValidForPrefix(p). */
  function ScanKeys(kv: Store, p: string): seq<string> {
    SortKeys(set x | x in kv && p <= x)
  }

  /** The scan of block n meets the indices of its transactions, by decimal string. */
  lemma TxScan(kv: Store, s: State, n: nat)
    requires Represents(kv, s)
    ensures ScanKeys(kv, TxPrefix(n)) == Shift(TxPrefix(n), ScanOrder(s, n))
  {
    var here := set r | r in s.txs && r.blk == n :: Dec(r.idx);
    var there := set x | x in kv && TxPrefix(n) <= x;
    forall x | x in here ensures TxPrefix(n) + x in there {
      var r :| r in s.txs && r.blk == n && x == Dec(r.idx);
      assert Get(kv, Raw(TxKey(r))) == Lookup(s, TxKey(r));
    }
    forall y | y in there ensures exists x :: x in here && y == TxPrefix(n) + x {
      var k: Key :| Raw(k) == y;
      PrefixSelects(k, n, 0);
      assert Get(kv, Raw(k)) == Lookup(s, k);
      assert Dec(k.ref.idx) in here;
    }
    SortUnderPrefix(TxPrefix(n), here, there);
  }

  /** The scan of the mempool meets its hashes in byte order. */
  lemma PoolScan(kv: Store, s: State)
    requires Represents(kv, s)
    ensures ScanKeys(kv, POOL_PREFIX) == Shift(POOL_PREFIX, PoolOrder(s))
  {
    var there := set x | x in kv && POOL_PREFIX <= x;
    forall x | x in s.mempool.Keys ensures POOL_PREFIX + x in there {
      assert Get(kv, Raw(PoolEntry(x))) == Lookup(s, PoolEntry(x));
    }
    forall y | y in there ensures exists x :: x in s.mempool.Keys && y == POOL_PREFIX + x {
      var k: Key :| Raw(k) == y;
      PrefixSelects(k, 0, 0);
      assert Get(kv, Raw(k)) == Lookup(s, k);
      assert k.hex in s.mempool.Keys;
    }
    SortUnderPrefix(POOL_PREFIX, s.mempool.Keys, there);
  }

  /** The scan of an owner's tokens meets their positions, by decimal string. */
  lemma TokenKeyScan(kv: Store, s: State, owner: Address)
    requires Represents(kv, s)
    ensures ScanKeys(kv, TokenPrefix(owner)) == Shift(TokenPrefix(owner), TokenScan(s, owner))
  {
    var here := set k | k in s.tokens && k.owner == owner :: Dec(k.pos);
    var there := set x | x in kv && TokenPrefix(owner) <= x;
    forall x | x in here ensures TokenPrefix(owner) + x in there {
      var i :| i in s.tokens && i.owner == owner && x == Dec(i.pos);
      assert Get(kv, Raw(Token(i))) == Lookup(s, Token(i));
    }
    forall y | y in there ensures exists x :: x in here && y == TokenPrefix(owner) + x {
      var id := TokenUnderPrefix(kv, s, owner, y);
      assert Dec(id.pos) in here;
    }
    SortUnderPrefix(TokenPrefix(owner), here, there);
  }

  lemma TokenUnderPrefix(kv: Store, s: State, owner: Address, y: string) returns (id: TokenId)
    requires Represents(kv, s) && y in kv && TokenPrefix(owner) <= y
    ensures id in s.tokens && id.owner == owner && y == TokenPrefix(owner) + Dec(id.pos)
  {
    var k: Key :| Raw(k) == y;
    PrefixSelects(k, 0, owner);
    assert Get(kv, Raw(k)) == Lookup(s, k);
    id := k.id;
  }

  /** Reading kv at keys, one after the other, gives txs. */
  ghost predicate Reads(kv: Store, keys: seq<string>, txs: seq<Tx>) {
    && |keys| == |txs|
    && forall i | 0 <= i < |keys| :: keys[i] in kv && kv[keys[i]] == TxValue(txs[i])
  }

  /** What the scan of block n reads. */
  lemma TxScanReads(kv: Store, s: State, n: nat)
    requires Represents(kv, s)
    ensures Reads(kv, ScanKeys(kv, TxPrefix(n)), ScanTxs(s, n))
  {
    TxScan(kv, s, n);
    var keys := ScanKeys(kv, TxPrefix(n));
    forall i | 0 <= i < |keys| ensures keys[i] in kv && kv[keys[i]] == TxValue(ScanTxs(s, n)[i]) {
      var r := TxRef(n, ScanIndex(s, n, i));
      assert keys[i] == Raw(TxKey(r));
      assert Get(kv, Raw(TxKey(r))) == Lookup(s, TxKey(r));
    }
  }

  lemma PoolEntryStored(kv: Store, s: State, h: string)
    requires Represents(kv, s) && h in s.mempool
    ensures Raw(PoolEntry(h)) in kv && kv[Raw(PoolEntry(h))] == TxValue(s.mempool[h])
  {
    assert Get(kv, Raw(PoolEntry(h))) == Lookup(s, PoolEntry(h));
  }

  lemma PoolKeysRead(kv: Store, s: State, keys: seq<string>)
    requires Represents(kv, s) && keys == Shift(POOL_PREFIX, PoolOrder(s))
    ensures Reads(kv, keys, PoolTxs(s))
  {
    forall i | 0 <= i < |keys| ensures keys[i] in kv && kv[keys[i]] == TxValue(PoolTxs(s)[i]) {
      PoolEntryStored(kv, s, PoolOrder(s)[i]);
    }
  }

  /** What the scan of the mempool reads. */
  lemma PoolScanReads(kv: Store, s: State)
    requires Represents(kv, s)
    ensures ScanKeys(kv, POOL_PREFIX) == Shift(POOL_PREFIX, PoolOrder(s))
    ensures Reads(kv, ScanKeys(kv, POOL_PREFIX), PoolTxs(s))
  {
    PoolScan(kv, s);
    PoolKeysRead(kv, s, ScanKeys(kv, POOL_PREFIX));
  }
}
