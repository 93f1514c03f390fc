/** The uint64 mixed-radix position of a transaction, an input or an output.
    A block takes 100000 transaction slots and a transaction 10000 element slots. */
module Positions {
  import opened Wrappers
  import opened Text

  type U64 = x: nat | x < 0x1_0000_0000_0000_0000

  /** Block number, transaction index, and input or output index. */
  datatype Coord = Coord(blk: nat, idx: nat, elem: nat)

  /** uint64 wrap-around. */
  function Wrap(x: nat): U64 {
    x % 0x1_0000_0000_0000_0000
  }

  function NewTxPosition(blk: nat, idx: nat): U64 {
    Wrap(blk * 100_000 + idx)
  }

  function NewPosition(p: Coord): U64 {
    Wrap(NewTxPosition(p.blk, p.idx) * 10_000 + p.elem)
  }

  function ParseTxPosition(pos: nat): (nat, nat) {
    (pos / 100_000, pos % 100_000)
  }

  /** The element index is taken modulo the transaction position, not modulo 10000;
      below 10000 that divisor is zero and the program panics. */
  function ParsePosition(pos: nat): Option<Coord> {
    var txPos := pos / 10_000;
    if txPos == 0 then None
    else var (blk, idx) := ParseTxPosition(txPos); Some(Coord(blk, idx, pos % txPos))
  }

  /** The value a position would have if uint64 did not wrap. */
  function Flat(p: Coord): nat {
    p.blk * 1_000_000_000 + p.idx * 10_000 + p.elem
  }

  lemma AtLeastOneTimes(x: nat, q: nat)
    requires x >= 1
    ensures x * q >= q
  {
    assert x * q == (x - 1) * q + q;
  }

  /** Quotient and remainder are unique. */
  lemma DivModUnique(q: nat, d: nat, r: nat, d': nat, r': nat)
    requires r < q && r' < q && d * q + r == d' * q + r'
    ensures d == d' && r == r'
  {
    assert (d - d') * q == d * q - d' * q;
    assert (d' - d) * q == d' * q - d * q;
    if d' < d {
      AtLeastOneTimes(d - d', q);
    } else if d < d' {
      AtLeastOneTimes(d' - d, q);
    }
  }

  lemma ModOfMultiple(k: nat, q: nat, r: nat)
    requires q > 0
    ensures (k * q + r) % q == r % q
  {
    var n := k * q + r;
    var d := r / q;
    assert r == d * q + r % q;
    assert n == (k + d) * q + r % q;
    assert n == (n / q) * q + n % q;
    DivModUnique(q, k + d, r % q, n / q, n % q);
  }

  lemma WrapOfSmall(x: nat)
    requires x < TWO64
    ensures Wrap(x) == x
  {
  }

  lemma WrapOfMultiple(k: nat, r: nat)
    ensures Wrap(k * 0x1_0000_0000_0000_0000 + r) == Wrap(r)
  {
  }

  /** Wrapping after each operation is wrapping once. */
  lemma NewPositionWraps(p: Coord)
    ensures NewPosition(p) == Wrap(Flat(p))
  {
    var t := p.blk * 100_000 + p.idx;
    var k := t / 0x1_0000_0000_0000_0000;
    assert t == k * 0x1_0000_0000_0000_0000 + Wrap(t);
    WrapOfMultiple(10_000 * k, 10_000 * Wrap(t) + p.elem);
  }

  /** What the parser actually returns for the last component. */
  lemma ParsedElement(pos: nat)
    requires pos >= 10_000
    ensures ParsePosition(pos).Some?
    ensures ParsePosition(pos).value.elem == (pos % 10_000) % (pos / 10_000)
    ensures ParsePosition(pos).value.blk * 100_000 + ParsePosition(pos).value.idx == pos / 10_000
    ensures ParsePosition(pos).value.idx < 100_000
  {
    var q, r := pos / 10_000, pos % 10_000;
    assert pos == 10_000 * q + r;
    ModOfMultiple(10_000, q, r);
  }

  /** The three parsed components, in terms of the position. */
  lemma ParsedDigits(pos: nat)
    requires pos >= 10_000
    ensures ParsePosition(pos)
         == Some(Coord(pos / 1_000_000_000, pos / 10_000 % 100_000, pos % 10_000 % (pos / 10_000)))
  {
    ParsedElement(pos);
    assert pos / 10_000 / 100_000 == pos / 1_000_000_000;
  }

  lemma RemainderIsIdentity(r: nat, q: nat)
    requires q > 0
    ensures r % q <= r && r % q < q
    ensures r % q == r <==> r < q
  {
    if r < q {
      DivModUnique(q, 0, r, r / q, r % q);
    } else {
      assert r == (r / q) * q + r % q;
    }
  }

  /** What building makes of a parsed position. */
  lemma BuiltFromParsed(pos: U64)
    requires pos >= 10_000
    ensures NewPosition(ParsePosition(pos).value) == pos / 10_000 * 10_000 + (pos % 10_000) % (pos / 10_000)
  {
    ParsedElement(pos);
    var p, q := ParsePosition(pos).value, pos / 10_000;
    RemainderIsIdentity(pos % 10_000, q);
    NewPositionWraps(p);
    assert Flat(p) == q * 10_000 + p.elem;
    SmallIsUnwrapped(q, p.elem, pos);
  }

  lemma SmallIsUnwrapped(q: nat, e: nat, pos: U64)
    requires q == pos / 10_000 && e <= pos % 10_000
    ensures Wrap(q * 10_000 + e) == q * 10_000 + e
  {
  }

  /** Building after parsing is the identity exactly when the true element index is smaller
      than the transaction position. */
  lemma BuildAfterParse(pos: U64)
    requires pos >= 10_000
    ensures NewPosition(ParsePosition(pos).value) == pos <==> pos % 10_000 < pos / 10_000
  {
    BuiltFromParsed(pos);
    RemainderIsIdentity(pos % 10_000, pos / 10_000);
  }

  /** ... which is the case for every position of a block numbered 1 or more. */
  lemma BuildAfterParseOfBlocks(pos: U64)
    requires pos >= 1_000_000_000
    ensures ParsePosition(pos).Some? && ParsePosition(pos).value.blk >= 1
    ensures NewPosition(ParsePosition(pos).value) == pos
  {
    BuildAfterParse(pos);
    ParsedElement(pos);
  }

  ghost predicate InBounds(p: Coord) {
    p.idx < 100_000 && p.elem < 10_000 && p.elem < p.blk * 100_000 + p.idx && Flat(p) < TWO64
  }

  /** The mixed-radix digits of a position. */
  lemma Digits(p: Coord)
    requires p.idx < 100_000 && p.elem < 10_000
    ensures Flat(p) % 10_000 == p.elem
    ensures Flat(p) / 10_000 == p.blk * 100_000 + p.idx
    ensures (p.blk * 100_000 + p.idx) / 100_000 == p.blk && (p.blk * 100_000 + p.idx) % 100_000 == p.idx
  {
  }

  lemma ParseFlat(p: Coord)
    requires InBounds(p)
    ensures ParsePosition(Flat(p)) == Some(p)
  {
    Digits(p);
    ParsedElement(Flat(p));
    RemainderIsIdentity(p.elem, p.blk * 100_000 + p.idx);
    var r := ParsePosition(Flat(p)).value;
    DivModUnique(100_000, r.blk, r.idx, p.blk, p.idx);
  }

  lemma ParseInBounds(p: Coord)
    requires InBounds(p)
    ensures ParsePosition(NewPosition(p)) == Some(p)
  {
    NewPositionWraps(p);
    WrapOfSmall(Flat(p));
    ParseFlat(p);
  }

  lemma InBoundsIfParsed(p: Coord)
    requires p.elem < TWO64
    requires ParsePosition(NewPosition(p)) == Some(p)
    ensures InBounds(p)
  {
    var pos := NewPosition(p);
    var q, r := pos / 10_000, pos % 10_000;
    NewPositionWraps(p);
    ParsedElement(pos);
    RemainderIsIdentity(r, q);
    assert q == p.blk * 100_000 + p.idx;
    assert p.elem == r % q <= r;
    assert Flat(p) == q * 10_000 + p.elem <= pos;
  }

  /** Parsing after building is the identity exactly within the bounds, for all uint64 arguments. */
  lemma ParseAfterBuild(blk: U64, idx: U64, elem: U64)
    ensures ParsePosition(NewPosition(Coord(blk, idx, elem))) == Some(Coord(blk, idx, elem))
       <==> idx < 100_000 && elem < 10_000
            && elem < blk * 100_000 + idx && Flat(Coord(blk, idx, elem)) < TWO64
  {
    var p := Coord(blk, idx, elem);
    if InBounds(p) { ParseInBounds(p); }
    if ParsePosition(NewPosition(p)) == Some(p) { InBoundsIfParsed(p); }
  }

  /** The case every stored output falls under. */
  lemma ParseStored(p: Coord)
    requires 1 <= p.blk && p.idx < 100_000 && p.elem < 10_000 && Flat(p) < TWO64
    ensures ParsePosition(NewPosition(p)) == Some(p)
    ensures NewPosition(p) == Flat(p) > 0
  {
    ParseInBounds(p);
    NewPositionWraps(p);
    WrapOfSmall(Flat(p));
  }

  /** A small position is misread: the parser answers index 0 where the builder was given 2. */
  lemma SmallPositionMisread()
    ensures ParsePosition(NewPosition(Coord(0, 2, 2))) == Some(Coord(0, 2, 0))
    ensures ParsePosition(NewPosition(Coord(0, 0, 7))) == None
  {
    assert NewPosition(Coord(0, 2, 2)) == 20_002;
    assert ParsePosition(20_002).value.elem == 0;
  }
}
