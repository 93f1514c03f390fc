/** Text forms used inside database keys: decimal numerals (Go's "%d"), fixed-width
    hexadecimal (Go's hexutil.Encode on 20- and 32-byte arrays), and splitting at '_'. */
module Text {
  import opened Wrappers

  const TWO64: nat := 0x1_0000_0000_0000_0000

  // ---------- decimal numerals ----------

  function Digit(d: nat): char
    requires d < 10
  {
    "0123456789"[d]
  }

  predicate IsDigit(ch: char) {
    '0' <= ch <= '9'
  }

  function DigitValue(ch: char): nat
    requires IsDigit(ch)
  {
    ch as int - '0' as int
  }

  predicate AllDigits(s: string) {
    forall k | 0 <= k < |s| :: IsDigit(s[k])
  }

  /** The decimal numeral of n, most significant digit first and without leading zeros. */
  function Dec(n: nat): (s: string)
    ensures |s| > 0 && AllDigits(s)
  {
    if n < 10 then [Digit(n)] else Dec(n / 10) + [Digit(n % 10)]
  }

  function Value(s: string): nat
    requires AllDigits(s)
  {
    if s == "" then 0 else Value(s[..|s| - 1]) * 10 + DigitValue(s[|s| - 1])
  }

  /** strconv.ParseUint(s, 10, 64). */
  function ParseUint64(s: string): Option<nat> {
    if s != "" && AllDigits(s) && Value(s) < TWO64 then Some(Value(s)) else None
  }

  lemma {:induction false} ValueOfDec(n: nat)
    ensures Value(Dec(n)) == n
  {
    if n >= 10 {
      ValueOfDec(n / 10);
      assert Dec(n)[..|Dec(n)| - 1] == Dec(n / 10);
    } else {
      assert Dec(n)[..0] == "";
      assert Value(Dec(n)) == Value("") * 10 + DigitValue(Digit(n));
    }
  }

  lemma DecInjective(a: nat, b: nat)
    requires Dec(a) == Dec(b)
    ensures a == b
  {
    ValueOfDec(a);
    ValueOfDec(b);
  }

  lemma ParseDec(n: nat)
    requires n < TWO64
    ensures ParseUint64(Dec(n)) == Some(n)
  {
    ValueOfDec(n);
  }

  // ---------- fixed-width hexadecimal ----------

  /** n has at most w hexadecimal digits. */
  predicate Fits(n: nat, w: nat)
    decreases w
  {
    if w == 0 then n == 0 else Fits(n / 16, w - 1)
  }

  /** A 20-byte address and a 32-byte hash, read as big-endian numbers. */
  type Address = a: nat | a < 0x1_0000_0000_0000_0000_0000_0000_0000_0000_0000_0000
  type Hash = h: nat | h < 0x1_0000_0000_0000_0000_0000_0000_0000_0000_0000_0000_0000_0000_0000_0000_0000_0000

  lemma Fits4(n: nat, w: nat)
    requires Fits(n / 0x1_0000, w)
    ensures Fits(n, w + 4)
  {
    assert n / 16 / 16 / 16 / 16 == n / 0x1_0000;
    assert Fits(n / 16 / 16 / 16, w + 1);
    assert Fits(n / 16 / 16, w + 2);
    assert Fits(n / 16, w + 3);
  }

  lemma Fits16(n: nat, w: nat)
    requires Fits(n / 0x1_0000_0000_0000_0000, w)
    ensures Fits(n, w + 16)
  {
    var n1 := n / 0x1_0000;
    var n2 := n1 / 0x1_0000;
    var n3 := n2 / 0x1_0000;
    assert n3 / 0x1_0000 == n / 0x1_0000_0000_0000_0000;
    Fits4(n3, w);
    Fits4(n2, w + 4);
    Fits4(n1, w + 8);
    Fits4(n, w + 12);
  }

  lemma AddressFits(a: Address)
    ensures Fits(a, 40)
  {
    var a1 := a / 0x1_0000_0000_0000_0000;
    var a2 := a1 / 0x1_0000_0000_0000_0000;
    assert a2 / 0x1_0000 / 0x1_0000 == 0;
    Fits4(a2 / 0x1_0000, 0);
    Fits4(a2, 4);
    Fits16(a1, 8);
    Fits16(a, 24);
  }

  lemma HashFits(h: Hash)
    ensures Fits(h, 64)
  {
    var h1 := h / 0x1_0000_0000_0000_0000;
    var h2 := h1 / 0x1_0000_0000_0000_0000;
    var h3 := h2 / 0x1_0000_0000_0000_0000;
    assert h3 / 0x1_0000_0000_0000_0000 == 0;
    Fits16(h3, 0);
    Fits16(h2, 16);
    Fits16(h1, 32);
    Fits16(h, 48);
  }

  function HexPad(n: nat, w: nat): (s: string)
    ensures |s| == w
    decreases n, w
  {
    if w == 0 then "" else HexPad(n / 16, w - 1) + ["0123456789abcdef"[n % 16]]
  }

  lemma {:induction false} HexPadInjective(a: nat, b: nat, w: nat)
    requires Fits(a, w) && Fits(b, w)
    requires HexPad(a, w) == HexPad(b, w)
    ensures a == b
    decreases w
  {
    if w > 0 {
      var s, t := HexPad(a, w), HexPad(b, w);
      assert s[..w - 1] == HexPad(a / 16, w - 1) && t[..w - 1] == HexPad(b / 16, w - 1);
      assert s[w - 1] == t[w - 1];
      HexPadInjective(a / 16, b / 16, w - 1);
    }
  }

  function AddressToHex(a: Address): (s: string)
    ensures |s| == 42
  {
    "0x" + HexPad(a, 40)
  }

  function HashToHex(h: Hash): (s: string)
    ensures |s| == 66
  {
    "0x" + HexPad(h, 64)
  }

  lemma AddressToHexInjective(a: Address, b: Address)
    requires AddressToHex(a) == AddressToHex(b)
    ensures a == b
  {
    assert AddressToHex(a)[2..] == HexPad(a, 40) && AddressToHex(b)[2..] == HexPad(b, 40);
    AddressFits(a);
    AddressFits(b);
    HexPadInjective(a, b, 40);
  }

  lemma HashToHexInjective(a: Hash, b: Hash)
    requires HashToHex(a) == HashToHex(b)
    ensures a == b
  {
    assert HashToHex(a)[2..] == HexPad(a, 64) && HashToHex(b)[2..] == HexPad(b, 64);
    HashFits(a);
    HashFits(b);
    HexPadInjective(a, b, 64);
  }

  // ---------- separators ----------

  /** A digit string followed by '_' determines where the separator stands. */
  lemma {:induction false} SplitAtSeparator(a: string, b: string, x: string, y: string)
    requires AllDigits(a) && AllDigits(b)
    requires a + "_" + x == b + "_" + y
    ensures a == b && x == y
  {
    var s := a + "_" + x;
    assert s[|a|] == '_' && s[|b|] == '_';
    assert forall k | 0 <= k < |a| :: s[k] == a[k] && IsDigit(a[k]);
    assert forall k | 0 <= k < |b| :: s[k] == b[k] && IsDigit(b[k]);
    assert |a| == |b|;
    assert a == s[..|a|] && b == s[..|b|];
    assert x == s[|a| + 1..] && y == s[|b| + 1..];
  }
}
