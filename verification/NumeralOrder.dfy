/** The byte order of decimal numerals and of fixed-width hexadecimal texts. */
module NumeralOrder {
  import opened Text
  import opened Order

  // ---------- decimal ----------

  function DigitCount(n: nat): nat {
    if n < 10 then 1 else DigitCount(n / 10) + 1
  }

  lemma {:induction false} DecLength(n: nat)
    ensures |Dec(n)| == DigitCount(n)
  {
    if n >= 10 { DecLength(n / 10); }
  }

  /** A numeral has no leading zeros. */
  lemma {:induction false} DecCanonical(n: nat)
    ensures n >= 1 ==> Dec(n)[0] != '0'
  {
    if n >= 10 { DecCanonical(n / 10); }
  }

  lemma DecExtends(i: nat, d: nat)
    requires i >= 1 && d < 10
    ensures Dec(10 * i + d) == Dec(i) + [Digit(d)]
  {
    assert (10 * i + d) / 10 == i && (10 * i + d) % 10 == d;
  }

  /** The digits of x are those of i, or those of i and more. */
  predicate Continues(x: nat, i: nat) {
    x == i || (x >= 10 && Continues(x / 10, i))
  }

  lemma {:induction false} ContinuesPrefix(x: nat, i: nat)
    requires Continues(x, i)
    ensures Dec(i) <= Dec(x) && (x != i ==> Dec(i) != Dec(x))
  {
    if x != i {
      ContinuesPrefix(x / 10, i);
      assert Dec(x) == Dec(x / 10) + [Digit(x % 10)];
    }
  }

  /** A numeral comes before its own continuations. */
  lemma ContinuationLater(x: nat, i: nat)
    requires Continues(x, i) && x != i
    ensures Less(Dec(i), Dec(x))
  {
    ContinuesPrefix(x, i);
    PrefixLess(Dec(i), Dec(x));
  }

  lemma DigitOrder(a: nat, b: nat)
    requires a < b < 10
    ensures Digit(a) < Digit(b)
  {
  }

  lemma {:induction false} SameLengthOrder(i: nat, j: nat)
    requires DigitCount(i) == DigitCount(j) && i < j
    ensures Less(Dec(i), Dec(j))
  {
    if i < 10 {
      DigitOrder(i, j);
    } else if i / 10 < j / 10 {
      SameLengthOrder(i / 10, j / 10);
      DecLength(i / 10);
      DecLength(j / 10);
      LessAppend(Dec(i / 10), Dec(j / 10), [Digit(i % 10)], [Digit(j % 10)]);
    } else {
      assert i / 10 == j / 10 && i % 10 < j % 10;
      DigitOrder(i % 10, j % 10);
      LessUnderPrefix(Dec(i / 10), [Digit(i % 10)], [Digit(j % 10)]);
    }
  }

  lemma ContinuedSplits(x: nat, i: nat) returns (rest: string)
    requires Continues(x, i)
    ensures Dec(x) == Dec(i) + rest
  {
    ContinuesPrefix(x, i);
    rest := Dec(x)[|Dec(i)|..];
  }

  /** Numbers with equally many digits come in numeric order, each followed by its continuations. */
  lemma ContinuationsInOrder(i: nat, j: nat, x: nat, y: nat)
    requires DigitCount(i) == DigitCount(j) && i < j && Continues(x, i) && Continues(y, j)
    ensures Less(Dec(x), Dec(y))
  {
    SameLengthOrder(i, j);
    DecLength(i);
    DecLength(j);
    var v := ContinuedSplits(x, i);
    var w := ContinuedSplits(y, j);
    LessAppend(Dec(i), Dec(j), v, w);
  }

  lemma ContinuesBy(i: nat, d: nat)
    requires i >= 1 && d < 10
    ensures Continues(10 * i + d, i) && 10 * i + d != i
  {
    assert (10 * i + d) / 10 == i;
  }

  /** i comes before j: j continues i, or they continue a and b of equally many digits with a < b. */
  ghost predicate ComesFirst(i: nat, j: nat) {
    || (i != j && Continues(j, i))
    || exists a: nat, b: nat :: DigitCount(a) == DigitCount(b) && a < b && Continues(i, a) && Continues(j, b)
  }

  lemma ComesFirstIsLess(i: nat, j: nat)
    requires ComesFirst(i, j)
    ensures Less(Dec(i), Dec(j))
  {
    if i != j && Continues(j, i) {
      ContinuationLater(j, i);
    } else {
      var a: nat, b: nat :| DigitCount(a) == DigitCount(b) && a < b && Continues(i, a) && Continues(j, b);
      ContinuationsInOrder(a, b, i, j);
    }
  }

  lemma ContinuedComesFirst(i: nat, j: nat)
    requires j >= 10 && ComesFirst(i, j / 10)
    ensures ComesFirst(i, j)
  {
    if i != j / 10 && Continues(j / 10, i) {
      ContinuesIsLarger(j / 10, i);
    } else {
      var a: nat, b: nat :| DigitCount(a) == DigitCount(b) && a < b && Continues(i, a) && Continues(j / 10, b);
      assert Continues(j, b);
    }
  }

  lemma {:induction false} ContinuesIsLarger(x: nat, i: nat)
    requires Continues(x, i)
    ensures i <= x
  {
    if x != i { ContinuesIsLarger(x / 10, i); }
  }

  lemma {:induction false} ContinuesIsLonger(x: nat, i: nat)
    requires Continues(x, i)
    ensures x == i || DigitCount(i) < DigitCount(x)
  {
    if x != i { ContinuesIsLonger(x / 10, i); }
  }

  lemma ContinuedComesLast(i: nat, j: nat)
    requires j >= 10 && ComesFirst(j / 10, i) && DigitCount(i) < DigitCount(j)
    ensures ComesFirst(j, i)
  {
    assert Continues(i, j / 10) ==> i == j / 10 by {
      if Continues(i, j / 10) { ContinuesIsLonger(i, j / 10); }
    }
    var a: nat, b: nat :| DigitCount(a) == DigitCount(b) && a < b && Continues(j / 10, a) && Continues(i, b);
    assert Continues(j, a);
  }

  /** Of two numbers one comes first. */
  lemma {:induction false} ComesFirstTotal(i: nat, j: nat)
    requires i != j
    ensures ComesFirst(i, j) || ComesFirst(j, i)
    decreases i + j
  {
    if DigitCount(i) == DigitCount(j) {
      assert Continues(i, i) && Continues(j, j);
    } else if DigitCount(i) < DigitCount(j) {
      LongerTotal(i, j);
    } else {
      LongerTotal(j, i);
    }
  }

  lemma {:induction false} LongerTotal(i: nat, j: nat)
    requires DigitCount(i) < DigitCount(j)
    ensures ComesFirst(i, j) || ComesFirst(j, i)
    decreases j
  {
    var a := j / 10;
    if a == i {
      assert Continues(j, i);
    } else if DigitCount(i) < DigitCount(a) {
      LongerTotal(i, a);
      if ComesFirst(i, a) { ContinuedComesFirst(i, j); } else { ContinuedComesLast(i, j); }
    } else {
      assert Continues(i, i) && Continues(j, a);
    }
  }

  /** The byte order of decimal numerals, in terms of the numbers. */
  lemma DecOrder(i: nat, j: nat)
    ensures Less(Dec(i), Dec(j)) <==> ComesFirst(i, j)
  {
    LessTotal(Dec(i), Dec(j));
    if ComesFirst(i, j) { ComesFirstIsLess(i, j); }
    if ComesFirst(j, i) { ComesFirstIsLess(j, i); }
    if i != j { ComesFirstTotal(i, j); }
  }

  // ---------- hexadecimal ----------

  predicate IsHexDigit(ch: char) {
    '0' <= ch <= '9' || 'a' <= ch <= 'f'
  }

  function HexDigitValue(ch: char): nat
    requires IsHexDigit(ch)
  {
    if ch <= '9' then ch as int - '0' as int else ch as int - 'a' as int + 10
  }

  predicate AllHexDigits(s: string) {
    forall k | 0 <= k < |s| :: IsHexDigit(s[k])
  }

  /** The number a hexadecimal text stands for, most significant digit first. */
  function HexValue(s: string): nat
    requires AllHexDigits(s)
  {
    if s == "" then 0 else HexValue(s[..|s| - 1]) * 16 + HexDigitValue(s[|s| - 1])
  }

  lemma HexDigitOf(d: nat)
    requires d < 16
    ensures IsHexDigit("0123456789abcdef"[d]) && HexDigitValue("0123456789abcdef"[d]) == d
  {
  }

  /** Reading a fixed-width text back gives the number. */
  lemma {:induction false} ValueOfHex(n: nat, w: nat)
    requires Fits(n, w)
    ensures AllHexDigits(HexPad(n, w)) && HexValue(HexPad(n, w)) == n
    decreases w
  {
    if w > 0 {
      ValueOfHex(n / 16, w - 1);
      HexDigitOf(n % 16);
      var s := HexPad(n, w);
      assert s[..w - 1] == HexPad(n / 16, w - 1) && s[w - 1] == "0123456789abcdef"[n % 16];
      forall k | 0 <= k < w ensures IsHexDigit(s[k]) {
        assert k < w - 1 ==> s[k] == HexPad(n / 16, w - 1)[k];
      }
    }
  }

  lemma HexDigitOrder(a: nat, b: nat)
    requires a < b < 16
    ensures "0123456789abcdef"[a] < "0123456789abcdef"[b]
  {
    HexDigitOf(a);
    HexDigitOf(b);
  }

  lemma {:induction false} SmallerHexFirst(a: nat, b: nat, w: nat)
    requires Fits(a, w) && Fits(b, w) && a < b
    ensures Less(HexPad(a, w), HexPad(b, w))
    decreases w
  {
    var x, y := ["0123456789abcdef"[a % 16]], ["0123456789abcdef"[b % 16]];
    assert w > 0 && HexPad(a, w) == HexPad(a / 16, w - 1) + x && HexPad(b, w) == HexPad(b / 16, w - 1) + y;
    if a / 16 < b / 16 {
      SmallerHexFirst(a / 16, b / 16, w - 1);
      LessAppend(HexPad(a / 16, w - 1), HexPad(b / 16, w - 1), x, y);
    } else {
      assert a / 16 == b / 16 && a % 16 < b % 16;
      HexDigitOrder(a % 16, b % 16);
      LessUnderPrefix(HexPad(a / 16, w - 1), x, y);
    }
  }

  lemma SmallerHashFirst(a: Hash, b: Hash)
    requires a < b
    ensures Less(HashToHex(a), HashToHex(b))
  {
    HashFits(a);
    HashFits(b);
    SmallerHexFirst(a, b, 64);
    LessUnderPrefix("0x", HexPad(a, 64), HexPad(b, 64));
  }

  /** Hash texts are in byte order exactly when the hashes are in numeric order. */
  lemma HashOrder(a: Hash, b: Hash)
    ensures Less(HashToHex(a), HashToHex(b)) <==> a < b
  {
    LessTotal(HashToHex(a), HashToHex(b));
    if a < b { SmallerHashFirst(a, b); }
    if b < a { SmallerHashFirst(b, a); }
  }
}
