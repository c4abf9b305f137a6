/**
 * String operations the stores rely on: Python's `str()` of an integer (the
 * status-code key), the ordering SQLite uses on TEXT columns (`ORDER BY ts`),
 * and `key.split(" ", 1)` (taking a route key apart again).
 */
module Text {

  /** The decimal digit character for `d`. */
  function DigitChar(d: nat): (c: char)
    requires d < 10
    ensures '0' <= c <= '9'
  {
    (48 + d) as char
  }

  /** The value of a decimal digit character (0 for any other character). */
  function DigitValue(c: char): (d: nat)
    ensures d < 10
  {
    if '0' <= c <= '9' then c as int - '0' as int else 0
  }

  /** The number a string of decimal digits spells, most significant digit first. */
  function DecimalValue(s: string): nat {
    if s == [] then 0 else DecimalValue(s[..|s| - 1]) * 10 + DigitValue(s[|s| - 1])
  }

  /** Decimal rendering of a natural number, without leading zeros. */
  function NatToDecimal(n: nat): (s: string)
    ensures 1 <= |s|
    ensures |s| == 1 <==> n < 10
    ensures forall i :: 0 <= i < |s| ==> '0' <= s[i] <= '9'
    ensures |s| > 1 ==> s[0] != '0'
    decreases n
  {
    if n < 10 then [DigitChar(n)] else NatToDecimal(n / 10) + [DigitChar(n % 10)]
  }

  /** Reading the rendering of `n` back gives `n`. */
  lemma {:induction false} NatToDecimalValue(n: nat)
    ensures DecimalValue(NatToDecimal(n)) == n
    decreases n
  {
    var s := NatToDecimal(n);
    if n < 10 {
      assert s[..0] == [];
    } else {
      assert s[..|s| - 1] == NatToDecimal(n / 10);
      NatToDecimalValue(n / 10);
    }
  }

  /** Python's `str(n)` for an `int`: a minus sign before the digits of a negative number. */
  function IntToDecimal(n: int): (s: string)
    ensures 1 <= |s|
    ensures s[0] == '-' <==> n < 0
    ensures n < 0 ==> s[1..] == NatToDecimal(-n)
    ensures n >= 0 ==> s == NatToDecimal(n)
  {
    if n < 0 then "-" + NatToDecimal(-n) else NatToDecimal(n)
  }

  /** The rendering of an integer spells its value: its digits read back as `abs(n)`, after a '-' exactly when `n < 0`. */
  lemma IntToDecimalValue(n: int)
    ensures n >= 0 ==> DecimalValue(IntToDecimal(n)) == n
    ensures n < 0 ==> DecimalValue(IntToDecimal(n)[1..]) == -n
  {
    if n < 0 {
      NatToDecimalValue(-n);
    } else {
      NatToDecimalValue(n);
    }
  }

  /** Different natural numbers render differently. */
  lemma {:induction false} NatToDecimalInjective(a: nat, b: nat)
    requires NatToDecimal(a) == NatToDecimal(b)
    ensures a == b
    decreases a
  {
    var s := NatToDecimal(a);
    if 10 <= a {
      assert 10 <= b;
      assert DigitChar(a % 10) == s[|s| - 1] == DigitChar(b % 10);
      assert NatToDecimal(a / 10) == s[..|s| - 1] == NatToDecimal(b / 10);
      NatToDecimalInjective(a / 10, b / 10);
    } else {
      assert DigitChar(a) == s[0] == DigitChar(b);
    }
  }

  /** Different integers render differently, so `str(status_code)` tells status codes apart. */
  lemma IntToDecimalInjective(a: int, b: int)
    requires IntToDecimal(a) == IntToDecimal(b)
    ensures a == b
  {
    var s := IntToDecimal(a);
    if a < 0 {
      assert NatToDecimal(-a) == s[1..] == NatToDecimal(-b);
      NatToDecimalInjective(-a, -b);
    } else {
      NatToDecimalInjective(a, b);
    }
  }

  /**
   * `a` sorts at or before `b` as SQLite compares TEXT under its default BINARY
   * collation: the first differing character decides, and a proper prefix comes
   * first. (UTF-8 byte order coincides with code point order.)
   */
  predicate TextLe(a: string, b: string)
    decreases |a|
  {
    if |a| == 0 then true
    else if |b| == 0 then false
    else if a[0] != b[0] then a[0] < b[0]
    else TextLe(a[1..], b[1..])
  }

  lemma {:induction false} TextLeReflexive(a: string)
    ensures TextLe(a, a)
    decreases |a|
  {
    if |a| != 0 {
      TextLeReflexive(a[1..]);
    }
  }

  /** Any two texts are comparable. */
  lemma {:induction false} TextLeTotal(a: string, b: string)
    ensures TextLe(a, b) || TextLe(b, a)
    decreases |a|
  {
    if |a| != 0 && |b| != 0 && a[0] == b[0] {
      TextLeTotal(a[1..], b[1..]);
    }
  }

  lemma {:induction false} TextLeTransitive(a: string, b: string, c: string)
    requires TextLe(a, b) && TextLe(b, c)
    ensures TextLe(a, c)
    decreases |a|
  {
    if |a| != 0 && a[0] == b[0] && b[0] == c[0] {
      TextLeTransitive(a[1..], b[1..], c[1..]);
    }
  }

  /** Texts that sort at or before each other are equal: the order is a total order. */
  lemma {:induction false} TextLeAntisymmetric(a: string, b: string)
    requires TextLe(a, b) && TextLe(b, a)
    ensures a == b
    decreases |a|
  {
    if |a| != 0 {
      TextLeAntisymmetric(a[1..], b[1..]);
      assert a == [a[0]] + a[1..];
      assert b == [b[0]] + b[1..];
    }
  }

  /** `key.split(" ", 1)`: the text before the first space and the text after it. */
  function SplitAtFirstSpace(key: string): (parts: (string, string))
    requires ' ' in key
    ensures parts.0 + " " + parts.1 == key
    ensures ' ' !in parts.0
  {
    if key[0] == ' ' then ("", key[1..])
    else
      assert ' ' in key[1..] by {
        var i :| 0 <= i < |key| && key[i] == ' ';
        assert key[1..][i - 1] == ' ';
      }
      var (head, tail) := SplitAtFirstSpace(key[1..]);
      assert [key[0]] + head + " " + tail == [key[0]] + key[1..] == key;
      ([key[0]] + head, tail)
  }

  /** Joining with a space and splitting at the first space gives back the parts, when the first has no space. */
  lemma {:induction false} SplitJoin(head: string, tail: string)
    requires ' ' !in head
    ensures SplitAtFirstSpace(head + " " + tail) == (head, tail)
    decreases |head|
  {
    var key := head + " " + tail;
    if head == [] {
      assert key[0] == ' ' && key[1..] == tail;
    } else {
      assert key[0] == head[0] != ' ';
      assert key[1..] == head[1..] + " " + tail;
      SplitJoin(head[1..], tail);
      assert [head[0]] + head[1..] == head;
    }
  }
}
