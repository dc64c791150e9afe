/**
 * The string keys of the two grid layers: a cell (x, y) is stored under
 * `str(x) + ';' + str(y)`, with Python's decimal `str` of an integer.
 * The main fact is that this encoding is injective, so distinct cells
 * never share a key.
 */
module TileKeys {

  /** The decimal digit character for `d`. */
  function DigitChar(d: nat): (c: char)
    requires d < 10
    ensures '0' <= c <= '9'
    ensures c as int - '0' as int == d
  {
    (48 + d) as char
  }

  /** Python's `str(n)` for a non-negative integer: digits, no leading zero. */
  function NatToString(n: nat): string
    decreases n
  {
    if n < 10 then [DigitChar(n)] else NatToString(n / 10) + [DigitChar(n % 10)]
  }

  /** Python's `str(i)` for any integer: a minus sign for negatives. */
  function IntToString(i: int): string {
    if i < 0 then "-" + NatToString(-i) else NatToString(i)
  }

  /** The key the grid layers use for cell (x, y): `str(x) + ';' + str(y)`. */
  function Key(x: int, y: int): string {
    IntToString(x) + ";" + IntToString(y)
  }

  /** `str(n)` is a non-empty run of digits, a single one exactly when n < 10. */
  lemma {:induction false} NatToStringShape(n: nat)
    ensures |NatToString(n)| >= 1
    ensures forall i :: 0 <= i < |NatToString(n)| ==> '0' <= NatToString(n)[i] <= '9'
    ensures |NatToString(n)| == 1 <==> n < 10
    decreases n
  {
    if n >= 10 {
      NatToStringShape(n / 10);
      var s := NatToString(n);
      assert s == NatToString(n / 10) + [DigitChar(n % 10)];
      forall i | 0 <= i < |s| ensures '0' <= s[i] <= '9' {
        if i < |s| - 1 {
          assert s[i] == NatToString(n / 10)[i];
        }
      }
    }
  }

  /** `str(i)` is non-empty, holds no ';', and starts with '-' exactly for negatives. */
  lemma IntToStringShape(i: int)
    ensures |IntToString(i)| >= 1
    ensures forall k :: 0 <= k < |IntToString(i)| ==> IntToString(i)[k] != ';'
    ensures IntToString(i)[0] == '-' <==> i < 0
  {
    var s := IntToString(i);
    if i < 0 {
      NatToStringShape(-i);
      assert s == "-" + NatToString(-i);
      forall k | 0 <= k < |s| ensures s[k] != ';' {
        if k > 0 {
          assert s[k] == NatToString(-i)[k - 1];
        }
      }
    } else {
      NatToStringShape(i);
    }
  }

  /** Distinct non-negative integers print differently. */
  lemma {:induction false} NatToStringInjective(a: nat, b: nat)
    requires NatToString(a) == NatToString(b)
    ensures a == b
    decreases a
  {
    var sa, sb := NatToString(a), NatToString(b);
    NatToStringShape(a);
    NatToStringShape(b);
    if a < 10 || b < 10 {
      assert |sa| == 1 && |sb| == 1;
      assert sa[0] == DigitChar(a) && sb[0] == DigitChar(b);
    } else {
      assert sa == NatToString(a / 10) + [DigitChar(a % 10)];
      assert sb == NatToString(b / 10) + [DigitChar(b % 10)];
      assert |NatToString(a / 10)| == |NatToString(b / 10)|;
      assert NatToString(a / 10) == sa[..|sa| - 1] == sb[..|sb| - 1] == NatToString(b / 10);
      assert DigitChar(a % 10) == sa[|sa| - 1] == sb[|sb| - 1] == DigitChar(b % 10);
      NatToStringInjective(a / 10, b / 10);
    }
  }

  /** Distinct integers print differently. */
  lemma IntToStringInjective(a: int, b: int)
    requires IntToString(a) == IntToString(b)
    ensures a == b
  {
    IntToStringShape(a);
    IntToStringShape(b);
    if a < 0 && b < 0 {
      assert NatToString(-a) == IntToString(a)[1..] == IntToString(b)[1..] == NatToString(-b);
      NatToStringInjective(-a, -b);
    } else if a >= 0 && b >= 0 {
      NatToStringInjective(a, b);
    }
  }

  /** The index of the first ';' in `s`, or `|s|` when there is none. */
  function FirstSeparator(s: string): (i: nat)
    ensures i <= |s|
  {
    if s == [] || s[0] == ';' then 0 else 1 + FirstSeparator(s[1..])
  }

  /** In `a + ";" + b` with no ';' in `a`, the first ';' is the one after `a`. */
  lemma {:induction false} SeparatorAfterPrefix(a: string, b: string)
    requires forall k :: 0 <= k < |a| ==> a[k] != ';'
    ensures FirstSeparator(a + ";" + b) == |a|
  {
    if a != [] {
      assert (a + ";" + b)[1..] == a[1..] + ";" + b;
      SeparatorAfterPrefix(a[1..], b);
    }
  }

  /** A string joined by a separator that occurs in neither left half splits back uniquely. */
  lemma SplitAtSeparator(a: string, b: string, c: string, d: string)
    requires forall k :: 0 <= k < |a| ==> a[k] != ';'
    requires forall k :: 0 <= k < |c| ==> c[k] != ';'
    requires a + ";" + b == c + ";" + d
    ensures a == c && b == d
  {
    var s := a + ";" + b;
    SeparatorAfterPrefix(a, b);
    SeparatorAfterPrefix(c, d);
    assert a == s[..|a|] == c;
    assert b == s[|a| + 1..] == d;
  }

  /** Two cells share a key only if they are the same cell. */
  lemma KeyInjective(x1: int, y1: int, x2: int, y2: int)
    requires Key(x1, y1) == Key(x2, y2)
    ensures x1 == x2 && y1 == y2
  {
    IntToStringShape(x1);
    IntToStringShape(x2);
    SplitAtSeparator(IntToString(x1), IntToString(y1), IntToString(x2), IntToString(y2));
    IntToStringInjective(x1, x2);
    IntToStringInjective(y1, y2);
  }
}
