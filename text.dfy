/**
 * The java.lang.String operations the mapping layer relies on.
 *
 * Case conversion and case-insensitive comparison cover the ASCII letters
 * only; `Trim` is `String.trim`, which strips every character whose code is
 * at most that of the space character.
 */
module Text {

  function UpperChar(c: char): (u: char)
    ensures 'a' <= c <= 'z' ==> u as int == c as int - 32
    ensures !('a' <= c <= 'z') ==> u == c
  {
    if 'a' <= c <= 'z' then (c as int - 32) as char else c
  }

  /** `String.toUpperCase` on ASCII letters. */
  function Upper(s: string): (u: string)
    ensures |u| == |s|
    ensures forall i :: 0 <= i < |s| ==> u[i] == UpperChar(s[i])
  {
    seq(|s|, i requires 0 <= i < |s| => UpperChar(s[i]))
  }

  /** `String.equalsIgnoreCase` on ASCII letters. */
  predicate EqualsIgnoreCase(a: string, b: string) {
    Upper(a) == Upper(b)
  }

  lemma {:induction false} UpperIdempotent(s: string)
    ensures Upper(Upper(s)) == Upper(s)
  {
  }

  lemma EqualsIgnoreCaseIsEquivalence(a: string, b: string, c: string)
    ensures EqualsIgnoreCase(a, a)
    ensures EqualsIgnoreCase(a, b) ==> EqualsIgnoreCase(b, a)
    ensures EqualsIgnoreCase(a, b) && EqualsIgnoreCase(b, c) ==> EqualsIgnoreCase(a, c)
  {
  }

  // ---------------------------------------------------------------- trimming

  predicate IsTrimmable(c: char) { c <= ' ' }

  function TrimStart(s: string): (r: string)
    ensures |r| <= |s|
  {
    if s != [] && IsTrimmable(s[0]) then TrimStart(s[1..]) else s
  }

  function TrimEnd(s: string): (r: string)
    ensures |r| <= |s|
  {
    if s != [] && IsTrimmable(s[|s| - 1]) then TrimEnd(s[..|s| - 1]) else s
  }

  /** `TrimStart` cuts off the leading trimmable characters and stops at a visible one. */
  lemma {:induction false} TrimStartCuts(s: string)
    ensures var r := TrimStart(s);
            && r == s[|s| - |r|..]
            && (r != [] ==> !IsTrimmable(r[0]))
            && forall i :: 0 <= i < |s| - |r| ==> IsTrimmable(s[i])
    decreases |s|
  {
    if s != [] && IsTrimmable(s[0]) {
      TrimStartCuts(s[1..]);
      var r := TrimStart(s);
      forall i | 0 <= i < |s| - |r| ensures IsTrimmable(s[i]) {
        if i > 0 {
          assert s[i] == s[1..][i - 1];
        }
      }
    }
  }

  /** `TrimEnd` cuts off the trailing trimmable characters and stops at a visible one. */
  lemma {:induction false} TrimEndCuts(s: string)
    ensures var r := TrimEnd(s);
            && r == s[..|r|]
            && (r != [] ==> !IsTrimmable(r[|r| - 1]))
            && forall i :: |r| <= i < |s| ==> IsTrimmable(s[i])
    decreases |s|
  {
    if s != [] && IsTrimmable(s[|s| - 1]) {
      var t := s[..|s| - 1];
      TrimEndCuts(t);
      var r := TrimEnd(s);
      assert r == TrimEnd(t);
      forall i | |r| <= i < |s| ensures IsTrimmable(s[i]) {
        if i < |s| - 1 {
          assert s[i] == t[i];
        }
      }
    }
  }

  /** `String.trim`. */
  function Trim(s: string): string {
    TrimEnd(TrimStart(s))
  }

  /** `s[i..j]` is what remains of `s` once only trimmable characters are cut off around it. */
  predicate TrimmedSliceAt(s: string, i: nat, j: nat)
    requires i <= j <= |s|
  {
    && (forall k :: 0 <= k < i ==> IsTrimmable(s[k]))
    && (forall k :: j <= k < |s| ==> IsTrimmable(s[k]))
  }

  /**
   * The trimmed text is a slice of the input that neither starts nor ends
   * with a trimmable character, and everything cut off is trimmable.
   */
  lemma TrimIsTrimmedSlice(s: string) returns (i: nat, j: nat)
    ensures i <= j <= |s| && Trim(s) == s[i..j] && TrimmedSliceAt(s, i, j)
    ensures Trim(s) != [] ==> !IsTrimmable(Trim(s)[0]) && !IsTrimmable(Trim(s)[|Trim(s)| - 1])
  {
    var t := TrimStart(s);
    var r := TrimEnd(t);
    TrimStartCuts(s);
    TrimEndCuts(t);
    assert Trim(s) == r;
    i := |s| - |t|;
    j := i + |r|;
    assert t == s[i..];
    assert r == t[..|r|];
    forall m | 0 <= m < |r| ensures s[i..j][m] == r[m] {
      assert r[m] == t[m] == s[i + m];
    }
    assert s[i..j] == r;
    forall k | j <= k < |s| ensures IsTrimmable(s[k]) {
      assert |r| <= k - i < |t|;
      assert s[k] == t[k - i];
      assert IsTrimmable(t[k - i]);
    }
  }

  /** Trimming text that has no outer trimmable characters changes nothing. */
  lemma TrimOfTrimmed(s: string)
    requires s != [] ==> !IsTrimmable(s[0]) && !IsTrimmable(s[|s| - 1])
    ensures Trim(s) == s
  {
  }

  /** Text that starts and ends with a visible character. */
  predicate Visible(x: string) {
    x != [] && !IsTrimmable(x[0]) && !IsTrimmable(x[|x| - 1])
  }

  lemma TrimStartBlank(y: string)
    ensures TrimStart(" " + y) == TrimStart(y)
  {
    assert (" " + y)[1..] == y;
  }

  lemma TrimEndBlank(y: string)
    ensures TrimEnd(y + " ") == TrimEnd(y)
  {
    assert (y + " ")[..|y|] == y;
  }

  /** One blank around visible text is trimmed away, and nothing more. */
  lemma TrimAround(x: string)
    requires Visible(x)
    ensures Trim(x) == x
    ensures Trim(" " + x) == x
    ensures Trim(" " + x + " ") == x
  {
    TrimStartBlank(x);
    TrimStartBlank(x + " ");
    assert " " + x + " " == " " + (x + " ");
    TrimEndBlank(x);
  }

  /** The trimmed form of a blank followed by text that starts visibly. */
  lemma TrimLeadingBlank(x: string)
    requires x != [] && !IsTrimmable(x[0])
    ensures Trim(" " + x) == TrimEnd(x)
  {
    TrimStartBlank(x);
  }

  lemma TrimEndVisible(z: string)
    requires z != [] && !IsTrimmable(z[|z| - 1])
    ensures TrimEnd(z) == z
  {
  }

  /** Trimming the end never cuts into text that ends with a visible character. */
  lemma {:induction false} TrimEndAfterVisible(p: string, y: string)
    requires p != [] && !IsTrimmable(p[|p| - 1])
    ensures TrimEnd(p + y) == p + TrimEnd(y)
    decreases |y|
  {
    if y == [] {
      assert p + y == p;
    } else if IsTrimmable(y[|y| - 1]) {
      assert (p + y)[..|p + y| - 1] == p + y[..|y| - 1];
      TrimEndAfterVisible(p, y[..|y| - 1]);
    } else {
      assert (p + y)[|p + y| - 1] == y[|y| - 1];
    }
  }

  /** A buffer holding a blank, then visible text `p`, then anything, trims to `p` and the trimmed end of the rest. */
  lemma TrimVisibleThen(b: string, p: string, z: string)
    requires b == " " + p + z && Visible(p)
    ensures Trim(b) == p + TrimEnd(z)
  {
    assert b == " " + (p + z);
    assert (p + z)[0] == p[0];
    TrimLeadingBlank(p + z);
    TrimEndAfterVisible(p, z);
  }

  // ---------------------------------------------------------------- appending

  /** Regrouping appended pieces, stated over plain strings so that it is cheap to use. */
  lemma AppendAssociates2(buffer: string, a: string, b: string)
    ensures buffer + a + b == buffer + (a + b)
  {
  }

  lemma AppendAssociates(buffer: string, a: string, b: string, c: string)
    ensures buffer + a + b + c == buffer + (a + b + c)
  {
  }

  lemma AppendAssociates4(buffer: string, a: string, b: string, c: string, d: string)
    ensures buffer + a + b + c + d == buffer + (a + b + c + d)
  {
  }

  // ---------------------------------------------------------------- joining

  /** The items, each but the first preceded by `sep`. */
  function Join(items: seq<string>, sep: string): (r: string)
    decreases |items|
  {
    if |items| == 0 then ""
    else if |items| == 1 then items[0]
    else Join(items[..|items| - 1], sep) + sep + items[|items| - 1]
  }

  /** A join starts with the first item's first character. */
  lemma {:induction false} JoinStart(items: seq<string>, sep: string)
    requires items != [] && items[0] != []
    ensures Join(items, sep) != [] && Join(items, sep)[0] == items[0][0]
    decreases |items|
  {
    if |items| > 1 {
      var init := items[..|items| - 1];
      assert init[0] == items[0];
      JoinStart(init, sep);
    }
  }

  /** Six items joined, regrouped over plain strings so that concrete joins are cheap to state. */
  lemma JoinThree(a: string, b: string, c: string, sep: string)
    ensures Join([a, b, c], sep) == a + sep + b + sep + c
  {
    JoinOne([a], sep, b);
    JoinOne([a, b], sep, c);
    assert [a] + [b] == [a, b];
    assert [a, b] + [c] == [a, b, c];
  }

  lemma JoinSix(a: string, b: string, c: string, d: string, e: string, f: string, sep: string)
    ensures Join([a, b, c, d, e, f], sep) == a + sep + b + sep + c + sep + d + sep + e + sep + f
  {
    JoinOne([a], sep, b);
    JoinOne([a, b], sep, c);
    JoinOne([a, b, c], sep, d);
    JoinOne([a, b, c, d], sep, e);
    JoinOne([a, b, c, d, e], sep, f);
    assert [a] + [b] == [a, b];
    assert [a, b] + [c] == [a, b, c];
    assert [a, b, c] + [d] == [a, b, c, d];
    assert [a, b, c, d] + [e] == [a, b, c, d, e];
    assert [a, b, c, d, e] + [f] == [a, b, c, d, e, f];
  }

  lemma JoinOne(items: seq<string>, sep: string, x: string)
    requires items != []
    ensures Join(items + [x], sep) == Join(items, sep) + sep + x
  {
    assert (items + [x])[..|items|] == items;
  }

  function CountChar(s: string, c: char): (n: nat)
    ensures n <= |s|
  {
    if s == [] then 0 else CountChar(s[..|s| - 1], c) + (if s[|s| - 1] == c then 1 else 0)
  }

  lemma {:induction false} CountCharAppend(a: string, b: string, c: char)
    ensures CountChar(a + b, c) == CountChar(a, c) + CountChar(b, c)
    decreases |b|
  {
    if b == [] {
      assert a + b == a;
    } else {
      assert (a + b)[..|a + b| - 1] == a + b[..|b| - 1];
      CountCharAppend(a, b[..|b| - 1], c);
    }
  }

  lemma CountConcat3(a: string, b: string, d: string, c: char)
    ensures CountChar(a + b + d, c) == CountChar(a, c) + CountChar(b, c) + CountChar(d, c)
  {
    CountCharAppend(a, b, c);
    CountCharAppend(a + b, d, c);
  }

  lemma CountConcat5(a: string, b: string, d: string, e: string, f: string, c: char)
    ensures CountChar(a + b + d + e + f, c)
            == CountChar(a, c) + CountChar(b, c) + CountChar(d, c) + CountChar(e, c) + CountChar(f, c)
  {
    CountConcat3(a, b, d, c);
    CountConcat3(a + b + d, e, f, c);
  }

  /** No character of `s` is `c`. */
  predicate Lacks(s: string, c: char) {
    forall i :: 0 <= i < |s| ==> s[i] != c
  }

  lemma {:induction false} CountCharLacks(s: string, c: char)
    ensures Lacks(s, c) <==> CountChar(s, c) == 0
    decreases |s|
  {
    if s != [] {
      CountCharLacks(s[..|s| - 1], c);
      if Lacks(s, c) {
        assert Lacks(s[..|s| - 1], c);
      } else if s[|s| - 1] != c {
        var i :| 0 <= i < |s| && s[i] == c;
        assert s[..|s| - 1][i] == c;
      }
    }
  }

  lemma LacksAppend(a: string, b: string, c: char)
    ensures Lacks(a + b, c) <==> Lacks(a, c) && Lacks(b, c)
  {
    if Lacks(a + b, c) {
      forall i | 0 <= i < |a| ensures a[i] != c {
        assert (a + b)[i] == a[i];
      }
      forall i | 0 <= i < |b| ensures b[i] != c {
        assert (a + b)[|a| + i] == b[i];
      }
    }
    if Lacks(a, c) && Lacks(b, c) {
      forall i | 0 <= i < |a + b| ensures (a + b)[i] != c {
        if i < |a| {
          assert (a + b)[i] == a[i];
        } else {
          assert (a + b)[i] == b[i - |a|];
        }
      }
    }
  }

  /** Appending text without `c` leaves the count of `c` unchanged. */
  lemma CountAppendLacking(a: string, b: string, c: char)
    requires Lacks(b, c)
    ensures CountChar(a + b, c) == CountChar(a, c)
  {
    CountCharLacks(b, c);
    CountCharAppend(a, b, c);
  }

  predicate NoChar(items: seq<string>, c: char) {
    forall i :: 0 <= i < |items| ==> Lacks(items[i], c)
  }

  lemma MulStep(n: int, k: int)
    ensures (n - 1) * k + k == n * k
  {
  }

  /** The occurrences of `c` in all the items together. */
  function SumCount(items: seq<string>, c: char): nat {
    if items == [] then 0 else SumCount(items[..|items| - 1], c) + CountChar(items[|items| - 1], c)
  }

  lemma {:induction false} SumCountConst(items: seq<string>, c: char, k: nat)
    requires forall i :: 0 <= i < |items| ==> CountChar(items[i], c) == k
    ensures SumCount(items, c) == |items| * k
    decreases |items|
  {
    if items != [] {
      SumCountConst(items[..|items| - 1], c, k);
      MulStep(|items|, k);
    }
  }

  /** Joining adds the separator's occurrences once between each pair of items. */
  lemma {:induction false} JoinCount(items: seq<string>, sep: string, c: char)
    requires items != []
    ensures CountChar(Join(items, sep), c) == SumCount(items, c) + (|items| - 1) * CountChar(sep, c)
    decreases |items|
  {
    if |items| == 1 {
      assert items[..0] == [];
    } else {
      var init, last := items[..|items| - 1], items[|items| - 1];
      JoinCount(init, sep, c);
      assert Join(items, sep) == Join(init, sep) + sep + last;
      CountConcat3(Join(init, sep), sep, last, c);
      assert SumCount(items, c) == SumCount(init, c) + CountChar(last, c);
      MulStep(|init|, CountChar(sep, c));
    }
  }

  /**
   * When no item contains the character `c`, joining n >= 1 items with a
   * separator holding one `c` yields exactly n - 1 occurrences of `c`.
   */
  lemma JoinSeparatorCount(items: seq<string>, sep: string, c: char)
    requires items != [] && NoChar(items, c) && CountChar(sep, c) == 1
    ensures CountChar(Join(items, sep), c) == |items| - 1
  {
    forall i | 0 <= i < |items| ensures CountChar(items[i], c) == 0 {
      CountCharLacks(items[i], c);
    }
    SumCountConst(items, c, 0);
    JoinCount(items, sep, c);
  }

  // ---------------------------------------------------------------- misc

  /** `String.replace(char, char)`. */
  function ReplaceChar(s: string, from: char, to: char): (r: string)
    ensures |r| == |s|
    ensures forall i :: 0 <= i < |s| ==> r[i] == if s[i] == from then to else s[i]
  {
    seq(|s|, i requires 0 <= i < |s| => if s[i] == from then to else s[i])
  }

  predicate IsPrefix(p: string, s: string) {
    |p| <= |s| && s[..|p|] == p
  }

  predicate IsSuffix(p: string, s: string) {
    |p| <= |s| && s[|s| - |p|..] == p
  }

  function DigitChar(d: nat): char
    requires d < 10
  {
    "0123456789"[d]
  }

  function NatDigits(n: nat): (s: string)
    ensures |s| >= 1
    ensures forall i :: 0 <= i < |s| ==> '0' <= s[i] <= '9'
  {
    if n < 10 then [DigitChar(n)] else NatDigits(n / 10) + [DigitChar(n % 10)]
  }

  /** `Long.toString(long)`: optional minus sign, then decimal digits. */
  function DecimalString(n: int): (s: string)
    ensures |s| >= 1
    ensures n >= 0 ==> s == NatDigits(n)
    ensures n < 0 ==> s == "-" + NatDigits(-n)
  {
    if n < 0 then "-" + NatDigits(-n) else NatDigits(n)
  }

  lemma DigitCharInjective(a: nat, b: nat)
    requires a < 10 && b < 10 && DigitChar(a) == DigitChar(b)
    ensures a == b
  {
  }

  /** Distinct numbers have distinct decimal digits. */
  lemma {:induction false} NatDigitsInjective(a: nat, b: nat)
    requires NatDigits(a) == NatDigits(b)
    ensures a == b
    decreases a
  {
    var s := NatDigits(a);
    if a < 10 && b < 10 {
      DigitCharInjective(a, b);
    } else if a >= 10 && b >= 10 {
      assert s[|s| - 1] == DigitChar(a % 10) && s[|s| - 1] == DigitChar(b % 10);
      DigitCharInjective(a % 10, b % 10);
      assert NatDigits(a / 10) == s[..|s| - 1] == NatDigits(b / 10);
      NatDigitsInjective(a / 10, b / 10);
    }
  }

  /** `Long.toString` is injective: the text determines the number. */
  lemma DecimalStringInjective(a: int, b: int)
    ensures DecimalString(a) == DecimalString(b) ==> a == b
  {
    var s, t := DecimalString(a), DecimalString(b);
    if a < 0 && b < 0 {
      if s == t {
        assert NatDigits(-a) == s[1..] == NatDigits(-b);
        NatDigitsInjective(-a, -b);
      }
    } else if a >= 0 && b >= 0 {
      if s == t {
        NatDigitsInjective(a, b);
      }
    } else if a < 0 {
      assert s[0] != t[0];
    } else {
      assert s[0] != t[0];
    }
  }

  // ---------------------------------------------------------------- hashing

  const TWO_32: int := 0x1_0000_0000
  const TWO_31: int := 0x8000_0000

  /** Java `int` arithmetic: the value wrapped into [-2^31, 2^31). */
  function Int32(x: int): (r: int)
    ensures -TWO_31 <= r < TWO_31
    ensures -TWO_31 <= x < TWO_31 ==> r == x
  {
    (x + TWO_31) % TWO_32 - TWO_31
  }

  /** `String.hashCode`: s[0]*31^(n-1) + ... + s[n-1], in wrapping `int` arithmetic. */
  function StringHashCode(s: string): (h: int)
    ensures -TWO_31 <= h < TWO_31
  {
    if s == [] then 0 else Int32(31 * StringHashCode(s[..|s| - 1]) + s[|s| - 1] as int)
  }
}
