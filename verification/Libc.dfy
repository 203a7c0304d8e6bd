/** Decimal conversion and string length (libc.c). */
module Libc {

  const NUL := 0 as char

  function Digit(d: int): (c: char)
    requires 0 <= d < 10
    ensures '0' <= c <= '9'
  {
    (d + '0' as int) as char
  }

  /** The decimal form of a, most significant digit first, without leading zeros. */
  function Decimal(a: nat): (s: seq<char>)
    ensures |s| > 0 && forall i :: 0 <= i < |s| ==> '0' <= s[i] <= '9'
  {
    if a < 10 then [Digit(a)] else Decimal(a / 10) + [Digit(a % 10)]
  }

  predicate Numeral(s: seq<char>) {
    |s| > 0 && forall i :: 0 <= i < |s| ==> '0' <= s[i] <= '9'
  }

  function Parse(s: seq<char>): nat
    requires forall i :: 0 <= i < |s| ==> '0' <= s[i] <= '9'
  {
    if s == [] then 0 else Parse(s[..|s| - 1]) * 10 + (s[|s| - 1] as int - '0' as int)
  }

  /** Parsing the decimal form gives the number back, and only zero starts with a zero. */
  lemma {:induction false} ParseDecimal(a: nat)
    ensures Parse(Decimal(a)) == a
    ensures Decimal(a)[0] == '0' <==> a == 0
  {
    if a < 10 {
      assert Decimal(a)[..0] == [];
    } else {
      ParseDecimal(a / 10);
      assert Decimal(a)[..|Decimal(a)| - 1] == Decimal(a / 10);
    }
  }

  /** Every numeral without a leading zero is the decimal form of what it parses to. */
  lemma {:induction false} DecimalParse(s: seq<char>)
    requires Numeral(s) && (s[0] == '0' ==> |s| == 1)
    ensures Decimal(Parse(s)) == s
    ensures s[0] != '0' ==> Parse(s) > 0
  {
    var last := |s| - 1;
    if last == 0 {
      assert s[..0] == [] && s == [s[0]];
      assert Parse(s) == s[0] as int - '0' as int;
    } else {
      DecimalParse(s[..last]);
      var d := s[last] as int - '0' as int;
      assert Parse(s) == Parse(s[..last]) * 10 + d;
      assert Parse(s) / 10 == Parse(s[..last]) && Parse(s) % 10 == d;
      assert s == s[..last] + [s[last]];
    }
  }

  function Reversed(s: seq<char>): (r: seq<char>)
    ensures |r| == |s| && forall i :: 0 <= i < |s| ==> r[i] == s[|s| - 1 - i]
  {
    seq(|s|, i requires 0 <= i < |s| => s[|s| - 1 - i])
  }

  lemma LastDigit(a: nat)
    requires a > 0
    ensures var s := Decimal(a);
      s[|s| - 1] == Digit(a % 10) && s[..|s| - 1] == if a < 10 then [] else Decimal(a / 10)
  {
  }

  /** The digit loop: least significant digit first. */
  method Digits(a: nat, b: array<char>) returns (i: nat)
    requires a > 0 && |Decimal(a)| < b.Length
    modifies b
    ensures i == |Decimal(a)| && b[..i] == Reversed(Decimal(a))
  {
    hide Decimal;
    var rest := a;
    i := 0;
    ghost var full := Decimal(a);
    ghost var n := |full|;
    assert full[..n] == full;
    while rest > 0
      invariant rest >= 0 && 0 <= i <= n && (rest == 0 <==> i == n)
      invariant rest > 0 ==> full[..n - i] == Decimal(rest)
      invariant forall k :: 0 <= k < i ==> b[k] == full[n - 1 - k]
      decreases rest
    {
      LastDigit(rest);
      ghost var todo := full[..n - i];
      assert todo[n - i - 1] == full[n - i - 1] && todo[..n - i - 1] == full[..n - i - 1];
      b[i] := Digit(rest % 10);
      rest := rest / 10;
      i := i + 1;
    }
    assert b[..i] == Reversed(full);
  }

  /** The swapping loop, on the first n places of the buffer. */
  method ReverseInPlace(b: array<char>, n: nat)
    requires n <= b.Length
    modifies b
    ensures b[..n] == Reversed(old(b[..n])) && b[n..] == old(b[n..])
  {
    for i := 0 to n / 2
      invariant forall k :: 0 <= k < n ==> b[k] == old(b[..n])[if k < i || k >= n - i then n - 1 - k else k]
      invariant b[n..] == old(b[n..])
    {
      var c := b[i];
      b[i] := b[n - i - 1];
      b[n - i - 1] := c;
    }
  }

  /** itoa: the decimal form of a >= 0, or the empty string below 0, ended by a NUL. */
  method Itoa(a: int, b: array<char>)
    requires if a >= 0 then |Decimal(a)| < b.Length else 0 < b.Length
    modifies b
    ensures a >= 0 ==> b[..|Decimal(a)|] == Decimal(a) && b[|Decimal(a)|] == NUL
    ensures a < 0 ==> b[0] == NUL
  {
    if a == 0 {
      b[0] := '0';
      b[1] := NUL;
      return;
    }
    var i := 0;
    if a > 0 {
      i := Digits(a, b);
      ReverseInPlace(b, i);
      assert Reversed(Reversed(Decimal(a))) == Decimal(a);
    }
    b[i] := NUL;
  }

  /** strlen: the place of the first NUL. */
  method Strlen(a: array<char>) returns (i: nat)
    requires NUL in a[..]
    ensures i < a.Length && a[i] == NUL && NUL !in a[..i]
  {
    ghost var k :| 0 <= k < a.Length && a[k] == NUL;
    i := 0;
    while a[i] != NUL
      invariant 0 <= i <= k && NUL !in a[..i]
      decreases k - i
    {
      i := i + 1;
    }
  }

  /** itoa followed by strlen gives the number of digits. */
  method DigitCount(a: nat, b: array<char>) returns (n: nat)
    requires |Decimal(a)| < b.Length
    modifies b
    ensures n == |Decimal(a)| && b[..n] == Decimal(a)
  {
    Itoa(a, b);
    ghost var k := |Decimal(a)|;
    assert b[..][k] == NUL;
    assert forall j :: 0 <= j < k ==> b[j] == b[..k][j] != NUL;
    n := Strlen(b);
    assert forall j :: 0 <= j < n ==> b[j] == b[..n][j] != NUL;
  }
}
