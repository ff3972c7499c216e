/**
 * Invocation ids of the caller-side results manager: the target connection id, the manager's
 * own id and a per-manager counter, joined by '-'. The counter is written in decimal, so it is
 * the part after the last '-', and an id determines both its connection and its counter.
 */
module InvocationIds {

  predicate IsDigit(c: char)
  {
    '0' <= c <= '9'
  }

  predicate AllDigits(s: string)
  {
    forall i :: 0 <= i < |s| ==> IsDigit(s[i])
  }

  function DigitChar(d: nat): (c: char)
    requires d < 10
    ensures IsDigit(c)
  {
    ('0' as int + d) as char
  }

  /** The decimal text of `n`, as `long.ToString()` writes a non-negative value. */
  function NatToString(n: nat): (s: string)
    decreases n
    ensures |s| >= 1 && AllDigits(s)
    ensures n >= 10 ==> |s| >= 2
  {
    if n < 10 then [DigitChar(n)] else NatToString(n / 10) + [DigitChar(n % 10)]
  }

  /** Distinct numbers have distinct decimal texts. */
  lemma {:induction false} NatToStringInjective(a: nat, b: nat)
    requires NatToString(a) == NatToString(b)
    ensures a == b
  {
    var s := NatToString(a);
    if a < 10 && b < 10 {
      assert s[0] == DigitChar(a) && s[0] == DigitChar(b);
    } else if a < 10 || b < 10 {
      // one text has a single digit and the other at least two
      assert false;
    } else {
      var pa, pb := NatToString(a / 10), NatToString(b / 10);
      assert s == pa + [DigitChar(a % 10)] && s == pb + [DigitChar(b % 10)];
      assert |pa| == |pb|;
      assert DigitChar(a % 10) == s[|s| - 1] == DigitChar(b % 10);
      assert pa == s[..|s| - 1] == pb;
      NatToStringInjective(a / 10, b / 10);
    }
  }

  /** `$"{connectionId}-{managerId}-{counter}"`. */
  function InvocationId(connectionId: string, managerId: string, counter: nat): string
  {
    connectionId + "-" + managerId + "-" + NatToString(counter)
  }

  /** Where the parts of `x + "-" + d` sit. */
  lemma JoinedAt(x: string, d: string, i: int)
    ensures (x + "-" + d)[|x|] == '-'
    ensures 0 <= i < |d| ==> (x + "-" + d)[|x| + 1 + i] == d[i]
  {
  }

  /** A '-' followed by digits only ends a string in one way. */
  lemma DigitSuffixUnique(x: string, d1: string, y: string, d2: string)
    requires AllDigits(d1) && AllDigits(d2)
    requires x + "-" + d1 == y + "-" + d2
    ensures d1 == d2 && x == y
  {
    var s := x + "-" + d1;
    var t := y + "-" + d2;
    if |d1| < |d2| {
      // the '-' before d1 would face a digit of d2
      JoinedAt(x, d1, 0);
      JoinedAt(y, d2, |x| - |y| - 1);
      assert false;
    } else if |d2| < |d1| {
      JoinedAt(y, d2, 0);
      JoinedAt(x, d1, |y| - |x| - 1);
      assert false;
    } else {
      assert d1 == s[|s| - |d1|..] && d2 == t[|t| - |d2|..];
      assert x == s[..|x|] && y == t[..|y|];
    }
  }

  /**
   * Ids generated by one manager are equal only when they have the same counter and the same
   * connection; in particular two ids with different counters never coincide, whatever the
   * connection ids contain.
   */
  lemma InvocationIdInjective(c1: string, n1: nat, c2: string, n2: nat, managerId: string)
    requires InvocationId(c1, managerId, n1) == InvocationId(c2, managerId, n2)
    ensures n1 == n2 && c1 == c2
  {
    DigitSuffixUnique(c1 + "-" + managerId, NatToString(n1), c2 + "-" + managerId, NatToString(n2));
    NatToStringInjective(n1, n2);
    assert c1 + "-" + managerId == c2 + "-" + managerId;
    var k := |managerId| + 1;
    assert c1 == (c1 + "-" + managerId)[..|c1 + "-" + managerId| - k];
    assert c2 == (c2 + "-" + managerId)[..|c2 + "-" + managerId| - k];
  }
}
