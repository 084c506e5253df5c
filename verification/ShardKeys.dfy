/** The storage key of a shard, `<user>_<chunk>_shard_<index>`, and why two shards never share one. */
module ShardKeys {

  function Digits(n: nat): (s: string)
    ensures |s| > 0 && (n < 10 <==> |s| == 1)
    ensures forall i :: 0 <= i < |s| ==> s[i] in "0123456789"
  {
    if n < 10 then ["0123456789"[n]] else Digits(n / 10) + ["0123456789"[n % 10]]
  }

  /** Go's `%d`. */
  function Decimal(n: int): (s: string)
    ensures '_' !in s
  {
    if n < 0 then "-" + Digits(-n) else Digits(n)
  }

  function ShardKey(user: string, chunk: int, index: int): string {
    user + "_" + Decimal(chunk) + "_shard" + "_" + Decimal(index)
  }

  lemma {:induction false} DigitsInjective(a: nat, b: nat)
    requires Digits(a) == Digits(b)
    ensures a == b
  {
    DigitValue(a % 10, b % 10);
    if a >= 10 {
      var s := Digits(a);
      assert s[..|s| - 1] == Digits(a / 10) && s[..|s| - 1] == Digits(b / 10);
      assert s[|s| - 1] == "0123456789"[a % 10] && s[|s| - 1] == "0123456789"[b % 10];
      DigitsInjective(a / 10, b / 10);
    }
  }

  lemma DigitValue(a: nat, b: nat)
    requires a < 10 && b < 10
    ensures "0123456789"[a] == "0123456789"[b] ==> a == b
  {
  }

  lemma DecimalInjective(a: int, b: int)
    requires Decimal(a) == Decimal(b)
    ensures a == b
  {
    assert Decimal(a)[0] == '-' <==> a < 0;
    assert Decimal(b)[0] == '-' <==> b < 0;
    if a < 0 {
      assert Decimal(a)[1..] == Digits(-a) && Decimal(b)[1..] == Digits(-b);
      DigitsInjective(-a, -b);
    } else {
      DigitsInjective(a, b);
    }
  }

  /** The last underscore splits a string in one way only. */
  lemma LastUnderscore(x: string, d: string, y: string, e: string)
    requires x + "_" + d == y + "_" + e && '_' !in d && '_' !in e
    ensures x == y && d == e
  {
    var s := x + "_" + d;
    assert s[|x|] == '_' && s[|y|] == '_';
    assert forall k :: |x| < k < |s| ==> s[k] == d[k - |x| - 1];
    assert forall k :: |y| < k < |s| ==> s[k] == e[k - |y| - 1];
    assert |x| == |y|;
    assert x == s[..|x|] && y == s[..|x|];
    assert d == s[|x| + 1..] && e == s[|x| + 1..];
  }

  lemma SameSuffix(x: string, y: string, tail: string)
    requires x + tail == y + tail
    ensures x == y
  {
    assert x == (x + tail)[..|x|] && y == (y + tail)[..|x|];
  }

  /** The format is one-to-one, even for user strings that themselves contain underscores and digits. */
  lemma ShardKeyInjective(u: string, c: int, i: int, u': string, c': int, i': int)
    requires ShardKey(u, c, i) == ShardKey(u', c', i')
    ensures u == u' && c == c' && i == i'
  {
    LastUnderscore(u + "_" + Decimal(c) + "_shard", Decimal(i), u' + "_" + Decimal(c') + "_shard", Decimal(i'));
    DecimalInjective(i, i');
    SameSuffix(u + "_" + Decimal(c), u' + "_" + Decimal(c'), "_shard");
    LastUnderscore(u, Decimal(c), u', Decimal(c'));
    DecimalInjective(c, c');
  }
}
