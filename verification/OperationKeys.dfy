/** The operation key of an attempt. The program hashes the text below, with the digest of the run's
    definition, which the run determines; a hash without collisions is as good as its text. */
module OperationKeys {
  import opened Decimal
  import opened Events

  const SEPARATOR := '\0'

  function Numeral(n: int): (s: string)
    ensures |s| > 0 && SEPARATOR !in s
  {
    if n < 0 then "-" + Digits(-n) else Digits(n)
  }

  function OperationKey(run: RunId, node: string, attempt: int): (key: string)
    ensures |key| > 0
  {
    Numeral(run) + [SEPARATOR] + node + [SEPARATOR] + Numeral(attempt)
  }

  function Reading(s: string): int {
    if AllDigits(s) then Value(s)
    else if |s| > 1 && s[0] == '-' && AllDigits(s[1..]) then
      var v: int := Value(s[1..]);
      -v
    else 0
  }

  lemma ReadingOfNumeral(n: int)
    ensures Reading(Numeral(n)) == n
  {
    hide Digits, Value;
    if n < 0 {
      ValueOfDigits(-n);
      assert ("-" + Digits(-n))[1..] == Digits(-n);
      assert !IsDigit(Numeral(n)[0]);
    } else {
      ValueOfDigits(n);
    }
  }

  lemma FirstSeparator(a: string, b: string, x: string, y: string)
    requires SEPARATOR !in a && SEPARATOR !in b && a + [SEPARATOR] + x == b + [SEPARATOR] + y
    ensures a == b && x == y
  {
    var s, t := a + [SEPARATOR] + x, b + [SEPARATOR] + y;
    assert s[|a|] == SEPARATOR && t[|b|] == SEPARATOR;
    assert a == s[..|a|] && b == t[..|b|] && x == s[|a| + 1..] && y == t[|b| + 1..];
  }

  lemma LastSeparator(a: string, b: string, x: string, y: string)
    requires SEPARATOR !in x && SEPARATOR !in y && a + [SEPARATOR] + x == b + [SEPARATOR] + y
    ensures a == b && x == y
  {
    var s, t := a + [SEPARATOR] + x, b + [SEPARATOR] + y;
    assert s[|a|] == SEPARATOR && t[|b|] == SEPARATOR;
    assert a == s[..|a|] && b == t[..|b|] && x == s[|a| + 1..] && y == t[|b| + 1..];
  }

  lemma KeyParts(r: RunId, n: string, a: int)
    ensures OperationKey(r, n, a) == Numeral(r) + [SEPARATOR] + (n + [SEPARATOR] + Numeral(a))
  {
    hide Numeral;
  }

  /** Equal keys belong to the same attempt of the same node of the same run, whatever the node is called. */
  lemma KeysIdentifyAttempts(r: RunId, n: string, a: int, q: RunId, m: string, b: int)
    requires OperationKey(r, n, a) == OperationKey(q, m, b)
    ensures r == q && n == m && a == b
  {
    hide Numeral, Reading;
    KeyParts(r, n, a);
    KeyParts(q, m, b);
    hide OperationKey;
    FirstSeparator(Numeral(r), Numeral(q), n + [SEPARATOR] + Numeral(a), m + [SEPARATOR] + Numeral(b));
    LastSeparator(n, m, Numeral(a), Numeral(b));
    ReadingOfNumeral(r);
    ReadingOfNumeral(q);
    ReadingOfNumeral(a);
    ReadingOfNumeral(b);
  }
}
