/** Which texts are cron expressions, and which minutes, hours and days a field of one names. */
module CronGrammar {
  import opened Options
  import opened Decimal
  import opened Texts
  import opened Cron

  // ---- what is accepted ----

  predicate InBounds(n: string, lo: int, hi: int) { Atoi(n).Some? && lo <= Atoi(n).value <= hi }

  /** A star, a number, or two numbers in order with a dash between them. */
  ghost predicate IsRange(r: string, lo: int, hi: int) {
    || r == "*"
    || ('-' !in r && InBounds(r, lo, hi))
    || exists a, b :: r == a + ['-'] + b && '-' !in a && InBounds(a, lo, hi) && InBounds(b, lo, hi) &&
                      Atoi(a).value <= Atoi(b).value
  }

  /** A range, perhaps followed by a slash and a positive step. */
  ghost predicate IsPart(p: string, lo: int, hi: int) {
    || ('/' !in p && IsRange(p, lo, hi))
    || exists r, n :: p == r + ['/'] + n && '/' !in r && IsRange(r, lo, hi) && Atoi(n).Some? && Atoi(n).value >= 1
  }

  /** Parts with commas between them. */
  ghost predicate IsField(f: string, lo: int, hi: int) {
    exists parts: seq<string> :: |parts| > 0 && f == Join(parts, ',') &&
      forall i :: 0 <= i < |parts| ==> ',' !in parts[i] && IsPart(parts[i], lo, hi)
  }

  lemma CutParts(s: string, c: char)
    ensures var k := Cut(s, c);
            if k.found then s == k.before + [c] + k.after && c !in k.before else k.before == s && c !in s
  {
    var i := IndexFrom(s, c, 0);
    assert forall j :: 0 <= j < i ==> s[j] != c;
    assert s == if i < |s| then s[..i] + [c] + s[i + 1..] else s;
  }

  lemma RangeIs(r: string, lo: int, hi: int, step: int)
    ensures ParseRange(r, lo, hi, step).Some? <==> IsRange(r, lo, hi)
  {
    hide Atoi, Cut;
    CutParts(r, '-');
    NothingIsNoNumber();
    var c := Cut(r, '-');
    if a, b :| r == a + ['-'] + b && '-' !in a && InBounds(a, lo, hi) && InBounds(b, lo, hi) &&
               Atoi(a).value <= Atoi(b).value {
      CutJoined(a, '-', b);
    }
    if c.found { assert r == c.before + ['-'] + c.after && r[|c.before|] == '-'; }
  }

  lemma NothingIsNoNumber()
    ensures Atoi("").None?
  {
  }

  lemma PartIs(p: string, lo: int, hi: int)
    ensures ParsePart(p, lo, hi).Some? <==> IsPart(p, lo, hi)
  {
    hide Atoi, Cut, ParseRange, IsRange;
    CutParts(p, '/');
    NothingIsNoRange(lo, hi);
    var c := Cut(p, '/');
    RangeIs(c.before, lo, hi, 1);
    if c.found && Atoi(c.after).Some? { RangeIs(c.before, lo, hi, Atoi(c.after).value); }
    if r, n :| p == r + ['/'] + n && '/' !in r && IsRange(r, lo, hi) && Atoi(n).Some? && Atoi(n).value >= 1 {
      CutJoined(r, '/', n);
    }
    if c.found { assert p == c.before + ['/'] + c.after && p[|c.before|] == '/'; }
  }

  lemma NothingIsNoRange(lo: int, hi: int)
    ensures !IsRange("", lo, hi)
  {
    NothingIsNoNumber();
  }

  lemma {:induction false} PartsAre(parts: seq<string>, lo: int, hi: int)
    ensures ParseParts(parts, lo, hi).Some? <==> forall i :: 0 <= i < |parts| ==> IsPart(parts[i], lo, hi)
  {
    hide ParsePart, IsPart;
    if |parts| > 0 {
      PartsAre(parts[..|parts| - 1], lo, hi);
      PartIs(parts[|parts| - 1], lo, hi);
    }
  }

  lemma FieldIs(f: string, lo: int, hi: int, foldSeven: bool)
    ensures ParseField(f, lo, hi, foldSeven).Some? <==> IsField(f, lo, hi)
  {
    hide ParseParts, Split, Join, IsPart, Bits;
    var parts := Split(f, ',');
    JoinSplit(f, ',');
    PartsAre(parts, lo, hi);
    if ParseField(f, lo, hi, foldSeven).Some? {
      assert forall i :: 0 <= i < |parts| ==> parts[i] in parts;
    }
    if IsField(f, lo, hi) {
      var ps: seq<string> :| |ps| > 0 && f == Join(ps, ',') &&
        forall i :: 0 <= i < |ps| ==> ',' !in ps[i] && IsPart(ps[i], lo, hi);
      SplitJoined(ps, ',');
    }
  }

  /** An expression is accepted exactly if it has five fields, and each is a list of ranges within its bounds. */
  lemma AcceptsExactly(expr: string)
    ensures Parse(expr).Some? <==>
            var fs := Fields(expr);
            && |fs| == 5 && IsField(fs[0], 0, 59) && IsField(fs[1], 0, 23) && IsField(fs[2], 1, 31)
            && IsField(fs[3], 1, 12) && IsField(fs[4], 0, 7)
  {
    hide ParseField, IsField, Fields;
    var fs := Fields(expr);
    if |fs| == 5 {
      FieldIs(fs[0], 0, 59, false);
      FieldIs(fs[1], 0, 23, false);
      FieldIs(fs[2], 1, 31, false);
      FieldIs(fs[3], 1, 12, false);
      FieldIs(fs[4], 0, 7, true);
    }
  }

  // ---- what a list names ----

  function StepOf(it: Item): int { if it.step.Some? then it.step.value else 1 }

  /** The element names a value: the k-th step from its start, within its end. */
  ghost predicate Names(it: Item, lo: int, hi: int, v: int) {
    match it
    case All(_) => exists k: nat :: v == lo + k * StepOf(it) && v <= hi
    case One(a, _) => v == a
    case Range(a, b, _) => exists k: nat :: v == a + k * StepOf(it) && v <= b
  }

  lemma StepsFrom(a: int, b: int, step: int, v: int)
    requires step >= 1
    ensures Covers(Span(a, b, step), v) <==> exists k: nat :: v == a + k * step && v <= b
  {
    if Covers(Span(a, b, step), v) {
      var k := (v - a) / step;
      assert v - a == k * step && k >= 0;
    }
    if k: nat :| v == a + k * step && v <= b { Multiple(k, step); }
  }

  lemma Multiple(k: nat, step: int)
    requires step >= 1
    ensures (k * step) % step == 0 && k * step >= 0
  {
    var q, r := (k * step) / step, (k * step) % step;
    assert (k - q) * step == r;
    AtLeastOnce(k - q, step);
    AtLeastOnce(k, step);
  }

  lemma AtLeastOnce(n: int, step: int)
    requires step >= 1
    ensures n >= 1 ==> n * step >= step
    ensures n <= 0 ==> n * step <= 0
  {
  }

  lemma NamesIs(it: Item, lo: int, hi: int, v: int)
    requires GoodItem(it, lo, hi)
    ensures Covers(SpanOf(it, lo, hi), v) <==> Names(it, lo, hi, v)
  {
    match it
    case All(_) => StepsFrom(lo, hi, StepOf(it), v);
    case One(a, _) => hide Names; assert Covers(SpanOf(it, lo, hi), v) <==> v == a; NamesOne(it, lo, hi, v);
    case Range(a, b, _) => StepsFrom(a, b, StepOf(it), v);
  }

  lemma NamesOne(it: Item, lo: int, hi: int, v: int)
    requires it.One?
    ensures Names(it, lo, hi, v) <==> v == it.from
  {
  }

  /** A printed list sets exactly the values that one of its elements names; for weekdays 7 is 0. */
  lemma ListSetsExactly(items: seq<Item>, lo: int, hi: int, weekdays: bool, bit: int)
    requires GoodItems(items, lo, hi)
    ensures var bits := ParseField(PrintField(items), lo, hi, weekdays);
            bits.Some? &&
            (bit in bits.value <==>
             exists i, v :: 0 <= i < |items| && Names(items[i], lo, hi, v) &&
                            bit == if weekdays && v == 7 then 0 else v)
  {
    hide GoodItem, Names, Covers, SpanOf, Bits, PrintItem, Join;
    ParseFieldOf(items, lo, hi, weekdays);
    var spans := SpansOf(items, lo, hi);
    BitIsCovered(spans, weekdays, bit);
    forall i, v | 0 <= i < |items|
      ensures Covers(spans[i], v) <==> Names(items[i], lo, hi, v)
    {
      NamesIs(items[i], lo, hi, v);
    }
    if i, v :| 0 <= i < |spans| && Covers(spans[i], v) && Fold(weekdays, v) == bit {
      assert Names(items[i], lo, hi, v);
    }
    if i, v :| 0 <= i < |items| && Names(items[i], lo, hi, v) && bit == if weekdays && v == 7 then 0 else v {
      assert Covers(spans[i], v) && Fold(weekdays, v) == bit;
    }
  }
}
