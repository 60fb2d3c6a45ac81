/** Five-field cron expressions: parsing them, matching minutes, and finding the next one. */
module Cron {
  import opened Options
  import opened Texts
  import opened Decimal

  // ---- words ----

  predicate IsSpace(c: char) { c == ' ' || c == '\t' || c == '\n' || c == '\r' || c == 11 as char || c == 12 as char }

  /** The end of the run of characters, spaces or not, that starts at i. */
  function RunEnd(s: string, space: bool, i: nat): (k: nat)
    requires i <= |s|
    ensures i <= k <= |s| && (k < |s| ==> IsSpace(s[k]) != space) && forall j :: i <= j < k ==> IsSpace(s[j]) == space
    decreases |s| - i
  {
    if i < |s| && IsSpace(s[i]) == space then RunEnd(s, space, i + 1) else i
  }

  /** The words of a text. */
  function Fields(s: string): seq<string>
    decreases |s|
  {
    var i := RunEnd(s, true, 0);
    var j := RunEnd(s, false, i);
    if i == |s| then [] else [s[i..j]] + Fields(s[j..])
  }

  predicate IsWord(w: string) { |w| > 0 && forall i :: 0 <= i < |w| ==> !IsSpace(w[i]) }

  lemma {:induction false} FieldsOfWords(ws: seq<string>)
    requires |ws| > 0 && forall i :: 0 <= i < |ws| ==> IsWord(ws[i])
    ensures Fields(Join(ws, ' ')) == ws && Fields([' '] + Join(ws, ' ')) == ws
  {
    var s, w := Join(ws, ' '), ws[0];
    if |ws| == 1 {
      assert s == w && ws == [w];
      WordFirst(w, "");
      assert w + "" == w;
    } else {
      var rest := Join(ws[1..], ' ');
      FieldsOfWords(ws[1..]);
      assert s == w + ([' '] + rest) && ws == [w] + ws[1..];
      WordFirst(w, [' '] + rest);
    }
    SpaceFirst(s);
  }

  lemma WordFirst(w: string, rest: string)
    requires IsWord(w) && (|rest| == 0 || IsSpace(rest[0]))
    ensures Fields(w + rest) == [w] + Fields(rest)
  {
    var s := w + rest;
    assert s[0] == w[0];
    assert RunEnd(s, true, 0) == 0;
    var j := RunEnd(s, false, 0);
    assert forall k :: 0 <= k < |w| ==> s[k] == w[k];
    assert |rest| > 0 ==> s[|w|] == rest[0];
    assert j == |w|;
    assert s[0..j] == w && s[j..] == rest;
  }

  lemma {:induction false} RunEndShifts(c: char, s: string, space: bool, i: nat)
    requires i <= |s|
    ensures RunEnd([c] + s, space, i + 1) == RunEnd(s, space, i) + 1
    decreases |s| - i
  {
    assert i < |s| ==> ([c] + s)[i + 1] == s[i];
    if i < |s| { RunEndShifts(c, s, space, i + 1); }
  }

  lemma FieldsAre(s: string, i: nat, j: nat)
    requires i == RunEnd(s, true, 0) && j == RunEnd(s, false, i)
    ensures Fields(s) == if i == |s| then [] else [s[i..j]] + Fields(s[j..])
  {
  }

  lemma SpaceRuns(s: string, k: nat)
    requires k == RunEnd(s, true, 0)
    ensures RunEnd([' '] + s, true, 0) == k + 1 && RunEnd([' '] + s, false, k + 1) == RunEnd(s, false, k) + 1
  {
    var t := [' '] + s;
    assert t[0] == ' ';
    RunEndShifts(' ', s, true, 0);
    RunEndShifts(' ', s, false, k);
    assert RunEnd(t, true, 0) == RunEnd(t, true, 0 + 1);
  }

  lemma Shifted(s: string, a: nat, b: nat)
    requires a <= b <= |s|
    ensures var t := [' '] + s; |t| == |s| + 1 && t[a + 1..b + 1] == s[a..b] && t[b + 1..] == s[b..]
  {
  }

  lemma SpaceFirst(s: string)
    ensures Fields([' '] + s) == Fields(s)
  {
    hide RunEnd, Fields, IsSpace;
    var t, k := [' '] + s, RunEnd(s, true, 0);
    var m := RunEnd(s, false, k);
    SpaceRuns(s, k);
    FieldsAre(s, k, m);
    FieldsAre(t, k + 1, m + 1);
    Shifted(s, k, m);
  }

  // ---- numbers ----

  /** A decimal number with an optional sign. */
  function Atoi(s: string): Option<int> {
    if AllDigits(s) then Some(Value(s))
    else if |s| > 0 && s[0] == '+' && AllDigits(s[1..]) then Some(Value(s[1..]))
    else if |s| > 0 && s[0] == '-' && AllDigits(s[1..]) then
      var v: int := Value(s[1..]);
      Some(-v)
    else None
  }

  lemma AtoiOfDigits(n: nat)
    ensures Atoi(Digits(n)) == Some(n)
  {
    ValueOfDigits(n);
  }

  // ---- one field ----

  /** start, start + step, ... up to end. */
  datatype Span = Span(start: int, end: int, step: int)

  predicate Covers(sp: Span, v: int) { sp.step >= 1 && sp.start <= v <= sp.end && (v - sp.start) % sp.step == 0 }

  function ParseRange(r: string, lo: int, hi: int, step: int): Option<Span> {
    if r == "*" then Some(Span(lo, hi, step))
    else if r == "" then None
    else
      var c := Cut(r, '-');
      var a := Atoi(c.before);
      if a.None? || a.value < lo || a.value > hi then None
      else if !c.found then Some(Span(a.value, a.value, step))
      else
        var b := Atoi(c.after);
        if b.None? || b.value < lo || b.value > hi || b.value < a.value then None
        else Some(Span(a.value, b.value, step))
  }

  function ParsePart(part: string, lo: int, hi: int): Option<Span> {
    var c := Cut(part, '/');
    if part == "" then None
    else if !c.found then ParseRange(c.before, lo, hi, 1)
    else
      var v := Atoi(c.after);
      if v.None? || v.value < 1 then None else ParseRange(c.before, lo, hi, v.value)
  }

  function ParseParts(parts: seq<string>, lo: int, hi: int): Option<seq<Span>> {
    if |parts| == 0 then Some([])
    else
      var before, last := ParseParts(parts[..|parts| - 1], lo, hi), ParsePart(parts[|parts| - 1], lo, hi);
      if before.None? || last.None? then None else Some(before.value + [last.value])
  }

  /** Sunday is written 0 or 7. */
  function Fold(foldSeven: bool, v: int): int { if foldSeven && v == 7 then 0 else v }

  function SpanBits(sp: Span, foldSeven: bool): set<int> {
    set v | sp.start <= v <= sp.end && Covers(sp, v) :: Fold(foldSeven, v)
  }

  function Bits(spans: seq<Span>, foldSeven: bool): set<int> {
    if |spans| == 0 then {} else Bits(spans[..|spans| - 1], foldSeven) + SpanBits(spans[|spans| - 1], foldSeven)
  }

  function ParseField(field: string, lo: int, hi: int, foldSeven: bool): Option<set<int>> {
    var spans := ParseParts(Split(field, ','), lo, hi);
    if spans.None? then None else Some(Bits(spans.value, foldSeven))
  }

  /** A value is set exactly when some element of the list covers it. */
  lemma {:induction false} BitIsCovered(spans: seq<Span>, foldSeven: bool, bit: int)
    ensures bit in Bits(spans, foldSeven) <==>
            exists i, v :: 0 <= i < |spans| && Covers(spans[i], v) && Fold(foldSeven, v) == bit
  {
    if |spans| > 0 {
      var init, last := spans[..|spans| - 1], spans[|spans| - 1];
      BitIsCovered(init, foldSeven, bit);
      if bit in Bits(init, foldSeven) {
        var i, v :| 0 <= i < |init| && Covers(init[i], v) && Fold(foldSeven, v) == bit;
        assert spans[i] == init[i];
      }
      if bit in SpanBits(last, foldSeven) {
        var v :| Covers(last, v) && Fold(foldSeven, v) == bit;
        assert spans[|spans| - 1] == last;
      }
      forall i, v | 0 <= i < |spans| && Covers(spans[i], v) && Fold(foldSeven, v) == bit
        ensures bit in Bits(spans, foldSeven)
      {
        if i < |init| { assert init[i] == spans[i]; }
      }
    }
  }

  /** The element's values, in steps from its start. */
  method AddSpan(sp: Span, foldSeven: bool, bits: set<int>) returns (r: set<int>)
    requires sp.step >= 1
    ensures r == bits + SpanBits(sp, foldSeven)
  {
    r := bits;
    var v := sp.start;
    while v <= sp.end
      invariant sp.start <= v && (v - sp.start) % sp.step == 0
      invariant r == bits + set x | sp.start <= x < v && x <= sp.end && Covers(sp, x) :: Fold(foldSeven, x)
      decreases sp.end - v
    {
      NextCovered(sp, v);
      r := r + {Fold(foldSeven, v)};
      v := v + sp.step;
    }
  }

  lemma NextCovered(sp: Span, v: int)
    requires sp.step >= 1 && sp.start <= v && (v - sp.start) % sp.step == 0
    ensures (v + sp.step - sp.start) % sp.step == 0
    ensures forall x :: v < x < v + sp.step ==> !Covers(sp, x)
  {
    var q := (v - sp.start) / sp.step;
    assert v - sp.start == q * sp.step;
    assert v + sp.step - sp.start == (q + 1) * sp.step;
    ModOfMultiple(q + 1, sp.step, 0);
    forall x | v < x < v + sp.step
      ensures !Covers(sp, x)
    {
      ModOfMultiple(q, sp.step, x - v);
      assert x - sp.start == q * sp.step + (x - v);
    }
  }

  lemma ModOfMultiple(q: int, k: int, r: int)
    requires k >= 1 && 0 <= r < k
    ensures (q * k + r) % k == r
  {
    var n := q * k + r;
    var p, m := n / k, n % k;
    assert n == p * k + m;
    assert (p - q) * k == r - m;
    MultipleIsFar(p - q, k);
  }

  lemma MultipleIsFar(a: int, k: int)
    requires k >= 1
    ensures (a >= 1 ==> a * k >= k) && (a <= -1 ==> a * k <= -k)
  {
    if a >= 1 { assert (a - 1) * k >= 0; }
    if a <= -1 { assert (a + 1) * k <= 0; }
  }

  lemma ParsedStep(part: string, lo: int, hi: int)
    ensures ParsePart(part, lo, hi).Some? ==> ParsePart(part, lo, hi).value.step >= 1
  {
  }

  method ParseCronField(field: string, lo: int, hi: int, foldSeven: bool) returns (bits: Option<set<int>>, star: bool)
    ensures bits == ParseField(field, lo, hi, foldSeven) && star == (field == "*")
  {
    hide ParsePart, SpanBits;
    star := field == "*";
    var parts := Split(field, ',');
    hide Split;
    var collected: set<int> := {};
    ghost var spans: seq<Span> := [];
    var i := 0;
    while i < |parts|
      invariant 0 <= i <= |parts|
      invariant ParseParts(parts[..i], lo, hi) == Some(spans) && collected == Bits(spans, foldSeven)
    {
      NextPart(parts, i, lo, hi);
      var sp := ParsePart(parts[i], lo, hi);
      if sp.None? {
        PrefixFails(parts, i + 1, lo, hi);
        return None, star;
      }
      ParsedStep(parts[i], lo, hi);
      collected := AddSpan(sp.value, foldSeven, collected);
      NextBits(spans, sp.value, foldSeven);
      spans := spans + [sp.value];
      i := i + 1;
    }
    assert parts[..i] == parts;
    bits := Some(collected);
  }

  lemma NextPart(parts: seq<string>, i: nat, lo: int, hi: int)
    requires i < |parts|
    ensures var before, last := ParseParts(parts[..i], lo, hi), ParsePart(parts[i], lo, hi);
            ParseParts(parts[..i + 1], lo, hi) ==
            if before.None? || last.None? then None else Some(before.value + [last.value])
  {
    assert parts[..i + 1][..i] == parts[..i];
  }

  lemma NextBits(spans: seq<Span>, sp: Span, foldSeven: bool)
    ensures Bits(spans + [sp], foldSeven) == Bits(spans, foldSeven) + SpanBits(sp, foldSeven)
  {
    assert (spans + [sp])[..|spans|] == spans;
  }

  lemma {:induction false} PrefixFails(parts: seq<string>, i: nat, lo: int, hi: int)
    requires i <= |parts| && ParseParts(parts[..i], lo, hi).None?
    ensures ParseParts(parts, lo, hi).None?
    decreases |parts|
  {
    if i < |parts| {
      assert parts[..|parts| - 1][..i] == parts[..i];
      PrefixFails(parts[..|parts| - 1], i, lo, hi);
    } else {
      assert parts[..i] == parts;
    }
  }

  // ---- an expression ----

  datatype Schedule = Schedule(
    minutes: set<int>, hours: set<int>, dom: set<int>, months: set<int>, dow: set<int>, domStar: bool, dowStar: bool)

  function Parse(expr: string): Option<Schedule> {
    var fs := Fields(expr);
    if |fs| != 5 then None
    else
      var a, b, c, d, e := ParseField(fs[0], 0, 59, false), ParseField(fs[1], 0, 23, false),
                           ParseField(fs[2], 1, 31, false),
                           ParseField(fs[3], 1, 12, false), ParseField(fs[4], 0, 7, true);
      if a.None? || b.None? || c.None? || d.None? || e.None? then None
      else Some(Schedule(a.value, b.value, c.value, d.value, e.value, fs[2] == "*", fs[4] == "*"))
  }

  method ParseCron(expr: string) returns (r: Option<Schedule>)
    ensures r == Parse(expr)
  {
    var fs := Fields(expr);
    if |fs| != 5 { return None; }
    var minutes, _ := ParseCronField(fs[0], 0, 59, false);
    if minutes.None? { return None; }
    var hours, _ := ParseCronField(fs[1], 0, 23, false);
    if hours.None? { return None; }
    var dom, domStar := ParseCronField(fs[2], 1, 31, false);
    if dom.None? { return None; }
    var months, _ := ParseCronField(fs[3], 1, 12, false);
    if months.None? { return None; }
    var dow, dowStar := ParseCronField(fs[4], 0, 7, true);
    if dow.None? { return None; }
    r := Some(Schedule(minutes.value, hours.value, dom.value, months.value, dow.value, domStar, dowStar));
  }

  // ---- printing, and parsing what was printed ----

  /** An element of a list: everything, one value or a range, with or without a step. */
  datatype Item = All(step: Option<nat>) | One(from: nat, step: Option<nat>)
                | Range(from: nat, to: nat, step: Option<nat>)

  predicate GoodItem(it: Item, lo: int, hi: int) {
    && (it.step.Some? ==> it.step.value >= 1)
    && (it.One? ==> lo <= it.from <= hi)
    && (it.Range? ==> lo <= it.from <= it.to <= hi)
  }

  function PrintRange(it: Item): string {
    match it
    case All(_) => "*"
    case One(a, _) => Digits(a)
    case Range(a, b, _) => Digits(a) + ['-'] + Digits(b)
  }

  function PrintItem(it: Item): string {
    if it.step.None? then PrintRange(it) else PrintRange(it) + ['/'] + Digits(it.step.value)
  }

  function SpanOf(it: Item, lo: int, hi: int): Span {
    var step := if it.step.Some? then it.step.value else 1;
    match it
    case All(_) => Span(lo, hi, step)
    case One(a, _) => Span(a, a, step)
    case Range(a, b, _) => Span(a, b, step)
  }

  function SpansOf(items: seq<Item>, lo: int, hi: int): seq<Span> {
    seq(|items|, i requires 0 <= i < |items| => SpanOf(items[i], lo, hi))
  }

  function Printed(items: seq<Item>): seq<string> { seq(|items|, i requires 0 <= i < |items| => PrintItem(items[i])) }

  predicate PlainWord(w: string) { IsWord(w) && '/' !in w && ',' !in w }

  lemma DigitsAre(n: nat)
    ensures PlainWord(Digits(n)) && '-' !in Digits(n) && IsDigit(Digits(n)[0]) && Atoi(Digits(n)) == Some(n)
  {
    AtoiOfDigits(n);
    assert forall c :: c in Digits(n) ==> exists i :: 0 <= i < |Digits(n)| && Digits(n)[i] == c;
  }

  lemma PlainJoin(a: string, c: char, b: string)
    requires PlainWord(a) && PlainWord(b) && c == '-'
    ensures PlainWord(a + [c] + b)
  {
  }

  lemma ParseRangeOf(it: Item, lo: int, hi: int, step: int)
    requires GoodItem(it, lo, hi)
    ensures ParseRange(PrintRange(it), lo, hi, step) == Some(SpanOf(it, lo, hi).(step := step))
    ensures PlainWord(PrintRange(it))
  {
    hide Digits, Atoi, Cut, PlainWord;
    match it
    case All(_) => assert PlainWord("*") by { StarIsPlain(); }
    case One(a, _) =>
      DigitsAre(a);
      CutJoined(Digits(a), '-', "");
    case Range(a, b, _) =>
      DigitsAre(a);
      DigitsAre(b);
      CutJoined(Digits(a), '-', Digits(b));
      PlainJoin(Digits(a), '-', Digits(b));
      assert PrintRange(it)[0] == Digits(a)[0];
  }

  lemma StarIsPlain()
    ensures PlainWord("*")
  {
  }

  lemma ParsePartOf(it: Item, lo: int, hi: int)
    requires GoodItem(it, lo, hi)
    ensures ParsePart(PrintItem(it), lo, hi) == Some(SpanOf(it, lo, hi))
    ensures ',' !in PrintItem(it) && IsWord(PrintItem(it))
  {
    hide Digits, Atoi, Cut, ParseRange, PrintRange, SpanOf;
    var step := if it.step.Some? then it.step.value else 1;
    ParseRangeOf(it, lo, hi, step);
    SpanStep(it, lo, hi);
    if it.step.Some? {
      DigitsAre(it.step.value);
      CutJoined(PrintRange(it), '/', Digits(it.step.value));
    } else {
      CutJoined(PrintRange(it), '/', "");
    }
  }

  lemma SpanStep(it: Item, lo: int, hi: int)
    ensures SpanOf(it, lo, hi).step == if it.step.Some? then it.step.value else 1
  {
  }

  lemma {:induction false} ParsePartsOf(items: seq<Item>, lo: int, hi: int)
    requires forall i :: 0 <= i < |items| ==> GoodItem(items[i], lo, hi)
    ensures ParseParts(Printed(items), lo, hi) == Some(SpansOf(items, lo, hi))
  {
    hide PrintItem, SpanOf, ParsePart, GoodItem;
    if |items| > 0 {
      var init, last := items[..|items| - 1], items[|items| - 1];
      ParsePartsOf(init, lo, hi);
      ParsePartOf(last, lo, hi);
      assert Printed(items)[..|items| - 1] == Printed(init);
      assert SpansOf(items, lo, hi) == SpansOf(init, lo, hi) + [SpanOf(last, lo, hi)];
    }
  }

  predicate GoodItems(items: seq<Item>, lo: int, hi: int) {
    |items| > 0 && forall i :: 0 <= i < |items| ==> GoodItem(items[i], lo, hi)
  }

  function PrintField(items: seq<Item>): string
    requires |items| > 0
  {
    Join(Printed(items), ',')
  }

  lemma {:induction false} JoinedWord(parts: seq<string>)
    requires |parts| > 0 && forall i :: 0 <= i < |parts| ==> IsWord(parts[i])
    ensures IsWord(Join(parts, ','))
  {
    if |parts| > 1 { JoinedWord(parts[1..]); }
  }

  lemma ParseFieldOf(items: seq<Item>, lo: int, hi: int, foldSeven: bool)
    requires GoodItems(items, lo, hi)
    ensures ParseField(PrintField(items), lo, hi, foldSeven) == Some(Bits(SpansOf(items, lo, hi), foldSeven))
    ensures IsWord(PrintField(items))
  {
    forall i | 0 <= i < |items|
      ensures ',' !in Printed(items)[i] && IsWord(Printed(items)[i])
    {
      ParsePartOf(items[i], lo, hi);
    }
    SplitJoined(Printed(items), ',');
    ParsePartsOf(items, lo, hi);
    JoinedWord(Printed(items));
  }

  lemma StarWhen(items: seq<Item>, lo: int, hi: int)
    requires GoodItems(items, lo, hi)
    ensures PrintField(items) == "*" <==> items == [All(None)]
  {
    ParsePartOf(items[0], lo, hi);
    var first := PrintItem(items[0]);
    assert Printed(items)[0] == first;
    if |items| > 1 {
      assert PrintField(items) == first + [','] + Join(Printed(items)[1..], ',');
      assert PrintField(items)[|first|] == ',';
    } else {
      assert PrintField(items) == first;
      ParseRangeOf(items[0], lo, hi, 1);
      assert items[0].step.Some? ==> |first| > |PrintRange(items[0])| + 1;
      if !items[0].All? { FirstIsDigit(items[0]); }
      assert items[0] == All(None) <==> first == "*";
      assert items == [items[0]];
    }
  }

  lemma FirstIsDigit(it: Item)
    requires !it.All?
    ensures |PrintItem(it)| > 0 && IsDigit(PrintItem(it)[0])
  {
    hide Digits, Atoi, PlainWord;
    DigitsAre(it.from);
    if it.Range? { DigitsAre(it.to); }
    assert PrintItem(it)[0] == PrintRange(it)[0] == Digits(it.from)[0];
  }

  /** Parsing a printed expression gives back what was printed, with the stars where they stood alone. */
  lemma ParsePrinted(mi: seq<Item>, ho: seq<Item>, dm: seq<Item>, mo: seq<Item>, dw: seq<Item>)
    requires GoodItems(mi, 0, 59) && GoodItems(ho, 0, 23) && GoodItems(dm, 1, 31) && GoodItems(mo, 1, 12)
    requires GoodItems(dw, 0, 7)
    ensures Parse(Join([PrintField(mi), PrintField(ho), PrintField(dm), PrintField(mo), PrintField(dw)], ' ')) ==
            Some(Schedule(Bits(SpansOf(mi, 0, 59), false), Bits(SpansOf(ho, 0, 23), false),
                          Bits(SpansOf(dm, 1, 31), false), Bits(SpansOf(mo, 1, 12), false),
                          Bits(SpansOf(dw, 0, 7), true), dm == [All(None)], dw == [All(None)]))
  {
    hide ParseField, Bits, SpansOf, PrintField, Join, Fields;
    ParseFieldOf(mi, 0, 59, false);
    ParseFieldOf(ho, 0, 23, false);
    ParseFieldOf(dm, 1, 31, false);
    ParseFieldOf(mo, 1, 12, false);
    ParseFieldOf(dw, 0, 7, true);
    StarWhen(dm, 1, 31);
    StarWhen(dw, 0, 7);
    FieldsOfWords([PrintField(mi), PrintField(ho), PrintField(dm), PrintField(mo), PrintField(dw)]);
  }

  lemma BitsOfOne(a: nat, step: nat)
    requires step >= 1
    ensures Bits([Span(a, a, step)], false) == {a}
  {
    var sp := Span(a, a, step);
    assert [sp][..0] == [] && Bits([], false) == {};
    assert Covers(sp, a) && Fold(false, a) == a;
    assert SpanBits(sp, false) == {a};
  }

  lemma SpansOfOne(a: nat, step: nat, lo: int, hi: int)
    ensures SpansOf([One(a, Some(step))], lo, hi) == [Span(a, a, step)]
  {
  }

  /** A step after a single value does nothing: only that value is set. */
  lemma StepOnOneValue(a: nat, step: nat, lo: int, hi: int)
    requires step >= 1 && lo <= a <= hi
    ensures ParseField(PrintField([One(a, Some(step))]), lo, hi, false) == Some({a})
  {
    var items := [One(a, Some(step))];
    ParseFieldOf(items, lo, hi, false);
    hide ParseField, PrintField, Bits, SpansOf;
    SpansOfOne(a, step, lo, hi);
    BitsOfOne(a, step);
  }
}
