/** Which definitions have the same canonical encoding. */
module Meaning {
  import opened Options
  import opened Canonical
  import opened Decoding

  // ---- what a node means ----

  /** No float at any depth. */
  predicate FloatFree(n: Node)
    decreases n
  {
    match n
    case Float(_) => false
    case Sequence(items) => forall x :: x in items ==> FloatFree(x)
    case Mapping(es) => forall e :: e in es ==> FloatFree(e.value)
    case Alias(t) => FloatFree(t)
    case Document(c) => |c| > 0 ==> FloatFree(c[0])
    case _ => true
  }

  /** Aliases are replaced by what they stand for, entries are sorted. */
  function Denote(n: Node): Option<Json>
    decreases n, 1, 0
  {
    match n
    case Null => Some(VNull)
    case Bool(b) => Some(VBool(b))
    case Int(v) => if v.None? then None else Some(VInt(v.value))
    case Float(_) => None
    case Str(s) => Some(VStr(s))
    case Alias(t) => Denote(t)
    case Sequence(items) =>
      var vs := DenoteItems(n, items);
      if vs.None? then None else Some(VArr(vs.value))
    case Mapping(es) =>
      SortedKeeps(es);
      var ms := DenoteEntries(n, Sorted(es));
      if ms.None? then None else Some(VObj(ms.value))
    case Document(c) => if |c| == 0 then Some(VNull) else Denote(c[0])
    case Unsupported => None
  }

  function DenoteItems(n: Node, items: seq<Node>): (r: Option<seq<Json>>)
    requires n.Sequence? && forall x :: x in items ==> x in n.items
    ensures r.Some? ==> |r.value| == |items|
    decreases n, 0, |items|
  {
    if |items| == 0 then Some([])
    else
      var before := DenoteItems(n, items[..|items| - 1]);
      assert items[|items| - 1] in n.items;
      var last := Denote(items[|items| - 1]);
      if before.None? || last.None? then None else Some(before.value + [last.value])
  }

  function DenoteEntries(n: Node, es: seq<Entry>): (r: Option<seq<Member>>)
    requires n.Mapping? && forall e :: e in es ==> e in n.entries
    ensures r.Some? ==> |r.value| == |es| && forall i :: 0 <= i < |es| ==> r.value[i].name == es[i].key
    decreases n, 0, |es|
  {
    if |es| == 0 then Some([])
    else
      var before, e := DenoteEntries(n, es[..|es| - 1]), es[|es| - 1];
      assert e in n.entries;
      var last := Denote(e.value);
      if before.None? || last.None? then None else Some(before.value + [Member(e.key, last.value)])
  }

  // ---- the encoding writes the meaning ----

  lemma {:induction false} WriteItemsLast(v: Json, items: seq<Json>, x: Json)
    requires v.VArr? && x in v.items && forall y :: y in items ==> y in v.items
    ensures WriteItems(v, items + [x]) == WriteItems(v, items) + (if |items| == 0 then "" else ",") + Write(x)
    decreases |items|
  {
    hide Write;
    var all := items + [x];
    if |items| > 0 {
      assert all[1..] == items[1..] + [x];
      WriteItemsLast(v, items[1..], x);
      assert all[0] == items[0];
    }
  }

  lemma {:induction false} WriteMembersLast(v: Json, ms: seq<Member>, m: Member)
    requires v.VObj? && m in v.members && forall y :: y in ms ==> y in v.members
    ensures WriteMembers(v, ms + [m]) ==
            WriteMembers(v, ms) + (if |ms| == 0 then "" else ",") + WriteMember(m, Write(m.value))
    decreases |ms|
  {
    hide Write, WriteMember;
    var all := ms + [m];
    if |ms| > 0 {
      assert all[1..] == ms[1..] + [m];
      WriteMembersLast(v, ms[1..], m);
      assert all[0] == ms[0];
    }
  }

  function Written(v: Option<Json>): Option<string> { if v.None? then None else Some(Write(v.value)) }

  /** The bytes of a float-free node are its meaning, written. */
  lemma {:induction false} EncodesMeaning(n: Node, inExtension: bool, inParams: bool, root: bool)
    requires FloatFree(n)
    ensures Encode(n, inExtension, inParams, root) == Written(Denote(n))
    decreases n, 1, 0
  {
    hide EncodeItems, EncodeEntries, DenoteItems, DenoteEntries, WriteItems, WriteMembers, Quote, WriteInt;
    match n
    case Alias(t) => EncodesMeaning(t, inExtension, inParams, false);
    case Document(c) => if |c| > 0 { EncodesMeaning(c[0], inExtension, inParams, root); }
    case Sequence(items) =>
      var vs := DenoteItems(n, items);
      EncodesItems(n, items, VArr(if vs.Some? then vs.value else []), inExtension, inParams);
    case Mapping(es) =>
      SortedKeeps(es);
      var ms := DenoteEntries(n, Sorted(es));
      EncodesEntries(n, Sorted(es), VObj(if ms.Some? then ms.value else []), inExtension, inParams, root);
    case _ =>
  }

  lemma {:induction false} EncodesItems(n: Node, items: seq<Node>, v: Json, inExtension: bool, inParams: bool)
    requires n.Sequence? && (forall x :: x in items ==> x in n.items) && FloatFree(n) && v.VArr?
    requires DenoteItems(n, items).Some? ==> forall x :: x in DenoteItems(n, items).value ==> x in v.items
    ensures EncodeItems(n, items, inExtension, inParams) ==
            if DenoteItems(n, items).None? then None else Some(WriteItems(v, DenoteItems(n, items).value))
    decreases n, 0, |items|
  {
    hide Encode, Denote, Write;
    if |items| == 0 {
      assert WriteItems(v, []) == "" by { NoItems(v); }
    } else {
      var init, last := items[..|items| - 1], items[|items| - 1];
      assert last in n.items;
      EncodesMeaning(last, inExtension, inParams, false);
      var before, x := DenoteItems(n, init), Denote(last);
      if before.Some? && x.Some? {
        assert x.value in DenoteItems(n, items).value;
        assert forall y :: y in before.value ==> y in DenoteItems(n, items).value;
        EncodesItems(n, init, v, inExtension, inParams);
        WriteItemsLast(v, before.value, x.value);
      } else {
        EncodesItems(n, init, if before.Some? then VArr(before.value) else v, inExtension, inParams);
      }
    }
  }

  lemma LastEntry(n: Node, es: seq<Entry>, inExtension: bool, inParams: bool, root: bool)
    requires n.Mapping? && (forall e :: e in es ==> e in n.entries) && |es| > 0
    ensures var before, e := EncodeEntries(n, es[..|es| - 1], inExtension, inParams, root), es[|es| - 1];
            var last := Encode(e.value, inExtension || Extends(e.key), inParams || (root && e.key == "params"), false);
            EncodeEntries(n, es, inExtension, inParams, root) ==
            if before.None? || last.None? then None
            else Some(before.value + (if |es| == 1 then "" else ",") + WriteMember(Member(e.key, VNull), last.value))
  {
    hide Quote, Encode, EncodeEntries;
    NextEntry(n, es, |es| - 1, inExtension, inParams, root);
    assert es[..|es| - 1 + 1] == es;
  }

  lemma {:induction false} EncodesEntries(n: Node, es: seq<Entry>, v: Json, inExtension: bool, inParams: bool,
      root: bool)
    requires n.Mapping? && (forall e :: e in es ==> e in n.entries) && FloatFree(n) && v.VObj?
    requires DenoteEntries(n, es).Some? ==> forall m :: m in DenoteEntries(n, es).value ==> m in v.members
    ensures EncodeEntries(n, es, inExtension, inParams, root) ==
            if DenoteEntries(n, es).None? then None else Some(WriteMembers(v, DenoteEntries(n, es).value))
    decreases n, 0, |es|
  {
    hide Encode, Denote, Write, EncodeEntries, WriteMembers, Quote, Extends;
    if |es| == 0 {
      NoMembers(v);
      NoEntries(n, inExtension, inParams, root);
      assert es == [];
    } else {
      var init, e := es[..|es| - 1], es[|es| - 1];
      assert e in n.entries;
      LastEntry(n, es, inExtension, inParams, root);
      EncodesMeaning(e.value, inExtension || Extends(e.key), inParams || (root && e.key == "params"), false);
      var before, x := DenoteEntries(n, init), Denote(e.value);
      if before.Some? && x.Some? {
        var m := Member(e.key, x.value);
        assert m in DenoteEntries(n, es).value;
        assert forall y :: y in before.value ==> y in DenoteEntries(n, es).value;
        EncodesEntries(n, init, v, inExtension, inParams, root);
        WriteMembersLast(v, before.value, m);
      } else {
        EncodesEntries(n, init, if before.Some? then VObj(before.value) else v, inExtension, inParams, root);
      }
    }
  }

  /** Two float-free definitions have the same bytes exactly when they mean the same. */
  lemma SameBytesSameMeaning(a: Node, b: Node)
    requires FloatFree(a) && FloatFree(b)
    ensures Encode(a, false, false, true) == Encode(b, false, false, true) <==> Denote(a) == Denote(b)
  {
    hide Encode, Denote, Write;
    EncodesMeaning(a, false, false, true);
    EncodesMeaning(b, false, false, true);
    if Denote(a).Some? && Denote(b).Some? && Write(Denote(a).value) == Write(Denote(b).value) {
      WriteIsInjective(Denote(a).value, Denote(b).value);
    }
  }

  /** The decoder recovers the meaning of a definition from its bytes. */
  lemma DecodesMeaning(n: Node)
    requires FloatFree(n) && Encode(n, false, false, true).Some?
    ensures Denote(n).Some? && ParseValue(Encode(n, false, false, true).value) == Good(Denote(n).value, "")
  {
    hide Encode, Denote, Write, ParseValue;
    EncodesMeaning(n, false, false, true);
    var v := Denote(n).value;
    ParseWrite(v, "");
    assert Write(v) + "" == Write(v);
  }

  // ---- equality up to the order of keys ----

  predicate DistinctKeys(es: seq<Entry>) { forall i, j :: 0 <= i < j < |es| ==> es[i].key != es[j].key }

  /** No floats, aliases or nested documents, integers in range, and distinct keys, at every depth. */
  predicate Plain(n: Node)
    decreases n
  {
    match n
    case Int(v) => v.Some?
    case Sequence(items) => forall x :: x in items ==> Plain(x)
    case Mapping(es) => DistinctKeys(es) && forall e :: e in es ==> Plain(e.value)
    case Null | Bool(_) | Str(_) => true
    case _ => false
  }

  /** Equal up to the order of the entries of every mapping. */
  predicate Alike(a: Node, b: Node)
    decreases a, 1
  {
    match a
    case Sequence(xs) => b.Sequence? && |xs| == |b.items| && forall i :: 0 <= i < |xs| ==> Alike(xs[i], b.items[i])
    case Mapping(es) => b.Mapping? && |es| == |b.entries| && forall e :: e in es ==> HasAlike(e, b.entries)
    case _ => a == b
  }

  predicate HasAlike(e: Entry, es: seq<Entry>)
    decreases e, 0
  {
    exists f :: f in es && e.key == f.key && Alike(e.value, f.value)
  }

  lemma {:induction false} PlainMeans(n: Node)
    requires Plain(n)
    ensures FloatFree(n) && Denote(n).Some?
    decreases n, 1, 0
  {
    match n
    case Sequence(items) =>
      forall x | x in items
        ensures FloatFree(x)
      {
        PlainMeans(x);
      }
      PlainItems(n, items);
    case Mapping(es) =>
      forall e | e in es
        ensures FloatFree(e.value)
      {
        PlainMeans(e.value);
      }
      SortedKeeps(es);
      PlainEntries(n, Sorted(es));
    case _ =>
  }

  lemma {:induction false} PlainItems(n: Node, items: seq<Node>)
    requires n.Sequence? && Plain(n) && forall x :: x in items ==> x in n.items
    ensures DenoteItems(n, items).Some?
    ensures forall i :: 0 <= i < |items| ==> Denote(items[i]) == Some(DenoteItems(n, items).value[i])
    decreases n, 0, |items|
  {
    hide Denote, FloatFree;
    if |items| > 0 {
      var init := items[..|items| - 1];
      PlainItems(n, init);
      assert items[|items| - 1] in n.items;
      PlainMeans(items[|items| - 1]);
      assert forall i :: 0 <= i < |init| ==> items[i] == init[i];
    }
  }

  lemma {:induction false} PlainEntries(n: Node, es: seq<Entry>)
    requires n.Mapping? && Plain(n) && forall e :: e in es ==> e in n.entries
    ensures DenoteEntries(n, es).Some?
    ensures forall i :: 0 <= i < |es| ==> Denote(es[i].value) == Some(DenoteEntries(n, es).value[i].value)
    decreases n, 0, |es|
  {
    hide Denote, FloatFree, DistinctKeys;
    if |es| > 0 {
      var init := es[..|es| - 1];
      PlainEntries(n, init);
      assert es[|es| - 1] in n.entries;
      PlainMeans(es[|es| - 1].value);
      assert forall i :: 0 <= i < |init| ==> es[i] == init[i];
    }
  }

  // ---- equal up to key order means equal bytes ----

  lemma {:induction false} SortedDistinct(es: seq<Entry>)
    requires DistinctKeys(es)
    ensures DistinctKeys(Sorted(es)) &&
            forall i, j :: 0 <= i < j < |Sorted(es)| ==> Less(Sorted(es)[i].key, Sorted(es)[j].key)
  {
    var s := Sorted(es);
    SortedSorts(es);
    SortedKeeps(es);
    forall i, j | 0 <= i < j < |s|
      ensures s[i].key != s[j].key && Less(s[i].key, s[j].key)
    {
      OneWithKey(es, s[i].key);
      TwoWithKey(s, i, j);
      LessIsTotal(s[i].key, s[j].key);
    }
  }

  lemma {:induction false} OneWithKey(es: seq<Entry>, k: string)
    requires DistinctKeys(es)
    ensures |WithKey(es, k)| <= 1
    ensures |WithKey(es, k)| == 1 ==> exists i :: 0 <= i < |es| && es[i].key == k
  {
    if |es| > 0 {
      var init := es[..|es| - 1];
      OneWithKey(init, k);
      if |WithKey(init, k)| == 1 {
        var i :| 0 <= i < |init| && init[i].key == k;
        assert es[i].key == k;
      }
    }
  }

  lemma {:induction false} HasWithKey(es: seq<Entry>, i: nat)
    requires i < |es|
    ensures |WithKey(es, es[i].key)| >= 1
  {
    if i < |es| - 1 {
      assert es[..|es| - 1][i] == es[i];
      HasWithKey(es[..|es| - 1], i);
    }
  }

  lemma {:induction false} TwoWithKey(es: seq<Entry>, i: nat, j: nat)
    requires i < j < |es|
    ensures es[i].key == es[j].key ==> |WithKey(es, es[i].key)| >= 2
  {
    var init := es[..|es| - 1];
    assert init[i] == es[i];
    if j < |es| - 1 {
      assert init[j] == es[j];
      TwoWithKey(init, i, j);
    } else {
      HasWithKey(init, i);
    }
  }

  ghost predicate Ascending(ks: seq<string>) { forall i, j :: 0 <= i < j < |ks| ==> Less(ks[i], ks[j]) }

  /** Two ascending lists of the same keys are the same list. */
  lemma {:induction false} SameKeys(a: seq<string>, b: seq<string>)
    requires Ascending(a) && Ascending(b) && |a| == |b| && forall k :: k in a ==> k in b
    ensures a == b
  {
    if |a| > 0 {
      var x, y, p, q := a[|a| - 1], b[|b| - 1], a[..|a| - 1], b[..|b| - 1];
      assert a == p + [x] && b == q + [y];
      LastIsGreatest(b, x);
      forall k | k in p
        ensures k in q
      {
        var i :| 0 <= i < |p| && p[i] == k;
        assert a[i] == k && Less(a[i], a[|a| - 1]);
        assert k in a && k in b;
        NotLast(k, x, y);
      }
      SameKeys(p, q);
      KeepsLast(p, x, y, a, b);
    }
  }

  lemma LastIsGreatest(b: seq<string>, x: string)
    requires Ascending(b) && |b| > 0 && x in b
    ensures x == b[|b| - 1] || Less(x, b[|b| - 1])
  {
  }

  lemma NotLast(k: string, x: string, y: string)
    requires Less(k, x) && (x == y || Less(x, y))
    ensures k != y
  {
    LessIsTotal(k, k);
    if x != y { LessIsTransitive(k, x, y); }
  }

  /** If the shorter lists are equal, the last keys are too. */
  lemma KeepsLast(p: seq<string>, x: string, y: string, a: seq<string>, b: seq<string>)
    requires a == p + [x] && b == p + [y] && Ascending(a) && x in b
    ensures x == y
  {
    if x in p {
      var i :| 0 <= i < |p| && p[i] == x;
      assert Less(a[i], a[|p|]);
      LessIsTotal(x, x);
    }
  }

  function Keys(es: seq<Entry>): seq<string> { seq(|es|, i requires 0 <= i < |es| => es[i].key) }

  lemma SortedKeysAscend(es: seq<Entry>)
    requires DistinctKeys(es)
    ensures Ascending(Keys(Sorted(es))) && |Sorted(es)| == |es| && forall e :: e in Sorted(es) <==> e in es
  {
    SortedDistinct(es);
    SortedKeeps(es);
  }

  lemma KeyIn(es: seq<Entry>, k: string)
    ensures k in Keys(es) <==> exists e :: e in es && e.key == k
  {
    if e :| e in es && e.key == k {
      var i :| 0 <= i < |es| && es[i] == e;
      assert Keys(es)[i] == k;
    }
    if k in Keys(es) {
      var i :| 0 <= i < |es| && Keys(es)[i] == k;
      assert es[i] in es;
    }
  }

  lemma SameEntry(es: seq<Entry>, a: Entry, b: Entry)
    requires DistinctKeys(es) && a in es && b in es && a.key == b.key
    ensures a == b
  {
  }

  /** Plain definitions mean the same exactly when they are equal up to the order of their keys. */
  lemma {:induction false} SameMeaningWhenAlike(a: Node, b: Node)
    requires Plain(a) && Plain(b)
    ensures Denote(a) == Denote(b) <==> Alike(a, b)
    decreases a
  {
    hide FloatFree;
    PlainMeans(a);
    PlainMeans(b);
    if a.Sequence? && b.Sequence? {
      SequencesAlike(a, b);
    } else if a.Mapping? && b.Mapping? {
      MappingsAlike(a, b);
    }
  }

  lemma {:induction false} SequencesAlike(a: Node, b: Node)
    requires Plain(a) && Plain(b) && a.Sequence? && b.Sequence?
    ensures Denote(a) == Denote(b) <==> Alike(a, b)
    decreases a, 0
  {
    hide FloatFree, DenoteItems;
    PlainItems(a, a.items);
    PlainItems(b, b.items);
    var x, y := DenoteItems(a, a.items).value, DenoteItems(b, b.items).value;
    if |a.items| == |b.items| {
      forall i | 0 <= i < |a.items|
        ensures x[i] == y[i] <==> Alike(a.items[i], b.items[i])
      {
        assert a.items[i] in a.items && b.items[i] in b.items;
        SameMeaningWhenAlike(a.items[i], b.items[i]);
      }
      assert x == y <==> forall i :: 0 <= i < |x| ==> x[i] == y[i];
    }
  }

  lemma {:induction false} MappingsAlike(a: Node, b: Node)
    requires Plain(a) && Plain(b) && a.Mapping? && b.Mapping?
    ensures Denote(a) == Denote(b) <==> Alike(a, b)
    decreases a, 0
  {
    hide FloatFree, DenoteEntries, Sorted, DistinctKeys, Ascending;
    SortedKeysAscend(a.entries);
    SortedKeysAscend(b.entries);
    var s, t := Sorted(a.entries), Sorted(b.entries);
    PlainEntries(a, s);
    PlainEntries(b, t);
    var x, y := DenoteEntries(a, s).value, DenoteEntries(b, t).value;
    forall p, q | p in a.entries && q in b.entries
      ensures Denote(p.value) == Denote(q.value) <==> Alike(p.value, q.value)
    {
      SameMeaningWhenAlike(p.value, q.value);
    }
    assert DistinctKeys(b.entries);
    assert Denote(a) == Denote(b) <==> x == y;
    hide Denote, Alike;
    assert Means(a, s, x) && Means(b, t, y) && ValuesAgree(a, b);
    if Alike(a, b) { AlikeMeansSame(a, b, s, t, x, y); }
    if x == y { SameMeansAlike(a, b, s, t, x, y); }
  }

  /** The sorted entries of a and b with their meanings. */
  ghost predicate Means(n: Node, s: seq<Entry>, x: seq<Member>) {
    && n.Mapping? && |s| == |n.entries| == |x| && (forall e :: e in s <==> e in n.entries)
    && forall i :: 0 <= i < |s| ==> x[i].name == s[i].key && Denote(s[i].value) == Some(x[i].value)
  }

  ghost predicate ValuesAgree(a: Node, b: Node)
    requires a.Mapping? && b.Mapping?
  {
    forall p, q :: p in a.entries && q in b.entries ==>
                   (Denote(p.value) == Denote(q.value) <==> Alike(p.value, q.value))
  }

  lemma AlikeMeansSame(a: Node, b: Node, s: seq<Entry>, t: seq<Entry>, x: seq<Member>, y: seq<Member>)
    requires Means(a, s, x) && Means(b, t, y) && ValuesAgree(a, b) && Alike(a, b) && DistinctKeys(b.entries)
    requires Ascending(Keys(s)) && Ascending(Keys(t))
    ensures x == y
  {
    forall e | e in a.entries
      ensures HasAlike(e, b.entries)
    {
    }
    hide Denote, Ascending, Alike;
    forall k | k in Keys(s)
      ensures k in Keys(t)
    {
      KeyIn(s, k);
      var e :| e in s && e.key == k;
      assert HasAlike(e, b.entries);
      var f :| f in b.entries && e.key == f.key && Alike(e.value, f.value);
      KeyIn(t, k);
    }
    SameKeys(Keys(s), Keys(t));
    forall i | 0 <= i < |s|
      ensures x[i] == y[i]
    {
      assert Keys(s)[i] == s[i].key && Keys(t)[i] == t[i].key;
      assert s[i] in s && t[i] in t;
      assert HasAlike(s[i], b.entries);
      var f :| f in b.entries && s[i].key == f.key && Alike(s[i].value, f.value);
      SameEntry(b.entries, f, t[i]);
    }
  }

  lemma SameMeansAlike(a: Node, b: Node, s: seq<Entry>, t: seq<Entry>, x: seq<Member>, y: seq<Member>)
    requires Means(a, s, x) && Means(b, t, y) && ValuesAgree(a, b) && x == y
    ensures Alike(a, b)
  {
    forall e | e in a.entries
      ensures HasAlike(e, b.entries)
    {
      hide Denote, Alike;
      var p :| 0 <= p < |s| && s[p] == e;
      assert t[p] in b.entries;
      assert Alike(e.value, t[p].value);
    }
  }

  /** Two plain definitions have equal bytes exactly when they are equal up to the order of their keys. */
  lemma SameBytesWhenAlike(a: Node, b: Node)
    requires Plain(a) && Plain(b)
    ensures Encode(a, false, false, true).Some?
    ensures (Encode(a, false, false, true) == Encode(b, false, false, true) <==> Alike(a, b))
  {
    hide Encode, Denote, Alike;
    PlainMeans(a);
    PlainMeans(b);
    EncodesMeaning(a, false, false, true);
    SameBytesSameMeaning(a, b);
    SameMeaningWhenAlike(a, b);
  }
}
