/** The canonical JSON encoding of a definition, a decoder for it, and what they say about two definitions.

    Text is a sequence of bytes, each written as a character. String escapes follow section 7 of
    RFC 8259. */
module Canonical {
  import opened Options
  import opened Decimal

  // ---- nodes of a definition ----

  /** A mapping's entries in document order; the key of an entry is its text, behind an alias or not. */
  datatype Entry = Entry(key: string, value: Node)

  /** `parsed` is None for an integer out of range, `formatted` for text that is no float. */
  datatype Node =
    | Null | Bool(flag: bool) | Int(parsed: Option<int>) | Float(formatted: Option<string>) | Str(text: string)
    | Sequence(items: seq<Node>) | Mapping(entries: seq<Entry>) | Alias(target: Node)
    | Document(content: seq<Node>) | Unsupported

  // ---- the order of keys ----

  /** Bytewise order. */
  predicate Less(a: string, b: string)
    decreases |a|
  {
    |b| > 0 && (|a| == 0 || a[0] < b[0] || (a[0] == b[0] && Less(a[1..], b[1..])))
  }

  lemma {:induction false} LessIsTotal(a: string, b: string)
    ensures a == b || Less(a, b) || Less(b, a)
    ensures !(Less(a, b) && Less(b, a)) && !Less(a, a)
    decreases |a|
  {
    if |a| > 0 && |b| > 0 {
      LessIsTotal(a[1..], b[1..]);
      if a[0] == b[0] && a[1..] == b[1..] { assert a == [a[0]] + a[1..] && b == [b[0]] + b[1..]; }
    }
    if |a| > 0 { LessIsTotal(a[1..], a[1..]); }
  }

  lemma {:induction false} LessIsTransitive(a: string, b: string, c: string)
    requires Less(a, b) && Less(b, c)
    ensures Less(a, c)
    decreases |a|
  {
    if |a| > 0 && a[0] == b[0] == c[0] { LessIsTransitive(a[1..], b[1..], c[1..]); }
  }

  /** The texts agree up to k, where the first ends or has the smaller byte. */
  predicate DiffersAt(a: string, b: string, k: nat) {
    k <= |a| && k < |b| && a[..k] == b[..k] && (k == |a| || a[k] < b[k])
  }

  lemma SameStart(a: string, b: string, k: nat)
    requires 0 < k <= |a| && k <= |b| && a[..k] == b[..k]
    ensures a[0] == b[0]
  {
    assert a[..k][0] == a[0] && b[..k][0] == b[0];
  }

  lemma {:induction false} LessIsBytewise(a: string, b: string)
    ensures Less(a, b) <==> exists k: nat :: DiffersAt(a, b, k)
    decreases |a|
  {
    if |a| > 0 && |b| > 0 && a[0] == b[0] {
      LessIsBytewise(a[1..], b[1..]);
      if k: nat :| DiffersAt(a[1..], b[1..], k) {
        assert a[..k + 1] == [a[0]] + a[1..][..k] && b[..k + 1] == [b[0]] + b[1..][..k];
        assert DiffersAt(a, b, k + 1);
      }
      if k: nat :| DiffersAt(a, b, k) {
        assert k > 0;
        assert a[1..][..k - 1] == a[..k][1..] && b[1..][..k - 1] == b[..k][1..];
        assert DiffersAt(a[1..], b[1..], k - 1);
      }
    } else {
      assert Less(a, b) ==> DiffersAt(a, b, 0);
      if k: nat :| DiffersAt(a, b, k) {
        if k > 0 { SameStart(a, b, k); }
      }
    }
  }

  /** A new entry goes behind every entry whose key is not greater. */
  function Insert(es: seq<Entry>, e: Entry): seq<Entry> {
    if |es| == 0 then [e]
    else if Less(e.key, es[|es| - 1].key) then Insert(es[..|es| - 1], e) + [es[|es| - 1]]
    else es + [e]
  }

  /** The stable sort by key. */
  function Sorted(es: seq<Entry>): seq<Entry> {
    if |es| == 0 then [] else Insert(Sorted(es[..|es| - 1]), es[|es| - 1])
  }

  predicate InOrder(es: seq<Entry>) { forall i, j :: 0 <= i < j < |es| ==> !Less(es[j].key, es[i].key) }

  /** The entries with one key, in order. */
  function WithKey(es: seq<Entry>, k: string): seq<Entry> {
    if |es| == 0 then [] else WithKey(es[..|es| - 1], k) + if es[|es| - 1].key == k then [es[|es| - 1]] else []
  }

  lemma WithKeyLast(es: seq<Entry>, e: Entry, k: string)
    ensures WithKey(es + [e], k) == WithKey(es, k) + if e.key == k then [e] else []
  {
    assert (es + [e])[..|es|] == es;
  }

  lemma {:induction false} InsertSorts(es: seq<Entry>, e: Entry)
    requires InOrder(es)
    ensures InOrder(Insert(es, e)) && multiset(Insert(es, e)) == multiset(es) + multiset{e}
    ensures forall k :: WithKey(Insert(es, e), k) == WithKey(es + [e], k)
  {
    if |es| > 0 {
      var init, last := es[..|es| - 1], es[|es| - 1];
      assert es == init + [last];
      if Less(e.key, last.key) {
        InsertSorts(init, e);
        InsertBefore(init, last, e);
        forall k
          ensures WithKey(Insert(es, e), k) == WithKey(es + [e], k)
        {
          SkipOne(init, last, e, k);
        }
      } else {
        assert InOrder(es + [e]) by { BehindAll(es, e); }
      }
    }
  }

  lemma BehindAll(es: seq<Entry>, e: Entry)
    requires InOrder(es) && |es| > 0 && !Less(e.key, es[|es| - 1].key)
    ensures InOrder(es + [e])
  {
    var last := es[|es| - 1];
    forall i | 0 <= i < |es|
      ensures !Less(e.key, es[i].key)
    {
      if i < |es| - 1 {
        LessIsTotal(es[i].key, last.key);
        LessIsTotal(e.key, last.key);
        if Less(es[i].key, last.key) && Less(last.key, e.key) { LessIsTransitive(es[i].key, last.key, e.key); }
        LessIsTotal(e.key, es[i].key);
      }
    }
  }

  lemma InsertBefore(init: seq<Entry>, last: Entry, e: Entry)
    requires InOrder(init + [last]) && InOrder(Insert(init, e)) && Less(e.key, last.key)
    requires multiset(Insert(init, e)) == multiset(init) + multiset{e}
    ensures InOrder(Insert(init, e) + [last])
    ensures multiset(Insert(init, e) + [last]) == multiset(init + [last]) + multiset{e}
  {
    hide Insert, Less;
    var s := Insert(init, e);
    forall i | 0 <= i < |s|
      ensures !Less(last.key, s[i].key)
    {
      assert s[i] in multiset(s);
      LessIsTotal(e.key, last.key);
      if s[i] in multiset(init) {
        var j :| 0 <= j < |init| && init[j] == s[i];
        assert (init + [last])[j] == init[j] && (init + [last])[|init|] == last;
      }
    }
  }

  lemma SkipOne(init: seq<Entry>, last: Entry, e: Entry, k: string)
    requires Less(e.key, last.key) && WithKey(Insert(init, e), k) == WithKey(init + [e], k)
    ensures WithKey(Insert(init, e) + [last], k) == WithKey(init + [last] + [e], k)
  {
    LessIsTotal(e.key, last.key);
    WithKeyLast(Insert(init, e), last, k);
    WithKeyLast(init + [last], e, k);
    WithKeyLast(init, last, k);
    WithKeyLast(init, e, k);
    hide WithKey, Insert, Less;
  }

  /** The sort orders the keys, keeps the entries, and keeps entries with one key in their order. */
  lemma {:induction false} SortedSorts(es: seq<Entry>)
    ensures InOrder(Sorted(es)) && multiset(Sorted(es)) == multiset(es)
    ensures forall k :: WithKey(Sorted(es), k) == WithKey(es, k)
  {
    hide WithKey, Insert, InOrder;
    if |es| > 0 {
      var init, e := es[..|es| - 1], es[|es| - 1];
      SortedSorts(init);
      InsertSorts(Sorted(init), e);
      assert es == init + [e];
      forall k
        ensures WithKey(Sorted(es), k) == WithKey(es, k)
      {
        WithKeyLast(Sorted(init), e, k);
        WithKeyLast(init, e, k);
      }
    } else {
      assert InOrder(Sorted(es)) by { NothingInOrder(); }
    }
  }

  lemma NothingInOrder()
    ensures InOrder([])
  {
  }

  lemma SortedKeeps(es: seq<Entry>)
    ensures |Sorted(es)| == |es| && forall e :: e in Sorted(es) <==> e in es
  {
    SortedSorts(es);
    assert |multiset(Sorted(es))| == |Sorted(es)| && |multiset(es)| == |es|;
    assert forall e :: e in Sorted(es) <==> e in multiset(Sorted(es));
    assert forall e :: e in es <==> e in multiset(es);
  }

  // ---- the encoder ----

  const HEX := "0123456789abcdef"

  function Escape(c: char): string {
    if c == '"' then ['\\', '"']
    else if c == '\\' then ['\\', '\\']
    else if c == '\n' then ['\\', 'n']
    else if c == '\r' then ['\\', 'r']
    else if c == '\t' then ['\\', 't']
    else if c == 8 as char then ['\\', 'b']
    else if c == 12 as char then ['\\', 'f']
    else if c < ' ' then ['\\', 'u', '0', '0', HEX[c as int / 16], HEX[c as int % 16]]
    else [c]
  }

  function Escaped(s: string): string { if |s| == 0 then "" else Escaped(s[..|s| - 1]) + Escape(s[|s| - 1]) }

  function Quote(s: string): string { ['"'] + Escaped(s) + ['"'] }

  function WriteInt(v: int): string { if v < 0 then "-" + Digits(-v) else Digits(v) }

  predicate Extends(key: string) { |key| >= 2 && key[..2] == "x-" }

  function EncodeScalar(n: Node, inExtension: bool, inParams: bool): Option<string>
    requires n.Null? || n.Bool? || n.Int? || n.Float? || n.Str?
  {
    match n
    case Null => Some("null")
    case Bool(b) => Some(if b then "true" else "false")
    case Int(v) => if v.None? then None else Some(WriteInt(v.value))
    case Float(f) => if !inExtension && !inParams then None else f
    case Str(s) => Some(Quote(s))
  }

  function Encode(n: Node, inExtension: bool, inParams: bool, root: bool): Option<string>
    decreases n, 1, 0
  {
    match n
    case Alias(t) => Encode(t, inExtension, inParams, false)
    case Sequence(items) =>
      var body := EncodeItems(n, items, inExtension, inParams);
      if body.None? then None else Some("[" + body.value + "]")
    case Mapping(es) =>
      SortedKeeps(es);
      var body := EncodeEntries(n, Sorted(es), inExtension, inParams, root);
      if body.None? then None else Some("{" + body.value + "}")
    case Document(c) => if |c| == 0 then Some("null") else Encode(c[0], inExtension, inParams, root)
    case Unsupported => None
    case _ => EncodeScalar(n, inExtension, inParams)
  }

  function EncodeItems(n: Node, items: seq<Node>, inExtension: bool, inParams: bool): Option<string>
    requires n.Sequence? && forall x :: x in items ==> x in n.items
    decreases n, 0, |items|
  {
    if |items| == 0 then Some("")
    else
      var before := EncodeItems(n, items[..|items| - 1], inExtension, inParams);
      assert items[|items| - 1] in n.items;
      var last := Encode(items[|items| - 1], inExtension, inParams, false);
      if before.None? || last.None? then None
      else Some(before.value + (if |items| == 1 then "" else ",") + last.value)
  }

  function EncodeEntries(n: Node, es: seq<Entry>, inExtension: bool, inParams: bool, root: bool): Option<string>
    requires n.Mapping? && forall e :: e in es ==> e in n.entries
    decreases n, 0, |es|
  {
    if |es| == 0 then Some("")
    else
      var before, e := EncodeEntries(n, es[..|es| - 1], inExtension, inParams, root), es[|es| - 1];
      assert e in n.entries;
      var last := Encode(e.value, inExtension || Extends(e.key), inParams || (root && e.key == "params"), false);
      if before.None? || last.None? then None
      else Some(before.value + (if |es| == 1 then "" else ",") + (Quote(e.key) + ":" + last.value))
  }

  /** The encoder appends to one buffer. */
  class Encoder {
    var out: string

    method EncodeChar(c: char)
      modifies this
      ensures out == old(out) + Escape(c)
    {
      if c == '"' {
        out := out + ['\\', '"'];
      } else if c == '\\' {
        out := out + ['\\', '\\'];
      } else if c == '\n' {
        out := out + ['\\', 'n'];
      } else if c == '\r' {
        out := out + ['\\', 'r'];
      } else if c == '\t' {
        out := out + ['\\', 't'];
      } else if c == 8 as char {
        out := out + ['\\', 'b'];
      } else if c == 12 as char {
        out := out + ['\\', 'f'];
      } else if c < ' ' {
        out := out + ['\\', 'u', '0', '0', HEX[c as int / 16], HEX[c as int % 16]];
      } else {
        out := out + [c];
      }
    }

    method EncodeString(s: string)
      modifies this
      ensures out == old(out) + Quote(s)
    {
      hide Escape;
      ghost var before := out;
      out := out + ['"'];
      var i := 0;
      while i < |s|
        invariant 0 <= i <= |s| && out == before + (['"'] + Escaped(s[..i]))
      {
        EscapedNext(s, i);
        EncodeChar(s[i]);
        i := i + 1;
      }
      assert s[..i] == s;
      out := out + ['"'];
    }

    /** On an error the buffer keeps what has been written so far. */
    method EncodeNode(n: Node, inExtension: bool, inParams: bool, root: bool) returns (ok: bool)
      modifies this
      ensures ok <==> Encode(n, inExtension, inParams, root).Some?
      ensures ok ==> out == old(out) + Encode(n, inExtension, inParams, root).value
      decreases n
    {
      match n
      case Alias(t) => ok := EncodeNode(t, inExtension, inParams, false);
      case Sequence(items) => ok := EncodeList(n, inExtension, inParams);
      case Mapping(es) => ok := EncodeMapping(n, inExtension, inParams, root);
      case Document(c) =>
        if |c| == 0 {
          out := out + "null";
          return true;
        }
        ok := EncodeNode(c[0], inExtension, inParams, root);
      case Unsupported => return false;
      case Str(s) => EncodeString(s); return true;
      case _ =>
        var text := EncodeScalar(n, inExtension, inParams);
        if text.None? { return false; }
        out := out + text.value;
        ok := true;
    }

    method EncodeList(n: Node, inExtension: bool, inParams: bool) returns (ok: bool)
      requires n.Sequence?
      modifies this
      ensures ok <==> EncodeItems(n, n.items, inExtension, inParams).Some?
      ensures ok ==> out == old(out) + ("[" + EncodeItems(n, n.items, inExtension, inParams).value + "]")
      decreases n, 0
    {
      hide EncodeItems, Encode;
      ghost var before := out;
      EmptyList(n, inExtension, inParams);
      out := out + "[";
      var i := 0;
      while i < |n.items|
        invariant 0 <= i <= |n.items|
        invariant EncodeItems(n, n.items[..i], inExtension, inParams).Some?
        invariant out == before + ("[" + EncodeItems(n, n.items[..i], inExtension, inParams).value)
      {
        NextItem(n, n.items, i, inExtension, inParams);
        if i > 0 { out := out + ","; }
        assert n.items[i] in n.items;
        ok := EncodeNode(n.items[i], inExtension, inParams, false);
        if !ok {
          ItemsFail(n, n.items, i + 1, inExtension, inParams);
          return false;
        }
        i := i + 1;
      }
      assert n.items[..i] == n.items;
      out := out + "]";
      ok := true;
    }

    method EncodeEntry(n: Node, e: Entry, inExtension: bool, inParams: bool, root: bool) returns (ok: bool)
      requires n.Mapping? && e in n.entries
      modifies this
      ensures var text := Encode(e.value, inExtension || Extends(e.key), inParams || (root && e.key == "params"),
                                 false);
              (ok <==> text.Some?) && (ok ==> out == old(out) + (Quote(e.key) + ":" + text.value))
      decreases n, 0, 0
    {
      EncodeString(e.key);
      hide Quote, Encode;
      out := out + ":";
      ok := EncodeNode(e.value, inExtension || Extends(e.key), inParams || (root && e.key == "params"), false);
    }

    method EncodeMapping(n: Node, inExtension: bool, inParams: bool, root: bool) returns (ok: bool)
      requires n.Mapping?
      modifies this
      ensures (forall e :: e in Sorted(n.entries) ==> e in n.entries)
      ensures ok <==> EncodeEntries(n, Sorted(n.entries), inExtension, inParams, root).Some?
      ensures ok ==>
              out == old(out) + ("{" + EncodeEntries(n, Sorted(n.entries), inExtension, inParams, root).value + "}")
      decreases n, 0, 1
    {
      hide Quote, Sorted, EncodeEntries, Encode;
      ghost var before := out;
      var pairs := Sorted(n.entries);
      SortedKeeps(n.entries);
      NoEntries(n, inExtension, inParams, root);
      out := out + "{";
      var i := 0;
      while i < |pairs|
        invariant 0 <= i <= |pairs|
        invariant EncodeEntries(n, pairs[..i], inExtension, inParams, root).Some?
        invariant out == before + ("{" + EncodeEntries(n, pairs[..i], inExtension, inParams, root).value)
      {
        NextEntry(n, pairs, i, inExtension, inParams, root);
        if i > 0 { out := out + ","; }
        ok := EncodeEntry(n, pairs[i], inExtension, inParams, root);
        if !ok {
          EntriesFail(n, pairs, i + 1, inExtension, inParams, root);
          return false;
        }
        i := i + 1;
      }
      assert pairs[..i] == pairs;
      out := out + "}";
      ok := true;
    }
  }

  lemma EscapedNext(s: string, i: nat)
    requires i < |s|
    ensures Escaped(s[..i + 1]) == Escaped(s[..i]) + Escape(s[i])
  {
    assert s[..i + 1][..i] == s[..i];
  }

  lemma EmptyList(n: Node, inExtension: bool, inParams: bool)
    requires n.Sequence?
    ensures EncodeItems(n, [], inExtension, inParams) == Some("")
  {
  }

  lemma NextItem(n: Node, items: seq<Node>, i: nat, inExtension: bool, inParams: bool)
    requires n.Sequence? && (forall x :: x in items ==> x in n.items) && i < |items|
    ensures var before, last := EncodeItems(n, items[..i], inExtension, inParams),
                                Encode(items[i], inExtension, inParams, false);
            EncodeItems(n, items[..i + 1], inExtension, inParams) ==
            if before.None? || last.None? then None else Some(before.value + (if i == 0 then "" else ",") + last.value)
  {
    assert items[..i + 1][..i] == items[..i];
  }

  lemma NoEntries(n: Node, inExtension: bool, inParams: bool, root: bool)
    requires n.Mapping?
    ensures EncodeEntries(n, [], inExtension, inParams, root) == Some("")
  {
  }

  lemma NextEntry(n: Node, es: seq<Entry>, i: nat, inExtension: bool, inParams: bool, root: bool)
    requires n.Mapping? && (forall e :: e in es ==> e in n.entries) && i < |es|
    ensures var before, e := EncodeEntries(n, es[..i], inExtension, inParams, root), es[i];
            var last := Encode(e.value, inExtension || Extends(e.key), inParams || (root && e.key == "params"), false);
            EncodeEntries(n, es[..i + 1], inExtension, inParams, root) ==
            if before.None? || last.None? then None
            else Some(before.value + (if i == 0 then "" else ",") + (Quote(e.key) + ":" + last.value))
  {
    assert es[..i + 1][..i] == es[..i];
  }

  lemma {:induction false} ItemsFail(n: Node, items: seq<Node>, i: nat, inExtension: bool, inParams: bool)
    requires n.Sequence? && (forall x :: x in items ==> x in n.items) && i <= |items|
    requires EncodeItems(n, items[..i], inExtension, inParams).None?
    ensures EncodeItems(n, items, inExtension, inParams).None?
    decreases |items|
  {
    if i < |items| {
      assert items[..|items| - 1][..i] == items[..i];
      ItemsFail(n, items[..|items| - 1], i, inExtension, inParams);
    } else {
      assert items[..i] == items;
    }
  }

  lemma {:induction false} EntriesFail(n: Node, es: seq<Entry>, i: nat, inExtension: bool, inParams: bool, root: bool)
    requires n.Mapping? && (forall e :: e in es ==> e in n.entries) && i <= |es|
    requires EncodeEntries(n, es[..i], inExtension, inParams, root).None?
    ensures EncodeEntries(n, es, inExtension, inParams, root).None?
    decreases |es|
  {
    if i < |es| {
      assert es[..|es| - 1][..i] == es[..i];
      EntriesFail(n, es[..|es| - 1], i, inExtension, inParams, root);
    } else {
      assert es[..i] == es;
    }
  }
}
