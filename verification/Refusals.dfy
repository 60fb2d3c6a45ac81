/** Which definitions have no canonical encoding: those with a bad scalar, or with a float where none may be. */
module Refusals {
  import opened Canonical
  import opened Options

  // ---- places in a definition ----

  /** One hop into a node: to an item, to the value of an entry, behind an alias, or into a document. */
  datatype Hop = Item(i: nat) | Field(i: nat) | Target | Content

  function Hopped(n: Node, h: Hop): Option<Node> {
    match h
    case Item(i) => if n.Sequence? && i < |n.items| then Some(n.items[i]) else None
    case Field(i) => if n.Mapping? && i < |n.entries| then Some(n.entries[i].value) else None
    case Target => if n.Alias? then Some(n.target) else None
    case Content => if n.Document? && |n.content| > 0 then Some(n.content[0]) else None
  }

  function At(n: Node, path: seq<Hop>): Option<Node>
    decreases |path|
  {
    if |path| == 0 then Some(n)
    else if Hopped(n, path[0]).None? then None
    else At(Hopped(n, path[0]).value, path[1..])
  }

  predicate IsExtension(key: string) { |key| >= 2 && key[0] == 'x' && key[1] == '-' }

  /** The path goes through an entry whose key starts with "x-". */
  predicate UnderExtension(n: Node, path: seq<Hop>)
    requires At(n, path).Some?
    decreases |path|
  {
    |path| > 0 && ((path[0].Field? && IsExtension(n.entries[path[0].i].key)) ||
                   UnderExtension(Hopped(n, path[0]).value, path[1..]))
  }

  /** The path goes through the "params" entry of the top mapping, not behind an alias. */
  predicate UnderParams(n: Node, path: seq<Hop>)
    requires At(n, path).Some?
    decreases |path|
  {
    |path| > 0 && ((path[0].Field? && n.entries[path[0].i].key == "params") ||
                   (path[0].Content? && UnderParams(Hopped(n, path[0]).value, path[1..])))
  }

  /** A node that can be written; floats only where they are allowed. */
  predicate Writable(n: Node, floats: bool) {
    match n
    case Int(v) => v.Some?
    case Float(f) => floats && f.Some?
    case Unsupported => false
    case _ => true
  }

  ghost predicate AllWritable(n: Node, inExtension: bool, inParams: bool, root: bool) {
    forall p {:trigger At(n, p)} :: At(n, p).Some? ==>
      Writable(At(n, p).value, inExtension || UnderExtension(n, p) || inParams || (root && UnderParams(n, p)))
  }

  // ---- one hop at a time ----

  /** Where a hop leads, and with what allowed there. */
  ghost predicate NextWritable(n: Node, h: Hop, inExtension: bool, inParams: bool, root: bool) {
    Hopped(n, h).Some? ==>
      AllWritable(Hopped(n, h).value, inExtension || (h.Field? && IsExtension(n.entries[h.i].key)),
                  inParams || (root && h.Field? && n.entries[h.i].key == "params"), root && h.Content?)
  }

  lemma HopByHop(n: Node, inExtension: bool, inParams: bool, root: bool)
    ensures AllWritable(n, inExtension, inParams, root) <==>
            Writable(n, inExtension || inParams) && forall h :: NextWritable(n, h, inExtension, inParams, root)
  {
    if AllWritable(n, inExtension, inParams, root) {
      assert At(n, []) == Some(n);
      forall h
        ensures NextWritable(n, h, inExtension, inParams, root)
      {
        HopKeeps(n, h, inExtension, inParams, root);
      }
    }
    if Writable(n, inExtension || inParams) && forall h :: NextWritable(n, h, inExtension, inParams, root) {
      forall p | At(n, p).Some?
        ensures Writable(At(n, p).value, inExtension || UnderExtension(n, p) || inParams || (root && UnderParams(n, p)))
      {
        if p != [] {
          assert NextWritable(n, p[0], inExtension, inParams, root);
          var m := Hopped(n, p[0]).value;
          assert At(m, p[1..]) == At(n, p);
        }
      }
    }
  }

  lemma HopKeeps(n: Node, h: Hop, inExtension: bool, inParams: bool, root: bool)
    requires AllWritable(n, inExtension, inParams, root)
    ensures NextWritable(n, h, inExtension, inParams, root)
  {
    if Hopped(n, h).Some? {
      var m := Hopped(n, h).value;
      forall p | At(m, p).Some?
        ensures Writable(At(m, p).value,
                         (inExtension || (h.Field? && IsExtension(n.entries[h.i].key))) || UnderExtension(m, p) ||
                         (inParams || (root && h.Field? && n.entries[h.i].key == "params")) ||
                         ((root && h.Content?) && UnderParams(m, p)))
      {
        assert ([h] + p)[1..] == p;
        assert At(n, [h] + p) == At(m, p);
      }
    }
  }

  // ---- the encoder ----

  lemma ExtendsIs(key: string)
    ensures Extends(key) <==> IsExtension(key)
  {
    if |key| >= 2 { assert key[..2] == [key[0], key[1]]; }
  }

  lemma {:induction false} ItemsAreWritten(n: Node, items: seq<Node>, inExtension: bool, inParams: bool)
    requires n.Sequence? && forall x :: x in items ==> x in n.items
    ensures EncodeItems(n, items, inExtension, inParams).Some? <==>
            forall i :: 0 <= i < |items| ==> Encode(items[i], inExtension, inParams, false).Some?
    decreases |items|
  {
    if |items| > 0 { ItemsAreWritten(n, items[..|items| - 1], inExtension, inParams); }
  }

  predicate EntryWritten(e: Entry, inExtension: bool, inParams: bool, root: bool) {
    Encode(e.value, inExtension || Extends(e.key), inParams || (root && e.key == "params"), false).Some?
  }

  lemma {:induction false} EntriesAreWritten(n: Node, es: seq<Entry>, inExtension: bool, inParams: bool, root: bool)
    requires n.Mapping? && forall e :: e in es ==> e in n.entries
    ensures EncodeEntries(n, es, inExtension, inParams, root).Some? <==>
            forall e :: e in es ==> EntryWritten(e, inExtension, inParams, root)
    decreases |es|
  {
    if |es| > 0 {
      var init, last := es[..|es| - 1], es[|es| - 1];
      EntriesAreWritten(n, init, inExtension, inParams, root);
      assert es == init + [last];
      assert EncodeEntries(n, es, inExtension, inParams, root).Some? <==>
             EncodeEntries(n, init, inExtension, inParams, root).Some? &&
             EntryWritten(last, inExtension, inParams, root);
    }
  }

  /** A definition has an encoding exactly if every place in it can be written: integers in range, and floats only
      below an entry whose key starts with "x-" or below the "params" entry of the top mapping. */
  lemma {:induction false} EncodedExactlyWhen(n: Node, inExtension: bool, inParams: bool, root: bool)
    ensures Encode(n, inExtension, inParams, root).Some? <==> AllWritable(n, inExtension, inParams, root)
    decreases n
  {
    hide AllWritable;
    HopByHop(n, inExtension, inParams, root);
    match n
    case Alias(t) =>
      EncodedExactlyWhen(t, inExtension, inParams, false);
      assert Hopped(n, Target) == Some(t);
      assert NextWritable(n, Target, inExtension, inParams, root) <==> AllWritable(t, inExtension, inParams, false);
    case Sequence(items) =>
      ItemsAreWritten(n, items, inExtension, inParams);
      forall i | 0 <= i < |items|
        ensures Encode(items[i], inExtension, inParams, false).Some? <==>
                NextWritable(n, Item(i), inExtension, inParams, root)
      {
        EncodedExactlyWhen(items[i], inExtension, inParams, false);
      }
    case Mapping(es) => MappingIsWritten(n, inExtension, inParams, root);
    case Document(c) =>
      if |c| > 0 {
        EncodedExactlyWhen(c[0], inExtension, inParams, root);
        assert Hopped(n, Content) == Some(c[0]);
        assert NextWritable(n, Content, inExtension, inParams, root) <==>
               AllWritable(c[0], inExtension, inParams, root);
      }
    case _ =>
  }

  lemma {:induction false} MappingIsWritten(n: Node, inExtension: bool, inParams: bool, root: bool)
    requires n.Mapping?
    ensures Encode(n, inExtension, inParams, root).Some? <==>
            forall h :: NextWritable(n, h, inExtension, inParams, root)
    decreases n, 0
  {
    hide AllWritable;
    var es := n.entries;
    SortedKeeps(es);
    EntriesAreWritten(n, Sorted(es), inExtension, inParams, root);
    forall i | 0 <= i < |es|
      ensures EntryWritten(es[i], inExtension, inParams, root) <==>
              NextWritable(n, Field(i), inExtension, inParams, root)
    {
      ExtendsIs(es[i].key);
      assert es[i].value < n;
      EncodedExactlyWhen(es[i].value, inExtension || Extends(es[i].key),
                         inParams || (root && es[i].key == "params"), false);
    }
    if forall h :: NextWritable(n, h, inExtension, inParams, root) {
      forall e | e in Sorted(es)
        ensures EntryWritten(e, inExtension, inParams, root)
      {
        var i :| 0 <= i < |es| && es[i] == e;
        assert NextWritable(n, Field(i), inExtension, inParams, root);
      }
    }
    if Encode(n, inExtension, inParams, root).Some? {
      forall h
        ensures NextWritable(n, h, inExtension, inParams, root)
      {
        if h.Field? && h.i < |es| { assert es[h.i] in Sorted(es); }
      }
    }
  }

  /** A definition with a float outside these places has no encoding. */
  lemma FloatsAreRefused(n: Node, path: seq<Hop>)
    requires At(n, path).Some? && At(n, path).value.Float?
    requires !UnderExtension(n, path) && !UnderParams(n, path)
    ensures Encode(n, false, false, true).None?
  {
    EncodedExactlyWhen(n, false, false, true);
  }
}
