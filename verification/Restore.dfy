/** Moving a staged backup into a data directory, with an undo log.

    A disk is a map from path to content; directories are not modelled. The staging directory lies in the
    data directory and holds the staged files and, under "prev", the files they replace. */
module Restore {
  import opened Texts
  import opened Collections
  import opened Options

  const DB := "proceed.db"

  // ---- paths ----

  function Components(p: string): seq<string> { Split(p, '/') }

  /** A relative path that cleaning leaves as it is and that names something below the artifact tree. */
  predicate ValidArtifactPath(p: string) {
    && '\\' !in p && 0 as char !in p
    && (forall c :: c in Components(p) ==> c != "" && c != "." && c != "..")
    && StartsWith(p, "artifacts/")
  }

  predicate Restorable(rel: string) { rel == DB || ValidArtifactPath(rel) }

  function Dest(dir: string, rel: string): string { dir + "/" + rel }
  function Staging(dir: string, name: string): string { dir + "/.import-" + name }
  function Staged(dir: string, name: string, rel: string): string { Staging(dir, name) + "/" + rel }
  function Previous(dir: string, name: string, rel: string): string { Staging(dir, name) + "/prev/" + rel }

  predicate InStaging(dir: string, name: string, p: string) { StartsWith(p, Staging(dir, name) + "/") }

  lemma RestorableStarts(rel: string)
    requires Restorable(rel)
    ensures |rel| >= 10 && (rel[0] == 'a' || (rel[0] == 'p' && rel[2] == 'o'))
  {
    if rel != DB { assert rel[..10] == "artifacts/" && rel[0] == rel[..10][0]; }
  }

  /** No destination lies in the staging directory. */
  lemma DestIsOutside(dir: string, name: string, rel: string)
    requires Restorable(rel)
    ensures !InStaging(dir, name, Dest(dir, rel))
  {
    RestorableStarts(rel);
    var p, s := Dest(dir, rel), Staging(dir, name) + "/";
    assert p[|dir| + 1] == rel[0] && s[|dir| + 1] == '.';
    assert |s| <= |p| ==> p[..|s|][|dir| + 1] == p[|dir| + 1];
  }

  lemma StagedIsInside(dir: string, name: string, rel: string)
    ensures InStaging(dir, name, Staged(dir, name, rel)) && InStaging(dir, name, Previous(dir, name, rel))
  {
    var s := Staging(dir, name) + "/";
    assert Staged(dir, name, rel)[..|s|] == s;
    assert Previous(dir, name, rel)[..|s|] == s;
  }

  /** Different files have different destinations, staged copies and backups, and no staged copy is a backup. */
  lemma PathsDiffer(dir: string, name: string, a: string, b: string)
    requires Restorable(a) && Restorable(b)
    ensures a != b ==> Dest(dir, a) != Dest(dir, b)
    ensures a != b ==> Staged(dir, name, a) != Staged(dir, name, b) && Previous(dir, name, a) != Previous(dir, name, b)
    ensures Staged(dir, name, a) != Previous(dir, name, b)
  {
    assert Dest(dir, a)[|dir| + 1..] == a && Dest(dir, b)[|dir| + 1..] == b;
    var n := |Staging(dir, name)|;
    assert Staged(dir, name, a)[n + 1..] == a && Staged(dir, name, b)[n + 1..] == b;
    assert Previous(dir, name, a)[n + 6..] == a && Previous(dir, name, b)[n + 6..] == b;
    RestorableStarts(a);
    assert Staged(dir, name, a)[n + 1] == a[0] && Staged(dir, name, a)[n + 3] == a[2];
    assert Previous(dir, name, b)[n + 1] == 'p' && Previous(dir, name, b)[n + 3] == 'e';
  }

  // ---- the disk ----

  /** Where a move stops: not at all, before it has done anything, or between its two renames. */
  datatype Fault = NoFault | Early | Late

  datatype Applied = Applied(dest: string, backup: Option<string>)

  ghost predicate Ready(files: map<string, string>, dir: string, name: string, rels: seq<string>) {
    && Distinct(rels) && forall i :: 0 <= i < |rels| ==> Restorable(rels[i]) && Staged(dir, name, rels[i]) in files
  }

  function Lookup(files: map<string, string>, p: string): Option<string> { if p in files then Some(files[p]) else None }

  /** The file was moved out of the staging directory and in, and what it replaced is kept. */
  ghost predicate MovedIn(was: map<string, string>, now: map<string, string>, dir: string, name: string, rel: string,
      m: Applied) {
    && m.dest == Dest(dir, rel) && Lookup(now, m.dest) == Lookup(was, Staged(dir, name, rel))
    && Staged(dir, name, rel) !in now
    && match m.backup
       case None => m.dest !in was
       case Some(b) => b == Previous(dir, name, rel) && Lookup(now, b) == Lookup(was, m.dest) && m.dest in was
  }

  /** Outside the staging directory only the destinations of the first k files may have changed. */
  ghost predicate OnlyMoved(was: map<string, string>, now: map<string, string>, dir: string, name: string,
      rels: seq<string>, k: nat)
    requires k <= |rels|
  {
    forall p :: !InStaging(dir, name, p) && (forall j :: 0 <= j < k ==> p != Dest(dir, rels[j])) ==>
                Lookup(now, p) == Lookup(was, p)
  }

  /** How many moves succeed before the first that fails. */
  function FirstFault(faults: seq<Fault>): (k: nat)
    ensures k <= |faults| && (k < |faults| ==> !faults[k].NoFault?) && forall i :: 0 <= i < k ==> faults[i].NoFault?
  {
    if |faults| == 0 || !faults[0].NoFault? then 0 else 1 + FirstFault(faults[1..])
  }

  /** The same staged files exist, with the same contents. */
  ghost predicate SameStaged(was: map<string, string>, now: map<string, string>, dir: string, name: string,
      rels: seq<string>) {
    forall i :: 0 <= i < |rels| ==> Lookup(now, Staged(dir, name, rels[i])) == Lookup(was, Staged(dir, name, rels[i]))
  }

  class Disk {
    var files: map<string, string>

    method Rename(a: string, b: string) returns (ok: bool)
      modifies this
      ensures ok <==> a in old(files)
      ensures ok ==> files == (old(files) - {a})[b := old(files)[a]]
      ensures !ok ==> files == old(files)
    {
      if a !in files { return false; }
      files := (files - {a})[b := files[a]];
      ok := true;
    }

    method Remove(p: string)
      modifies this
      ensures files == old(files) - {p}
    {
      files := files - {p};
    }

    /** Moves one staged file to its destination, keeping what was there. */
    method MoveIn(dir: string, name: string, rel: string, fault: Fault) returns (ok: bool, m: Applied)
      requires Restorable(rel) && Staged(dir, name, rel) in files
      modifies this
      ensures ok ==> MovedIn(old(files), files, dir, name, rel, m)
      ensures ok ==>
              forall p :: p != Dest(dir, rel) && p != Staged(dir, name, rel) && p != Previous(dir, name, rel) ==>
                          Lookup(files, p) == Lookup(old(files), p)
      ensures !ok ==> forall p :: p != Previous(dir, name, rel) ==> Lookup(files, p) == Lookup(old(files), p)
      ensures ok <==> fault.NoFault?
    {
      var from, dest, previous := Staged(dir, name, rel), Dest(dir, rel), Previous(dir, name, rel);
      PathsDiffer(dir, name, rel, rel);
      DestIsOutside(dir, name, rel);
      StagedIsInside(dir, name, rel);
      hide Staged, Dest, Previous, Restorable, InStaging;
      var backup: Option<string> := None;
      m := Applied(dest, backup);
      if fault.Early? { return false, m; }
      if dest in files {
        var kept := Rename(dest, previous);
        backup := Some(previous);
      }
      if fault.Late? {
        if backup.Some? { var back := Rename(previous, dest); }
        return false, m;
      }
      ok := Rename(from, dest);
      m := Applied(dest, backup);
    }

    /** Undoes the moves, last first. */
    method Rollback(ghost was: map<string, string>, dir: string, name: string, rels: seq<string>, moves: seq<Applied>)
      requires Ready(was, dir, name, rels) && |moves| <= |rels|
      requires forall j :: 0 <= j < |moves| ==> MovedIn(was, files, dir, name, rels[j], moves[j])
      requires OnlyMoved(was, files, dir, name, rels, |moves|)
      modifies this
      ensures forall p :: !InStaging(dir, name, p) ==> Lookup(files, p) == Lookup(was, p)
      ensures SameStaged(old(files), files, dir, name, rels)
    {
      var k := |moves|;
      while k > 0
        invariant 0 <= k <= |moves|
        invariant forall j :: 0 <= j < k ==> MovedIn(was, files, dir, name, rels[j], moves[j])
        invariant OnlyMoved(was, files, dir, name, rels, k)
        invariant SameStaged(old(files), files, dir, name, rels)
      {
        k := k - 1;
        ghost var before := files;
        UndoOne(moves[k], was, dir, name, rels[k]);
        UndoKeeps(was, before, files, dir, name, rels, moves, k);
        UndoKeepsStaged(was, before, files, dir, name, rels, k);
      }
    }

    method UndoOne(m: Applied, ghost was: map<string, string>, dir: string, name: string, rel: string)
      requires Restorable(rel) && MovedIn(was, files, dir, name, rel, m)
      modifies this
      ensures Lookup(files, Dest(dir, rel)) == Lookup(was, Dest(dir, rel))
      ensures forall p :: p != Dest(dir, rel) && p != Previous(dir, name, rel) ==>
                          Lookup(files, p) == Lookup(old(files), p)
    {
      DestIsOutside(dir, name, rel);
      StagedIsInside(dir, name, rel);
      hide Staged, Dest, Previous, Restorable, InStaging;
      Remove(m.dest);
      if m.backup.Some? { var ok := Rename(m.backup.value, m.dest); }
    }

    /** `busy` and `linked` are the checks before anything is moved: an active controller lease, or a symbolic
        link on the way to a destination. */
    method CommitRestore(dir: string, name: string, rels: seq<string>, busy: bool, linked: bool, faults: seq<Fault>)
      returns (ok: bool)
      requires Ready(files, dir, name, rels) && |faults| == |rels| && |rels| > 0 && rels[0] == DB
      modifies this
      ensures ok <==> !busy && !linked && forall i :: 0 <= i < |faults| ==> faults[i].NoFault?
      ensures ok ==>
              forall i :: 0 <= i < |rels| ==>
                          Lookup(files, Dest(dir, rels[i])) == Lookup(old(files), Staged(dir, name, rels[i]))
      ensures ok ==> OnlyMoved(old(files), files, dir, name, rels, |rels|)
      ensures !ok ==> forall p :: !InStaging(dir, name, p) ==> Lookup(files, p) == Lookup(old(files), p)
      ensures var moved := if busy || linked then 0 else FirstFault(faults);
              && (forall i :: 0 <= i < moved ==> Staged(dir, name, rels[i]) !in files)
              && (forall i :: moved <= i < |rels| ==>
                    Lookup(files, Staged(dir, name, rels[i])) == Lookup(old(files), Staged(dir, name, rels[i])))
    {
      if linked || busy { return false; }
      ghost var was := files;
      var moves: seq<Applied>, i := [], 0;
      while i < |rels|
        invariant 0 <= i <= |rels| && |moves| == i
        invariant forall j :: 0 <= j < i ==> faults[j].NoFault? && MovedIn(was, files, dir, name, rels[j], moves[j])
        invariant forall j :: i <= j < |rels| ==>
                              Lookup(files, Staged(dir, name, rels[j])) == Lookup(was, Staged(dir, name, rels[j]))
        invariant forall j :: i <= j < |rels| ==> Lookup(files, Dest(dir, rels[j])) == Lookup(was, Dest(dir, rels[j]))
        invariant OnlyMoved(was, files, dir, name, rels, i)
      {
        ghost var before := files;
        var moved, m := MoveIn(dir, name, rels[i], faults[i]);
        if !moved {
          FailedMoveKeeps(was, before, files, dir, name, rels, moves);
          FirstFaultIs(faults, i);
          Rollback(was, dir, name, rels, moves);
          return false;
        }
        MoveKeeps(was, before, files, dir, name, rels, moves, m);
        moves := moves + [m];
        i := i + 1;
      }
      ok := true;
    }
  }

  lemma FirstFaultIs(faults: seq<Fault>, i: nat)
    requires i < |faults| && !faults[i].NoFault? && forall j :: 0 <= j < i ==> faults[j].NoFault?
    ensures FirstFault(faults) == i
  {
    hide FirstFault;
    assert FirstFault(faults) <= i;
  }

  lemma UndoKeepsStaged(was: map<string, string>, before: map<string, string>, now: map<string, string>, dir: string,
      name: string, rels: seq<string>, k: nat)
    requires Ready(was, dir, name, rels) && k < |rels|
    requires forall p :: p != Dest(dir, rels[k]) && p != Previous(dir, name, rels[k]) ==>
                         Lookup(now, p) == Lookup(before, p)
    ensures SameStaged(before, now, dir, name, rels)
  {
    forall j | 0 <= j < |rels|
      ensures Lookup(now, Staged(dir, name, rels[j])) == Lookup(before, Staged(dir, name, rels[j]))
    {
      Separate(dir, name, rels[k], rels[j]);
    }
  }

  /** A move leaves the files of the other moves alone. */
  lemma MoveApart(was: map<string, string>, before: map<string, string>, now: map<string, string>, dir: string,
      name: string, a: string, b: string, m: Applied)
    requires Restorable(a) && Restorable(b) && a != b && MovedIn(was, before, dir, name, a, m)
    requires forall p :: p != Dest(dir, b) && p != Staged(dir, name, b) && p != Previous(dir, name, b) ==>
                         Lookup(now, p) == Lookup(before, p)
    ensures MovedIn(was, now, dir, name, a, m)
  {
    PathsDiffer(dir, name, a, b);
    PathsDiffer(dir, name, b, a);
    DestIsOutside(dir, name, a);
    DestIsOutside(dir, name, b);
    StagedIsInside(dir, name, a);
    StagedIsInside(dir, name, b);
    hide Staged, Dest, Previous, Restorable, InStaging;
    assert Lookup(now, Staged(dir, name, a)) == Lookup(before, Staged(dir, name, a));
  }

  lemma MoveKeeps(was: map<string, string>, before: map<string, string>, now: map<string, string>, dir: string,
      name: string, rels: seq<string>, moves: seq<Applied>, m: Applied)
    requires Ready(was, dir, name, rels) && |moves| < |rels|
    requires forall j :: 0 <= j < |moves| ==> MovedIn(was, before, dir, name, rels[j], moves[j])
    requires forall j :: |moves| <= j < |rels| ==>
                         Lookup(before, Staged(dir, name, rels[j])) == Lookup(was, Staged(dir, name, rels[j]))
    requires forall j :: |moves| <= j < |rels| ==> Lookup(before, Dest(dir, rels[j])) == Lookup(was, Dest(dir, rels[j]))
    requires OnlyMoved(was, before, dir, name, rels, |moves|)
    requires MovedIn(before, now, dir, name, rels[|moves|], m)
    requires var r := rels[|moves|];
             forall p :: p != Dest(dir, r) && p != Staged(dir, name, r) && p != Previous(dir, name, r) ==>
                         Lookup(now, p) == Lookup(before, p)
    ensures forall j :: 0 <= j < |moves| ==> MovedIn(was, now, dir, name, rels[j], moves[j])
    ensures MovedIn(was, now, dir, name, rels[|moves|], m)
    ensures forall j :: |moves| < j < |rels| ==>
                        Lookup(now, Staged(dir, name, rels[j])) == Lookup(was, Staged(dir, name, rels[j]))
    ensures forall j :: |moves| < j < |rels| ==> Lookup(now, Dest(dir, rels[j])) == Lookup(was, Dest(dir, rels[j]))
    ensures OnlyMoved(was, now, dir, name, rels, |moves| + 1)
  {
    var k := |moves|;
    forall j | 0 <= j < k
      ensures MovedIn(was, now, dir, name, rels[j], moves[j])
    {
      assert rels[j] != rels[k];
      MoveApart(was, before, now, dir, name, rels[j], rels[k], moves[j]);
    }
    forall j | k < j < |rels|
      ensures Lookup(now, Staged(dir, name, rels[j])) == Lookup(was, Staged(dir, name, rels[j]))
      ensures Lookup(now, Dest(dir, rels[j])) == Lookup(was, Dest(dir, rels[j]))
    {
      Separate(dir, name, rels[k], rels[j]);
    }
    Separate(dir, name, rels[k], rels[k]);
    assert MovedIn(was, now, dir, name, rels[k], m) by { hide Staged, Dest, Previous, Restorable, InStaging; }
    forall p | !InStaging(dir, name, p) && forall j :: 0 <= j < k + 1 ==> p != Dest(dir, rels[j])
      ensures Lookup(now, p) == Lookup(was, p)
    {
      StagedIsInside(dir, name, rels[k]);
      assert p != Dest(dir, rels[k]);
    }
  }

  lemma Separate(dir: string, name: string, a: string, b: string)
    requires Restorable(a) && Restorable(b)
    ensures Dest(dir, b) != Staged(dir, name, a) && Dest(dir, b) != Previous(dir, name, a)
    ensures Staged(dir, name, b) != Dest(dir, a) && Staged(dir, name, b) != Previous(dir, name, a)
    ensures a != b ==> Dest(dir, a) != Dest(dir, b) && Staged(dir, name, a) != Staged(dir, name, b)
  {
    PathsDiffer(dir, name, a, b);
    PathsDiffer(dir, name, b, a);
    DestIsOutside(dir, name, a);
    DestIsOutside(dir, name, b);
    StagedIsInside(dir, name, a);
    StagedIsInside(dir, name, b);
  }

  lemma FailedMoveKeeps(was: map<string, string>, before: map<string, string>, now: map<string, string>, dir: string,
      name: string, rels: seq<string>, moves: seq<Applied>)
    requires Ready(was, dir, name, rels) && |moves| < |rels|
    requires forall j :: 0 <= j < |moves| ==> MovedIn(was, before, dir, name, rels[j], moves[j])
    requires OnlyMoved(was, before, dir, name, rels, |moves|)
    requires forall p :: p != Previous(dir, name, rels[|moves|]) ==> Lookup(now, p) == Lookup(before, p)
    ensures forall j :: 0 <= j < |moves| ==> MovedIn(was, now, dir, name, rels[j], moves[j])
    ensures OnlyMoved(was, now, dir, name, rels, |moves|) && SameStaged(before, now, dir, name, rels)
  {
    var k := |moves|;
    forall j | 0 <= j < |rels|
      ensures Staged(dir, name, rels[j]) != Previous(dir, name, rels[k])
    {
      Separate(dir, name, rels[k], rels[j]);
    }
    forall j | 0 <= j < k
      ensures MovedIn(was, now, dir, name, rels[j], moves[j])
    {
      assert rels[j] != rels[k];
      MoveApart(was, before, now, dir, name, rels[j], rels[k], moves[j]);
    }
    StagedIsInside(dir, name, rels[k]);
  }

  lemma UndoKeeps(was: map<string, string>, before: map<string, string>, now: map<string, string>, dir: string,
      name: string, rels: seq<string>, moves: seq<Applied>, k: nat)
    requires Ready(was, dir, name, rels) && k < |moves| <= |rels|
    requires forall j :: 0 <= j < k ==> MovedIn(was, before, dir, name, rels[j], moves[j])
    requires OnlyMoved(was, before, dir, name, rels, k + 1)
    requires Lookup(now, Dest(dir, rels[k])) == Lookup(was, Dest(dir, rels[k]))
    requires forall p :: p != Dest(dir, rels[k]) && p != Previous(dir, name, rels[k]) ==>
                         Lookup(now, p) == Lookup(before, p)
    ensures forall j :: 0 <= j < k ==> MovedIn(was, now, dir, name, rels[j], moves[j])
    ensures OnlyMoved(was, now, dir, name, rels, k)
  {
    forall j | 0 <= j < k
      ensures MovedIn(was, now, dir, name, rels[j], moves[j])
    {
      assert rels[j] != rels[k];
      MoveApart(was, before, now, dir, name, rels[j], rels[k], moves[j]);
    }
    forall p | !InStaging(dir, name, p) && forall j :: 0 <= j < k ==> p != Dest(dir, rels[j])
      ensures Lookup(now, p) == Lookup(was, p)
    {
      StagedIsInside(dir, name, rels[k]);
      if p != Dest(dir, rels[k]) {
        assert forall j :: 0 <= j < k + 1 ==> p != Dest(dir, rels[j]);
      }
    }
  }

  // ---- what a path can name ----

  function Depth(parts: seq<string>): int {
    if |parts| == 0 then 0 else Depth(parts[..|parts| - 1]) + if parts[|parts| - 1] == ".." then -1 else 1
  }

  /** Following a valid artifact path never leads out of the directory it starts from. */
  lemma {:induction false} ValidPathStaysInside(p: string, k: nat)
    requires ValidArtifactPath(p) && k <= |Components(p)|
    ensures Depth(Components(p)[..k]) == k
  {
    if k > 0 {
      var parts := Components(p)[..k];
      ValidPathStaysInside(p, k - 1);
      assert parts[..k - 1] == Components(p)[..k - 1];
      assert parts[k - 1] in Components(p);
    }
  }
}
