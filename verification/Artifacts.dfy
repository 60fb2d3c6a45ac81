/** Artifacts are published once: a run refuses an artifact of a node with a name and a content that the node
    has published before, and with it the whole transaction. */
module Artifacts {
  import opened Events
  import opened Options
  import opened Projection
  import opened Replay
  import opened RowHistory

  ghost predicate DistinctIds(evs: seq<Event>) { forall i, j :: 0 <= i < j < |evs| ==> evs[i].id != evs[j].id }

  /** The artifact row carries what its event says. */
  predicate Carries(row: Row, ev: Event)
    requires ev.body.ArtifactPublished?
  {
    row == ArtifactRow(ev.body.node, ev.body.name, ev.body.hash, ev.body.details, ev.at)
  }

  lemma PublishStep(t: Tables, ev: Event, k: Key)
    requires Publishes(ev, k) && Project(t, ev).Some? && k !in t
    ensures k in Project(t, ev).value && Carries(Project(t, ev).value[k], ev)
  {
    var w := Writes(t, ev).value[0];
    assert Writes(t, ev).value == [] + [w] + [];
    ApplyOnce(t, [], w, []);
  }

  lemma {:induction false} UnpublishedHasNoRow(evs: seq<Event>, k: Key)
    requires k.ArtifactK? && Fold(evs).Some? && forall i :: 0 <= i < |evs| ==> !Publishes(evs[i], k)
    ensures k !in Fold(evs).value
  {
    hide Project;
    if |evs| > 0 {
      var n := |evs| - 1;
      UnpublishedHasNoRow(evs[..n], k);
      Untouched(Fold(evs[..n]).value, evs[n], k);
    }
  }

  /** In every log that can be projected a published artifact has a row with what its event says. */
  lemma {:induction false} ArtifactRowTells(evs: seq<Event>, k: Key, i: nat)
    requires Fold(evs).Some? && DistinctIds(evs) && i < |evs| && Publishes(evs[i], k)
    ensures k in Fold(evs).value && Carries(Fold(evs).value[k], evs[i])
    decreases |evs|
  {
    hide Project;
    var n := |evs| - 1;
    if i == n {
      UnpublishedHasNoRow(evs[..n], k);
      PublishStep(Fold(evs[..n]).value, evs[n], k);
    } else {
      ArtifactRowTells(evs[..n], k, i);
      assert !Publishes(evs[n], k);
      Untouched(Fold(evs[..n]).value, evs[n], k);
    }
  }

  /** Two events publish the same artifact of a run. */
  predicate SameArtifact(a: Event, b: Event) {
    && a.body.ArtifactPublished? && b.body.ArtifactPublished? && a.run == b.run
    && a.body.node == b.body.node && a.body.name == b.body.name && a.body.hash == b.body.hash
  }

  lemma TakenIsPublished(evs: seq<Event>, ev: Event)
    requires Fold(evs).Some? && DistinctIds(evs) && AllLocal(evs) && ev.body.ArtifactPublished?
    ensures ArtifactTaken(Fold(evs).value, ev.run, ev.body.node, ev.body.name, ev.body.hash) <==>
            exists i :: 0 <= i < |evs| && SameArtifact(evs[i], ev)
  {
    hide Fold;
    var t, b := Fold(evs).value, ev.body;
    if ArtifactTaken(t, ev.run, b.node, b.name, b.hash) {
      var o :| o in t && o.ArtifactK? && o.Owner() == ev.run && t[o].ArtifactRow? &&
               t[o].producer == b.node && t[o].name == b.name && t[o].hash == b.hash;
      if forall i :: 0 <= i < |evs| ==> !Publishes(evs[i], o) { UnpublishedHasNoRow(evs, o); }
      var i :| 0 <= i < |evs| && Publishes(evs[i], o);
      ArtifactRowTells(evs, o, i);
      assert LocalIds(evs[i]) && SameArtifact(evs[i], ev);
    }
    if i :| 0 <= i < |evs| && SameArtifact(evs[i], ev) {
      var o := ArtifactK(evs[i].id);
      ArtifactRowTells(evs, o, i);
      assert LocalIds(evs[i]) && o.Owner() == ev.run;
    }
  }

  lemma RefusedExactlyIfTaken(t: Tables, ev: Event)
    requires ev.body.ArtifactPublished? && ArtifactK(ev.id) !in t
    ensures Project(t, ev).None? <==> ArtifactTaken(t, ev.run, ev.body.node, ev.body.name, ev.body.hash)
  {
  }

  /** An artifact is refused exactly if the run has an earlier event that publishes the same one. */
  lemma RefusedExactlyIfPublished(evs: seq<Event>, ev: Event)
    requires Fold(evs).Some? && DistinctIds(evs) && AllLocal(evs) && ev.body.ArtifactPublished?
    requires forall i :: 0 <= i < |evs| ==> evs[i].id != ev.id
    ensures Project(Fold(evs).value, ev).None? <==> exists i :: 0 <= i < |evs| && SameArtifact(evs[i], ev)
  {
    hide Fold, Project, ArtifactTaken;
    UnpublishedHasNoRow(evs, ArtifactK(ev.id));
    TakenIsPublished(evs, ev);
    RefusedExactlyIfTaken(Fold(evs).value, ev);
  }

  // ---- transactions ----

  lemma {:induction false} LiveIdsAreDistinct(steps: seq<Step>)
    requires Live(steps).Some?
    ensures DistinctIds(Live(steps).value.log)
  {
    hide Project;
    if |steps| > 0 { LiveIdsAreDistinct(steps[..|steps| - 1]); }
  }

  /** Appending several events in one transaction: all or none. */
  function AppendedAll(g: Ledger, evs: seq<Event>): Option<Ledger> {
    if |evs| == 0 then Some(g)
    else
      var before := AppendedAll(g, evs[..|evs| - 1]);
      if before.None? then None else Appended(before.value, evs[|evs| - 1])
  }

  function Appends(evs: seq<Event>): seq<Step> { seq(|evs|, i requires 0 <= i < |evs| => Append(evs[i])) }

  lemma {:induction false} AppendsAreLive(steps: seq<Step>, evs: seq<Event>)
    requires Live(steps).Some? && AppendedAll(Live(steps).value, evs).Some?
    ensures Live(steps + Appends(evs)) == AppendedAll(Live(steps).value, evs)
    ensures AppendedAll(Live(steps).value, evs).value.log == Live(steps).value.log + evs
  {
    hide Appended;
    if |evs| == 0 {
      assert steps + Appends(evs) == steps && Live(steps).value.log + evs == Live(steps).value.log;
    } else {
      var init, ev := evs[..|evs| - 1], evs[|evs| - 1];
      AppendsAreLive(steps, init);
      var all := steps + Appends(evs);
      assert all[..|all| - 1] == steps + Appends(init) && all[|all| - 1] == Append(ev);
      assert init + [ev] == evs;
      AppendedLog(AppendedAll(Live(steps).value, init).value, ev);
    }
  }

  lemma AppendedLog(g: Ledger, ev: Event)
    ensures Appended(g, ev).Some? ==> Appended(g, ev).value.log == g.log + [ev]
  {
  }

  lemma RepublishingIsRefused(steps: seq<Step>, ev: Event, i: nat)
    requires Live(steps).Some? && AllLocal(Live(steps).value.log)
    requires i < |Live(steps).value.log| && SameArtifact(Live(steps).value.log[i], ev)
    ensures Appended(Live(steps).value, ev).None?
  {
    hide Live, Project;
    var g := Live(steps).value;
    LiveIsFold(steps);
    LiveIdsAreDistinct(steps);
    if !HasId(g.log, ev.id) { RefusedExactlyIfPublished(g.log, ev); }
  }

  lemma {:induction false} RefusedForAll(g: Ledger, evs: seq<Event>, k: nat)
    requires k < |evs| && (AppendedAll(g, evs[..k]).Some? ==> Appended(AppendedAll(g, evs[..k]).value, evs[k]).None?)
    ensures AppendedAll(g, evs).None?
    decreases |evs|
  {
    hide Appended;
    var init := evs[..|evs| - 1];
    if k < |init| {
      assert init[..k] == evs[..k];
      RefusedForAll(g, init, k);
    }
  }

  /** Once a failed attempt has published an artifact, no transaction that publishes the same one again can
      commit, whatever has happened since: the result of a retry that produces it is never recorded. */
  lemma RetryNeverCommits(steps: seq<Step>, evs: seq<Event>, i: nat, k: nat)
    requires Live(steps).Some? && AllLocal(Live(steps).value.log) && AllLocal(evs)
    requires i < |Live(steps).value.log| && k < |evs| && SameArtifact(Live(steps).value.log[i], evs[k])
    ensures AppendedAll(Live(steps).value, evs).None?
  {
    hide Live, Appended;
    var g, before := Live(steps).value, evs[..k];
    if AppendedAll(g, before).Some? {
      AppendsAreLive(steps, before);
      var all := steps + Appends(before);
      assert Live(all).value.log[i] == g.log[i];
      forall j | 0 <= j < |Live(all).value.log|
        ensures LocalIds(Live(all).value.log[j])
      {
        if j >= |g.log| { assert Live(all).value.log[j] == evs[j - |g.log|]; }
      }
      RepublishingIsRefused(all, evs[k], i);
    }
    RefusedForAll(g, evs, k);
  }
}
