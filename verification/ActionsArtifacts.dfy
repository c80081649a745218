/** Retention of workflow artifacts: which ones a prune keeps, and why a prune is stable. */
module ActionsArtifacts {
  import opened Wrappers

  datatype Artifact = Artifact(identifier: int, name: string, size: int, createdAt: string, runId: int, headSha: string)

  datatype Run = Run(completed: bool, success: bool)

  datatype Reason =
    | CurrentRevision | ActiveWorkflow | ReleaseCandidate | LatestByName | LatestSuccessfulByName | Stale

  datatype Decision = Decision(artifact: Artifact, keep: bool, reason: Reason)

  const RELEASE_PREFIX := "release-"

  // ---------------------------------------------------------------- order

  /** `<` on strings. */
  predicate Before(s: string, t: string) {
    t != "" && (s == "" || s[0] < t[0] || (s[0] == t[0] && Before(s[1..], t[1..])))
  }

  lemma {:induction false} BeforeIsTotal(s: string, t: string)
    ensures s == t || Before(s, t) || Before(t, s)
    ensures s == t ==> !Before(s, t)
    ensures !(Before(s, t) && Before(t, s))
  {
    if s != "" && t != "" {
      BeforeIsTotal(s[1..], t[1..]);
      assert s == [s[0]] + s[1..] && t == [t[0]] + t[1..];
    }
  }

  lemma {:induction false} BeforeIsTransitive(s: string, t: string, u: string)
    requires Before(s, t) && Before(t, u)
    ensures Before(s, u)
  {
    if s != "" && s[0] == t[0] == u[0] {
      BeforeIsTransitive(s[1..], t[1..], u[1..]);
    }
  }

  /** The texts agree up to a place at which the first one ends or has the smaller character. */
  ghost predicate Earlier(s: string, t: string) {
    exists k :: 0 <= k <= |s| && k < |t| && s[..k] == t[..k] && (k == |s| || s[k] < t[k])
  }

  lemma {:induction false} FirstDifference(s: string, t: string, k: nat)
    requires k <= |s| && k < |t| && s[..k] == t[..k] && (k == |s| || s[k] < t[k])
    ensures Before(s, t)
    decreases k
  {
    if k > 0 {
      assert s[0] == s[..k][0] == t[..k][0] == t[0];
      assert s[1..][..k - 1] == s[..k][1..] && t[1..][..k - 1] == t[..k][1..];
      FirstDifference(s[1..], t[1..], k - 1);
    }
  }

  lemma {:induction false} DifferenceOf(s: string, t: string) returns (k: nat)
    requires Before(s, t)
    ensures k <= |s| && k < |t| && s[..k] == t[..k] && (k == |s| || s[k] < t[k])
  {
    k := 0;
    if s != "" && s[0] == t[0] {
      k := DifferenceOf(s[1..], t[1..]);
      assert s[..k + 1] == [s[0]] + s[1..][..k] && t[..k + 1] == [t[0]] + t[1..][..k];
      k := k + 1;
    }
  }

  /** So it is the order of a dictionary, which for times in one format is the order of time. */
  lemma BeforeMeansEarlier(s: string, t: string)
    ensures Before(s, t) <==> Earlier(s, t)
  {
    if k :| 0 <= k <= |s| && k < |t| && s[..k] == t[..k] && (k == |s| || s[k] < t[k]) {
      FirstDifference(s, t, k);
    }
    if Before(s, t) {
      var k := DifferenceOf(s, t);
    }
  }

  /** `(a.created_at, a.identifier) > (b.created_at, b.identifier)`. */
  predicate Newer(a: Artifact, b: Artifact) {
    Before(b.createdAt, a.createdAt) || (a.createdAt == b.createdAt && a.identifier > b.identifier)
  }

  lemma NewerIsAnOrder(a: Artifact, b: Artifact, c: Artifact)
    ensures !Newer(a, a) && !(Newer(a, b) && Newer(b, a))
    ensures !Newer(a, b) && !Newer(b, a) ==> a.createdAt == b.createdAt && a.identifier == b.identifier
    ensures Newer(a, b) && Newer(b, c) ==> Newer(a, c)
    ensures Newer(a, b) && !Newer(c, b) ==> Newer(a, c)
    ensures Newer(a, b) && !Newer(a, c) ==> Newer(c, b)
  {
    BeforeIsTotal(a.createdAt, a.createdAt);
    BeforeIsTotal(a.createdAt, b.createdAt);
    BeforeIsTotal(b.createdAt, c.createdAt);
    BeforeIsTotal(a.createdAt, c.createdAt);
    if Before(c.createdAt, b.createdAt) && Before(b.createdAt, a.createdAt) {
      BeforeIsTransitive(c.createdAt, b.createdAt, a.createdAt);
    }
  }

  /** The later time wins, and at equal times the larger identifier. */
  ghost predicate Later(a: Artifact, b: Artifact) {
    Earlier(b.createdAt, a.createdAt) || (a.createdAt == b.createdAt && a.identifier > b.identifier)
  }

  lemma NewerMeansLater(a: Artifact, b: Artifact)
    ensures Newer(a, b) <==> Later(a, b)
  {
    BeforeMeansEarlier(b.createdAt, a.createdAt);
  }

  // ---------------------------------------------------------------- the latest artifact of a name

  /** Which artifacts compete: those of the name, from successful runs only or from all. */
  predicate Competes(a: Artifact, name: string, runs: map<int, Run>, successful: bool) {
    a.name == name && (successful ==> a.runId in runs && runs[a.runId].completed && runs[a.runId].success)
  }

  /** `i` is the first maximum among the competitors. */
  predicate FirstMaximum(s: seq<Artifact>, i: int, name: string, runs: map<int, Run>, successful: bool) {
    && 0 <= i < |s| && Competes(s[i], name, runs, successful)
    && (forall j :: 0 <= j < i && Competes(s[j], name, runs, successful) ==> Newer(s[i], s[j]))
    && (forall j :: i <= j < |s| && Competes(s[j], name, runs, successful) ==> !Newer(s[j], s[i]))
  }

  /** The running maximum, replaced by strictly newer artifacts only. */
  function Latest(s: seq<Artifact>, name: string, runs: map<int, Run>, successful: bool): Option<Artifact> {
    if s == [] then None
    else
      var before := Latest(s[..|s| - 1], name, runs, successful);
      var a := s[|s| - 1];
      if Competes(a, name, runs, successful) && (before.None? || Newer(a, before.value)) then Some(a) else before
  }

  /** The running maximum is the first maximum, and there is one as soon as something competes. */
  lemma {:induction false} LatestIsFirstMaximum(s: seq<Artifact>, name: string, runs: map<int, Run>, successful: bool)
    returns (i: int)
    ensures Latest(s, name, runs, successful).None? ==>
              forall j :: 0 <= j < |s| ==> !Competes(s[j], name, runs, successful)
    ensures Latest(s, name, runs, successful).Some? ==>
              FirstMaximum(s, i, name, runs, successful) && Latest(s, name, runs, successful).value == s[i]
  {
    i := -1;
    if s != [] {
      var n := |s| - 1;
      i := LatestIsFirstMaximum(s[..n], name, runs, successful);
      var before := Latest(s[..n], name, runs, successful);
      if Competes(s[n], name, runs, successful) && (before.None? || Newer(s[n], before.value)) {
        forall j | 0 <= j < n && Competes(s[j], name, runs, successful) ensures Newer(s[n], s[j]) {
          assert s[..n][j] == s[j];
          NewerIsAnOrder(s[n], before.value, s[j]);
        }
        NewerIsAnOrder(s[n], s[n], s[n]);
        i := n;
      }
    }
  }

  /** There is one first maximum. */
  lemma FirstMaximumIsLatest(s: seq<Artifact>, i: int, name: string, runs: map<int, Run>, successful: bool)
    requires FirstMaximum(s, i, name, runs, successful)
    ensures Latest(s, name, runs, successful) == Some(s[i])
  {
    var j := LatestIsFirstMaximum(s, name, runs, successful);
    assert Competes(s[i], name, runs, successful) && 0 <= j < |s|;
    NewerIsAnOrder(s[i], s[j], s[i]);
  }

  /** No artifact of the name that competes is later. */
  ghost predicate NoneLater(s: seq<Artifact>, a: Artifact, runs: map<int, Run>, successful: bool) {
    forall j :: 0 <= j < |s| && Competes(s[j], a.name, runs, successful) ==> !Later(s[j], a)
  }

  /** It is later than every other artifact of the name that competes. */
  ghost predicate LatestOfAll(s: seq<Artifact>, a: Artifact, runs: map<int, Run>, successful: bool) {
    && Competes(a, a.name, runs, successful)
    && forall j :: 0 <= j < |s| && Competes(s[j], a.name, runs, successful) && s[j] != a ==> Later(a, s[j])
  }

  /** The running maximum follows the time: nothing is later, and what is later than all others is found. */
  lemma LatestFollowsTime(s: seq<Artifact>, a: Artifact, runs: map<int, Run>, successful: bool)
    requires a in s
    ensures Latest(s, a.name, runs, successful) == Some(a) ==> NoneLater(s, a, runs, successful)
    ensures LatestOfAll(s, a, runs, successful) ==> Latest(s, a.name, runs, successful) == Some(a)
  {
    var i := LatestIsFirstMaximum(s, a.name, runs, successful);
    forall j | 0 <= j < |s|
      ensures (Newer(s[j], a) <==> Later(s[j], a)) && (Newer(a, s[j]) <==> Later(a, s[j]))
      ensures i >= 0 && i < |s| ==> !(Newer(s[i], s[j]) && Newer(s[j], s[i]))
    {
      NewerMeansLater(s[j], a);
      NewerMeansLater(a, s[j]);
      if 0 <= i < |s| {
        NewerIsAnOrder(s[i], s[j], s[i]);
      }
    }
    var k :| 0 <= k < |s| && s[k] == a;
  }

  // ---------------------------------------------------------------- decisions

  /** The declarative rule: the first reason that applies. */
  function ReasonFor(s: seq<Artifact>, runs: map<int, Run>, revision: string, a: Artifact): Reason
    requires a.runId in runs
  {
    if a.headSha == revision then CurrentRevision
    else if !runs[a.runId].completed then ActiveWorkflow
    else if RELEASE_PREFIX <= a.name then ReleaseCandidate
    else if Latest(s, a.name, runs, false) == Some(a) then LatestByName
    else if Latest(s, a.name, runs, true) == Some(a) then LatestSuccessfulByName
    else Stale
  }

  predicate Keep(s: seq<Artifact>, runs: map<int, Run>, revision: string, a: Artifact)
    requires a.runId in runs
  {
    ReasonFor(s, runs, revision, a) != Stale
  }

  predicate RunsKnown(s: seq<Artifact>, runs: map<int, Run>) {
    forall k :: 0 <= k < |s| ==> s[k].runId in runs
  }

  /** The table of the running maxima, by name. */
  ghost predicate Tabulates(table: map<string, Artifact>, s: seq<Artifact>, runs: map<int, Run>, successful: bool) {
    forall name :: (if name in table then Some(table[name]) else None) == Latest(s, name, runs, successful)
  }

  lemma TabulateOne(table: map<string, Artifact>, s: seq<Artifact>, k: nat, runs: map<int, Run>, successful: bool)
    requires k < |s| && Tabulates(table, s[..k], runs, successful)
    ensures var a := s[k];
            var better := a.name !in table || Newer(a, table[a.name]);
            Tabulates(if Competes(a, a.name, runs, successful) && better then table[a.name := a] else table,
                      s[..k + 1], runs, successful)
  {
    assert s[..k + 1][..k] == s[..k];
  }

  /** What the times say about one decision. */
  ghost predicate FollowsTime(s: seq<Artifact>, runs: map<int, Run>, d: Decision) {
    && (LatestOfAll(s, d.artifact, runs, false) || LatestOfAll(s, d.artifact, runs, true) ==> d.keep)
    && (d.reason == LatestByName ==> NoneLater(s, d.artifact, runs, false))
    && (d.reason == LatestSuccessfulByName ==> NoneLater(s, d.artifact, runs, true))
  }

  lemma DecisionFollowsTime(s: seq<Artifact>, runs: map<int, Run>, revision: string, a: Artifact)
    requires a in s && a.runId in runs
    ensures FollowsTime(s, runs, Decision(a, Keep(s, runs, revision, a), ReasonFor(s, runs, revision, a)))
  {
    LatestFollowsTime(s, a, runs, false);
    LatestFollowsTime(s, a, runs, true);
  }

  /**
    `retention_decisions`: one decision per artifact, in order, each by the declarative rule; refused when
    the run of an artifact is not known.
   */
  method RetentionDecisions(artifacts: seq<Artifact>, runs: map<int, Run>, revision: string)
    returns (ok: bool, decisions: seq<Decision>)
    ensures ok <==> RunsKnown(artifacts, runs)
    ensures ok ==> |decisions| == |artifacts| && forall k :: 0 <= k < |artifacts| ==>
              decisions[k] == Decision(artifacts[k], Keep(artifacts, runs, revision, artifacts[k]),
                                       ReasonFor(artifacts, runs, revision, artifacts[k]))
    ensures ok ==> forall k :: 0 <= k < |decisions| ==> FollowsTime(artifacts, runs, decisions[k])
  {
    decisions := [];
    var latest: map<string, Artifact>, latestSuccessful: map<string, Artifact> := map[], map[];
    for k := 0 to |artifacts|
      invariant RunsKnown(artifacts[..k], runs)
      invariant Tabulates(latest, artifacts[..k], runs, false)
      invariant Tabulates(latestSuccessful, artifacts[..k], runs, true)
    {
      var a := artifacts[k];
      if a.runId !in runs {
        return false, [];
      }
      TabulateOne(latest, artifacts, k, runs, false);
      TabulateOne(latestSuccessful, artifacts, k, runs, true);
      if a.name !in latest || Newer(a, latest[a.name]) {
        latest := latest[a.name := a];
      }
      if runs[a.runId].completed && runs[a.runId].success {
        if a.name !in latestSuccessful || Newer(a, latestSuccessful[a.name]) {
          latestSuccessful := latestSuccessful[a.name := a];
        }
      }
      assert artifacts[..k + 1] == artifacts[..k] + [a];
    }
    assert artifacts[..|artifacts|] == artifacts;
    for k := 0 to |artifacts|
      invariant |decisions| == k
      invariant forall j :: 0 <= j < k ==>
                  decisions[j] == Decision(artifacts[j], Keep(artifacts, runs, revision, artifacts[j]),
                                           ReasonFor(artifacts, runs, revision, artifacts[j]))
    {
      var a := artifacts[k];
      var reason;
      if a.headSha == revision {
        reason := CurrentRevision;
      } else if !runs[a.runId].completed {
        reason := ActiveWorkflow;
      } else if RELEASE_PREFIX <= a.name {
        reason := ReleaseCandidate;
      } else if a.name in latest && latest[a.name] == a {
        reason := LatestByName;
      } else if a.name in latestSuccessful && latestSuccessful[a.name] == a {
        reason := LatestSuccessfulByName;
      } else {
        decisions := decisions + [Decision(a, false, Stale)];
        continue;
      }
      decisions := decisions + [Decision(a, true, reason)];
    }
    ok := true;
    forall k | 0 <= k < |decisions| ensures FollowsTime(artifacts, runs, decisions[k]) {
      DecisionFollowsTime(artifacts, runs, revision, artifacts[k]);
    }
  }

  /** What is kept: the exempt artifacts, and the first maxima of their name over all or over successful runs. */
  lemma KeptExactly(s: seq<Artifact>, runs: map<int, Run>, revision: string, a: Artifact)
    requires a.runId in runs
    ensures Keep(s, runs, revision, a) <==>
            || a.headSha == revision || !runs[a.runId].completed || RELEASE_PREFIX <= a.name
            || (exists i :: FirstMaximum(s, i, a.name, runs, false) && s[i] == a)
            || (exists i :: FirstMaximum(s, i, a.name, runs, true) && s[i] == a)
  {
    forall successful: bool
      ensures Latest(s, a.name, runs, successful) == Some(a) <==>
              exists i :: FirstMaximum(s, i, a.name, runs, successful) && s[i] == a
    {
      var i := LatestIsFirstMaximum(s, a.name, runs, successful);
      forall j | FirstMaximum(s, j, a.name, runs, successful)
        ensures Latest(s, a.name, runs, successful) == Some(s[j])
      {
        FirstMaximumIsLatest(s, j, a.name, runs, successful);
      }
    }
  }

  // ---------------------------------------------------------------- pruning

  predicate DistinctIds(s: seq<Artifact>) {
    forall i, j :: 0 <= i < j < |s| ==> s[i].identifier != s[j].identifier
  }

  /** The latest artifact of a name stays the latest in every part of the listing that still holds it. */
  lemma LatestSurvives(s: seq<Artifact>, rest: seq<Artifact>, name: string, runs: map<int, Run>, successful: bool)
    requires DistinctIds(rest) && forall a :: a in rest ==> a in s
    requires Latest(s, name, runs, successful).Some? ==> Latest(s, name, runs, successful).value in rest
    ensures Latest(rest, name, runs, successful) == Latest(s, name, runs, successful)
  {
    var i := LatestIsFirstMaximum(s, name, runs, successful);
    if Latest(s, name, runs, successful).None? {
      var j := LatestIsFirstMaximum(rest, name, runs, successful);
      assert j >= 0 && j < |rest| ==> rest[j] in s;
    } else {
      var k :| 0 <= k < |rest| && rest[k] == s[i];
      forall j | 0 <= j < |rest| && Competes(rest[j], name, runs, successful)
        ensures !Newer(rest[j], s[i]) && (j != k ==> Newer(s[i], rest[j]))
      {
        assert rest[j] in rest;
        var m :| 0 <= m < |s| && s[m] == rest[j];
        NewerIsAnOrder(s[i], s[m], s[i]);
      }
      FirstMaximumIsLatest(rest, k, name, runs, successful);
    }
  }

  /** The latest artifacts are kept themselves. */
  lemma LatestIsKept(s: seq<Artifact>, runs: map<int, Run>, revision: string, name: string, successful: bool)
    requires RunsKnown(s, runs) && Latest(s, name, runs, successful).Some?
    ensures var a := Latest(s, name, runs, successful).value; a in s && a.runId in runs && Keep(s, runs, revision, a)
  {
    var i := LatestIsFirstMaximum(s, name, runs, successful);
  }

  /**
    Pruning is stable, even when it is interrupted: once any stale artifacts are gone, every remaining
    artifact gets the decision it had. So a rerun after a complete prune finds nothing stale.
   */
  lemma PruningIsStable(s: seq<Artifact>, rest: seq<Artifact>, runs: map<int, Run>, revision: string, a: Artifact)
    requires RunsKnown(s, runs) && DistinctIds(rest) && forall b :: b in rest ==> b in s
    requires forall b :: b in s && b.runId in runs && Keep(s, runs, revision, b) ==> b in rest
    requires a in rest && a.runId in runs
    ensures ReasonFor(rest, runs, revision, a) == ReasonFor(s, runs, revision, a)
  {
    forall successful: bool
      ensures Latest(rest, a.name, runs, successful) == Latest(s, a.name, runs, successful)
    {
      if Latest(s, a.name, runs, successful).Some? {
        LatestIsKept(s, runs, revision, a.name, successful);
      }
      LatestSurvives(s, rest, a.name, runs, successful);
    }
  }

  // ---------------------------------------------------------------- additions

  /** Some competitor of the same name is strictly newer. */
  predicate Beaten(s: seq<Artifact>, a: Artifact, runs: map<int, Run>, successful: bool) {
    exists j :: 0 <= j < |s| && Competes(s[j], a.name, runs, successful) && Newer(s[j], a)
  }

  /** Wherever the artifact competes, over all or over successful runs, it is beaten and not merely tied. */
  predicate BeatenForGood(s: seq<Artifact>, a: Artifact, runs: map<int, Run>) {
    && (Competes(a, a.name, runs, false) ==> Beaten(s, a, runs, false))
    && (Competes(a, a.name, runs, true) ==> Beaten(s, a, runs, true))
  }

  /** The artifact is stale in every listing that holds this one. */
  ghost predicate StaleForGood(s: seq<Artifact>, runs: map<int, Run>, revision: string, a: Artifact)
    requires a.runId in runs
  {
    forall more: seq<Artifact> :: (forall b :: b in s ==> b in more) ==> !Keep(more, runs, revision, a)
  }

  /** A beaten artifact is the latest of no larger listing. */
  lemma BeatenIsNeverLatest(
    s: seq<Artifact>, more: seq<Artifact>, a: Artifact, runs: map<int, Run>, successful: bool)
    requires forall b :: b in s ==> b in more
    requires Competes(a, a.name, runs, successful) ==> Beaten(s, a, runs, successful)
    ensures Latest(more, a.name, runs, successful) != Some(a)
  {
    var i := LatestIsFirstMaximum(more, a.name, runs, successful);
    if Latest(more, a.name, runs, successful) == Some(a) {
      var j :| 0 <= j < |s| && Competes(s[j], a.name, runs, successful) && Newer(s[j], a);
      assert s[j] in more;
      var k :| 0 <= k < |more| && more[k] == s[j];
      NewerIsAnOrder(more[k], more[i], more[k]);
    }
  }

  /** A tied artifact becomes the latest when the listing shows it first. */
  lemma TiedComesBack(s: seq<Artifact>, a: Artifact, runs: map<int, Run>, successful: bool)
    requires Competes(a, a.name, runs, successful) && !Beaten(s, a, runs, successful)
    ensures Latest([a] + s, a.name, runs, successful) == Some(a)
  {
    NewerIsAnOrder(a, a, a);
    FirstMaximumIsLatest([a] + s, 0, a.name, runs, successful);
  }

  /**
    A stale artifact stays stale whatever is added, exactly when it is beaten by a strictly newer artifact
    wherever it competes.
   */
  lemma StaleForGoodExactlyWhen(s: seq<Artifact>, runs: map<int, Run>, revision: string, a: Artifact)
    requires a in s && a.runId in runs && !Keep(s, runs, revision, a)
    ensures StaleForGood(s, runs, revision, a) <==> BeatenForGood(s, a, runs)
  {
    if BeatenForGood(s, a, runs) {
      forall more: seq<Artifact> | forall b :: b in s ==> b in more
        ensures !Keep(more, runs, revision, a)
      {
        BeatenIsNeverLatest(s, more, a, runs, false);
        BeatenIsNeverLatest(s, more, a, runs, true);
      }
    } else {
      var successful := Competes(a, a.name, runs, true) && !Beaten(s, a, runs, true);
      TiedComesBack(s, a, runs, successful);
      assert Keep([a] + s, runs, revision, a);
    }
  }

  /** With distinct identifiers there are no ties, so artifacts that are added later never revive a stale one. */
  lemma StaleStaysStale(s: seq<Artifact>, more: seq<Artifact>, runs: map<int, Run>, revision: string, a: Artifact)
    requires DistinctIds(s) && forall b :: b in s ==> b in more
    requires a in s && a.runId in runs && !Keep(s, runs, revision, a)
    ensures !Keep(more, runs, revision, a)
  {
    forall successful: bool
      ensures Competes(a, a.name, runs, successful) ==> Beaten(s, a, runs, successful)
    {
      var i := LatestIsFirstMaximum(s, a.name, runs, successful);
      var k :| 0 <= k < |s| && s[k] == a;
      if Competes(a, a.name, runs, successful) {
        NewerIsAnOrder(s[i], a, s[i]);
      }
    }
    StaleForGoodExactlyWhen(s, runs, revision, a);
  }

  /** A family of ties: of two, the first one hides the other, so the order of the listing decides. */
  lemma TiesDependOnOrder(a: Artifact, size: int, runs: map<int, Run>, revision: string)
    requires a.runId in runs && runs[a.runId].completed && a.headSha != revision && !(RELEASE_PREFIX <= a.name)
    requires size != a.size
    ensures var twin := a.(size := size);
            !Keep([twin, a], runs, revision, a) && Keep([a, twin, a], runs, revision, a)
  {
    var twin := a.(size := size);
    NewerIsAnOrder(a, twin, a);
    NewerIsAnOrder(twin, a, twin);
    BeforeIsTotal(a.createdAt, a.createdAt);
    assert Competes(a, a.name, runs, false) && FirstMaximum([twin, a], 0, a.name, runs, false);
    FirstMaximumIsLatest([twin, a], 0, a.name, runs, false);
    assert FirstMaximum([a, twin, a], 0, a.name, runs, false);
    FirstMaximumIsLatest([a, twin, a], 0, a.name, runs, false);
    if runs[a.runId].success {
      assert FirstMaximum([twin, a], 0, a.name, runs, true);
      FirstMaximumIsLatest([twin, a], 0, a.name, runs, true);
    } else {
      var i := LatestIsFirstMaximum([twin, a], a.name, runs, true);
    }
  }
}
