/**
  Go/No-Go blockers kept in step with tracker issues: one issue per blocker, recognised by a marker in
  its body. `Tracker` is the remote side; each request may fail before its effect or lose its answer.
 */
module ReadinessIssues {
  import opened Outcomes
  import opened Wrappers

  datatype Blocker = Blocker(
    identifier: string, title: string, owner: string, exitCondition: string, evidence: seq<string>)

  /** The text of an issue below its marker, from the blocker, for one repository and revision. */
  type Renderer = Blocker -> string

  datatype Issue = Issue(open: bool, title: string, body: string, labelled: bool)

  datatype Row = Row(index: nat, open: bool, body: string)

  // ---------------------------------------------------------------- markers

  const MARKER_OPEN := "<!-- agent-room-go-no-go:"
  const MARKER_CLOSE := " -->"

  /** `GNG-[0-9]{3}`. */
  predicate IsIdentifier(s: string) {
    |s| == 7 && s[..4] == "GNG-" && forall k :: 4 <= k < 7 ==> '0' <= s[k] <= '9'
  }

  function MarkerText(identifier: string): string {
    MARKER_OPEN + identifier + MARKER_CLOSE
  }

  predicate MarkerAt(body: string, i: nat) {
    var from := i + |MARKER_OPEN|;
    && from + 7 + |MARKER_CLOSE| <= |body|
    && body[i..from] == MARKER_OPEN && IsIdentifier(body[from..from + 7])
    && body[from + 7..from + 7 + |MARKER_CLOSE|] == MARKER_CLOSE
  }

  function MarkerFrom(body: string, i: nat): (r: Option<string>)
    ensures r.Some? ==> IsIdentifier(r.value)
    decreases |body| - i, 1
  {
    if i >= |body| then None else MarkerHere(body, i)
  }

  function MarkerHere(body: string, i: nat): (r: Option<string>)
    requires i < |body|
    ensures r.Some? ==> IsIdentifier(r.value)
    decreases |body| - i, 0
  {
    if MarkerAt(body, i) then Some(body[i + |MARKER_OPEN|..i + |MARKER_OPEN| + 7]) else MarkerFrom(body, i + 1)
  }

  /** `MARKER_PATTERN.search`: the identifier of the leftmost marker. */
  function Marker(body: string): Option<string> {
    MarkerFrom(body, 0)
  }

  /** `render_body`. */
  function RenderBody(b: Blocker, rest: Renderer): string {
    MarkerText(b.identifier) + rest(b)
  }

  /** `issue_title`. */
  function IssueTitle(b: Blocker): string {
    "[" + b.identifier + "] " + b.title
  }

  /** The marker written into a body is the one read from it, whatever text follows, for well-formed identifiers. */
  lemma MarkerReadsBack(identifier: string, rest: string)
    ensures Marker(MarkerText(identifier) + rest) == Some(identifier) <==> IsIdentifier(identifier)
  {
    if IsIdentifier(identifier) {
      var body, n := MarkerText(identifier) + rest, |MARKER_OPEN|;
      assert body == MARKER_OPEN + (identifier + (MARKER_CLOSE + rest));
      assert body[0..n] == MARKER_OPEN && body[n..n + 7] == identifier;
      assert body[n + 7..n + 7 + |MARKER_CLOSE|] == MARKER_CLOSE;
      assert MarkerAt(body, 0) && MarkerHere(body, 0) == Some(identifier);
    }
  }

  /** The marker of a well-formed identifier stands at a place. */
  predicate StandsAt(body: string, identifier: string, i: nat) {
    && |identifier| == 7 && identifier[0] == 'G' && identifier[1] == 'N' && identifier[2] == 'G' && identifier[3] == '-'
    && (forall k :: 4 <= k < 7 ==> '0' <= identifier[k] <= '9')
    && i <= |body| && "<!-- agent-room-go-no-go:" + identifier + " -->" <= body[i..]
  }

  lemma IdentifierLetters(s: string)
    requires |s| == 7
    ensures s[..4] == "GNG-" <==> s[0] == 'G' && s[1] == 'N' && s[2] == 'G' && s[3] == '-'
  {
    var p := s[..4];
    assert p[0] == s[0] && p[1] == s[1] && p[2] == s[2] && p[3] == s[3];
  }

  /** Three texts at the start of another one, and their places in it. */
  lemma ThreeAtStart(t: string, a: string, b: string, c: string)
    ensures a + b + c <= t <==>
            && |a| + |b| + |c| <= |t| && t[..|a|] == a && t[|a|..|a| + |b|] == b
            && t[|a| + |b|..|a| + |b| + |c|] == c
  {
    var n := |a| + |b| + |c|;
    if n <= |t| {
      assert t[..n] == t[..|a|] + t[|a|..|a| + |b|] + t[|a| + |b|..n];
      assert (a + b + c)[..|a|] == a && (a + b + c)[|a|..|a| + |b|] == b && (a + b + c)[|a| + |b|..] == c;
    }
  }

  lemma MarkerAtMeans(body: string, i: nat)
    requires i <= |body|
    ensures MarkerAt(body, i) ==> StandsAt(body, body[i + |MARKER_OPEN|..i + |MARKER_OPEN| + 7], i)
    ensures forall identifier :: StandsAt(body, identifier, i) ==>
              MarkerAt(body, i) && identifier == body[i + |MARKER_OPEN|..i + |MARKER_OPEN| + 7]
  {
    var t, n, m := body[i..], |MARKER_OPEN|, |MARKER_CLOSE|;
    if |t| >= n + 7 + m {
      assert t[..n] == body[i..i + n] && t[n..n + 7] == body[i + n..i + n + 7];
      assert t[n + 7..n + 7 + m] == body[i + n + 7..i + n + 7 + m];
      IdentifierLetters(t[n..n + 7]);
      ThreeAtStart(t, MARKER_OPEN, t[n..n + 7], MARKER_CLOSE);
    }
    forall identifier | StandsAt(body, identifier, i)
      ensures MarkerAt(body, i) && identifier == body[i + n..i + n + 7]
    {
      ThreeAtStart(t, MARKER_OPEN, identifier, MARKER_CLOSE);
    }
  }

  lemma {:induction false} MarkerFromMeans(body: string, from: nat, i: nat)
    requires from <= i <= |body| && forall j :: from <= j < i ==> !MarkerAt(body, j)
    ensures MarkerFrom(body, from) == MarkerFrom(body, i)
    decreases i - from
  {
    if from < i {
      MarkerFromMeans(body, from + 1, i);
      assert MarkerHere(body, from) == MarkerFrom(body, from + 1);
    }
  }

  /** The first marker of a body counts, wherever it stands; a body without one has none. */
  lemma FirstMarkerCounts(body: string, identifier: string, i: nat)
    ensures StandsAt(body, identifier, i) && (forall j, other :: 0 <= j < i ==> !StandsAt(body, other, j)) ==>
              Marker(body) == Some(identifier)
    ensures (forall j, other :: 0 <= j ==> !StandsAt(body, other, j)) ==> Marker(body) == None
  {
    if forall j, other :: 0 <= j < i ==> !StandsAt(body, other, j) {
      if StandsAt(body, identifier, i) {
        forall j | 0 <= j < i ensures !MarkerAt(body, j) {
          MarkerAtMeans(body, j);
        }
        MarkerAtMeans(body, i);
        MarkerFromMeans(body, 0, i);
        assert MarkerFrom(body, i) == MarkerHere(body, i);
      }
    }
    if forall j, other :: 0 <= j ==> !StandsAt(body, other, j) {
      forall j | 0 <= j < |body| ensures !MarkerAt(body, j) {
        MarkerAtMeans(body, j);
      }
      MarkerFromMeans(body, 0, |body|);
    }
  }

  // ---------------------------------------------------------------- issues

  /** What the issue of a blocker must say. */
  datatype Wanted = Wanted(identifier: string, title: string, body: string)

  function Want(b: Blocker, rest: Renderer): (w: Wanted)
    ensures w.identifier == b.identifier
    ensures Marker(w.body) == Some(w.identifier) <==> IsIdentifier(b.identifier)
  {
    MarkerReadsBack(b.identifier, rest(b));
    Wanted(b.identifier, IssueTitle(b), RenderBody(b, rest))
  }

  function Mark(i: Issue): Option<string> {
    Marker(i.body)
  }

  /** No two issues carry the same identifier. */
  predicate MarkedOnce(issues: seq<Issue>) {
    forall i, j :: 0 <= i < j < |issues| && Mark(issues[i]).Some? ==> Mark(issues[i]) != Mark(issues[j])
  }

  predicate UpToDate(i: Issue, w: Wanted) {
    i.open && i.title == w.title && i.body == w.body && i.labelled
  }

  predicate Tracked(issues: seq<Issue>, w: Wanted) {
    exists i :: 0 <= i < |issues| && UpToDate(issues[i], w)
  }

  predicate IsWanted(identifier: string, wanted: seq<Wanted>) {
    exists k :: 0 <= k < |wanted| && wanted[k].identifier == identifier
  }

  /** What rendering gives for any blockers: bodies with their own mark, where the identifier can be one. */
  predicate Rendered(wanted: seq<Wanted>) {
    && (forall k :: 0 <= k < |wanted| && IsIdentifier(wanted[k].identifier) ==>
          Marker(wanted[k].body) == Some(wanted[k].identifier))
    && (forall j, k :: 0 <= j < k < |wanted| ==> wanted[j].identifier != wanted[k].identifier)
  }

  /** All identifiers are well-formed. */
  predicate WellFormed(wanted: seq<Wanted>) {
    forall k :: 0 <= k < |wanted| ==> IsIdentifier(wanted[k].identifier)
  }

  predicate Consistent(wanted: seq<Wanted>) {
    Rendered(wanted) && WellFormed(wanted)
  }

  /** Unmarked issues are untouched, and no issue changes its marker or disappears. */
  predicate Respects(before: seq<Issue>, after: seq<Issue>) {
    && |before| <= |after|
    && forall i :: 0 <= i < |before| ==>
         Mark(after[i]) == Mark(before[i]) && (Mark(before[i]).None? ==> after[i] == before[i])
  }

  /** One open, up-to-date issue per blocker, and no other marked issue open. */
  predicate Converged(issues: seq<Issue>, wanted: seq<Wanted>) {
    && MarkedOnce(issues)
    && (forall k :: 0 <= k < |wanted| ==> Tracked(issues, wanted[k]))
    && (forall i :: 0 <= i < |issues| && issues[i].open && Mark(issues[i]).Some? ==>
          IsWanted(Mark(issues[i]).value, wanted))
  }

  predicate HasOpen(issues: seq<Issue>, identifier: string) {
    exists i :: 0 <= i < |issues| && issues[i].open && Mark(issues[i]) == Some(identifier)
  }

  /** The right issues are open, whatever their text says: one per blocker, and no other marked one. */
  predicate Standing(issues: seq<Issue>, wanted: seq<Wanted>) {
    && MarkedOnce(issues)
    && (forall k :: 0 <= k < |wanted| ==> HasOpen(issues, wanted[k].identifier))
    && (forall i :: 0 <= i < |issues| && issues[i].open && Mark(issues[i]).Some? ==>
          IsWanted(Mark(issues[i]).value, wanted))
  }

  /** All identifiers are well-formed and the tracker has converged. */
  predicate Settled(issues: seq<Issue>, wanted: seq<Wanted>) {
    WellFormed(wanted) && Converged(issues, wanted)
  }

  lemma ConvergedIsStanding(issues: seq<Issue>, wanted: seq<Wanted>)
    requires Consistent(wanted) && Converged(issues, wanted)
    ensures Standing(issues, wanted)
  {
    forall k | 0 <= k < |wanted| ensures HasOpen(issues, wanted[k].identifier) {
      assert Tracked(issues, wanted[k]);
      var i :| 0 <= i < |issues| && UpToDate(issues[i], wanted[k]);
      assert Mark(issues[i]) == Some(wanted[k].identifier);
    }
  }

  /** In a converged tracker exactly one issue carries the identifier of a blocker. */
  lemma ConvergedMeansExactlyOne(issues: seq<Issue>, wanted: seq<Wanted>, k: nat)
    requires Consistent(wanted) && Converged(issues, wanted) && k < |wanted|
    ensures exists i :: 0 <= i < |issues| && UpToDate(issues[i], wanted[k]) &&
              (forall j :: 0 <= j < |issues| && Mark(issues[j]) == Some(wanted[k].identifier) ==> j == i)
  {
    assert Tracked(issues, wanted[k]);
    var i :| 0 <= i < |issues| && UpToDate(issues[i], wanted[k]);
    forall j | 0 <= j < |issues| && Mark(issues[j]) == Some(wanted[k].identifier) ensures j == i {
      assert Mark(issues[i]) == Mark(issues[j]);
    }
  }

  const LIST_LIMIT: nat := 1000

  /** The rows of a listing, one for each issue that it shows. */
  predicate Lists(rows: seq<Row>, issues: seq<Issue>) {
    |rows| == |issues| && forall k :: 0 <= k < |rows| ==> rows[k] == Row(k, issues[k].open, issues[k].body)
  }

  /** How many issues a listing does not show. */
  function Beyond(total: nat): nat {
    if total <= LIST_LIMIT then 0 else total - LIST_LIMIT
  }

  class Tracker {
    var hidden: seq<Issue>  // the older issues, which the last listing did not show
    var issues: seq<Issue>  // the issues that it showed, and those created since
    ghost var churn: nat    // requests that created, reopened or closed an issue

    /** Every issue, oldest first. */
    function All(): seq<Issue>
      reads this
    {
      hidden + issues
    }

    method Check() returns (o: Outcome)
    {
      if * {
        return Stopped;
      }
      return Done;
    }

    /** `gh issue list --limit`: the newest issues up to the limit. */
    method List() returns (o: Outcome, rows: seq<Row>)
      modifies `hidden, `issues
      ensures All() == old(All()) && |hidden| == Beyond(|old(All())|)
      ensures Lists(rows, issues)
    {
      var all := hidden + issues;
      var h := if |all| <= LIST_LIMIT then 0 else |all| - LIST_LIMIT;
      hidden, issues := all[..h], all[h..];
      var shown := issues;
      rows := seq(|shown|, k requires 0 <= k < |shown| => Row(k, shown[k].open, shown[k].body));
      o := Check();
    }

    method Create(w: Wanted) returns (o: Outcome)
      modifies `issues, `churn
      ensures issues == old(issues) || issues == old(issues) + [Issue(true, w.title, w.body, true)]
      ensures o.Done? ==> issues == old(issues) + [Issue(true, w.title, w.body, true)]
    {
      if * {
        return Stopped;
      }
      churn := churn + 1;
      if * {
        return Stopped;
      }
      issues := issues + [Issue(true, w.title, w.body, true)];
      if * {
        return Stopped;
      }
      return Done;
    }

    method Edit(i: nat, w: Wanted) returns (o: Outcome)
      requires i < |issues|
      modifies `issues
      ensures issues == old(issues) || issues == old(issues)[i := Issue(old(issues)[i].open, w.title, w.body, true)]
      ensures o.Done? ==> issues == old(issues)[i := Issue(old(issues)[i].open, w.title, w.body, true)]
    {
      if * {
        return Stopped;
      }
      issues := issues[i := issues[i].(title := w.title, body := w.body, labelled := true)];
      if * {
        return Stopped;
      }
      return Done;
    }

    method SetOpen(i: nat, open: bool) returns (o: Outcome)
      requires i < |issues|
      modifies `issues, `churn
      ensures issues == old(issues) || issues == old(issues)[i := old(issues)[i].(open := open)]
      ensures o.Done? ==> issues == old(issues)[i := old(issues)[i].(open := open)]
    {
      if * {
        return Stopped;
      }
      churn := churn + 1;
      if * {
        return Stopped;
      }
      issues := issues[i := issues[i].(open := open)];
      if * {
        return Stopped;
      }
      return Done;
    }
  }

  // ---------------------------------------------------------------- synchronisation

  predicate RowsMarkedOnce(rows: seq<Row>) {
    forall i, j :: 0 <= i < j < |rows| && Marker(rows[i].body).Some? ==> Marker(rows[i].body) != Marker(rows[j].body)
  }

  /** The map holds exactly the marked rows, by identifier. */
  predicate Indexes(existing: map<string, Row>, rows: seq<Row>) {
    && (forall id :: id in existing ==> existing[id] in rows && Marker(existing[id].body) == Some(id))
    && (forall k :: 0 <= k < |rows| && Marker(rows[k].body).Some? ==>
          Marker(rows[k].body).value in existing && existing[Marker(rows[k].body).value] == rows[k])
  }

  /** `parse_existing_issues`: the marked issues by identifier, or a refusal when an identifier repeats. */
  method ParseExisting(rows: seq<Row>) returns (o: Outcome, existing: map<string, Row>)
    ensures o.Done? <==> RowsMarkedOnce(rows)
    ensures o.Done? ==> Indexes(existing, rows)
  {
    existing := map[];
    for k := 0 to |rows|
      invariant Indexes(existing, rows[..k]) && RowsMarkedOnce(rows[..k])
    {
      assert rows[..k + 1] == rows[..k] + [rows[k]];
      var marker := Marker(rows[k].body);
      if marker.Some? {
        if marker.value in existing {
          var m :| 0 <= m < k && rows[..k][m] == existing[marker.value];
          assert Marker(rows[m].body) == Marker(rows[k].body);
          return Stopped, existing;
        }
        existing := existing[marker.value := rows[k]];
      }
    }
    assert rows[..|rows|] == rows;
    return Done, existing;
  }

  /** The marked issues of all other identifiers are as they were. */
  predicate OthersUntouched(before: seq<Issue>, now: seq<Issue>, wanted: seq<Wanted>) {
    && |before| <= |now|
    && forall i :: 0 <= i < |before| && Mark(before[i]).Some? && !IsWanted(Mark(before[i]).value, wanted) ==>
         now[i] == before[i]
  }

  /** What holds while the first `k` blockers have been brought up to date, all identifiers being well-formed. */
  predicate Advanced(before: seq<Issue>, now: seq<Issue>, wanted: seq<Wanted>, k: nat)
    requires k <= |wanted|
  {
    && Respects(before, now) && MarkedOnce(now)
    && (forall i :: |before| <= i < |now| ==> Mark(now[i]).Some? && IsWanted(Mark(now[i]).value, wanted[..k]))
    && OthersUntouched(before, now, wanted[..k])
    && (forall m :: 0 <= m < k ==> Tracked(now, wanted[m]))
  }

  /** What holds then at any point of a run: no mark is lost or doubled, and new issues belong to blockers. */
  predicate Sound(before: seq<Issue>, now: seq<Issue>, wanted: seq<Wanted>) {
    && Respects(before, now) && MarkedOnce(now)
    && (forall i :: |before| <= i < |now| ==> Mark(now[i]).Some? && IsWanted(Mark(now[i]).value, wanted))
  }

  lemma AdvancedIsSound(before: seq<Issue>, now: seq<Issue>, wanted: seq<Wanted>, k: nat)
    requires k <= |wanted| && Advanced(before, now, wanted, k)
    ensures Sound(before, now, wanted)
  {
    forall i | |before| <= i < |now| ensures IsWanted(Mark(now[i]).value, wanted) {
      var m :| 0 <= m < k && wanted[..k][m].identifier == Mark(now[i]).value;
      assert wanted[m].identifier == Mark(now[i]).value;
    }
  }

  lemma IsWantedUpTo(wanted: seq<Wanted>, k: nat, identifier: string)
    requires k < |wanted|
    ensures IsWanted(identifier, wanted[..k + 1])
       <==> IsWanted(identifier, wanted[..k]) || identifier == wanted[k].identifier
  {
    assert forall m :: 0 <= m < k ==> wanted[..k + 1][m] == wanted[..k][m];
    assert wanted[..k + 1][k] == wanted[k];
  }

  lemma CreateStep(before: seq<Issue>, now: seq<Issue>, wanted: seq<Wanted>, k: nat)
    requires Consistent(wanted) && k < |wanted| && Advanced(before, now, wanted, k)
    requires forall i :: 0 <= i < |before| ==> Mark(before[i]) != Some(wanted[k].identifier)
    ensures Advanced(before, now + [Issue(true, wanted[k].title, wanted[k].body, true)], wanted, k + 1)
  {
    var w := wanted[k];
    var after := now + [Issue(true, w.title, w.body, true)];
    forall id ensures IsWanted(id, wanted[..k + 1]) <==> IsWanted(id, wanted[..k]) || id == w.identifier {
      IsWantedUpTo(wanted, k, id);
    }
    assert after[|now|].title == w.title && UpToDate(after[|now|], w);
    assert !IsWanted(w.identifier, wanted[..k]);
    forall m | 0 <= m < k ensures Tracked(after, wanted[m]) {
      assert Tracked(now, wanted[m]);
      var i :| 0 <= i < |now| && UpToDate(now[i], wanted[m]);
      assert UpToDate(after[i], wanted[m]);
    }
  }

  lemma EditStep(before: seq<Issue>, now: seq<Issue>, wanted: seq<Wanted>, k: nat, i: nat, open: bool)
    requires Consistent(wanted) && k < |wanted| && Advanced(before, now, wanted, k)
    requires i < |before| && Mark(before[i]) == Some(wanted[k].identifier)
    ensures var edited := now[i := Issue(open, wanted[k].title, wanted[k].body, true)];
            Sound(before, edited, wanted) && (open ==> Advanced(before, edited, wanted, k + 1))
  {
    var w := wanted[k];
    var edited := now[i := Issue(open, w.title, w.body, true)];
    forall id ensures IsWanted(id, wanted[..k + 1]) <==> IsWanted(id, wanted[..k]) || id == w.identifier {
      IsWantedUpTo(wanted, k, id);
    }
    AdvancedIsSound(before, now, wanted, k);
    assert forall j :: 0 <= j < |now| ==> Mark(edited[j]) == Mark(now[j]);
    if open {
      assert UpToDate(edited[i], w);
      forall m | 0 <= m < k ensures Tracked(edited, wanted[m]) {
        assert Tracked(now, wanted[m]);
        var j :| 0 <= j < |now| && UpToDate(now[j], wanted[m]);
        assert UpToDate(edited[j], wanted[m]);
      }
    }
  }

  /** What holds while some issues that belong to no blocker have been closed. */
  predicate Closing(before: seq<Issue>, now: seq<Issue>, wanted: seq<Wanted>, closed: set<nat>) {
    && Sound(before, now, wanted)
    && (forall k :: 0 <= k < |wanted| ==> Tracked(now, wanted[k]))
    && (forall i :: 0 <= i < |before| && Mark(before[i]).Some? && !IsWanted(Mark(before[i]).value, wanted) ==>
          if i in closed then !now[i].open else now[i] == before[i])
  }

  lemma CloseStep(before: seq<Issue>, now: seq<Issue>, wanted: seq<Wanted>, closed: set<nat>, c: nat)
    requires Consistent(wanted) && c < |before| && Closing(before, now, wanted, closed)
    requires Mark(before[c]).Some? && !IsWanted(Mark(before[c]).value, wanted)
    ensures Closing(before, now[c := now[c].(open := false)], wanted, closed + {c})
  {
    var after := now[c := now[c].(open := false)];
    assert forall j :: 0 <= j < |now| ==> Mark(after[j]) == Mark(now[j]);
    forall k | 0 <= k < |wanted| ensures Tracked(after, wanted[k]) {
      assert Tracked(now, wanted[k]);
      var i :| 0 <= i < |now| && UpToDate(now[i], wanted[k]);
      assert Mark(now[i]) == Some(wanted[k].identifier) && IsWanted(wanted[k].identifier, wanted);
      assert UpToDate(after[i], wanted[k]);
    }
  }

  /** In a converged tracker the issue found for a blocker already says what it must say. */
  lemma ConvergedNeedsNoEdit(issues: seq<Issue>, wanted: seq<Wanted>, k: nat, i: nat)
    requires Consistent(wanted) && Converged(issues, wanted) && k < |wanted|
    requires i < |issues| && Mark(issues[i]) == Some(wanted[k].identifier)
    ensures issues[i] == Issue(true, wanted[k].title, wanted[k].body, true)
  {
    ConvergedMeansExactlyOne(issues, wanted, k);
  }

  // ---------------------------------------------------------------- the issues that a run creates

  predicate Marked(issues: seq<Issue>, identifier: string) {
    exists i :: 0 <= i < |issues| && Mark(issues[i]) == Some(identifier)
  }

  function NewIssue(w: Wanted): Issue {
    Issue(true, w.title, w.body, true)
  }

  /** One new issue, in order, for each blocker that no listed issue is marked with. */
  function Missing(listed: seq<Issue>, wanted: seq<Wanted>): seq<Issue> {
    if wanted == [] then []
    else
      var last := wanted[|wanted| - 1];
      Missing(listed, wanted[..|wanted| - 1]) + if Marked(listed, last.identifier) then [] else [NewIssue(last)]
  }

  /** The issues of the blockers whose identifier can be no mark. */
  function Unmarkable(wanted: seq<Wanted>): seq<Issue> {
    if wanted == [] then []
    else
      var last := wanted[|wanted| - 1];
      Unmarkable(wanted[..|wanted| - 1]) + if IsIdentifier(last.identifier) then [] else [NewIssue(last)]
  }

  /** Every identifier that can be a mark is one. */
  predicate HasMarks(issues: seq<Issue>, wanted: seq<Wanted>) {
    forall m :: 0 <= m < |wanted| && IsIdentifier(wanted[m].identifier) ==> Marked(issues, wanted[m].identifier)
  }

  lemma MissingNext(listed: seq<Issue>, wanted: seq<Wanted>, k: nat)
    requires k < |wanted|
    ensures Missing(listed, wanted[..k + 1])
         == Missing(listed, wanted[..k]) + if Marked(listed, wanted[k].identifier) then [] else [NewIssue(wanted[k])]
  {
    assert wanted[..k + 1][..k] == wanted[..k];
  }

  lemma {:induction false} MissingSoFar(listed: seq<Issue>, wanted: seq<Wanted>, k: nat)
    requires k <= |wanted|
    ensures Missing(listed, wanted[..k]) <= Missing(listed, wanted)
    decreases |wanted| - k
  {
    if k < |wanted| {
      MissingSoFar(listed, wanted, k + 1);
      MissingNext(listed, wanted, k);
    } else {
      assert wanted[..k] == wanted;
    }
  }

  /** What any run keeps, for any identifiers: it touches marked issues alone, and creates the first missing ones. */
  predicate Kept(before: seq<Issue>, now: seq<Issue>, wanted: seq<Wanted>) {
    Respects(before, now) && now[|before|..] <= Missing(before, wanted)
  }

  /** After the first k blockers, what is missing among them is there. */
  predicate Added(before: seq<Issue>, now: seq<Issue>, wanted: seq<Wanted>, k: nat)
    requires k <= |wanted|
  {
    Respects(before, now) && now[|before|..] == Missing(before, wanted[..k]) && HasMarks(now, wanted[..k])
  }

  lemma AddedIsKept(before: seq<Issue>, now: seq<Issue>, wanted: seq<Wanted>, k: nat)
    requires k <= |wanted| && Added(before, now, wanted, k)
    ensures Kept(before, now, wanted)
  {
    MissingSoFar(before, wanted, k);
  }

  lemma AddedByCreate(before: seq<Issue>, now: seq<Issue>, wanted: seq<Wanted>, k: nat)
    requires Rendered(wanted) && k < |wanted| && Added(before, now, wanted, k)
    requires !Marked(before, wanted[k].identifier)
    ensures Added(before, now + [NewIssue(wanted[k])], wanted, k + 1)
  {
    var after := now + [NewIssue(wanted[k])];
    MissingNext(before, wanted, k);
    assert after[|before|..] == now[|before|..] + [NewIssue(wanted[k])];
    assert IsIdentifier(wanted[k].identifier) ==> Mark(after[|now|]) == Some(wanted[k].identifier);
    StillMarked(now, after);
  }

  lemma StillMarked(now: seq<Issue>, after: seq<Issue>)
    requires |now| <= |after| && forall i :: 0 <= i < |now| ==> Mark(after[i]) == Mark(now[i])
    ensures forall identifier :: Marked(now, identifier) ==> Marked(after, identifier)
  {
    forall identifier | Marked(now, identifier) ensures Marked(after, identifier) {
      var i :| 0 <= i < |now| && Mark(now[i]) == Some(identifier);
      assert Mark(after[i]) == Some(identifier);
    }
  }

  lemma AddedByEdit(before: seq<Issue>, now: seq<Issue>, wanted: seq<Wanted>, k: nat, i: nat, open: bool)
    requires Rendered(wanted) && k < |wanted| && Added(before, now, wanted, k)
    requires i < |before| && Mark(before[i]) == Some(wanted[k].identifier)
    ensures Added(before, Edited(now, i, open, wanted[k]), wanted, k + 1)
    ensures Added(before, Edited(now, i, open, wanted[k]), wanted, k)
  {
    var after := Edited(now, i, open, wanted[k]);
    MissingNext(before, wanted, k);
    assert after[|before|..] == now[|before|..];
    assert Mark(after[i]) == Some(wanted[k].identifier);
    StillMarked(now, after);
  }

  /** Closing an issue of the listing changes no mark. */
  lemma AddedByClose(before: seq<Issue>, now: seq<Issue>, wanted: seq<Wanted>, c: nat)
    requires Added(before, now, wanted, |wanted|) && c < |before| && Mark(before[c]).Some?
    ensures Added(before, now[c := now[c].(open := false)], wanted, |wanted|)
  {
    var after := now[c := now[c].(open := false)];
    assert after[|before|..] == now[|before|..];
    StillMarked(now, after);
  }

  lemma {:induction false} OnlyUnmarkableMissing(now: seq<Issue>, wanted: seq<Wanted>, k: nat)
    requires k <= |wanted| && HasMarks(now, wanted)
    ensures Missing(now, wanted[..k]) == Unmarkable(wanted[..k])
  {
    if k > 0 {
      OnlyUnmarkableMissing(now, wanted, k - 1);
      assert wanted[..k][..k - 1] == wanted[..k - 1];
    }
  }

  lemma {:induction false} NothingUnmarkable(wanted: seq<Wanted>)
    ensures Unmarkable(wanted) == [] <==> WellFormed(wanted)
  {
    if wanted != [] {
      var n := |wanted| - 1;
      NothingUnmarkable(wanted[..n]);
      assert wanted == wanted[..n] + [wanted[n]];
    }
  }

  // ---------------------------------------------------------------- one blocker

  /** An issue of a blocker, edited and perhaps reopened. */
  function Edited(now: seq<Issue>, i: nat, open: bool, w: Wanted): seq<Issue>
    requires i < |now|
  {
    now[i := Issue(open, w.title, w.body, true)]
  }

  /** While the first `k` blockers have been brought up to date. */
  predicate Brought(before: seq<Issue>, now: seq<Issue>, wanted: seq<Wanted>, k: nat)
    requires k <= |wanted|
  {
    && Added(before, now, wanted, k) && OthersUntouched(before, now, wanted[..k])
    && (WellFormed(wanted) ==> Advanced(before, now, wanted, k))
  }

  /** At whatever point of a run. */
  predicate Safe(before: seq<Issue>, now: seq<Issue>, wanted: seq<Wanted>) {
    Kept(before, now, wanted) && (WellFormed(wanted) ==> Sound(before, now, wanted))
  }

  lemma BroughtIsSafe(before: seq<Issue>, now: seq<Issue>, wanted: seq<Wanted>, k: nat)
    requires k <= |wanted| && Brought(before, now, wanted, k)
    ensures Safe(before, now, wanted)
  {
    AddedIsKept(before, now, wanted, k);
    if WellFormed(wanted) {
      AdvancedIsSound(before, now, wanted, k);
    }
  }

  lemma BroughtByCreate(before: seq<Issue>, now: seq<Issue>, wanted: seq<Wanted>, k: nat)
    requires Rendered(wanted) && k < |wanted| && Brought(before, now, wanted, k)
    requires !Marked(before, wanted[k].identifier)
    ensures Safe(before, now, wanted) && Safe(before, now + [NewIssue(wanted[k])], wanted)
    ensures Brought(before, now + [NewIssue(wanted[k])], wanted, k + 1)
  {
    AddedByCreate(before, now, wanted, k);
    forall id ensures IsWanted(id, wanted[..k]) ==> IsWanted(id, wanted[..k + 1]) {
      IsWantedUpTo(wanted, k, id);
    }
    if WellFormed(wanted) {
      CreateStep(before, now, wanted, k);
    }
    BroughtIsSafe(before, now, wanted, k);
    BroughtIsSafe(before, now + [NewIssue(wanted[k])], wanted, k + 1);
  }

  lemma EditIsSafe(before: seq<Issue>, now: seq<Issue>, wanted: seq<Wanted>, k: nat, i: nat, open: bool)
    requires Rendered(wanted) && k < |wanted| && Brought(before, now, wanted, k)
    requires i < |before| && Mark(before[i]) == Some(wanted[k].identifier)
    ensures Safe(before, Edited(now, i, open, wanted[k]), wanted)
    ensures open ==> Brought(before, Edited(now, i, open, wanted[k]), wanted, k + 1)
  {
    var edited := Edited(now, i, open, wanted[k]);
    AddedByEdit(before, now, wanted, k, i, open);
    AddedIsKept(before, edited, wanted, k + 1);
    forall id ensures IsWanted(id, wanted[..k + 1]) <==> IsWanted(id, wanted[..k]) || id == wanted[k].identifier {
      IsWantedUpTo(wanted, k, id);
    }
    if WellFormed(wanted) {
      EditStep(before, now, wanted, k, i, open);
    }
  }

  /** Wherever a refresh ends, it left the issue as it was, edited it, or edited and opened it. */
  lemma RefreshStep(before: seq<Issue>, now: seq<Issue>, after: seq<Issue>, wanted: seq<Wanted>, k: nat, i: nat)
    requires Rendered(wanted) && k < |wanted| && Brought(before, now, wanted, k)
    requires i < |before| && Mark(before[i]) == Some(wanted[k].identifier)
    requires after == now || after == Edited(now, i, now[i].open, wanted[k]) || after == Edited(now, i, true, wanted[k])
    ensures now[i] == before[i] && Safe(before, after, wanted)
    ensures after == Edited(now, i, true, wanted[k]) ==> Brought(before, after, wanted, k + 1)
  {
    NotYetBrought(wanted, k);
    BroughtIsSafe(before, now, wanted, k);
    if after == Edited(now, i, true, wanted[k]) {
      EditIsSafe(before, now, wanted, k, i, true);
    } else if after != now {
      EditIsSafe(before, now, wanted, k, i, now[i].open);
    }
  }

  /** Edits the issue found for a blocker, and reopens it if the listing shows it closed. */
  method Refresh(tracker: Tracker, i: nat, listedOpen: bool, w: Wanted) returns (o: Outcome)
    requires i < |tracker.issues| && tracker.issues[i].open == listedOpen
    modifies tracker`issues, tracker`churn
    ensures || tracker.issues == old(tracker.issues)
            || tracker.issues == Edited(old(tracker.issues), i, listedOpen, w)
            || tracker.issues == Edited(old(tracker.issues), i, true, w)
    ensures o.Done? ==> tracker.issues == Edited(old(tracker.issues), i, true, w)
    ensures listedOpen ==> tracker.churn == old(tracker.churn)
  {
    o := tracker.Edit(i, w);
    if o.Done? && !listedOpen {
      o := tracker.SetOpen(i, true);
    }
  }

  /** Brings the issue of one blocker up to date: create, or edit and reopen. */
  method Bring(
    tracker: Tracker, existing: map<string, Row>, rows: seq<Row>, wanted: seq<Wanted>, k: nat, ghost before: seq<Issue>)
    returns (o: Outcome)
    requires Rendered(wanted) && k < |wanted| && Lists(rows, before) && Indexes(existing, rows)
    requires Brought(before, tracker.issues, wanted, k)
    modifies tracker`issues, tracker`churn
    ensures Safe(before, tracker.issues, wanted)
    ensures o.Done? ==> Brought(before, tracker.issues, wanted, k + 1)
    ensures Standing(before, wanted) ==> tracker.churn == old(tracker.churn)
    ensures Settled(before, wanted) && old(tracker.issues) == before ==> tracker.issues == before
  {
    var w := wanted[k];
    FoundOrAbsent(existing, rows, before, w.identifier);
    if Settled(before, wanted) {
      ConvergedIsStanding(before, wanted);
    }
    if Standing(before, wanted) {
      StandingIsFoundOpen(existing, rows, before, wanted, k);
    }
    if w.identifier in existing {
      var row := existing[w.identifier];
      if Settled(before, wanted) {
        ConvergedNeedsNoEdit(before, wanted, k, row.index);
      }
      ghost var now := tracker.issues;
      RefreshStep(before, now, now, wanted, k, row.index);
      o := Refresh(tracker, row.index, row.open, w);
      RefreshStep(before, now, tracker.issues, wanted, k, row.index);
    } else {
      BroughtByCreate(before, tracker.issues, wanted, k);
      o := tracker.Create(w);
    }
  }

  /** The issue of a blocker that stands is found, and shown as open. */
  lemma StandingIsFoundOpen(
    existing: map<string, Row>, rows: seq<Row>, issues: seq<Issue>, wanted: seq<Wanted>, k: nat)
    requires Lists(rows, issues) && Indexes(existing, rows) && Standing(issues, wanted) && k < |wanted|
    ensures wanted[k].identifier in existing && existing[wanted[k].identifier].open
  {
    var id := wanted[k].identifier;
    assert HasOpen(issues, id);
    var i :| 0 <= i < |issues| && issues[i].open && Mark(issues[i]) == Some(id);
    assert Marker(rows[i].body) == Some(id);
    FoundOrAbsent(existing, rows, issues, id);
    assert existing[id].index == i;
  }

  /** The index of the listing finds the issue of an identifier, or shows that there is none. */
  lemma FoundOrAbsent(existing: map<string, Row>, rows: seq<Row>, issues: seq<Issue>, identifier: string)
    requires Lists(rows, issues) && Indexes(existing, rows)
    ensures identifier in existing ==>
              var row := existing[identifier];
              row.index < |issues| && Mark(issues[row.index]) == Some(identifier) && issues[row.index].open == row.open
    ensures identifier !in existing ==> forall i :: 0 <= i < |issues| ==> Mark(issues[i]) != Some(identifier)
  {
    forall i | 0 <= i < |issues| && Mark(issues[i]) == Some(identifier) ensures identifier in existing {
      assert Marker(rows[i].body) == Some(identifier);
    }
  }

  lemma ListingShowsMarks(rows: seq<Row>, issues: seq<Issue>)
    requires Lists(rows, issues)
    ensures RowsMarkedOnce(rows) <==> MarkedOnce(issues)
  {
    assert forall k :: 0 <= k < |rows| ==> Marker(rows[k].body) == Mark(issues[k]);
  }

  lemma NotYetBrought(wanted: seq<Wanted>, k: nat)
    requires Rendered(wanted) && k < |wanted|
    ensures !IsWanted(wanted[k].identifier, wanted[..k])
  {
  }

  lemma NothingBrought(before: seq<Issue>, wanted: seq<Wanted>)
    requires MarkedOnce(before)
    ensures Brought(before, before, wanted, 0) && Safe(before, before, wanted)
  {
  }

  /** While some issues that belong to no blocker have been closed. */
  predicate Closes(before: seq<Issue>, now: seq<Issue>, wanted: seq<Wanted>, closed: set<nat>) {
    && Added(before, now, wanted, |wanted|)
    && (WellFormed(wanted) ==> Closing(before, now, wanted, closed))
  }

  lemma ClosesIsSafe(before: seq<Issue>, now: seq<Issue>, wanted: seq<Wanted>, closed: set<nat>)
    requires Closes(before, now, wanted, closed)
    ensures Safe(before, now, wanted)
  {
    AddedIsKept(before, now, wanted, |wanted|);
  }

  lemma AllBrought(before: seq<Issue>, now: seq<Issue>, wanted: seq<Wanted>)
    requires Brought(before, now, wanted, |wanted|)
    ensures Closes(before, now, wanted, {})
  {
    assert wanted[..|wanted|] == wanted;
  }

  /** The first loop of `synchronize`. */
  method BringAll(
    tracker: Tracker, existing: map<string, Row>, rows: seq<Row>, wanted: seq<Wanted>, ghost before: seq<Issue>)
    returns (o: Outcome)
    requires Rendered(wanted) && Lists(rows, before) && Indexes(existing, rows)
    requires tracker.issues == before && Brought(before, before, wanted, 0)
    modifies tracker`issues, tracker`churn
    ensures Safe(before, tracker.issues, wanted)
    ensures o.Done? ==> Brought(before, tracker.issues, wanted, |wanted|)
    ensures Standing(before, wanted) ==> tracker.churn == old(tracker.churn)
    ensures Settled(before, wanted) ==> tracker.issues == before
  {
    for k := 0 to |wanted|
      invariant Brought(before, tracker.issues, wanted, k)
      invariant Standing(before, wanted) ==> tracker.churn == old(tracker.churn)
      invariant Settled(before, wanted) ==> tracker.issues == before
    {
      :- Bring(tracker, existing, rows, wanted, k, before);
    }
    BroughtIsSafe(before, tracker.issues, wanted, |wanted|);
    return Done;
  }

  /** The listed open issues whose identifier belongs to no blocker. */
  function ToClose(rows: seq<Row>, wanted: seq<Wanted>): set<nat> {
    set c: nat |
      c < |rows| && rows[c].open && Marker(rows[c].body).Some? && !IsWanted(Marker(rows[c].body).value, wanted)
  }

  lemma AllClosed(rows: seq<Row>, wanted: seq<Wanted>, before: seq<Issue>, now: seq<Issue>)
    requires Lists(rows, before) && Closing(before, now, wanted, ToClose(rows, wanted))
    ensures Converged(now, wanted)
  {
    assert forall i :: 0 <= i < |rows| && Mark(before[i]).Some? && !IsWanted(Mark(before[i]).value, wanted) ==>
                         (before[i].open <==> i in ToClose(rows, wanted));
  }

  lemma ClosesStep(before: seq<Issue>, now: seq<Issue>, wanted: seq<Wanted>, closed: set<nat>, c: nat)
    requires Rendered(wanted) && c < |before| && Closes(before, now, wanted, closed)
    requires Mark(before[c]).Some? && !IsWanted(Mark(before[c]).value, wanted)
    ensures Closes(before, now[c := now[c].(open := false)], wanted, closed + {c})
  {
    AddedByClose(before, now, wanted, c);
    if WellFormed(wanted) {
      CloseStep(before, now, wanted, closed, c);
    }
  }

  /** The second loop of `synchronize`, in any order. */
  method CloseOthers(tracker: Tracker, rows: seq<Row>, wanted: seq<Wanted>, ghost before: seq<Issue>)
    returns (o: Outcome)
    requires Rendered(wanted) && Lists(rows, before) && Closes(before, tracker.issues, wanted, {})
    modifies tracker`issues, tracker`churn
    ensures Safe(before, tracker.issues, wanted)
    ensures o.Done? ==>
              && Added(before, tracker.issues, wanted, |wanted|)
              && (WellFormed(wanted) ==> Converged(tracker.issues, wanted))
    ensures Standing(before, wanted) ==> tracker.issues == old(tracker.issues) && tracker.churn == old(tracker.churn)
  {
    var left := ToClose(rows, wanted);
    ClosesIsSafe(before, tracker.issues, wanted, {});
    assert Standing(before, wanted) ==> left == {};
    while left != {}
      invariant left <= ToClose(rows, wanted)
      invariant Closes(before, tracker.issues, wanted, ToClose(rows, wanted) - left)
      invariant ToClose(rows, wanted) == {} ==>
                  tracker.issues == old(tracker.issues) && tracker.churn == old(tracker.churn)
    {
      var c :| c in left;
      ClosesIsSafe(before, tracker.issues, wanted, ToClose(rows, wanted) - left);
      ClosesStep(before, tracker.issues, wanted, ToClose(rows, wanted) - left, c);
      assert ToClose(rows, wanted) - left + {c} == ToClose(rows, wanted) - (left - {c});
      left := left - {c};
      ghost var closed := tracker.issues[c := tracker.issues[c].(open := false)];
      ClosesIsSafe(before, closed, wanted, ToClose(rows, wanted) - left);
      :- tracker.SetOpen(c, false);
    }
    assert ToClose(rows, wanted) - left == ToClose(rows, wanted);
    ClosesIsSafe(before, tracker.issues, wanted, ToClose(rows, wanted));
    if WellFormed(wanted) {
      AllClosed(rows, wanted, before, tracker.issues);
    }
    return Done;
  }

  // ---------------------------------------------------------------- a whole run

  /**
    `synchronize`. Of the issues that the listing shows: at whatever point it ends, unmarked ones are untouched and
    new ones are the first of the missing ones; when it ends normally, all of these are there. If all identifiers are
    well-formed, no identifier ever has two, and a normal end has converged. If the right ones are open already it
    creates, reopens and closes nothing, whatever their text; if they have converged it changes nothing. The issues
    beyond the listing stay as they are.
   */
  method SynchronizeWanted(tracker: Tracker, wanted: seq<Wanted>) returns (o: Outcome)
    requires Rendered(wanted)
    modifies tracker
    ensures var h := Beyond(|old(tracker.All())|); Outline(old(tracker.All()), tracker.All(), h, wanted, o)
    ensures var h := Beyond(|old(tracker.All())|);
            Standing(old(tracker.All())[h..], wanted) ==> tracker.churn == old(tracker.churn)
  {
    ghost var all := tracker.All();
    var labelled := tracker.Check();
    Unchanged(all, wanted, labelled);
    :- labelled;
    var listed, rows := tracker.List();
    ghost var before := tracker.issues;
    Unchanged(all, wanted, listed);
    :- listed;
    var parsed, existing := ParseExisting(rows);
    ListingShowsMarks(rows, before);
    :- parsed;
    NothingBrought(before, wanted);
    o := BringAll(tracker, existing, rows, wanted, before);
    if o.Done? {
      AllBrought(before, tracker.issues, wanted);
      if Settled(before, wanted) {
        ConvergedIsStanding(before, wanted);
      }
      o := CloseOthers(tracker, rows, wanted, before);
    }
    assert all[|tracker.hidden|..] == before && tracker.All()[|tracker.hidden|..] == tracker.issues;
  }

  lemma Unchanged(all: seq<Issue>, wanted: seq<Wanted>, o: Outcome)
    ensures !o.Done? ==> Outline(all, all, Beyond(|all|), wanted, o)
  {
  }

  /** What a run does to all issues, of which the first h are not listed. */
  ghost predicate Outline(all: seq<Issue>, after: seq<Issue>, h: nat, wanted: seq<Wanted>, o: Outcome) {
    && h <= |all| <= |after| && after[..h] == all[..h]
    && (if MarkedOnce(all[h..]) then Safe(all[h..], after[h..], wanted) else after == all && !o.Done?)
    && (o.Done? ==> Added(all[h..], after[h..], wanted, |wanted|))
    && (o.Done? && WellFormed(wanted) ==> Converged(after[h..], wanted))
    && (Settled(all[h..], wanted) ==> after == all)
  }

  // ---------------------------------------------------------------- from the blockers

  predicate Has(blockers: seq<Blocker>, identifier: string) {
    exists k :: 0 <= k < |blockers| && blockers[k].identifier == identifier
  }

  predicate Distinct(blockers: seq<Blocker>) {
    forall j, k :: 0 <= j < k < |blockers| ==> blockers[j].identifier != blockers[k].identifier
  }

  /** One entry of a dictionary, from place k on: a known identifier keeps its place and gets the new value. */
  function Entered(active: seq<Blocker>, b: Blocker, k: nat): (r: seq<Blocker>)
    requires Distinct(active) && k <= |active| && forall j :: 0 <= j < k ==> active[j].identifier != b.identifier
    ensures Distinct(r) && |active| <= |r|
    ensures forall j :: 0 <= j < |active| ==>
              r[j] == if active[j].identifier == b.identifier then b else active[j]
    ensures forall j :: |active| <= j < |r| ==> r[j] == b
    ensures exists j :: 0 <= j < |r| && r[j] == b
    decreases |active| - k
  {
    if k == |active| then
      var r := active + [b];
      assert r[k] == b;
      r
    else if active[k].identifier == b.identifier then
      var r := active[k := b];
      assert r[k] == b;
      r
    else Entered(active, b, k + 1)
  }

  /** `active`: of several blockers with one identifier the last one counts, in the place of the first. */
  function Active(blockers: seq<Blocker>): (active: seq<Blocker>)
    ensures Distinct(active)
  {
    if blockers == [] then [] else Entered(Active(blockers[..|blockers| - 1]), blockers[|blockers| - 1], 0)
  }

  lemma {:induction false} ActiveHas(blockers: seq<Blocker>, identifier: string)
    ensures Has(Active(blockers), identifier) <==> Has(blockers, identifier)
  {
    if blockers != [] {
      var before, last := blockers[..|blockers| - 1], blockers[|blockers| - 1];
      ActiveHas(before, identifier);
      EnteredHas(Active(before), last, identifier);
      HasNext(before, last, identifier);
      assert blockers == before + [last];
    }
  }

  lemma HasNext(before: seq<Blocker>, last: Blocker, identifier: string)
    ensures Has(before + [last], identifier) <==> Has(before, identifier) || last.identifier == identifier
  {
    var blockers := before + [last];
    assert blockers[|before|] == last;
    if Has(before, identifier) {
      var k :| 0 <= k < |before| && before[k].identifier == identifier;
      assert blockers[k].identifier == identifier;
    }
  }

  lemma EnteredHas(active: seq<Blocker>, b: Blocker, identifier: string)
    requires Distinct(active)
    ensures Has(Entered(active, b, 0), identifier) <==> Has(active, identifier) || b.identifier == identifier
  {
    var r := Entered(active, b, 0);
    if Has(active, identifier) {
      var k :| 0 <= k < |active| && active[k].identifier == identifier;
      assert r[k].identifier == identifier;
    }
    if Has(r, identifier) {
      var k :| 0 <= k < |r| && r[k].identifier == identifier;
      assert k < |active| ==> active[k].identifier == identifier;
    }
  }

  /** What the issues of the blockers must say, for any blockers and any text below the marker. */
  function WantAll(blockers: seq<Blocker>, rest: Renderer): (wanted: seq<Wanted>)
    ensures Rendered(wanted) && |wanted| == |Active(blockers)|
    ensures forall k :: 0 <= k < |wanted| ==> wanted[k] == Want(Active(blockers)[k], rest)
  {
    var active := Active(blockers);
    seq(|active|, k requires 0 <= k < |active| => Want(active[k], rest))
  }

  /** Exactly the identifiers of the blockers are wanted. */
  lemma BlockersAreWanted(blockers: seq<Blocker>, rest: Renderer, identifier: string)
    ensures IsWanted(identifier, WantAll(blockers, rest)) <==> Has(blockers, identifier)
  {
    var active, wanted := Active(blockers), WantAll(blockers, rest);
    ActiveHas(blockers, identifier);
    assert forall k :: 0 <= k < |wanted| ==> wanted[k].identifier == active[k].identifier;
  }

  lemma WellFormedWhen(blockers: seq<Blocker>, rest: Renderer)
    ensures WellFormed(WantAll(blockers, rest)) <==> forall b :: b in blockers ==> IsIdentifier(b.identifier)
  {
    var wanted := WantAll(blockers, rest);
    forall b | b in blockers ensures IsWanted(b.identifier, wanted) {
      BlockersAreWanted(blockers, rest, b.identifier);
    }
    forall k | 0 <= k < |wanted| ensures Has(blockers, wanted[k].identifier) {
      BlockersAreWanted(blockers, rest, wanted[k].identifier);
    }
  }

  /** Without repeated identifiers all blockers count, as they are. */
  lemma {:induction false} DistinctAreActive(blockers: seq<Blocker>)
    requires Distinct(blockers)
    ensures Active(blockers) == blockers
  {
    if blockers != [] {
      var before, last := blockers[..|blockers| - 1], blockers[|blockers| - 1];
      DistinctAreActive(before);
      assert forall j :: 0 <= j < |before| ==> before[j] == blockers[j];
      NewEntry(before, last, 0);
      assert blockers == before + [last];
    }
  }

  lemma {:induction false} NewEntry(active: seq<Blocker>, b: Blocker, k: nat)
    requires Distinct(active) && k <= |active| && forall j :: 0 <= j < |active| ==> active[j].identifier != b.identifier
    ensures Entered(active, b, k) == active + [b]
    decreases |active| - k
  {
    if k < |active| {
      NewEntry(active, b, k + 1);
    }
  }

  /** The issue is open, labelled, and says what the blocker says. */
  predicate Says(issue: Issue, b: Blocker, rest: Renderer) {
    && issue.open && issue.labelled && issue.title == "[" + b.identifier + "] " + b.title
    && issue.body == "<!-- agent-room-go-no-go:" + b.identifier + " -->" + rest(b)
  }

  predicate SaysSomewhere(issues: seq<Issue>, b: Blocker, rest: Renderer) {
    exists i :: 0 <= i < |issues| && Says(issues[i], b, rest)
  }

  /** Each blocker that counts is said by some issue. */
  predicate AllSaid(issues: seq<Issue>, blockers: seq<Blocker>, rest: Renderer) {
    forall k :: 0 <= k < |Active(blockers)| ==> SaysSomewhere(issues, Active(blockers)[k], rest)
  }

  /** Where everything wanted is tracked, each blocker is said. */
  lemma TrackedSays(issues: seq<Issue>, active: seq<Blocker>, wanted: seq<Wanted>, rest: Renderer)
    requires |wanted| == |active| && forall k :: 0 <= k < |active| ==> wanted[k] == Want(active[k], rest)
    requires forall k :: 0 <= k < |wanted| ==> Tracked(issues, wanted[k])
    ensures forall k :: 0 <= k < |active| ==> SaysSomewhere(issues, active[k], rest)
  {
    forall k | 0 <= k < |active| ensures SaysSomewhere(issues, active[k], rest) {
      assert Tracked(issues, wanted[k]);
      var i :| 0 <= i < |issues| && UpToDate(issues[i], wanted[k]);
      assert Says(issues[i], active[k], rest);
    }
  }

  /** `synchronize` from the blockers themselves. */
  method Synchronize(tracker: Tracker, blockers: seq<Blocker>, rest: Renderer) returns (o: Outcome)
    modifies tracker
    ensures var h := Beyond(|old(tracker.All())|);
            Outline(old(tracker.All()), tracker.All(), h, WantAll(blockers, rest), o)
    ensures var h := Beyond(|old(tracker.All())|);
            Standing(old(tracker.All())[h..], WantAll(blockers, rest)) ==> tracker.churn == old(tracker.churn)
    ensures o.Done? && (forall b :: b in blockers ==> IsIdentifier(b.identifier)) ==>
              AllSaid(tracker.All()[Beyond(|old(tracker.All())|)..], blockers, rest)
  {
    var wanted := WantAll(blockers, rest);
    ghost var h := Beyond(|tracker.All()|);
    o := SynchronizeWanted(tracker, wanted);
    WellFormedWhen(blockers, rest);
    if o.Done? && WellFormed(wanted) {
      TrackedSays(tracker.All()[h..], Active(blockers), wanted, rest);
    }
  }

  // ---------------------------------------------------------------- listings that show everything, or not

  /** No blocker has an issue that the listing does not show. */
  predicate NoneHidden(hidden: seq<Issue>, wanted: seq<Wanted>) {
    forall i :: 0 <= i < |hidden| && Mark(hidden[i]).Some? ==> !IsWanted(Mark(hidden[i]).value, wanted)
  }

  /** The first h issues are hidden from a run, which goes well among the others. */
  predicate SoundBeyond(all: seq<Issue>, after: seq<Issue>, h: nat, wanted: seq<Wanted>) {
    h <= |all| <= |after| && after[..h] == all[..h] && Sound(all[h..], after[h..], wanted)
  }

  /** Over all issues, at whatever point a run ends: nothing is doubled if no blocker has a hidden issue. */
  lemma {:induction false} NothingDoubled(all: seq<Issue>, after: seq<Issue>, h: nat, wanted: seq<Wanted>)
    requires SoundBeyond(all, after, h, wanted) && MarkedOnce(all) && NoneHidden(all[..h], wanted)
    ensures MarkedOnce(after)
  {
    forall i, j | 0 <= i < j < |after| && Mark(after[i]).Some? ensures Mark(after[i]) != Mark(after[j]) {
      if h <= i {
        assert Mark(after[h..][i - h]) != Mark(after[h..][j - h]);
      } else {
        assert after[i] == after[..h][i] == all[..h][i];
        if j < h {
          assert after[j] == after[..h][j] == all[..h][j];
        } else if j < |all| {
          assert Mark(after[h..][j - h]) == Mark(all[h..][j - h]);
        } else {
          assert IsWanted(Mark(after[h..][j - h]).value, wanted);
        }
      }
    }
  }

  /** And if one has, a complete run ends with two issues for it. */
  lemma HiddenIsDoubled(all: seq<Issue>, after: seq<Issue>, h: nat, w: Wanted, i: nat)
    requires i < h <= |all| <= |after| && after[..h] == all[..h]
    requires Mark(all[i]) == Some(w.identifier) == Marker(w.body) && Tracked(after[h..], w)
    ensures !MarkedOnce(after)
  {
    var listed := after[h..];
    var j :| 0 <= j < |listed| && UpToDate(listed[j], w);
    assert listed[j] == after[h + j];
    assert after[i] == after[..h][i] == all[..h][i] == all[i];
    assert Mark(after[h + j]) == Mark(after[i]);
  }

  /** So a complete run keeps issues unique exactly when no blocker has a hidden issue. */
  lemma {:induction false} DoubledExactlyWhenHidden(all: seq<Issue>, after: seq<Issue>, h: nat, wanted: seq<Wanted>)
    requires Consistent(wanted) && MarkedOnce(all)
    requires SoundBeyond(all, after, h, wanted) && Converged(after[h..], wanted)
    ensures MarkedOnce(after) <==> NoneHidden(all[..h], wanted)
  {
    if NoneHidden(all[..h], wanted) {
      NothingDoubled(all, after, h, wanted);
    } else {
      var i: nat :| i < h && Mark(all[..h][i]).Some? && IsWanted(Mark(all[..h][i]).value, wanted);
      var k: nat :| k < |wanted| && wanted[k].identifier == Mark(all[..h][i]).value;
      HiddenIsDoubled(all, after, h, wanted[k], i);
    }
  }

  /** Unmarked issues are untouched over all issues, listed or not. */
  lemma AllRespected(all: seq<Issue>, after: seq<Issue>, h: nat, wanted: seq<Wanted>, o: Outcome)
    requires Outline(all, after, h, wanted, o)
    ensures Respects(all, after)
  {
    forall i | 0 <= i < |all| ensures Mark(after[i]) == Mark(all[i]) && (Mark(all[i]).None? ==> after[i] == all[i]) {
      if i < h {
        assert after[i] == after[..h][i] == all[..h][i];
      } else if MarkedOnce(all[h..]) {
        assert Mark(after[h..][i - h]) == Mark(all[h..][i - h]);
      }
    }
  }

  predicate AllWellFormed(runs: seq<(seq<Blocker>, Renderer)>) {
    forall k, b :: 0 <= k < |runs| && b in runs[k].0 ==> IsIdentifier(b.identifier)
  }

  function WantedLast(runs: seq<(seq<Blocker>, Renderer)>): seq<Wanted>
    requires runs != []
  {
    WantAll(runs[|runs| - 1].0, runs[|runs| - 1].1)
  }

  lemma RespectsFurther(a: seq<Issue>, b: seq<Issue>, c: seq<Issue>)
    requires Respects(a, b) && Respects(b, c)
    ensures Respects(a, c)
  {
  }

  /**
    Any number of interrupted runs, for any blockers, and one complete run for the last ones: unmarked issues are
    untouched, and, as long as a listing shows all issues and all identifiers are well-formed, nothing is doubled and
    the last run converges.
   */
  method Operate(tracker: Tracker, runs: seq<(seq<Blocker>, Renderer)>) returns (o: Outcome)
    requires MarkedOnce(tracker.All())
    modifies tracker
    ensures Respects(old(tracker.All()), tracker.All())
    ensures |tracker.All()| <= LIST_LIMIT && AllWellFormed(runs) ==>
              && MarkedOnce(tracker.All())
              && (o.Done? && runs != [] ==> Converged(tracker.All(), WantedLast(runs)))
  {
    o := Done;
    for k := 0 to |runs|
      invariant Respects(old(tracker.All()), tracker.All())
      invariant |tracker.All()| <= LIST_LIMIT && AllWellFormed(runs) ==>
                  && MarkedOnce(tracker.All())
                  && (o.Done? && k > 0 ==> Converged(tracker.All(), WantedLast(runs[..k])))
    {
      ghost var all := tracker.All();
      ghost var wanted := WantAll(runs[k].0, runs[k].1);
      o := Synchronize(tracker, runs[k].0, runs[k].1);
      AllRespected(all, tracker.All(), Beyond(|all|), wanted, o);
      RespectsFurther(old(tracker.All()), all, tracker.All());
      if |tracker.All()| <= LIST_LIMIT && AllWellFormed(runs) {
        WellFormedWhen(runs[k].0, runs[k].1);
        assert all[0..] == all && tracker.All()[0..] == tracker.All();
        NothingDoubled(all, tracker.All(), 0, wanted);
      }
    }
    assert runs[..|runs|] == runs;
  }

  // ---------------------------------------------------------------- the same run again

  /**
    Once every identifier that can be a mark is one, which a complete run achieves, the next run for the same blockers
    creates exactly the issues of the other identifiers: none exactly when all are well-formed.
   */
  lemma {:induction false} NextRunCreates(now: seq<Issue>, wanted: seq<Wanted>)
    requires HasMarks(now, wanted)
    ensures Missing(now, wanted) == Unmarkable(wanted)
    ensures Missing(now, wanted) == [] <==> WellFormed(wanted)
  {
    assert wanted[..|wanted|] == wanted;
    OnlyUnmarkableMissing(now, wanted, |wanted|);
    NothingUnmarkable(wanted);
  }

  /** After one complete run and n more. */
  predicate Repeated(before: seq<Issue>, now: seq<Issue>, wanted: seq<Wanted>, n: nat) {
    HasMarks(now, wanted) && |now| == |before| + |Missing(before, wanted)| + n * |Unmarkable(wanted)|
  }

  lemma RunAgain(before: seq<Issue>, now: seq<Issue>, after: seq<Issue>, wanted: seq<Wanted>, n: nat)
    requires Repeated(before, now, wanted, n) && Added(now, after, wanted, |wanted|)
    ensures Repeated(before, after, wanted, n + 1)
  {
    assert wanted[..|wanted|] == wanted;
    NextRunCreates(now, wanted);
    assert (n + 1) * |Unmarkable(wanted)| == n * |Unmarkable(wanted)| + |Unmarkable(wanted)|;
  }

  lemma OneIssueEach(before: seq<Issue>, now: seq<Issue>, blockers: seq<Blocker>, rest: Renderer, more: nat)
    requires Repeated(before, now, WantAll(blockers, rest), more) && more > 0
    ensures |now| == |before| + |Missing(before, WantAll(blockers, rest))|
       <==> forall b :: b in blockers ==> IsIdentifier(b.identifier)
  {
    var wanted := WantAll(blockers, rest);
    NothingUnmarkable(wanted);
    WellFormedWhen(blockers, rest);
    SomeMore(more, |Unmarkable(wanted)|);
  }

  lemma SomeMore(more: nat, each: nat)
    requires more > 0
    ensures more * each == 0 <==> each == 0
  {
  }

  lemma FirstRun(before: seq<Issue>, now: seq<Issue>, wanted: seq<Wanted>)
    requires Added(before, now, wanted, |wanted|)
    ensures Repeated(before, now, wanted, 0)
  {
    assert wanted[..|wanted|] == wanted;
  }

  /** One run, of which only what it adds matters. */
  method RunOnce(tracker: Tracker, blockers: seq<Blocker>, rest: Renderer) returns (o: Outcome)
    modifies tracker
    ensures |old(tracker.All())| <= |tracker.All()|
    ensures o.Done? && |tracker.All()| <= LIST_LIMIT ==>
              var wanted := WantAll(blockers, rest); Added(old(tracker.All()), tracker.All(), wanted, |wanted|)
  {
    ghost var before := tracker.All();
    o := Synchronize(tracker, blockers, rest);
    assert before[0..] == before && tracker.All()[0..] == tracker.All();
  }

  /**
    Complete runs for the same blockers, while a listing shows all issues: the first one creates the missing issues,
    and each further one a new issue for each blocker whose identifier is not well-formed. So there stays one issue
    for each blocker exactly when all identifiers are well-formed.
   */
  method Repeat(tracker: Tracker, blockers: seq<Blocker>, rest: Renderer, more: nat) returns (o: Outcome)
    modifies tracker
    ensures |old(tracker.All())| <= |tracker.All()|
    ensures o.Done? && |tracker.All()| <= LIST_LIMIT ==>
              var wanted := WantAll(blockers, rest);
              && Repeated(old(tracker.All()), tracker.All(), wanted, more)
              && (more > 0 ==>
                    (|tracker.All()| == |old(tracker.All())| + |Missing(old(tracker.All()), wanted)|
                     <==> forall b :: b in blockers ==> IsIdentifier(b.identifier)))
  {
    ghost var before, wanted := tracker.All(), WantAll(blockers, rest);
    o := RunOnce(tracker, blockers, rest);
    if o.Done? && |tracker.All()| <= LIST_LIMIT {
      FirstRun(before, tracker.All(), wanted);
    }
    for k := 0 to more
      invariant |before| <= |tracker.All()|
      invariant o.Done? && |tracker.All()| <= LIST_LIMIT ==> Repeated(before, tracker.All(), wanted, k)
    {
      if o.Stopped? {
        return;
      }
      ghost var now := tracker.All();
      o := RunOnce(tracker, blockers, rest);
      if o.Done? && |tracker.All()| <= LIST_LIMIT {
        RunAgain(before, now, tracker.All(), wanted, k);
      }
    }
    if o.Done? && |tracker.All()| <= LIST_LIMIT && more > 0 {
      OneIssueEach(before, tracker.All(), blockers, rest, more);
    }
  }
}
