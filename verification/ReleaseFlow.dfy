/**
  The resumable release command.

  Three stores: the memory of the running process (class `ReleaseFlow`), the checkpoint file
  (`World.disk`, replaced atomically) and the remote side (`World.runs`, `World.assets`).
  Every save and every remote request is one atomic step of class `World`, and every such step
  may end the process just before or just after its effect, which covers a crash between any two
  steps, a request that fails, and a request that takes effect while its answer is lost.
  `World.log` records the steps that took effect, over all processes that ever used the checkpoint.

  Module `ReleaseLog` says which steps may follow which, and what that means for whole logs; the methods
  here show that the command takes lawful steps only.
 */
module ReleaseFlow {
  import opened ReleaseLog
  import opened Wrappers

  /** How a call ends: normally, with the `Waiting` exception, or with the end of the process. */
  datatype GateOutcome = Done | Waiting(pollable: bool) | Stopped {
    predicate IsFailure() {
      !Done?
    }

    function PropagateFailure(): GateOutcome
      requires IsFailure()
    {
      this
    }
  }

  // ---------------------------------------------------------------- the world outside the process

  datatype ReleaseState = Absent | Draft | Public

  /** A release does not disappear, and does not become a draft again. */
  predicate ReleaseAdvanced(a: ReleaseState, b: ReleaseState) {
    (a.Draft? ==> !b.Absent?) && (a.Public? ==> b.Public?)
  }

  /** Runs may appear and progress, but the identity of a run never changes. */
  predicate SameIdentity(a: Run, b: Run) {
    && a.workflow == b.workflow && a.title == b.title && a.headSha == b.headSha
    && a.headBranch == b.headBranch && a.byDispatch == b.byDispatch
  }

  predicate AssetsKept(a: map<AssetName, string>, b: map<AssetName, string>) {
    forall name :: name in a ==> name in b && b[name] == a[name]
  }

  /** Every locked run id names a run of the right workflow, branch, revision and operation title. */
  predicate IdsNamed(c: Checkpoint, runs: map<int, Run>) {
    forall w :: w in c.runs && c.runs[w].id.Some? ==>
      && c.runs[w].id.value in runs
      && Belongs(runs[c.runs[w].id.value], w, c.runs[w].operation, c.plan)
  }

  class World {
    var disk: Option<Checkpoint>
    var runs: map<int, Run>
    var branches: map<Branch, string>
    var assets: map<AssetName, string>
    var release: ReleaseState
    var channel: Option<string>
    var promoted: bool  // the compatible-server record lies beside the candidate
    ghost var log: seq<Event>

    ghost predicate Valid()
      reads this
    {
      && Lawful(log) && disk == Disk(log)
      && (disk.Some? ==> IdsNamed(disk.value, runs))
      && AssetsKept(Uploaded(log), assets)
    }

    twostate predicate Grew()
      reads this
    {
      old(log) <= log && AssetsKept(old(assets), assets)
    }

    constructor ()
      ensures Valid() && log == [] && disk == None && runs == map[] && assets == map[]
    {
      disk, runs, branches, assets, release, channel := None, map[], map[], map[], Absent, None;
      promoted, log := false, [];
    }

    /** Others start and finish runs, move branches, add assets and publish; they never alter what exists. */
    method OthersAct()
      requires Valid()
      modifies this
      ensures Valid() && Grew() && log == old(log) && disk == old(disk)
      ensures ReleaseAdvanced(old(release), release)
    {
      var n: int := *;
      while 0 < n
        invariant Valid() && Grew() && log == old(log) && disk == old(disk)
        invariant ReleaseAdvanced(old(release), release)
        decreases n
      {
        SomeoneActs();
        n := n - 1;
      }
    }

    method SomeoneActs()
      requires Valid()
      modifies this
      ensures Valid() && Grew() && log == old(log) && disk == old(disk)
      ensures ReleaseAdvanced(old(release), release)
    {
      if * {
        var id: int := *;
        var run: Run := *;
        if id !in runs || SameIdentity(runs[id], run) {
          runs := runs[id := run];
        }
      } else if * {
        var name: AssetName := *;
        var digest: string := *;
        if name !in assets {
          assets := assets[name := digest];
        }
      } else if * {
        var branch: Branch := *;
        var head: string := *;
        branches := branches[branch := head];
      } else if * {
        release := if release.Absent? then Draft else Public;
      } else if * {
        channel := *;
      } else {
        promoted := true;
      }
    }

    /** Writes the checkpoint file: the replacement happens or does not, and the process may end around it. */
    method Save(c: Checkpoint) returns (o: GateOutcome)
      requires Valid() && Permitted(log, Saved(c)) && IdsNamed(c, runs)
      modifies this
      ensures Valid() && Grew() && !o.Waiting?
      ensures runs == old(runs) && assets == old(assets) && branches == old(branches) && release == old(release)
      ensures log == old(log) || log == old(log) + [Saved(c)]
      ensures o.Done? ==> log == old(log) + [Saved(c)] && disk == Some(c)
      ensures Requests(log) == old(Requests(log)) && Uploaded(log) == old(Uploaded(log))
    {
      if * {
        return Stopped;
      }
      Extend(log, Saved(c));
      disk := Some(c);
      log := log + [Saved(c)];
      if * {
        return Stopped;
      }
      return Done;
    }

    /** Records a fact that was read; it changes nothing outside. */
    ghost method Note(e: Event)
      requires Valid() && Permitted(log, e) && !e.Saved? && !e.AssetUploaded?
      requires e.RefChecked? ==> e.ref in branches && branches[e.ref] == e.revision
      requires e.RunSucceeded? || e.RunFailed? || e.ArchiveChosen? ==> e.id in runs && runs[e.id] == e.run
      requires e.PromotionVerified? ==> promoted
      requires e.PublicConfirmed? ==>
                 && release.Public? && SignedManifest in assets && assets[SignedManifest] == e.published
                 && channel == Some(e.channel)
      modifies this`log
      ensures Valid() && log == old(log) + [e]
      ensures Requests(log) == old(Requests(log)) + if e.Requested? then 1 else 0
      ensures Uploaded(log) == old(Uploaded(log))
    {
      Extend(log, e);
      log := log + [e];
    }

    /** `gh workflow run`: the request may be lost, refused, or take effect with its answer lost. */
    method Request(w: Workflow, operation: string, ref: Branch) returns (o: GateOutcome)
      requires Valid() && Permitted(log, Requested(w, operation, ref))
      modifies this
      ensures Valid() && Grew() && !o.Waiting? && disk == old(disk)
      ensures log == old(log) || log == old(log) + [Requested(w, operation, ref)]
      ensures o.Done? ==> log == old(log) + [Requested(w, operation, ref)]
    {
      if * {
        return Stopped;
      }
      Note(Requested(w, operation, ref));
      if * {
        return Stopped;
      }
      var id: int := *;
      if id !in runs && ref in branches {
        runs := runs[id := Run(w, OperationTitle(operation), branches[ref], ref, true, false, false, {})];
      }
      if * {
        return Stopped;
      }
      return Done;
    }

    /** `gh run list`: any of the matching runs, since listing may lag behind. */
    method ListRuns(w: Workflow, branch: Branch, revision: string) returns (o: GateOutcome, rows: seq<int>)
      ensures !o.Waiting?
      ensures forall k :: 0 <= k < |rows| ==>
                && rows[k] in runs && runs[rows[k]].workflow == w && runs[rows[k]].byDispatch
                && runs[rows[k]].headBranch == branch && runs[rows[k]].headSha == revision
    {
      rows := [];
      var n: int := *;
      while 0 < n
        invariant forall k :: 0 <= k < |rows| ==>
                    && rows[k] in runs && runs[rows[k]].workflow == w && runs[rows[k]].byDispatch
                    && runs[rows[k]].headBranch == branch && runs[rows[k]].headSha == revision
        decreases n
      {
        var id: int := *;
        if id in runs && id !in rows && runs[id].workflow == w && runs[id].byDispatch
           && runs[id].headBranch == branch && runs[id].headSha == revision {
          rows := rows + [id];
        }
        n := n - 1;
      }
      if * {
        return Stopped, rows;
      }
      return Done, rows;
    }

    /** A check made by another tool, or a read whose content is not modelled: it passes or ends the process. */
    method Check() returns (o: GateOutcome)
      ensures !o.Waiting?
    {
      if * {
        return Stopped;
      }
      return Done;
    }

    /** `gh release upload`: refused when the name exists. */
    method UploadAsset(f: LocalFile) returns (o: GateOutcome)
      requires Valid()
      modifies this
      ensures Valid() && Grew() && !o.Waiting? && disk == old(disk)
      ensures log == old(log) || (log == old(log) + [AssetUploaded(f)] && f.name !in old(assets))
      ensures release == old(release)
      ensures o.Done? ==> f.name in assets && assets[f.name] == f.digest
      ensures Requests(log) == old(Requests(log))
    {
      if f.name in assets {
        return Stopped;
      }
      if * {
        return Stopped;
      }
      Extend(log, AssetUploaded(f));
      log := log + [AssetUploaded(f)];
      assets := assets[f.name := f.digest];
      if * {
        return Stopped;
      }
      return Done;
    }

    /** Creates a branch; refused when it exists. */
    method CreateBranch(branch: Branch, revision: string) returns (o: GateOutcome)
      requires Valid()
      modifies this
      ensures Valid() && Grew() && !o.Waiting? && disk == old(disk) && log == old(log)
      ensures o.Done? ==> branch in branches && branches[branch] == revision
      ensures branches == old(branches) || (branch !in old(branches) && branches == old(branches)[branch := revision])
    {
      if branch in branches {
        return Stopped;
      }
      if * {
        return Stopped;
      }
      branches := branches[branch := revision];
      if * {
        return Stopped;
      }
      return Done;
    }

    /** One inspection of the candidate directory. */
    method Inspect(inspection: Inspection) returns (o: GateOutcome)
      requires Valid()
      modifies this`log
      ensures Valid() && !o.Waiting?
      ensures log == if o.Done? then old(log) + [Inspected(inspection)] else old(log)
      ensures Requests(log) == old(Requests(log)) && Uploaded(log) == old(Uploaded(log))
    {
      if * {
        return Stopped;
      }
      Note(Inspected(inspection));
      return Done;
    }

    /** `gh release create --draft`. */
    method CreateDraft() returns (o: GateOutcome)
      requires Valid() && Permitted(log, DraftCreated)
      modifies this
      ensures Valid() && Grew() && !o.Waiting? && disk == old(disk) && runs == old(runs)
      ensures log == old(log) || (log == old(log) + [DraftCreated] && old(release).Absent?)
      ensures o.Done? ==> release.Draft?
      ensures Requests(log) == old(Requests(log))
    {
      if !release.Absent? {
        return Stopped;
      }
      if * {
        return Stopped;
      }
      release := Draft;
      Note(DraftCreated);
      if * {
        return Stopped;
      }
      return Done;
    }

    /** Runs the deployment command; it may have run to any point when the process ends. */
    method Deploy(web: bool, manifest: string) returns (o: GateOutcome)
      requires Valid() && Permitted(log, DeployRequested(web, manifest))
      modifies this`log, this`promoted
      ensures Valid() && !o.Waiting? && old(log) <= log
      ensures o.Done? ==> log == old(log) + [DeployRequested(web, manifest), DeployCompleted(web, manifest)]
      ensures o.Done? && !web ==> promoted
    {
      if * {
        return Stopped;
      }
      CompletionMayFollow(log, web, manifest);
      Note(DeployRequested(web, manifest));
      if * {
        return Stopped;
      }
      promoted := promoted || !web;  // the server phase ends with its record
      Note(DeployCompleted(web, manifest));
      return Done;
    }
  }

  // ---------------------------------------------------------------- the command

  /** `completed_run`: what the view of a run means for the gate that waits for it. */
  function CompletedRun(run: Run, revision: string, required: set<Job>, branch: Branch): GateOutcome {
    if run.headSha != revision || run.headBranch != branch then Stopped
    else if !run.completed then Waiting(true)
    else if !run.success then Waiting(false)
    else if !(required <= run.successfulJobs) then Stopped
    else Done
  }

  /** What each verdict on a run means. */
  lemma VerdictMeans(run: Run, revision: string, required: set<Job>, branch: Branch)
    ensures var verdict := CompletedRun(run, revision, required, branch);
            && (verdict.Done? <==> && run.headSha == revision && run.headBranch == branch
                                   && run.completed && run.success && required <= run.successfulJobs)
            && (verdict == Waiting(true) <==>
                  run.headSha == revision && run.headBranch == branch && !run.completed)
            && (verdict == Waiting(false) <==>
                  run.headSha == revision && run.headBranch == branch && run.completed && !run.success)
  {
  }

  /** A recovered candidate is only verified again; for another one the archive of this run is chosen first. */
  predicate Revalidated(before: seq<Event>, now: seq<Event>, id: int, recovered: Option<int>) {
    if recovered == Some(id) then Uploaded(now) == Uploaded(before)
    else |now| > |before| && now[|before|].ArchiveChosen? && now[|before|].id == id
  }

  /**
    A look at the locked run that lets its gate pass: it succeeded, or it is a candidate run that ended without
    success, no other run was requested, and its candidate stands.
   */
  predicate Examined(before: seq<Event>, now: seq<Event>, w: Workflow, id: int, recovered: Option<int>) {
    && |before| < |now|
    && var e := now[|before|];
       || (e.RunSucceeded? && e.workflow == w && e.id == id)
       || (&& w.CandidateWorkflow? && e.RunFailed? && e.id == id && Requests(now) == Requests(before)
           && Revalidated(now[..|before| + 1], now, id, recovered))
  }

  /** The ids matched are those listed with the title of the operation. */
  ghost predicate Matches(matched: seq<int>, listing: map<int, Run>, operation: string) {
    forall id :: id in matched <==> id in listing && listing[id].title == OperationTitle(operation)
  }

  class ReleaseFlow {
    const world: World
    var state: Checkpoint
    var completed: set<Gate>
    ghost var passed: seq<Gate>  // the gates that returned normally, in order
    ghost var marks: seq<nat>    // where in the log the gate with the same index starts
    ghost const start: nat       // where in the log this process starts

    /** Memory and disk agree: true whenever control is outside a step that is about to save. */
    ghost predicate InSync()
      reads this, world
    {
      world.Valid() && world.disk == Some(state)
    }

    ghost predicate GatesShown()
      reads this, world
    {
      AllShown(passed, marks, world.log) && marks[0] == start && (forall g :: g in completed <==> g in passed)
    }

    /** What every call keeps: unless the process ended, memory is in sync and the plan is the same. */
    twostate predicate Kept(o: GateOutcome)
      reads this, world
    {
      && world.Valid() && world.Grew()
      && (!o.Stopped? ==> InSync() && state.plan == old(state.plan))
    }

    constructor (world: World, state: Checkpoint)
      requires world.Valid() && world.disk == Some(state)
      ensures this.world == world && this.state == state && completed == {} && passed == []
      ensures InSync() && GatesShown() && start == |world.log|
    {
      this.world, this.state, completed := world, state, {};
      passed, marks, start := [], [|world.log|], |world.log|;
    }

    method Save() returns (o: GateOutcome)
      requires world.Valid() && Permitted(world.log, Saved(state)) && IdsNamed(state, world.runs)
      modifies world
      ensures Kept(o) && !o.Waiting? && world.runs == old(world.runs)
      ensures world.branches == old(world.branches) && world.release == old(world.release)
      ensures o.Done? ==> world.log == old(world.log) + [Saved(state)]
      ensures Requests(world.log) == old(Requests(world.log))
      ensures Uploaded(world.log) == old(Uploaded(world.log))
    {
      o := world.Save(state);
    }

    /** Writes one run entry to memory and disk. */
    method SaveEntry(w: Workflow, entry: Entry) returns (o: GateOutcome)
      requires InSync() && (w in state.runs ==> EntryAdvances(state.runs[w], entry))
      requires entry.id.Some? ==>
                 && entry.id.value in world.runs
                 && Belongs(world.runs[entry.id.value], w, entry.operation, state.plan)
      modifies this`state, world
      ensures Kept(o) && !o.Waiting? && world.branches == old(world.branches)
      ensures state == old(state).(runs := old(state).runs[w := entry])
      ensures o.Done? ==> world.log == old(world.log) + [Saved(state)]
    {
      state := state.(runs := state.runs[w := entry]);
      o := Save();
    }

    /** `workflow`: finds, or starts exactly once, the run of this operation and looks at its result. */
    method RunWorkflow(w: Workflow) returns (o: GateOutcome)
      requires InSync() && state.stage == At(GateOf(w))
      modifies this`state, world
      ensures Kept(o)
      ensures o.Done? ==> Shown(GateOf(w), world.log, |old(world.log)|, |world.log|)
    {
      if w !in state.runs {
        var operation: string := *;
        :- SaveEntry(w, Entry(operation, false, None));
      }
      if state.runs[w].id.None? {
        var located;
        ghost var listing, matched;
        located, listing, matched := LocateOrRequest(w);
        :- located;
      }
      o := ExamineRun(w);
    }

    /** The second half of `workflow`: reads the locked run; a failed candidate may be recovered. */
    method ExamineRun(w: Workflow) returns (o: GateOutcome)
      requires InSync() && w in state.runs && state.runs[w].id.Some? && state.stage == At(GateOf(w))
      modifies this`state, world
      ensures Kept(o)
      ensures o.Done? ==> Shown(GateOf(w), world.log, |old(world.log)|, |world.log|)
      ensures o.Done? ==>
                Examined(old(world.log), world.log, w, old(state).runs[w].id.value, old(state).recovered)
      ensures old(state).runs[w].id.value <= 0 ==> o.Stopped?
      // The command polls on only for a run of the locked revision that has not ended yet.
      ensures o == Waiting(true) ==>
                var id := old(state).runs[w].id.value;
                && world.log == old(world.log) && id in world.runs && !world.runs[id].completed
                && world.runs[id].headSha == state.plan.revision
      ensures o == Waiting(false) && world.log == old(world.log) ==>
                var id := old(state).runs[w].id.value;
                id in world.runs && world.runs[id].completed && !world.runs[id].success
    {
      var id := state.runs[w].id.value;
      if id <= 0 {
        return Stopped;
      }
      world.OthersAct();
      :- world.Check();
      var run := world.runs[id];
      var verdict := CompletedRun(run, state.plan.revision, RequiredJobs(w), DispatchBranch(w, state.plan));
      if verdict.Waiting? && w == CandidateWorkflow && run.completed && !run.success {
        o := ReplaceFailedRun(id, run);
        return;
      }
      :- verdict;
      world.Note(RunSucceeded(w, id, run));
      assert ShowsAt(world.log, |world.log| - 1, GateOf(w));
      return Done;
    }

    /** The candidate run ended without success: its candidate is verified again or recovered, or nothing is done. */
    method ReplaceFailedRun(id: int, run: Run) returns (o: GateOutcome)
      requires InSync() && state.stage == At(SignedCandidate)
      requires CandidateWorkflow in state.runs && state.runs[CandidateWorkflow].id == Some(id)
      requires id in world.runs && world.runs[id] == run && run.completed && !run.success
      modifies this`state, world
      ensures Kept(o) && o != Waiting(true) && (o == Waiting(false) ==> world.log != old(world.log))
      ensures o.Done? ==> Shown(SignedCandidate, world.log, |old(world.log)|, |world.log|)
      ensures o.Done? ==> Examined(old(world.log), world.log, CandidateWorkflow, id, old(state).recovered)
    {
      ghost var before := world.log;
      world.Note(RunFailed(id, run));
      ghost var noted := world.log;
      o := RevalidateCandidate(id);
      if o.Done? {
        assert world.log[..|before| + 1] == noted;
        ghost var i :| |noted| <= i < |world.log| && ShowsAt(world.log, i, SignedCandidate);
        assert |before| <= i;
      }
    }

    /** Verifies the recovered candidate again, or recovers it from the archive of its run. */
    method RevalidateCandidate(id: int) returns (o: GateOutcome)
      requires InSync() && state.stage == At(SignedCandidate)
      modifies this`state, world
      ensures Kept(o) && o != Waiting(true)
      ensures o.Done? ==> Shown(SignedCandidate, world.log, |old(world.log)|, |world.log|)
      ensures Requests(world.log) == old(Requests(world.log))
      ensures o.Done? ==> Revalidated(old(world.log), world.log, id, old(state).recovered)
    {
      if state.recovered == Some(id) {
        :- InspectCandidate();
        assert ShowsAt(world.log, |world.log| - 2, SignedCandidate);
        return Done;
      }
      o := RecoverCandidate(id);
    }

    method LocateOrRequest(w: Workflow) returns (o: GateOutcome, ghost listing: map<int, Run>, ghost matched: seq<int>)
      requires InSync() && w in state.runs && state.runs[w].id.None? && state.stage == At(GateOf(w))
      modifies this`state, world
      ensures Kept(o)
      ensures Matches(matched, listing, old(state).runs[w].operation)
      ensures o.Done? ==> |matched| == 1 && w in state.runs && state.runs[w].id == Some(matched[0])
      ensures o.Done? ==> state.stage == old(state.stage)
      ensures |matched| > 1 ==> o.Stopped? && world.log == old(world.log)
      ensures matched == [] && old(state).runs[w].dispatched ==>
                (o.Stopped? || o == Waiting(false)) && world.log == old(world.log)
    {
      var entry := state.runs[w];
      world.OthersAct();
      var found;
      o, found, listing := FindRuns(w, entry.operation);
      matched := found;
      if !o.Done? {
        return Stopped, map[], [];
      }
      if |found| > 1 {
        o := Stopped;
      } else if |found| == 1 {
        o := SaveEntry(w, entry.(id := Some(found[0])));
      } else if entry.dispatched {
        o := Waiting(false);
      } else {
        o := RequestRun(w);
      }
    }

    /** Every listed run that carries the operation title, and no other one. */
    method FindRuns(w: Workflow, operation: string)
      returns (o: GateOutcome, matched: seq<int>, ghost listing: map<int, Run>)
      requires InSync()
      ensures !o.Waiting?
      ensures forall m :: 0 <= m < |matched| ==>
                matched[m] in world.runs && Belongs(world.runs[matched[m]], w, operation, state.plan)
      ensures forall id :: id in listing ==> id in world.runs && listing[id] == world.runs[id]
      ensures o.Done? ==> Matches(matched, listing, operation)
    {
      matched := [];
      var listed, rows := world.ListRuns(w, DispatchBranch(w, state.plan), state.plan.revision);
      listing := map id | id in rows :: world.runs[id];
      if !listed.Done? {
        return listed, [], listing;
      }
      for k := 0 to |rows|
        invariant forall m :: 0 <= m < |matched| ==>
                    matched[m] in world.runs && Belongs(world.runs[matched[m]], w, operation, state.plan)
        invariant forall id :: id in matched <==> id in rows[..k] && world.runs[id].title == OperationTitle(operation)
      {
        assert rows[..k + 1] == rows[..k] + [rows[k]];
        if world.runs[rows[k]].title == OperationTitle(operation) {
          matched := matched + [rows[k]];
        }
      }
      assert rows[..|rows|] == rows;
      return Done, matched, listing;
    }

    /** The only place that starts a run: check the ref, save the intent, then request. */
    method RequestRun(w: Workflow) returns (o: GateOutcome)
      requires InSync() && w in state.runs && state.runs[w].id.None? && !state.runs[w].dispatched
      requires state.stage == At(GateOf(w))
      modifies this`state, world
      ensures Kept(o) && !o.Done?
      ensures o.Waiting? ==>
                && o == Waiting(true) && |world.log| > |old(world.log)|
                && world.log[|world.log| - 1]
                   == Requested(w, old(state).runs[w].operation, DispatchBranch(w, state.plan))
                && OnItsBranch(DispatchBranch(w, state.plan), w, state.plan.tag)
    {
      var entry := state.runs[w];
      var pinned := CheckRef(w);
      :- pinned;
      ghost var checked := world.log;
      :- SaveEntry(w, entry.(dispatched := true));
      assert world.log[..|world.log| - 1] == checked;
      :- world.Request(w, entry.operation, DispatchBranch(w, state.plan));
      return Waiting(true);
    }

    /** The ref of the request points at the locked revision. */
    method CheckRef(w: Workflow) returns (o: GateOutcome)
      requires InSync()
      modifies world
      ensures Kept(o) && !o.Waiting?
      ensures o.Done? ==> world.log == old(world.log) + [RefChecked(DispatchBranch(w, state.plan), state.plan.revision)]
    {
      if w == PublishWorkflow {
        o := PinReleaseBranch(DispatchBranch(w, state.plan));
      } else {
        o := CheckMain();
      }
    }

    method CheckMain() returns (o: GateOutcome)
      requires InSync()
      modifies world
      ensures Kept(o) && !o.Waiting?
      ensures o.Done? ==> world.log == old(world.log) + [RefChecked(Main, state.plan.revision)]
    {
      world.OthersAct();
      if Main !in world.branches || world.branches[Main] != state.plan.revision {
        return Stopped;
      }
      world.Note(RefChecked(Main, state.plan.revision));
      return Done;
    }

    /** `pin_release_branch`: creates the branch or accepts it as it stands; never moves it. */
    method PinReleaseBranch(branch: Branch) returns (o: GateOutcome)
      requires InSync()
      modifies world
      ensures Kept(o) && !o.Waiting?
      ensures o.Done? ==> world.log == old(world.log) + [RefChecked(branch, state.plan.revision)]
    {
      var onMain := world.Check();  // the revision is on main
      :- onMain;
      :- world.Check();  // no workflow file changed on main since
      world.OthersAct();
      if branch !in world.branches {
        :- world.CreateBranch(branch, state.plan.revision);
      } else if world.branches[branch] != state.plan.revision {
        return Stopped;
      }
      :- world.Check();  // the branch is protected
      world.Note(RefChecked(branch, state.plan.revision));
      return Done;
    }

    /** `attach_run`: locks a run that the operator names, under the same identity checks. */
    method AttachRun(w: Workflow, id: int) returns (o: GateOutcome)
      requires InSync()
      modifies this`state, world
      ensures Kept(o) && !o.Waiting?
      ensures o.Done? ==> w in state.runs && state.runs[w].id == Some(id)
      ensures o.Done? ==>
                id in world.runs && IsOurs(world.runs[id], w, state.runs[w].operation, state.plan)
    {
      world.OthersAct();
      :- world.Check();
      if w !in state.runs || id !in world.runs || !Belongs(world.runs[id], w, state.runs[w].operation, state.plan) {
        return Stopped;
      }
      if state.runs[w].id.Some? && state.runs[w].id.value != id {
        return Stopped;
      }
      o := SaveEntry(w, state.runs[w].(id := Some(id)));
    }

    /** `verify_candidate`. */
    method InspectCandidate() returns (o: GateOutcome)
      requires InSync() && state.stage in {At(SignedCandidate), At(VerifyCandidate)}
      modifies this`state, world
      ensures Kept(o) && !o.Waiting?
      ensures o.Done? ==> state.(signed := None) == old(state).(signed := None)
      ensures o.Done? ==>
                && state.signed.Some? && |world.log| >= |old(world.log)| + 2
                && world.log[|world.log| - 2] == CandidateVerified(state.signed.value)
                && world.log[|world.log| - 1] == Saved(state)
      ensures Requests(world.log) == old(Requests(world.log))
      ensures Uploaded(world.log) == old(Uploaded(world.log))
    {
      var verified, digest := VerifyFiles();
      :- verified;
      o := LockDigest(digest);
    }

    /** The inspections, and their conclusion. */
    method VerifyFiles() returns (o: GateOutcome, digest: string)
      requires InSync() && state.stage in {At(SignedCandidate), At(VerifyCandidate)}
      modifies world`log
      ensures Kept(o) && !o.Waiting?
      ensures o.Done? ==>
                && |world.log| > |old(world.log)| && world.log[|world.log| - 1] == CandidateVerified(digest)
                && (state.signed.Some? ==> state.signed.value == digest)
      ensures Requests(world.log) == old(Requests(world.log))
      ensures Uploaded(world.log) == old(Uploaded(world.log))
    {
      o, digest := PassInspections();
      if o.Done? {
        world.Note(CandidateVerified(digest));
      }
    }

    /** Locks the digest of the candidate that was verified just now. */
    method LockDigest(digest: string) returns (o: GateOutcome)
      requires InSync() && (state.signed.Some? ==> state.signed.value == digest)
      requires world.log != [] && world.log[|world.log| - 1] == CandidateVerified(digest)
      modifies this`state, world
      ensures Kept(o) && !o.Waiting?
      ensures state == old(state).(signed := Some(digest))
      ensures o.Done? ==> world.log == old(world.log) + [Saved(state)]
      ensures Requests(world.log) == old(Requests(world.log))
      ensures Uploaded(world.log) == old(Uploaded(world.log))
    {
      state := state.(signed := Some(digest));
      o := Save();
    }

    /** The inspections in their order; the digest is read, and compared with the locked one, among them. */
    method PassInspections() returns (o: GateOutcome, digest: string)
      requires InSync()
      modifies world`log
      ensures world.Valid() && old(world.log) <= world.log && !o.Waiting?
      ensures o.Done? ==> JustInspected(world.log) && (state.signed.Some? ==> state.signed.value == digest)
      ensures Disk(world.log) == old(Disk(world.log))
      ensures Requests(world.log) == old(Requests(world.log))
      ensures Uploaded(world.log) == old(Uploaded(world.log))
    {
      digest := "";
      o := FirstInspections();
      if o.Stopped? {
        return;
      }
      digest := *;  // of the signed manifest, as it is read now
      if state.signed.Some? && state.signed.value != digest {
        return Stopped, digest;
      }
      o := LastInspections();
    }

    method FirstInspections() returns (o: GateOutcome)
      requires InSync()
      modifies world`log
      ensures world.Valid() && old(world.log) <= world.log && !o.Waiting?
      ensures o.Done? ==> world.log == old(world.log) + [Inspected(Metadata), Inspected(TrustedKey)]
      ensures Requests(world.log) == old(Requests(world.log))
      ensures Uploaded(world.log) == old(Uploaded(world.log))
    {
      o := world.Inspect(Metadata);
      if o.Done? {
        o := world.Inspect(TrustedKey);
      }
    }

    method LastInspections() returns (o: GateOutcome)
      requires InSync() && |world.log| >= 2
      requires world.log[|world.log| - 2] == Inspected(Metadata) && world.log[|world.log| - 1] == Inspected(TrustedKey)
      modifies world`log
      ensures world.Valid() && old(world.log) <= world.log && !o.Waiting?
      ensures o.Done? ==> JustInspected(world.log)
      ensures Requests(world.log) == old(Requests(world.log))
      ensures Uploaded(world.log) == old(Uploaded(world.log))
    {
      o := world.Inspect(ReleaseProfile);
      if o.Done? {
        o := world.Inspect(SignedRelease);
      }
      if o.Done? {
        o := world.Inspect(NativeReceipts);
      }
    }

    /** Accepts only a finished candidate run of the locked revision on main. */
    method ChooseArchive(id: int) returns (o: GateOutcome)
      requires InSync() && state.stage == At(SignedCandidate)
      modifies world
      ensures Kept(o) && !o.Waiting?
      ensures o.Done? ==> id in world.runs && world.log == old(world.log) + [ArchiveChosen(id, world.runs[id])]
      ensures Requests(world.log) == old(Requests(world.log))
    {
      world.OthersAct();
      if id !in world.runs || world.runs[id].headSha != state.plan.revision || world.runs[id].headBranch != Main
         || !world.runs[id].byDispatch || !world.runs[id].completed || world.runs[id].workflow != CandidateWorkflow {
        return Stopped;
      }
      world.Note(ArchiveChosen(id, world.runs[id]));
      return Done;
    }

    /** `recover_candidate`: only the archived candidate, inspected again; nothing is dispatched or signed. */
    method RecoverCandidate(id: int) returns (o: GateOutcome)
      requires InSync() && state.stage == At(SignedCandidate)
      modifies this`state, world
      ensures Kept(o) && o != Waiting(true)
      ensures o.Done? ==>
                && state.downloaded && state.recovered == Some(id) && !world.release.Absent?
                && Shown(SignedCandidate, world.log, |old(world.log)|, |world.log|)
                && world.log[|old(world.log)|].ArchiveChosen? && world.log[|old(world.log)|].id == id
      ensures Requests(world.log) == old(Requests(world.log))
    {
      var chosen := ChooseArchive(id);
      :- chosen;
      :- world.Check();  // the complete inventory of archives
      if * {
        return Waiting(false);
      }
      if !state.downloaded {
        :- world.Check();  // download of the archive
      }
      :- InspectCandidate();
      ghost var seen := |world.log| - 2;
      :- CompleteRecovery(id);
      assert ShowsAt(world.log, seen, SignedCandidate);
      return Done;
    }

    /** The draft first, then the record. */
    method CompleteRecovery(id: int) returns (o: GateOutcome)
      requires InSync() && state.stage == At(SignedCandidate)
      modifies this`state, world
      ensures Kept(o) && !o.Waiting?
      ensures o.Done? ==> state.downloaded && state.recovered == Some(id) && !world.release.Absent?
      ensures Requests(world.log) == old(Requests(world.log))
    {
      var restored := RestoreDraft();
      :- restored;
      o := RecordRecovery(id);
    }

    method RecordRecovery(id: int) returns (o: GateOutcome)
      requires InSync()
      modifies this`state, world
      ensures Kept(o) && !o.Waiting? && state.downloaded && state.recovered == Some(id)
      ensures Requests(world.log) == old(Requests(world.log))
      ensures world.release == old(world.release)
    {
      state := state.(downloaded := true, recovered := Some(id));
      o := Save();
    }

    /** Creates the draft unless it exists, refuses a public release, and adds the missing assets. */
    method RestoreDraft() returns (o: GateOutcome)
      requires InSync() && state.stage == At(SignedCandidate)
      modifies world
      ensures Kept(o) && !o.Waiting?
      ensures o.Done? ==> !world.release.Absent?
      ensures old(world.release).Public? ==> o.Stopped? && world.log == old(world.log)
      ensures Requests(world.log) == old(Requests(world.log))
    {
      world.OthersAct();
      :- world.Check();  // the complete list of releases
      if world.release.Public? {
        return Stopped;
      }
      if world.release.Absent? {
        :- world.CreateDraft();
      }
      var files: seq<LocalFile> := *;
      o := Upload(files);
    }

    /** `upload`: leaves every file in the release with its local content, and alters no asset. */
    method Upload(files: seq<LocalFile>) returns (o: GateOutcome)
      requires InSync()
      modifies world
      ensures Kept(o) && !o.Waiting?
      ensures ReleaseAdvanced(old(world.release), world.release)
      ensures o.Done? ==> forall k :: 0 <= k < |files| ==>
                files[k].name in world.assets && world.assets[files[k].name] == files[k].digest
      ensures (forall k :: 0 <= k < |files| ==>
                 files[k].name in old(world.assets) && old(world.assets)[files[k].name] == files[k].digest)
              ==> world.log == old(world.log)
      ensures Requests(world.log) == old(Requests(world.log))
    {
      world.OthersAct();
      :- world.Check();
      var known := world.assets;
      for k := 0 to |files|
        invariant Kept(Done) && state == old(state) && AssetsKept(known, world.assets)
        invariant ReleaseAdvanced(old(world.release), world.release)
        invariant Requests(world.log) == old(Requests(world.log))
        invariant forall m :: 0 <= m < k ==>
                    files[m].name in world.assets && world.assets[files[m].name] == files[m].digest
        invariant (forall m :: 0 <= m < k ==> files[m].name in known) ==> world.log == old(world.log)
      {
        if files[k].name in known {
          // The digest shown by the listing decides, or a download when it does not match.
          :- world.Check();
          if world.assets[files[k].name] != files[k].digest {
            return Stopped;
          }
        } else {
          :- world.UploadAsset(files[k]);
        }
      }
      return Done;
    }

    method Deploy(web: bool) returns (o: GateOutcome)
      requires InSync() && state.stage == At(if web then WebDeployment else CompatibleServer)
      modifies world
      ensures Kept(o) && o != Waiting(true)
      ensures !state.plan.deployable ==> o == Waiting(false) && world.log == old(world.log)
      ensures o.Done? ==>
                && |world.log| > |old(world.log)| && state.signed.Some?
                && world.log[|world.log| - 1] == DeployCompleted(web, state.signed.value)
      ensures o.Done? && !web ==> world.promoted
    {
      if !state.plan.deployable {
        return Waiting(false);
      }
      if state.signed.None? {
        return Stopped;
      }
      o := world.Deploy(web, state.signed.value);
    }

    /** One gate. Waiting may be resumed; a normal return leaves its evidence in the log. */
    method Perform(gate: Gate) returns (o: GateOutcome)
      requires InSync() && state.stage == At(gate)
      modifies this`state, world
      ensures Kept(o)
      ensures o.Done? ==> Shown(gate, world.log, |old(world.log)|, |world.log|)
      // Only a run that has not ended yet is worth another look by itself.
      ensures o == Waiting(true) ==> gate in {FullCi, SignedCandidate, Publication}
    {
      match gate
      case FullCi => o := RunWorkflow(CiWorkflow);
      case SignedCandidate => o := RunWorkflow(CandidateWorkflow);
      case DownloadCandidate =>
        if !state.downloaded {
          :- world.Check();
          state := state.(downloaded := true);
          :- Save();
          assert ShowsAt(world.log, |world.log| - 1, gate);
        } else {
          DownloadIsOnRecord(world.log);
        }
        return Done;
      case VerifyCandidate =>
        :- InspectCandidate();
        assert ShowsAt(world.log, |world.log| - 2, gate);
        return Done;
      case CompatibleServer => o := RequireCompatibleServer();
      case Usability => o := RequireUsability();
      case Publication => o := RunWorkflow(PublishWorkflow);
      case ChannelCheck => o := RequirePublication();
      case WebDeployment =>
        :- Deploy(true);
        assert ShowsAt(world.log, |world.log| - 1, gate);
        return Done;
    }

    /** `compatible_server`. */
    method RequireCompatibleServer() returns (o: GateOutcome)
      requires InSync() && state.stage == At(CompatibleServer)
      modifies world
      ensures Kept(o) && o != Waiting(true)
      ensures o.Done? ==> Shown(CompatibleServer, world.log, |old(world.log)|, |world.log|)
    {
      if !world.promoted {
        var deployed := Deploy(false);
        :- deployed;
      }
      :- world.Check();  // the compatible-server record and its evidence
      ghost var seen := |world.log|;
      world.Note(PromotionVerified);
      var files: seq<LocalFile> := *;
      :- Upload(files);
      assert ShowsAt(world.log, seen, CompatibleServer);
      return Done;
    }

    /** `acceptance`. */
    method RequireUsability() returns (o: GateOutcome)
      requires InSync() && state.stage == At(Usability)
      modifies world
      ensures Kept(o) && o != Waiting(true)
      ensures o.Done? ==> Shown(Usability, world.log, |old(world.log)|, |world.log|)
    {
      if * {
        return Waiting(false);
      }
      ghost var seen := |world.log|;
      world.Note(UsabilityVerified);
      var files: seq<LocalFile> := *;
      :- Upload(files);
      assert ShowsAt(world.log, seen, Usability);
      return Done;
    }

    /** `verify_publication`. */
    method RequirePublication() returns (o: GateOutcome)
      requires InSync() && state.stage == At(ChannelCheck)
      modifies world
      ensures Kept(o) && o != Waiting(true)
      ensures o.Done? ==> Shown(ChannelCheck, world.log, |old(world.log)|, |world.log|)
    {
      world.OthersAct();
      if !world.release.Public? {
        return Waiting(false);
      }
      :- world.Check();
      if SignedManifest !in world.assets || state.signed != Some(world.assets[SignedManifest])
         || world.channel != state.signed {
        return Stopped;
      }
      world.Note(PublicConfirmed(world.assets[SignedManifest], world.channel.value));
      assert ShowsAt(world.log, |world.log| - 1, ChannelCheck);
      return Done;
    }

    /** Writes the next stage down; a stage that is written down already costs no save. */
    method EnterStage(stage: Stage) returns (o: GateOutcome)
      requires InSync() && Earned(stage, state.plan.profile, world.log)
      modifies this`state, world
      ensures Kept(o) && !o.Waiting?
      ensures o.Done? ==> state == old(state).(stage := stage)
      ensures old(state).stage == stage ==> world.log == old(world.log)
    {
      if state.stage != stage {
        state := state.(stage := stage);
        :- Save();
      }
      return Done;
    }

    /** Writes the stage of the gate down, then performs the gate, from an index of the log on. */
    method EnterAndPerform(gate: Gate) returns (o: GateOutcome, ghost from: nat)
      requires InSync() && Earned(At(gate), state.plan.profile, world.log)
      modifies this`state, world
      ensures Kept(o)
      ensures o.Done? ==> |old(world.log)| <= from <= |world.log| && Shown(gate, world.log, from, |world.log|)
    {
      o := EnterStage(At(gate));
      from := |world.log|;
      if o.Done? {
        o := Perform(gate);
      }
    }

    /** `step`: a gate that returned normally in this process is not repeated. */
    method Step(gate: Gate) returns (o: GateOutcome)
      requires InSync() && GatesShown() && gate in Gates(state.plan.profile)
      requires gate in passed || passed == GatesBefore(At(gate), state.plan.profile)
      modifies this, world
      ensures Kept(o) && (!o.Stopped? ==> GatesShown())
      ensures o.Done? ==> passed == old(passed) + if gate in old(passed) then [] else [gate]
      ensures o.Waiting? ==> passed == old(passed)
      ensures gate in old(passed) ==> o.Done? && world.log == old(world.log)
    {
      if gate in completed {
        return Done;
      }
      EarnedBy(passed, marks, At(gate), state.plan.profile, world.log);
      ghost var from;
      o, from := EnterAndPerform(gate);
      StillShown(passed, marks, old(world.log), world.log);
      :- o;
      OneMoreShown(passed, marks, old(world.log), world.log, from, gate);
      completed := completed + {gate};
      passed := passed + [gate];
      marks := marks + [|world.log|];
      return Done;
    }

    /** One line of `advance`. */
    method StepAt(k: nat) returns (o: GateOutcome)
      requires InSync() && GatesShown() && k < |Gates(state.plan.profile)|
      requires passed <= Gates(state.plan.profile) && k <= |passed|
      modifies this, world
      ensures Kept(o)
      ensures !o.Stopped? ==> GatesShown() && passed <= Gates(state.plan.profile)
      ensures o.Done? ==> k < |passed|
    {
      var gates := Gates(state.plan.profile);
      GatesInOrder(state.plan.profile, k);
      o := Step(gates[k]);
    }

    /**
      `advance`: it reports completion only when every gate of the profile returned normally in this
      process, one after another in list order.
     */
    method Advance() returns (o: GateOutcome)
      requires InSync() && GatesShown() && passed <= Gates(state.plan.profile)
      modifies this, world
      ensures Kept(o)
      ensures !o.Stopped? ==> GatesShown() && passed <= Gates(state.plan.profile)
      ensures o.Done? ==> passed == Gates(state.plan.profile) && state.stage == Finished
    {
      var clean := world.Check();  // the locked revision is checked out and clean
      :- clean;
      var gates := Gates(state.plan.profile);
      for k := 0 to |gates|
        invariant Kept(Done) && GatesShown()
        invariant passed <= gates && k <= |passed|
      {
        :- StepAt(k);
      }
      o := Finish();
    }

    method Finish() returns (o: GateOutcome)
      requires InSync() && GatesShown() && passed == Gates(state.plan.profile)
      modifies this`state, world
      ensures Kept(o) && GatesShown()
      ensures o.Done? ==> state.stage == Finished
    {
      EarnedBy(passed, marks, Finished, state.plan.profile, world.log);
      o := EnterStage(Finished);
      StillShown(passed, marks, old(world.log), world.log);
    }
  }

  /** The polling loop of one process. */
  method Poll(flow: ReleaseFlow, watch: bool, polls: nat) returns (o: GateOutcome)
    requires flow.InSync() && flow.GatesShown() && flow.passed == []
    modifies flow, flow.world
    ensures flow.world.Valid() && flow.world.Grew()
    ensures o.Done? ==>
              && flow.world.disk.Some? && flow.world.disk.value.plan == old(flow.state.plan)
              && flow.world.disk.value.stage == Finished
              && Complete(old(flow.state.plan.profile), flow.world.log, flow.start)
  {
    for k := 0 to polls
      invariant flow.InSync() && flow.GatesShown() && flow.world.Grew() && flow.state.plan == old(flow.state.plan)
      invariant flow.passed <= Gates(flow.state.plan.profile)
    {
      o := flow.Advance();
      if !watch || o != Waiting(true) {
        assert o.Done? ==> AllShown(Gates(flow.state.plan.profile), flow.marks, flow.world.log);
        return;
      }
    }
    return Stopped;
  }

  /** The named runs are the locked ones. */
  predicate Attached(c: Checkpoint, attach: seq<(Workflow, int)>) {
    forall k :: 0 <= k < |attach| ==> attach[k].0 in c.runs && c.runs[attach[k].0].id == Some(attach[k].1)
  }

  /** A locked run stays locked, so what is attached stays attached. */
  lemma StillAttached(c: Checkpoint, later: Checkpoint, attach: seq<(Workflow, int)>)
    requires Advances(c, later) && Attached(c, attach)
    ensures Attached(later, attach)
  {
  }

  lemma DiskAdvanced(log: seq<Event>, later: seq<Event>)
    requires Lawful(later) && log <= later && Disk(log).Some?
    ensures Disk(later).Some? && Advances(Disk(log).value, Disk(later).value)
  {
    assert later[..|log|] == log && later[..|later|] == later;
    DiskAdvances(later, |log|, |later|);
  }

  /** Every run that the operator names is attached, or the process ends. */
  method AttachAll(flow: ReleaseFlow, attach: seq<(Workflow, int)>) returns (o: GateOutcome)
    requires flow.InSync() && flow.GatesShown()
    modifies flow`state, flow.world
    ensures flow.world.Valid() && flow.world.Grew()
    ensures o.Done? ==> flow.InSync() && flow.GatesShown() && flow.state.plan == old(flow.state.plan)
    ensures o.Done? ==> Attached(flow.state, attach)
  {
    for k := 0 to |attach|
      invariant flow.InSync() && flow.world.Grew() && flow.state.plan == old(flow.state.plan)
      invariant Attached(flow.state, attach[..k])
    {
      ghost var before, c := flow.world.log, flow.state;
      :- flow.AttachRun(attach[k].0, attach[k].1);
      DiskAdvanced(before, flow.world.log);
      StillAttached(c, flow.state, attach[..k]);
    }
    assert attach[..|attach|] == attach;
    StillShown(flow.passed, flow.marks, old(flow.world.log), flow.world.log);
    return Done;
  }

  /** One process: resume or create the checkpoint, attach runs, advance, and poll while asked to. */
  method Invoke(world: World, plan: Plan, attach: seq<(Workflow, int)>, watch: bool, polls: nat)
    returns (o: GateOutcome)
    requires world.Valid()
    modifies world
    ensures world.Valid() && world.Grew()
    ensures old(world.disk).Some? && old(world.disk).value.plan != plan ==>
              o.Stopped? && world.log == old(world.log) && world.disk == old(world.disk)
    ensures o.Done? ==>
              && world.disk.Some? && world.disk.value.plan == plan && world.disk.value.stage == Finished
              && Complete(plan.profile, world.log, |old(world.log)|)
              && Attached(world.disk.value, attach)
  {
    if world.disk.Some? && world.disk.value.plan != plan {
      return Stopped;  // the locked inputs cannot change on resumption
    }
    if world.disk.None? {
      :- world.Save(Fresh(plan));
    }
    var flow := new ReleaseFlow(world, world.disk.value);
    :- AttachAll(flow, attach);
    ghost var before, c := world.log, flow.state;
    o := Poll(flow, watch, polls);
    DiskAdvanced(before, world.log);
    StillAttached(c, world.disk.value, attach);
    if o.Done? {
      CompleteEarlier(plan.profile, world.log, flow.start, |old(world.log)|);
    }
  }

  /** Any number of processes, one after another, each ending wherever it ends. */
  method Operate(world: World, invocations: nat)
    requires world.Valid()
    modifies world
    ensures world.Valid() && world.Grew()
  {
    for k := 0 to invocations
      invariant world.Valid() && world.Grew()
    {
      world.OthersAct();
      var plan: Plan := *;
      var attach: seq<(Workflow, int)> := *;
      var watch: bool := *;
      var polls: int := *;
      var o := Invoke(world, plan, attach, watch, if polls < 0 then 0 else polls);
    }
  }
}
