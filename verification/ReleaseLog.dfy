/**
  What the resumable release command may do, over all processes that ever use one checkpoint.

  `Lawful` states, step by step, what a log of steps that took effect may contain. The lemmas at its side draw the
  consequences for whole logs, without a look at the command.
 */
module ReleaseLog {
  import opened Wrappers

  // ---------------------------------------------------------------- values

  datatype Workflow = CiWorkflow | CandidateWorkflow | PublishWorkflow

  datatype Profile = Client | Full

  datatype Gate =
    | FullCi | SignedCandidate | DownloadCandidate | VerifyCandidate | CompatibleServer
    | Usability | Publication | ChannelCheck | WebDeployment

  datatype Stage = NotStarted | At(gate: Gate) | Finished

  /** The inputs locked by the first invocation. */
  datatype Plan = Plan(revision: string, tag: string, profile: Profile, deployable: bool)

  datatype Entry = Entry(operation: string, dispatched: bool, id: Option<int>)

  datatype Checkpoint = Checkpoint(
    plan: Plan,
    stage: Stage,
    runs: map<Workflow, Entry>,
    downloaded: bool,
    recovered: Option<int>,
    signed: Option<string>)

  /** A branch name; `release/<tag>` is spelled `ReleaseBranch(tag)`. */
  datatype Branch = Main | ReleaseBranch(tag: string) | OtherBranch(name: string)

  /** A run title; `release-flow:<operation>` is spelled `OperationTitle(operation)`. */
  datatype Title = OperationTitle(operation: string) | OtherTitle(text: string)

  /** The required jobs of the full CI run, and any other job. */
  datatype Job =
    | FormatTypesTests | WindowsClientChecks | MacosClientChecks | WebBrowserAcceptance | SupplyChain
    | WebLogin | ProtocolIntegration | AgentImageAcceptance | HeadlessAcceptance | OtherJob(name: string)

  datatype Run = Run(
    workflow: Workflow, title: Title, headSha: string, headBranch: Branch, byDispatch: bool,
    completed: bool, success: bool, successfulJobs: set<Job>)

  /** The inspections of a downloaded candidate, in the order in which they run. */
  datatype Inspection = Metadata | TrustedKey | ReleaseProfile | SignedRelease | NativeReceipts

  datatype AssetName = SignedManifest | Named(name: string)

  datatype LocalFile = LocalFile(name: AssetName, digest: string)

  const CI_JOBS: set<Job> := {
    FormatTypesTests, WindowsClientChecks, MacosClientChecks, WebBrowserAcceptance, SupplyChain, WebLogin,
    ProtocolIntegration, AgentImageAcceptance, HeadlessAcceptance}

  function RequiredJobs(w: Workflow): set<Job> {
    if w == CiWorkflow then CI_JOBS else {}
  }

  function DispatchBranch(w: Workflow, plan: Plan): Branch {
    if w == PublishWorkflow then ReleaseBranch(plan.tag) else Main
  }

  function Fresh(plan: Plan): Checkpoint {
    Checkpoint(plan, NotStarted, map[], false, None, None)
  }

  /** The run carries the operation title, workflow, branch and revision of the entry. */
  predicate Belongs(run: Run, w: Workflow, operation: string, plan: Plan) {
    && run.workflow == w && run.title == OperationTitle(operation)
    && run.headSha == plan.revision && run.headBranch == DispatchBranch(w, plan) && run.byDispatch
  }

  // ---------------------------------------------------------------- what a log may contain

  datatype Event =
    | Saved(checkpoint: Checkpoint)
    | RefChecked(ref: Branch, revision: string)
    | Requested(workflow: Workflow, operation: string, ref: Branch)
    | RunSucceeded(workflow: Workflow, id: int, run: Run)
    | RunFailed(id: int, run: Run)
    | ArchiveChosen(id: int, run: Run)
    | Inspected(inspection: Inspection)
    | CandidateVerified(digest: string)
    | DraftCreated
    | AssetUploaded(file: LocalFile)
    | DeployRequested(web: bool, manifest: string)
    | DeployCompleted(web: bool, manifest: string)
    | PromotionVerified
    | UsabilityVerified
    | PublicConfirmed(published: string, channel: string)

  /** All inspections passed, in order and just now. */
  predicate JustInspected(log: seq<Event>) {
    var n := |log|;
    && n >= 5
    && log[n - 5] == Inspected(Metadata) && log[n - 4] == Inspected(TrustedKey)
    && log[n - 3] == Inspected(ReleaseProfile) && log[n - 2] == Inspected(SignedRelease)
    && log[n - 1] == Inspected(NativeReceipts)
  }

  /** The checkpoint file after the events of `log`. */
  function Disk(log: seq<Event>): Option<Checkpoint> {
    if log == [] then None
    else
      var last := log[|log| - 1];
      if last.Saved? then Some(last.checkpoint) else Disk(log[..|log| - 1])
  }

  /** The assets that uploads of this log put into the release. */
  function Uploaded(log: seq<Event>): map<AssetName, string> {
    if log == [] then map[]
    else
      var before := Uploaded(log[..|log| - 1]);
      var last := log[|log| - 1];
      if last.AssetUploaded? then before[last.file.name := last.file.digest] else before
  }

  /** How many runs were requested. */
  function Requests(log: seq<Event>): nat {
    if log == [] then 0
    else (if log[|log| - 1].Requested? then 1 else 0) + Requests(log[..|log| - 1])
  }

  predicate EntryAdvances(a: Entry, b: Entry) {
    && a.operation == b.operation
    && (a.dispatched ==> b.dispatched)
    && (a.id.Some? ==> b.id == a.id)
  }

  /** The gates of a release, in their order. */
  function Gates(profile: Profile): seq<Gate> {
    [FullCi, SignedCandidate, DownloadCandidate, VerifyCandidate, CompatibleServer, Usability, Publication,
     ChannelCheck] + if profile == Full then [WebDeployment] else []
  }

  /** The place of a gate among all gates. */
  function Place(gate: Gate): nat {
    match gate
    case FullCi => 0
    case SignedCandidate => 1
    case DownloadCandidate => 2
    case VerifyCandidate => 3
    case CompatibleServer => 4
    case Usability => 5
    case Publication => 6
    case ChannelCheck => 7
    case WebDeployment => 8
  }

  /** The gates that come before a stage. */
  function GatesBefore(stage: Stage, profile: Profile): seq<Gate> {
    match stage
    case NotStarted => []
    case At(gate) => Gates(Full)[..Place(gate)]
    case Finished => Gates(profile)
  }

  lemma GatesInOrder(profile: Profile, k: nat)
    requires k < |Gates(profile)|
    ensures Place(Gates(profile)[k]) == k && Gates(profile)[k] !in Gates(profile)[..k]
    ensures GatesBefore(At(Gates(profile)[k]), profile) == Gates(profile)[..k]
  {
  }

  /** The event that lets a gate return normally. */
  predicate Shows(e: Event, gate: Gate) {
    match gate
    case FullCi => e.RunSucceeded? && e.workflow == CiWorkflow
    case SignedCandidate => (e.RunSucceeded? && e.workflow == CandidateWorkflow) || e.CandidateVerified?
    case DownloadCandidate => e.Saved? && e.checkpoint.downloaded
    case VerifyCandidate => e.CandidateVerified?
    case CompatibleServer => e.PromotionVerified?
    case Usability => e.UsabilityVerified?
    case Publication => e.RunSucceeded? && e.workflow == PublishWorkflow
    case ChannelCheck => e.PublicConfirmed?
    case WebDeployment => e.DeployCompleted? && e.web
  }

  function GateOf(w: Workflow): Gate {
    match w
    case CiWorkflow => FullCi
    case CandidateWorkflow => SignedCandidate
    case PublishWorkflow => Publication
  }

  /** An event that shows a gate; for a verification, the save that locks the verified digest comes with it. */
  predicate ShowsAt(log: seq<Event>, i: nat, gate: Gate)
    requires i < |log|
  {
    && Shows(log[i], gate)
    && (gate.VerifyCandidate? ==>
          i + 1 < |log| && log[i + 1].Saved? && log[i + 1].checkpoint.signed == Some(log[i].digest))
  }

  /** The gate was shown to hold by an event with an index in `from..to`; a download may be older. */
  ghost predicate Shown(gate: Gate, log: seq<Event>, from: nat, to: nat) {
    exists i :: (if gate.DownloadCandidate? then 0 else from) <= i < to && i < |log| && ShowsAt(log, i, gate)
  }

  /** Each passed gate was shown between its mark and the next one. */
  ghost predicate AllShown(passed: seq<Gate>, marks: seq<nat>, log: seq<Event>) {
    && |marks| == |passed| + 1 && marks[|passed|] <= |log|
    && forall k :: 0 <= k < |passed| ==>
         marks[k] <= marks[k + 1] && Shown(passed[k], log, marks[k], marks[k + 1])
  }

  /** The stage belongs to the profile, and all gates before it were shown, one after another. */
  ghost predicate Earned(stage: Stage, profile: Profile, log: seq<Event>) {
    && (stage.At? ==> stage.gate in Gates(profile))
    && exists marks: seq<nat> :: AllShown(GatesBefore(stage, profile), marks, log)
  }

  /** What one checkpoint may become: locked inputs stay, and each write-once field stays once set. */
  predicate Advances(a: Checkpoint, b: Checkpoint) {
    && a.plan == b.plan
    && (forall w :: w in a.runs ==> w in b.runs && EntryAdvances(a.runs[w], b.runs[w]))
    && (a.downloaded ==> b.downloaded)
    && (a.signed.Some? ==> b.signed == a.signed)
  }

  /** The entry of `w` on disk, if any, says that nothing was dispatched. */
  predicate NotDispatched(disk: Option<Checkpoint>, w: Workflow) {
    disk.None? || w !in disk.value.runs || !disk.value.runs[w].dispatched
  }

  predicate MayHold(before: Option<Checkpoint>, c: Checkpoint, last: Option<Event>) {
    match before
    case None => c == Fresh(c.plan)
    case Some(b) =>
      && Advances(b, c)
      // The signed manifest is locked only straight after its verification.
      && (c.signed != b.signed ==> last.Some? && last.value.CandidateVerified? && c.signed == Some(last.value.digest))
  }

  predicate StageIs(disk: Option<Checkpoint>, gate: Gate) {
    disk.Some? && disk.value.stage == At(gate)
  }

  ghost predicate Permitted(log: seq<Event>, e: Event) {
    var disk := Disk(log);
    match e
    case Saved(c) =>
      && MayHold(disk, c, if log == [] then None else Some(log[|log| - 1]))
      // A stage is entered only after the gates before it.
      && (disk.Some? && c.stage != disk.value.stage ==> Earned(c.stage, c.plan.profile, log))
    case Requested(w, operation, ref) =>
      // The ref was checked, then the intent was saved, then the request was issued.
      && |log| >= 2
      && var n := |log|;
      && log[n - 1].Saved? && w in log[n - 1].checkpoint.runs
      && log[n - 1].checkpoint.runs[w] == Entry(operation, true, None)
      && ref == DispatchBranch(w, log[n - 1].checkpoint.plan)
      && log[n - 2] == RefChecked(ref, log[n - 1].checkpoint.plan.revision)
      && NotDispatched(Disk(log[..n - 1]), w) && StageIs(disk, GateOf(w))
    case RunSucceeded(w, id, run) =>
      && StageIs(disk, GateOf(w)) && w in disk.value.runs && disk.value.runs[w].id == Some(id)
      && run.completed && run.success && RequiredJobs(w) <= run.successfulJobs
      && Belongs(run, w, disk.value.runs[w].operation, disk.value.plan)
    case RunFailed(id, run) =>
      // The locked candidate run ended without success.
      && StageIs(disk, SignedCandidate)
      && CandidateWorkflow in disk.value.runs && disk.value.runs[CandidateWorkflow].id == Some(id)
      && run.headSha == disk.value.plan.revision && run.headBranch == Main && run.completed && !run.success
    case ArchiveChosen(id, run) =>
      // Only a finished candidate run of the locked revision on main is recovered.
      && StageIs(disk, SignedCandidate) && run.headSha == disk.value.plan.revision && run.headBranch == Main
      && run.byDispatch && run.completed && run.workflow == CandidateWorkflow
    case CandidateVerified(d) =>
      // A locked digest is not replaced.
      && (StageIs(disk, SignedCandidate) || StageIs(disk, VerifyCandidate))
      && (disk.value.signed.Some? ==> disk.value.signed == Some(d))
      && JustInspected(log)
    case DraftCreated => StageIs(disk, SignedCandidate)
    case PromotionVerified => StageIs(disk, CompatibleServer)
    case UsabilityVerified => StageIs(disk, Usability)
    case DeployRequested(web, d) =>
      && StageIs(disk, if web then WebDeployment else CompatibleServer)
      && disk.value.signed == Some(d) && disk.value.plan.deployable
    case DeployCompleted(web, d) =>
      && disk.Some? && disk.value.signed == Some(d)
      && log != [] && log[|log| - 1] == DeployRequested(web, d)
    case PublicConfirmed(p, c) =>
      StageIs(disk, ChannelCheck) && disk.value.signed == Some(p) && p == c
    case AssetUploaded(f) => f.name !in Uploaded(log)
    case _ => true
  }

  ghost predicate Lawful(log: seq<Event>)
    decreases |log|, 1
  {
    log == [] || LastLawful(log)
  }

  ghost predicate LastLawful(log: seq<Event>)
    requires log != []
    decreases |log|, 0
  {
    Lawful(log[..|log| - 1]) && Permitted(log[..|log| - 1], log[|log| - 1])
  }

  lemma OneMoreEvent(log: seq<Event>, e: Event)
    ensures Disk(log + [e]) == if e.Saved? then Some(e.checkpoint) else Disk(log)
    ensures Uploaded(log + [e])
         == if e.AssetUploaded? then Uploaded(log)[e.file.name := e.file.digest] else Uploaded(log)
    ensures Requests(log + [e]) == Requests(log) + if e.Requested? then 1 else 0
  {
    assert (log + [e])[..|log|] == log;
  }

  lemma StaysLawful(log: seq<Event>, later: seq<Event>)
    requires later != [] && later[..|later| - 1] == log
    requires Lawful(log) && Permitted(log, later[|later| - 1])
    ensures Lawful(later)
  {
    assert LastLawful(later);
  }

  lemma Extend(log: seq<Event>, e: Event)
    requires Lawful(log) && Permitted(log, e)
    ensures Lawful(log + [e])
    ensures Disk(log + [e]) == if e.Saved? then Some(e.checkpoint) else Disk(log)
    ensures Uploaded(log + [e])
         == if e.AssetUploaded? then Uploaded(log)[e.file.name := e.file.digest] else Uploaded(log)
    ensures Requests(log + [e]) == Requests(log) + if e.Requested? then 1 else 0
  {
    assert (log + [e])[..|log|] == log;
    StaysLawful(log, log + [e]);
    OneMoreEvent(log, e);
  }

  lemma CompletionMayFollow(log: seq<Event>, web: bool, manifest: string)
    requires Lawful(log) && Permitted(log, DeployRequested(web, manifest))
    ensures Permitted(log + [DeployRequested(web, manifest)], DeployCompleted(web, manifest))
  {
    Extend(log, DeployRequested(web, manifest));
  }

  lemma {:induction false} LawfulAt(log: seq<Event>, i: nat)
    requires Lawful(log) && i <= |log|
    ensures Lawful(log[..i])
    ensures i < |log| ==> Permitted(log[..i], log[i])
  {
    var n := |log| - 1;
    assert log != [] ==> LastLawful(log);
    if i < n {
      LawfulAt(log[..n], i);
      assert log[..n][..i] == log[..i];
    } else {
      assert log[..|log|] == log;
    }
  }

  // ---------------------------------------------------------------- consequences for whole logs

  lemma DiskStep(log: seq<Event>, i: nat)
    requires i < |log|
    ensures Disk(log[..i + 1]) == if log[i].Saved? then Some(log[i].checkpoint) else Disk(log[..i])
  {
    assert log[..i + 1][..i] == log[..i];
  }

  /** Once written, the checkpoint only advances, across every process that writes it. */
  lemma {:induction false} DiskAdvances(log: seq<Event>, i: nat, j: nat)
    requires Lawful(log) && i <= j <= |log| && Disk(log[..i]).Some?
    ensures Disk(log[..j]).Some? && Advances(Disk(log[..i]).value, Disk(log[..j]).value)
    ensures var (a, b) := (Disk(log[..i]).value, Disk(log[..j]).value);
            && a.plan == b.plan && (a.downloaded ==> b.downloaded) && (a.signed.Some? ==> b.signed == a.signed)
            && forall w :: w in a.runs ==>
                 && w in b.runs && a.runs[w].operation == b.runs[w].operation
                 && (a.runs[w].dispatched ==> b.runs[w].dispatched)
                 && (a.runs[w].id.Some? ==> b.runs[w].id == a.runs[w].id)
    decreases j
  {
    if i < j {
      DiskAdvances(log, i, j - 1);
      DiskStep(log, j - 1);
      LawfulAt(log, j - 1);
    }
  }

  lemma StillShown(passed: seq<Gate>, marks: seq<nat>, log: seq<Event>, later: seq<Event>)
    requires AllShown(passed, marks, log) && log <= later
    ensures AllShown(passed, marks, later)
  {
    forall k | 0 <= k < |passed| ensures Shown(passed[k], later, marks[k], marks[k + 1]) {
      var i :|
        && (if passed[k].DownloadCandidate? then 0 else marks[k]) <= i < marks[k + 1] && i < |log|
        && ShowsAt(log, i, passed[k]);
      assert ShowsAt(later, i, passed[k]);
    }
  }

  lemma EarnedBy(passed: seq<Gate>, marks: seq<nat>, stage: Stage, profile: Profile, log: seq<Event>)
    requires AllShown(passed, marks, log) && passed == GatesBefore(stage, profile)
    requires stage.At? ==> stage.gate in Gates(profile)
    ensures Earned(stage, profile, log)
  {
  }

  lemma StillEarned(stage: Stage, profile: Profile, log: seq<Event>, later: seq<Event>)
    requires Earned(stage, profile, log) && log <= later
    ensures Earned(stage, profile, later)
  {
    var marks: seq<nat> :| AllShown(GatesBefore(stage, profile), marks, log);
    StillShown(GatesBefore(stage, profile), marks, log, later);
  }

  /**
    The stage on disk is true in every log: all gates before it were shown, one after another, and the release
    is called finished only when all gates of its profile were.
   */
  lemma {:induction false} StageIsEarned(log: seq<Event>, k: nat)
    requires Lawful(log) && k <= |log| && Disk(log[..k]).Some?
    ensures Earned(Disk(log[..k]).value.stage, Disk(log[..k]).value.plan.profile, log[..k])
    decreases k
  {
    if k > 0 {
      DiskStep(log, k - 1);
      LawfulAt(log, k - 1);
      var before, now := Disk(log[..k - 1]), Disk(log[..k]);
      if before.None? {
        EarnedBy([], [0], now.value.stage, now.value.plan.profile, log[..k]);
      } else {
        if now.value.stage == before.value.stage {
          StageIsEarned(log, k - 1);
        }
        StillEarned(now.value.stage, now.value.plan.profile, log[..k - 1], log[..k]);
      }
    }
  }

  /** Intent precedes the request: from the save right before it on, the disk says `dispatched`. */
  lemma RequestIsDurable(log: seq<Event>, i: nat, k: nat)
    requires Lawful(log) && i < |log| && log[i].Requested? && i <= k <= |log|
    ensures
      var disk := Disk(log[..k]);
      && disk.Some? && log[i].workflow in disk.value.runs
      && disk.value.runs[log[i].workflow].dispatched
      && disk.value.runs[log[i].workflow].operation == log[i].operation
  {
    LawfulAt(log, i);
    DiskStep(log, i - 1);
    DiskAdvances(log, i, k);
  }

  /** At most one `gh workflow run` per workflow entry, over all invocations, crashes and lost answers. */
  lemma AtMostOneRequest(log: seq<Event>, i: nat, j: nat)
    requires Lawful(log) && i < |log| && j < |log|
    requires log[i].Requested? && log[j].Requested? && log[i].workflow == log[j].workflow
    ensures i == j
  {
    var a, b := if i <= j then i else j, if i <= j then j else i;
    if a < b {
      LawfulAt(log, b);
      assert log[..b][..b - 1] == log[..b - 1];
      if a < b - 1 {
        RequestIsDurable(log, a, b - 1);
      }
    }
  }

  /** The locked run never changes once set. */
  lemma LockedRunNeverChanges(log: seq<Event>, i: nat, j: nat, w: Workflow)
    requires Lawful(log) && i <= j <= |log| && Disk(log[..i]).Some?
    requires w in Disk(log[..i]).value.runs && Disk(log[..i]).value.runs[w].id.Some?
    ensures
      && Disk(log[..j]).Some? && w in Disk(log[..j]).value.runs
      && Disk(log[..j]).value.runs[w].id == Disk(log[..i]).value.runs[w].id
      && Disk(log[..j]).value.runs[w].operation == Disk(log[..i]).value.runs[w].operation
  {
    DiskAdvances(log, i, j);
  }

  /** The manifest digest that an event passes on to a deployment or confirms in public. */
  function Carries(e: Event): Option<string> {
    match e
    case DeployRequested(_, d) => Some(d)
    case DeployCompleted(_, d) => Some(d)
    case PublicConfirmed(d, _) => Some(d)
    case _ => None
  }

  /** A locked digest is the digest of a candidate that passed verification before. */
  lemma {:induction false} LockedDigestWasVerified(log: seq<Event>, k: nat)
    requires Lawful(log) && k <= |log| && Disk(log[..k]).Some? && Disk(log[..k]).value.signed.Some?
    ensures exists v :: 0 <= v < k && log[v] == CandidateVerified(Disk(log[..k]).value.signed.value)
    decreases k
  {
    if k > 0 {
      DiskStep(log, k - 1);
      LawfulAt(log, k - 1);
      var before := Disk(log[..k - 1]);
      if before.Some? && before.value.signed == Disk(log[..k]).value.signed {
        LockedDigestWasVerified(log, k - 1);
      } else if before.Some? {
        assert log[..k - 1][k - 2] == log[k - 2];
      }
    }
  }

  /**
    One digest for the whole release: whatever a deployment receives, and whatever the public
    release and the update channel were confirmed to carry, is one and the same candidate, and that
    candidate was verified before.
   */
  lemma OneDigest(log: seq<Event>, i: nat, j: nat)
    requires Lawful(log) && i <= j < |log| && Carries(log[i]).Some? && Carries(log[j]).Some?
    ensures Carries(log[i]) == Carries(log[j])
    ensures log[j].PublicConfirmed? ==> log[j].channel == log[j].published
    ensures exists v :: 0 <= v < i && log[v] == CandidateVerified(Carries(log[i]).value)
  {
    LawfulAt(log, i);
    LawfulAt(log, j);
    DiskAdvances(log, i, j);
    LockedDigestWasVerified(log, i);
  }

  /** After the digest is locked, only the same candidate can pass verification again. */
  lemma VerifiedAfterLock(log: seq<Event>, i: nat, j: nat)
    requires Lawful(log) && i <= j < |log| && log[j].CandidateVerified?
    requires Disk(log[..i]).Some? && Disk(log[..i]).value.signed.Some?
    ensures log[j].digest == Disk(log[..i]).value.signed.value
  {
    LawfulAt(log, j);
    DiskAdvances(log, i, j);
  }

  lemma SixMore(log: seq<Event>, a: Event, b: Event, c: Event, d: Event, e: Event, f: Event)
    ensures log + [a, b, c, d, e, f] == log + [a] + [b] + [c] + [d] + [e] + [f]
  {
  }

  function Verification(digest: string): seq<Event> {
    [Inspected(Metadata), Inspected(TrustedKey), Inspected(ReleaseProfile), Inspected(SignedRelease),
     Inspected(NativeReceipts), CandidateVerified(digest)]
  }

  lemma OneInspection(log: seq<Event>, inspection: Inspection)
    requires Lawful(log)
    ensures Lawful(log + [Inspected(inspection)]) && Disk(log + [Inspected(inspection)]) == Disk(log)
  {
  }

  lemma VerificationIsLawful(log: seq<Event>, digest: string)
    requires Lawful(log) && StageIs(Disk(log), VerifyCandidate) && Disk(log).value.signed.None?
    ensures Lawful(log + Verification(digest)) && Disk(log + Verification(digest)) == Disk(log)
  {
    var l1 := log + [Inspected(Metadata)];
    var l2 := l1 + [Inspected(TrustedKey)];
    var l3 := l2 + [Inspected(ReleaseProfile)];
    var l4 := l3 + [Inspected(SignedRelease)];
    var l5 := l4 + [Inspected(NativeReceipts)];
    OneInspection(log, Metadata);
    OneInspection(l1, TrustedKey);
    OneInspection(l2, ReleaseProfile);
    OneInspection(l3, SignedRelease);
    OneInspection(l4, NativeReceipts);
    Extend(l5, CandidateVerified(digest));
    SixMore(log, Inspected(Metadata), Inspected(TrustedKey), Inspected(ReleaseProfile), Inspected(SignedRelease),
            Inspected(NativeReceipts), CandidateVerified(digest));
  }

  /** What the next process does before it verifies again: the earlier gates, with the runs that they find. */
  function NextProcess(c: Checkpoint, ci: Run, candidate: Run): seq<Event>
    requires CiWorkflow in c.runs && c.runs[CiWorkflow].id.Some?
    requires CandidateWorkflow in c.runs && c.runs[CandidateWorkflow].id.Some?
  {
    [Saved(c.(stage := At(FullCi))), RunSucceeded(CiWorkflow, c.runs[CiWorkflow].id.value, ci),
     Saved(c.(stage := At(SignedCandidate))),
     RunSucceeded(CandidateWorkflow, c.runs[CandidateWorkflow].id.value, candidate),
     Saved(c.(stage := At(DownloadCandidate))), Saved(c.(stage := At(VerifyCandidate)))]
  }

  /** The locked run of a workflow succeeded. */
  predicate Succeeded(c: Checkpoint, w: Workflow, run: Run) {
    && w in c.runs && c.runs[w].id.Some? && run.completed && run.success && RequiredJobs(w) <= run.successfulJobs
    && Belongs(run, w, c.runs[w].operation, c.plan)
  }

  lemma MarksGrow(passed: seq<Gate>, marks: seq<nat>, log: seq<Event>, j: nat, k: nat)
    requires AllShown(passed, marks, log) && j <= k <= |passed|
    ensures marks[j] <= marks[k]
  {
    if j < k {
      MarksGrow(passed, marks, log, j, k - 1);
    }
  }

  lemma FewerShown(passed: seq<Gate>, marks: seq<nat>, log: seq<Event>, n: nat)
    requires AllShown(passed, marks, log) && n <= |passed|
    ensures AllShown(passed[..n], marks[..n + 1], log)
  {
    MarksGrow(passed, marks, log, n, |passed|);
  }

  lemma FewerOfFewer(gates: seq<Gate>, m: nat, n: nat)
    requires n <= m <= |gates|
    ensures gates[..m][..n] == gates[..n]
  {
  }

  /** A process that comes back to an earlier gate may enter its stage. */
  lemma EarnedEarlier(gate: Gate, earlier: Gate, profile: Profile, log: seq<Event>)
    requires Earned(At(gate), profile, log) && Place(earlier) <= Place(gate) < 8
    ensures Earned(At(earlier), profile, log)
  {
    var passed, n := GatesBefore(At(gate), profile), Place(earlier);
    var marks: seq<nat> :| AllShown(passed, marks, log);
    FewerShown(passed, marks, log, n);
    FewerOfFewer(Gates(Full), Place(gate), n);
    assert earlier == Gates(profile)[n];
    EarnedBy(passed[..n], marks[..n + 1], At(earlier), profile, log);
  }

  lemma NextStage(log: seq<Event>, c: Checkpoint, stage: Stage)
    requires Lawful(log) && Disk(log) == Some(c) && Earned(stage, c.plan.profile, log)
    ensures var next := c.(stage := stage); Lawful(log + [Saved(next)]) && Disk(log + [Saved(next)]) == Some(next)
  {
    Extend(log, Saved(c.(stage := stage)));
  }

  /** One gate of the next process: its stage is entered and its run is found. */
  lemma NextGate(log: seq<Event>, c: Checkpoint, w: Workflow, run: Run)
    requires Lawful(log) && Disk(log) == Some(c) && Earned(At(GateOf(w)), c.plan.profile, log) && Succeeded(c, w, run)
    ensures var next := c.(stage := At(GateOf(w)));
            var later := log + [Saved(next)] + [RunSucceeded(w, c.runs[w].id.value, run)];
            Lawful(later) && Disk(later) == Some(next)
  {
    var next := c.(stage := At(GateOf(w)));
    NextStage(log, c, next.stage);
    Extend(log + [Saved(next)], RunSucceeded(w, c.runs[w].id.value, run));
  }

  lemma EarnedAgain(log: seq<Event>, c: Checkpoint, gate: Gate, later: seq<Event>)
    requires Lawful(log) && StageIs(Disk(log), VerifyCandidate) && Disk(log).value.plan == c.plan
    requires Place(gate) <= Place(VerifyCandidate) && log <= later
    ensures Earned(At(gate), c.plan.profile, later)
  {
    assert log[..|log|] == log;
    StageIsEarned(log, |log|);
    EarnedEarlier(VerifyCandidate, gate, c.plan.profile, log);
    StillEarned(At(gate), c.plan.profile, log, later);
  }

  lemma RunsAreFoundAgain(log: seq<Event>, c: Checkpoint, ci: Run, candidate: Run)
    requires Lawful(log) && Disk(log) == Some(c) && c.stage == At(VerifyCandidate)
    requires Succeeded(c, CiWorkflow, ci) && Succeeded(c, CandidateWorkflow, candidate)
    ensures var c2 := c.(stage := At(SignedCandidate));
            var found := log + [Saved(c.(stage := At(FullCi)))]
                         + [RunSucceeded(CiWorkflow, c.runs[CiWorkflow].id.value, ci)] + [Saved(c2)]
                         + [RunSucceeded(CandidateWorkflow, c.runs[CandidateWorkflow].id.value, candidate)];
            Lawful(found) && Disk(found) == Some(c2)
  {
    var c1 := c.(stage := At(FullCi));
    var l2 := log + [Saved(c1)] + [RunSucceeded(CiWorkflow, c.runs[CiWorkflow].id.value, ci)];
    EarnedAgain(log, c, FullCi, log);
    NextGate(log, c, CiWorkflow, ci);
    EarnedAgain(log, c, SignedCandidate, l2);
    NextGate(l2, c1, CandidateWorkflow, candidate);
  }

  lemma NextProcessIsLawful(log: seq<Event>, c: Checkpoint, ci: Run, candidate: Run)
    requires Lawful(log) && Disk(log) == Some(c) && c.stage == At(VerifyCandidate)
    requires Succeeded(c, CiWorkflow, ci) && Succeeded(c, CandidateWorkflow, candidate)
    ensures Lawful(log + NextProcess(c, ci, candidate)) && Disk(log + NextProcess(c, ci, candidate)) == Some(c)
  {
    var c1, c2, c3 := c.(stage := At(FullCi)), c.(stage := At(SignedCandidate)), c.(stage := At(DownloadCandidate));
    var first := RunSucceeded(CiWorkflow, c.runs[CiWorkflow].id.value, ci);
    var second := RunSucceeded(CandidateWorkflow, c.runs[CandidateWorkflow].id.value, candidate);
    var found := log + [Saved(c1)] + [first] + [Saved(c2)] + [second];
    RunsAreFoundAgain(log, c, ci, candidate);
    EarnedAgain(log, c, DownloadCandidate, found);
    NextStage(found, c2, At(DownloadCandidate));
    EarnedAgain(log, c, VerifyCandidate, found + [Saved(c3)]);
    NextStage(found + [Saved(c3)], c3, At(VerifyCandidate));
    SixMore(log, Saved(c1), first, Saved(c2), second, Saved(c3), Saved(c));
  }

  /**
    `VerifiedAfterLock` needs the lock on disk. From any point at which nothing is locked, a process may verify
    one candidate and end before the save; the next process, going through its gates in their order, may then
    verify any other candidate.
   */
  lemma UnsavedVerificationDoesNotLock(
    log: seq<Event>, c: Checkpoint, ci: Run, candidate: Run, digest: string, other: string)
    requires Lawful(log) && Disk(log) == Some(c)
    requires c.stage == At(VerifyCandidate) && c.downloaded && c.signed.None?
    requires Succeeded(c, CiWorkflow, ci) && Succeeded(c, CandidateWorkflow, candidate)
    ensures Lawful(log + Verification(digest) + NextProcess(c, ci, candidate) + Verification(other))
  {
    VerificationIsLawful(log, digest);
    NextProcessIsLawful(log + Verification(digest), c, ci, candidate);
    VerificationIsLawful(log + Verification(digest) + NextProcess(c, ci, candidate), other);
  }

  lemma OneMoreShown(passed: seq<Gate>, marks: seq<nat>, log: seq<Event>, later: seq<Event>, from: nat, gate: Gate)
    requires AllShown(passed, marks, log) && log <= later && |log| <= from <= |later|
    requires Shown(gate, later, from, |later|)
    ensures AllShown(passed + [gate], marks + [|later|], later)
  {
    StillShown(passed, marks, log, later);
    assert Shown(gate, later, marks[|passed|], |later|) by {
      var i :| (if gate.DownloadCandidate? then 0 else from) <= i < |later| && ShowsAt(later, i, gate);
    }
  }

  lemma DownloadIsOnRecord(log: seq<Event>)
    requires Disk(log).Some? && Disk(log).value.downloaded
    ensures Shown(DownloadCandidate, log, |log|, |log|)
  {
    var n := |log| - 1;
    if log[n].Saved? {
      assert ShowsAt(log, n, DownloadCandidate);
    } else {
      DownloadIsOnRecord(log[..n]);
      var i :| 0 <= i < n && ShowsAt(log[..n], i, DownloadCandidate);
      assert ShowsAt(log, i, DownloadCandidate);
    }
  }

  // ---------------------------------------------------------------- what completion means

  /** All gates of the profile were shown, one after another, from an index on. */
  ghost predicate Complete(profile: Profile, log: seq<Event>, from: nat) {
    exists marks: seq<nat> :: AllShown(Gates(profile), marks, log) && from <= marks[0]
  }

  lemma CompleteEarlier(profile: Profile, log: seq<Event>, start: nat, from: nat)
    requires Complete(profile, log, start) && from <= start
    ensures Complete(profile, log, from)
  {
    var marks: seq<nat> :| AllShown(Gates(profile), marks, log) && start <= marks[0];
  }

  /** Whatever was carried anywhere is what the checkpoint has locked. */
  lemma CarriedIsLocked(log: seq<Event>, i: nat)
    requires Lawful(log) && i < |log| && Carries(log[i]).Some?
    ensures Disk(log).Some? && Disk(log).value.signed == Carries(log[i])
  {
    LawfulAt(log, i);
    DiskAdvances(log, i, |log|);
    assert log[..|log|] == log;
  }

  /** A verification and the save after it lock the digest for good. */
  lemma SavedVerificationLocks(log: seq<Event>, v: nat)
    requires Lawful(log) && v < |log| && ShowsAt(log, v, VerifyCandidate)
    ensures Disk(log).Some? && Disk(log).value.signed == Some(log[v].digest)
  {
    DiskStep(log, v + 1);
    DiskAdvances(log, v + 2, |log|);
    assert log[..|log|] == log;
  }

  /**
    A completed release is one candidate: the digest verified by this process is the one locked, confirmed in
    public and on the channel, deployed, and carried by every deployment or confirmation of any process.
   */
  lemma CompletionIsOneCandidate(log: seq<Event>, profile: Profile, from: nat) returns (v: nat, p: nat)
    requires Lawful(log) && Complete(profile, log, from)
    ensures from <= v < p < |log| && log[v].CandidateVerified?
    ensures Disk(log).Some? && Disk(log).value.signed == Some(log[v].digest)
    ensures log[p] == PublicConfirmed(log[v].digest, log[v].digest)
    ensures profile.Full? ==> exists w :: p < w < |log| && log[w] == DeployCompleted(true, log[v].digest)
    ensures forall k :: 0 <= k < |log| && Carries(log[k]).Some? ==> Carries(log[k]) == Some(log[v].digest)
  {
    var gates := Gates(profile);
    var marks: seq<nat> :| AllShown(gates, marks, log) && from <= marks[0];
    MarksGrow(gates, marks, log, 0, 3);
    MarksGrow(gates, marks, log, 4, 7);
    assert Shown(gates[3], log, marks[3], marks[4]) && Shown(gates[7], log, marks[7], marks[8]);
    v :| marks[3] <= v < marks[4] && v < |log| && ShowsAt(log, v, VerifyCandidate);
    p :| marks[7] <= p < marks[8] && p < |log| && ShowsAt(log, p, ChannelCheck);
    SavedVerificationLocks(log, v);
    LawfulAt(log, p);
    forall k | 0 <= k < |log| && Carries(log[k]).Some? ensures Carries(log[k]) == Some(log[v].digest) {
      CarriedIsLocked(log, k);
    }
    if profile.Full? {
      assert Shown(gates[8], log, marks[8], marks[9]);
      var w :| marks[8] <= w < marks[9] && w < |log| && ShowsAt(log, w, WebDeployment);
      assert Carries(log[w]) == Some(log[v].digest);
    }
  }

  /** So does a checkpoint that calls the release finished, whichever processes wrote it. */
  lemma FinishedIsOneCandidate(log: seq<Event>) returns (v: nat, p: nat)
    requires Lawful(log) && Disk(log).Some? && Disk(log).value.stage.Finished?
    ensures v < p < |log| && log[v].CandidateVerified? && log[p] == PublicConfirmed(log[v].digest, log[v].digest)
    ensures Disk(log).value.signed == Some(log[v].digest)
    ensures Disk(log).value.plan.profile.Full? ==>
              exists w :: p < w < |log| && log[w] == DeployCompleted(true, log[v].digest)
    ensures forall k :: 0 <= k < |log| && Carries(log[k]).Some? ==> Carries(log[k]) == Some(log[v].digest)
  {
    assert log[..|log|] == log;
    StageIsEarned(log, |log|);
    var profile := Disk(log).value.plan.profile;
    var marks: seq<nat> :| AllShown(Gates(profile), marks, log);
    assert Complete(profile, log, 0);
    v, p := CompletionIsOneCandidate(log, profile, 0);
  }

  // ---------------------------------------------------------------- what precedes the steps that cannot be undone

  /** No candidate is requested, drafted or verified before the full CI of the locked revision succeeded. */
  lemma CandidateFollowsCi(log: seq<Event>, i: nat) returns (r: nat)
    requires Lawful(log) && i < |log|
    requires log[i].DraftCreated? || log[i].CandidateVerified?
             || (log[i].Requested? && log[i].workflow.CandidateWorkflow?)
    ensures r < i && log[r].RunSucceeded? && log[r].workflow.CiWorkflow? && CI_JOBS <= log[r].run.successfulJobs
    ensures Disk(log[..i]).Some? && log[r].run.headSha == Disk(log[..i]).value.plan.revision
  {
    var before := log[..i];
    LawfulAt(log, i);
    StageIsEarned(log, i);
    var c := Disk(before).value;
    var marks: seq<nat> :| AllShown(GatesBefore(c.stage, c.plan.profile), marks, before);
    assert Shown(FullCi, before, marks[0], marks[1]);
    r :| marks[0] <= r < marks[1] && r < i && ShowsAt(before, r, FullCi);
    LawfulAt(log, r);
    DiskAdvances(log, r, i);
  }

  /** Every other run is requested on main, and the ref was just seen at the locked revision. */
  lemma RequestsAreOnMain(log: seq<Event>, i: nat)
    requires Lawful(log) && i < |log| && log[i].Requested? && !log[i].workflow.PublishWorkflow?
    ensures log[i].ref == Main && i >= 2 && Disk(log[..i]).Some?
    ensures log[i - 2] == RefChecked(Main, Disk(log[..i]).value.plan.revision)
  {
    LawfulAt(log, i);
    DiskStep(log, i - 1);
  }

  /** The branch on which the run of a workflow has to be. */
  predicate OnItsBranch(branch: Branch, w: Workflow, tag: string) {
    match w
    case PublishWorkflow => branch == ReleaseBranch(tag)
    case CiWorkflow => branch == Main
    case CandidateWorkflow => branch == Main
  }

  /** The run was dispatched for the operation of the entry, on its branch and at the locked revision. */
  predicate IsOurs(run: Run, w: Workflow, operation: string, plan: Plan) {
    && run.workflow == w && run.title == OperationTitle(operation) && run.byDispatch
    && run.headSha == plan.revision && OnItsBranch(run.headBranch, w, plan.tag)
  }

  /** A run that succeeded is the one of the checkpoint: it has the locked id, and it is ours. */
  lemma SucceededRunIsOurs(log: seq<Event>, i: nat)
    requires Lawful(log) && i < |log| && log[i].RunSucceeded?
    ensures log[i].run.completed && log[i].run.success && Disk(log[..i]).Some?
    ensures var (c, w) := (Disk(log[..i]).value, log[i].workflow);
            w in c.runs && c.runs[w].id == Some(log[i].id) && IsOurs(log[i].run, w, c.runs[w].operation, c.plan)
  {
    LawfulAt(log, i);
  }

  /** All jobs of the full CI. */
  predicate AllJobs(jobs: set<Job>) {
    && FormatTypesTests in jobs && WindowsClientChecks in jobs && MacosClientChecks in jobs
    && WebBrowserAcceptance in jobs && SupplyChain in jobs && WebLogin in jobs && ProtocolIntegration in jobs
    && AgentImageAcceptance in jobs && HeadlessAcceptance in jobs
  }

  /** A full CI run that succeeded has all its jobs. */
  lemma FullCiHasAllJobs(log: seq<Event>, i: nat)
    requires Lawful(log) && i < |log| && log[i].RunSucceeded? && log[i].workflow.CiWorkflow?
    ensures AllJobs(log[i].run.successfulJobs)
  {
    LawfulAt(log, i);
    assert AllJobs(CI_JOBS);
  }

  /** The first checkpoint says that nothing was done. */
  lemma FirstCheckpointIsEmpty(log: seq<Event>, i: nat)
    requires Lawful(log) && i < |log| && log[i].Saved? && Disk(log[..i]).None?
    ensures var c := log[i].checkpoint;
            c.stage.NotStarted? && c.runs == map[] && !c.downloaded && c.recovered.None? && c.signed.None?
  {
    LawfulAt(log, i);
  }

  /** The evidence, in order, that a log holds once the first gates after the download were shown. */
  lemma EvidenceInOrder(passed: seq<Gate>, marks: seq<nat>, log: seq<Event>) returns (v: nat, p: nat, u: nat)
    requires Lawful(log) && AllShown(passed, marks, log) && |passed| >= 6
    requires passed[3] == VerifyCandidate && passed[4] == CompatibleServer && passed[5] == Usability
    ensures v < p < u < marks[6] && u < |log|
    ensures log[v].CandidateVerified? && log[p].PromotionVerified? && log[u].UsabilityVerified?
    ensures Disk(log).Some? && Disk(log).value.signed == Some(log[v].digest)
  {
    assert Shown(passed[3], log, marks[3], marks[4]) && Shown(passed[4], log, marks[4], marks[5])
           && Shown(passed[5], log, marks[5], marks[6]);
    v :| marks[3] <= v < marks[4] && v < |log| && ShowsAt(log, v, VerifyCandidate);
    p :| marks[4] <= p < marks[5] && p < |log| && ShowsAt(log, p, CompatibleServer);
    u :| marks[5] <= u < marks[6] && u < |log| && ShowsAt(log, u, Usability);
    SavedVerificationLocks(log, v);
  }

  /**
    In every log, publication is requested only after the candidate, the promotion and the usability record were
    verified, in this order, and nothing but that candidate is ever carried anywhere.
   */
  lemma PublicationFollows(log: seq<Event>, i: nat) returns (v: nat, p: nat, u: nat)
    requires Lawful(log) && i < |log| && log[i].Requested? && log[i].workflow.PublishWorkflow?
    ensures Disk(log[..i]).Some? && log[i].ref == ReleaseBranch(Disk(log[..i]).value.plan.tag)
    ensures v < p < u < i
    ensures log[v].CandidateVerified? && log[p].PromotionVerified? && log[u].UsabilityVerified?
    ensures forall k :: 0 <= k < |log| && Carries(log[k]).Some? ==> Carries(log[k]) == Some(log[v].digest)
  {
    var before := log[..i];
    LawfulAt(log, i);
    StageIsEarned(log, i);
    DiskStep(log, i - 1);
    var passed := GatesBefore(At(Publication), Disk(before).value.plan.profile);
    var marks: seq<nat> :| AllShown(passed, marks, before);
    v, p, u := EvidenceInOrder(passed, marks, before);
    DiskAdvances(log, i, |log|);
    assert log[..|log|] == log;
    forall k | 0 <= k < |log| && Carries(log[k]).Some? ensures Carries(log[k]) == Some(log[v].digest) {
      CarriedIsLocked(log, k);
    }
  }

  /** The publication and its confirmation, which are the gates that follow. */
  lemma PublicationInOrder(passed: seq<Gate>, marks: seq<nat>, log: seq<Event>) returns (r: nat, c: nat)
    requires AllShown(passed, marks, log) && |passed| >= 8
    requires passed[6] == Publication && passed[7] == ChannelCheck
    ensures marks[6] <= r < c < |log|
    ensures log[r].RunSucceeded? && log[r].workflow.PublishWorkflow? && log[c].PublicConfirmed?
  {
    assert Shown(passed[6], log, marks[6], marks[7]) && Shown(passed[7], log, marks[7], marks[8]);
    r :| marks[6] <= r < marks[7] && r < |log| && ShowsAt(log, r, Publication);
    c :| marks[7] <= c < marks[8] && c < |log| && ShowsAt(log, c, ChannelCheck);
  }

  lemma PublishedOnReleaseBranch(log: seq<Event>, r: nat, i: nat)
    requires Lawful(log) && r <= i <= |log| && r < |log| && log[r].RunSucceeded? && log[r].workflow.PublishWorkflow?
    ensures Disk(log[..i]).Some? && log[r].run.headBranch == ReleaseBranch(Disk(log[..i]).value.plan.tag)
  {
    SucceededRunIsOurs(log, r);
    DiskAdvances(log, r, i);
  }

  /**
    In every log, the web is deployed only for a full release, and only after the candidate, the promotion and
    the usability record were verified, a publishing run succeeded, and the digest to deploy, which is that of
    the candidate, was confirmed in public: in this order.
   */
  lemma WebFollows(log: seq<Event>, i: nat) returns (v: nat, p: nat, u: nat, r: nat, c: nat)
    requires Lawful(log) && i < |log| && log[i].DeployRequested? && log[i].web
    ensures v < p < u < r < c < i
    ensures log[v] == CandidateVerified(log[i].manifest) && log[p].PromotionVerified? && log[u].UsabilityVerified?
    ensures log[r].RunSucceeded? && log[r].workflow.PublishWorkflow?
    ensures log[c] == PublicConfirmed(log[i].manifest, log[i].manifest)
    ensures Disk(log[..i]).Some? && Disk(log[..i]).value.plan.profile.Full?
    ensures log[r].run.headBranch == ReleaseBranch(Disk(log[..i]).value.plan.tag)
  {
    var before := log[..i];
    LawfulAt(log, i);
    StageIsEarned(log, i);
    var passed := GatesBefore(At(WebDeployment), Disk(before).value.plan.profile);
    var marks: seq<nat> :| AllShown(passed, marks, before);
    v, p, u := EvidenceInOrder(passed, marks, before);
    r, c := PublicationInOrder(passed, marks, before);
    PublishedOnReleaseBranch(log, r, i);
    LawfulAt(log, c);
    OneDigest(log, c, i);
  }
}
