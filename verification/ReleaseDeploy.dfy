/**
  The deployment phases `server` and `web` of one verified candidate.

  `World` holds the checkpoint file, the running services and the promotion records; each save and
  each effect on the host is an atomic step that the end of the process may precede or follow, and a
  longer effect (a migration, a service start) is split into its begin and its end.
  `World.log` records the steps over every process that worked on this candidate.
 */
module ReleaseDeploy {
  import opened Outcomes
  import opened Wrappers

  // ---------------------------------------------------------------- values

  datatype Service = Postgres | Synapse | ObjectStore | Identity | ControlPlane | Gateway | OtherService(name: string)

  /** A running container: the reference that it was started from, and the image behind it. */
  datatype Container = Container(id: string, image: string, imageId: string, healthy: bool)

  /** The candidate that owns the checkpoint; a service keeps its image reference here. */
  datatype Candidate = Candidate(
    revision: string, manifest: string, controlPlane: string, identity: string, web: string)
  {
    function Image(s: Service): string {
      match s
      case ControlPlane => controlPlane
      case Identity => identity
      case _ => web
    }
  }

  datatype Flag = Pulled | Migrated | SynapseRestarted | IdentityReconciled | ServerVerified | WebVerified

  datatype Checkpoint = Checkpoint(
    candidate: Candidate,
    configuration: string,
    synapseChanged: bool,
    backupId: string,
    before: map<Service, Container>,
    flags: set<Flag>)

  datatype Effect = Pull | Migrate | RestartSynapse | StartServer | SyncIdentity | StartGateway

  datatype Stage = DatabaseExpanded | CompatibleServer

  /** The flag that, once saved, keeps an effect from being repeated. */
  function FlagOf(e: Effect): Flag {
    match e
    case Pull => Pulled
    case Migrate => Migrated
    case RestartSynapse => SynapseRestarted
    case StartServer => ServerVerified
    case SyncIdentity => IdentityReconciled
    case StartGateway => WebVerified
  }

  const REQUIRED_SERVICES: set<Service> := {Postgres, Synapse, ObjectStore, Identity, ControlPlane, Gateway}

  function Updated(web: bool): set<Service> {
    {ControlPlane, Identity} + if web then {Gateway} else {}
  }

  /**
    `verify_running`: the updated services run the healthy candidate, by its reference and by the image that the
    host has for it; every other service was left alone.
   */
  predicate Running(services: map<Service, Container>, images: map<string, string>, c: Checkpoint, web: bool) {
    && (forall s :: s in Updated(web) ==>
          && s in services && services[s].healthy && services[s].image == c.candidate.Image(s)
          && services[s].image in images && services[s].imageId == images[services[s].image])
    && (forall s :: s in c.before && s !in Updated(web) ==> s in services && services[s].id == c.before[s].id)
  }

  /** One service runs, healthy, from the reference and from the image that the host has for it. */
  predicate RunsFrom(services: map<Service, Container>, images: map<string, string>, s: Service, image: string) {
    && s in services && services[s].healthy && services[s].image == image
    && image in images && services[s].imageId == images[image]
  }

  predicate SameContainer(services: map<Service, Container>, c: Checkpoint, s: Service) {
    s in c.before ==> s in services && services[s].id == c.before[s].id
  }

  /** Each service with its own image of the candidate; all other containers are those found at first. */
  ghost predicate RunsCandidate(
    services: map<Service, Container>, images: map<string, string>, c: Checkpoint, web: bool)
  {
    && RunsFrom(services, images, ControlPlane, c.candidate.controlPlane)
    && RunsFrom(services, images, Identity, c.candidate.identity)
    && (if web then RunsFrom(services, images, Gateway, c.candidate.web) else SameContainer(services, c, Gateway))
    && SameContainer(services, c, Postgres) && SameContainer(services, c, Synapse)
    && SameContainer(services, c, ObjectStore)
    && forall name :: SameContainer(services, c, OtherService(name))
  }

  lemma RunningMeans(services: map<Service, Container>, images: map<string, string>, c: Checkpoint, web: bool)
    ensures Running(services, images, c, web) <==> RunsCandidate(services, images, c, web)
  {
    if RunsCandidate(services, images, c, web) {
      forall s | s in c.before && s !in Updated(web) ensures SameContainer(services, c, s) {
        match s
        case OtherService(name) => assert SameContainer(services, c, OtherService(name));
        case _ =>
      }
    }
  }

  // ---------------------------------------------------------------- what a log may contain

  datatype Event =
    | ProcessStarted
    | Saved(checkpoint: Checkpoint)
    | Surveyed(services: map<Service, Container>, configuration: string, synapse: string)
    | BackupTaken(id: string)
    | BackupVerified(id: string)
    | ConfigurationKept(configuration: string)
    | Rendered(configuration: string, synapse: string)
    | BaselineHeld
    | Began(effect: Effect)
    | Ended(effect: Effect)
    | RunningVerified(web: bool, services: map<Service, Container>, images: map<string, string>)
    | RecordWritten(stage: Stage)
    | RecordCut(stage: Stage)  // the process ended within the write: the file exists, unfinished
    | RecordVerified(stage: Stage)

  function Disk(log: seq<Event>): Option<Checkpoint> {
    if log == [] then None
    else
      var last := log[|log| - 1];
      if last.Saved? then Some(last.checkpoint) else Disk(log[..|log| - 1])
  }

  predicate FlagOnDisk(log: seq<Event>, f: Flag) {
    Disk(log).Some? && f in Disk(log).value.flags
  }

  /** The event happened in the process that is now running. */
  predicate Seen(log: seq<Event>, e: Event)
    decreases |log|, 1
  {
    log != [] && SeenByLast(log, e)
  }

  predicate SeenByLast(log: seq<Event>, e: Event)
    requires log != []
    decreases |log|, 0
  {
    !log[|log| - 1].ProcessStarted? && (log[|log| - 1] == e || Seen(log[..|log| - 1], e))
  }

  /** The event happened in some process. */
  predicate Happened(log: seq<Event>, e: Event)
    decreases |log|, 1
  {
    log != [] && HappenedByLast(log, e)
  }

  predicate HappenedByLast(log: seq<Event>, e: Event)
    requires log != []
    decreases |log|, 0
  {
    log[|log| - 1] == e || Happened(log[..|log| - 1], e)
  }

  /** The file of the record is there: it was written, whole or in part, or it was read. */
  predicate IsThere(log: seq<Event>, stage: Stage) {
    Happened(log, RecordWritten(stage)) || Happened(log, RecordCut(stage)) || Happened(log, RecordVerified(stage))
  }

  predicate EndsWith(log: seq<Event>, e: Event) {
    log != [] && log[|log| - 1] == e
  }

  /**
    The first checkpoint follows a survey of the host, a fresh backup, verified, that changed no
    configuration, and the rendering with the candidate's code; it records what these showed.
   */
  predicate MayStart(log: seq<Event>, c: Checkpoint) {
    var n := |log|;
    && n >= 5 && c.flags == {} && REQUIRED_SERVICES <= c.before.Keys
    && log[n - 5].Surveyed? && log[n - 5].services == c.before
    && log[n - 4] == BackupTaken(c.backupId) && log[n - 3] == BackupVerified(c.backupId)
    && log[n - 2] == ConfigurationKept(log[n - 5].configuration)
    && log[n - 1].Rendered? && log[n - 1].configuration == c.configuration
    && c.synapseChanged == (log[n - 1].synapse != log[n - 5].synapse)
  }

  /** A survey and a harmless, verified backup came last. */
  predicate EndsWithBackup(
    log: seq<Event>, before: map<Service, Container>, configuration: string, synapse: string, id: string)
  {
    var n := |log|;
    && n >= 4 && log[n - 4] == Surveyed(before, configuration, synapse)
    && log[n - 3] == BackupTaken(id) && log[n - 2] == BackupVerified(id)
    && log[n - 1] == ConfigurationKept(configuration)
  }

  lemma MayStartNow(log: seq<Event>, configuration: string, synapse: string, rendered: string, c: Checkpoint)
    requires EndsWithBackup(log, c.before, configuration, synapse, c.backupId)
    requires c.flags == {} && REQUIRED_SERVICES <= c.before.Keys && c.synapseChanged == (rendered != synapse)
    ensures MayStart(log + [Rendered(c.configuration, rendered)], c)
  {
  }

  /** What must have happened just now for a flag to be saved. */
  predicate Earned(log: seq<Event>, c: Checkpoint, f: Flag) {
    match f
    case Pulled => EndsWith(log, Ended(Pull))
    case Migrated => |log| >= 2 && EndsWith(log, BaselineHeld) && log[|log| - 2] == Ended(Migrate)
    case SynapseRestarted => EndsWith(log, Ended(RestartSynapse))
    case IdentityReconciled => EndsWith(log, Ended(SyncIdentity))
    case ServerVerified =>
      // The gateway is looked at as well once the web phase is done.
      && log != [] && log[|log| - 1].RunningVerified? && log[|log| - 1].web == (WebVerified in c.flags)
      && IdentityReconciled in c.flags
    case WebVerified => log != [] && log[|log| - 1].RunningVerified? && log[|log| - 1].web
  }

  predicate MaySave(log: seq<Event>, c: Checkpoint) {
    match Disk(log)
    case None => MayStart(log, c)
    case Some(b) => exists f :: c == b.(flags := b.flags + {f}) && Earned(log, b, f)
  }

  /** What an effect waits for. Each one also waits for a matching configuration and its own flag to be unset. */
  predicate Ready(log: seq<Event>, c: Checkpoint, e: Effect) {
    match e
    case Pull => Seen(log, BackupVerified(c.backupId))
    case Migrate => Seen(log, BackupVerified(c.backupId)) && Pulled in c.flags
    case RestartSynapse =>
      Migrated in c.flags && Seen(log, RecordVerified(DatabaseExpanded)) && c.synapseChanged
    case StartServer =>
      && Migrated in c.flags && Seen(log, RecordVerified(DatabaseExpanded))
      && (c.synapseChanged ==> SynapseRestarted in c.flags)
    case SyncIdentity =>
      && Migrated in c.flags && Seen(log, RecordVerified(DatabaseExpanded))
      && (c.synapseChanged ==> SynapseRestarted in c.flags)
      && (ServerVerified in c.flags || Seen(log, Ended(StartServer)))
    case StartGateway => ServerVerified in c.flags && Seen(log, RecordVerified(CompatibleServer))
  }

  predicate Permitted(log: seq<Event>, e: Event) {
    match e
    case Saved(c) => MaySave(log, c)
    case BackupTaken(_) => Disk(log).None? && Seen(log, BaselineHeld)
    case Began(x) =>
      && Disk(log).Some? && FlagOf(x) !in Disk(log).value.flags
      && Seen(log, BaselineHeld) && Ready(log, Disk(log).value, x)
    case Ended(x) => EndsWith(log, Began(x))
    case RunningVerified(web, services, images) =>
      && Disk(log).Some? && Running(services, images, Disk(log).value, web) && EndsWith(log, BaselineHeld)
      && (ServerVerified in Disk(log).value.flags || Seen(log, Ended(StartServer)))
      && (web ==> WebVerified in Disk(log).value.flags || Seen(log, Ended(StartGateway)))
    case RecordWritten(stage) =>
      !IsThere(log, stage) && FlagOnDisk(log, if stage.DatabaseExpanded? then Migrated else ServerVerified)
    case RecordCut(stage) =>
      !IsThere(log, stage) && FlagOnDisk(log, if stage.DatabaseExpanded? then Migrated else ServerVerified)
    case RecordVerified(stage) =>
      // An unfinished record is refused.
      && !Happened(log, RecordCut(stage))
      && FlagOnDisk(log, if stage.DatabaseExpanded? then Migrated else ServerVerified)
    case _ => true
  }

  ghost predicate Lawful(log: seq<Event>)
    decreases |log|, 1
  {
    log == [] || LastLawful(log)
  }

  ghost predicate LastLawful(log: seq<Event>)
    requires log != []
    decreases |log|, 0
  {
    Lawful(log[..|log| - 1]) && Permitted(log[..|log| - 1], log[|log| - 1])
  }

  lemma Extend(log: seq<Event>, e: Event)
    requires Lawful(log) && Permitted(log, e)
    ensures Lawful(log + [e])
    ensures Disk(log + [e]) == if e.Saved? then Some(e.checkpoint) else Disk(log)
    ensures forall x :: Seen(log + [e], x) <==> !e.ProcessStarted? && (e == x || Seen(log, x))
    ensures forall x :: Happened(log + [e], x) <==> e == x || Happened(log, x)
  {
    assert (log + [e])[..|log|] == log;
    assert LastLawful(log + [e]);
    assert forall x :: SeenByLast(log + [e], x) <==> !e.ProcessStarted? && (e == x || Seen(log, x));
    assert forall x :: HappenedByLast(log + [e], x) <==> e == x || Happened(log, x);
  }

  lemma {:induction false} LawfulAt(log: seq<Event>, i: nat)
    requires Lawful(log) && i <= |log|
    ensures Lawful(log[..i])
    ensures i < |log| ==> Permitted(log[..i], log[i])
  {
    var n := |log| - 1;
    assert log != [] ==> LastLawful(log);
    if i < n {
      LawfulAt(log[..n], i);
      assert log[..n][..i] == log[..i];
    } else {
      assert log[..|log|] == log;
    }
  }

  // ---------------------------------------------------------------- consequences for whole logs

  lemma DiskStep(log: seq<Event>, i: nat)
    requires i < |log|
    ensures Disk(log[..i + 1]) == if log[i].Saved? then Some(log[i].checkpoint) else Disk(log[..i])
  {
    assert log[..i + 1][..i] == log[..i];
  }

  /** Flags never go back, and everything else in the checkpoint is written once. */
  lemma {:induction false} FlagsNeverGoBack(log: seq<Event>, i: nat, j: nat)
    requires Lawful(log) && i <= j <= |log| && Disk(log[..i]).Some?
    ensures
      && Disk(log[..j]).Some? && Disk(log[..i]).value.flags <= Disk(log[..j]).value.flags
      && Disk(log[..j]).value.(flags := {}) == Disk(log[..i]).value.(flags := {})
    decreases j
  {
    if i < j {
      FlagsNeverGoBack(log, i, j - 1);
      DiskStep(log, j - 1);
      LawfulAt(log, j - 1);
    }
  }

  /** A guarded effect never begins again after its flag is on disk, whatever process runs. */
  lemma NoRepeatAfterFlag(log: seq<Event>, i: nat, j: nat, e: Effect)
    requires Lawful(log) && i <= j < |log| && FlagOnDisk(log[..i], FlagOf(e))
    ensures log[j] != Began(e)
  {
    FlagsNeverGoBack(log, i, j);
    LawfulAt(log, j);
  }

  /** No second backup once the first checkpoint is saved. */
  lemma OneBackupPerCheckpoint(log: seq<Event>, i: nat, j: nat)
    requires Lawful(log) && i <= j < |log| && Disk(log[..i]).Some?
    ensures !log[j].BackupTaken?
  {
    FlagsNeverGoBack(log, i, j);
    LawfulAt(log, j);
  }

  /** The steps from `i` on found what the checkpoint records. */
  predicate Found(log: seq<Event>, i: nat, c: Checkpoint) {
    && i + 5 < |log| && log[i].Surveyed? && log[i].services == c.before
    && log[i + 1] == BackupTaken(c.backupId) && log[i + 2] == BackupVerified(c.backupId)
    && log[i + 3] == ConfigurationKept(log[i].configuration)
    && log[i + 4].Rendered? && log[i + 4].configuration == c.configuration
    && c.synapseChanged == (log[i + 4].synapse != log[i].synapse)
  }

  /** The checkpoint is true: the services before, the backup, and whether Synapse's configuration changed. */
  lemma {:induction false} FirstCheckpointIsTrue(log: seq<Event>, k: nat) returns (i: nat)
    requires Lawful(log) && k <= |log| && Disk(log[..k]).Some?
    ensures i + 5 < k && Found(log, i, Disk(log[..k]).value)
    decreases k
  {
    DiskStep(log, k - 1);
    LawfulAt(log, k - 1);
    if Disk(log[..k - 1]).Some? {
      i := FirstCheckpointIsTrue(log, k - 1);
      FlagsNeverGoBack(log, k - 1, k);
    } else {
      i := k - 6;
    }
  }

  lemma {:induction false} HappenedBefore(log: seq<Event>, i: nat, j: nat)
    requires i < j <= |log|
    ensures Happened(log[..j], log[i])
    decreases j
  {
    assert log[..j][..j - 1] == log[..j - 1];
    assert i == j - 1 ==> HappenedByLast(log[..j], log[i]);
    if i < j - 1 {
      HappenedBefore(log, i, j - 1);
    }
  }

  /** The record of a stage is written once, whole or in part. */
  lemma RecordsAreWrittenOnce(log: seq<Event>, i: nat, j: nat, stage: Stage)
    requires Lawful(log) && i < j < |log|
    requires log[i] == RecordWritten(stage) || log[i] == RecordCut(stage)
    ensures log[j] != RecordWritten(stage) && log[j] != RecordCut(stage)
  {
    LawfulAt(log, j);
    HappenedBefore(log, i, j);
  }

  /** A record that the end of a process cut short is never verified and never written, whatever runs later. */
  lemma CutIsFinal(log: seq<Event>, i: nat, j: nat, stage: Stage)
    requires Lawful(log) && i < |log| && j < |log| && log[i] == RecordCut(stage)
    ensures log[j] != RecordVerified(stage) && log[j] != RecordWritten(stage)
  {
    if i < j {
      LawfulAt(log, j);
      HappenedBefore(log, i, j);
    } else if j < i {
      LawfulAt(log, i);
      HappenedBefore(log, j, i);
    }
  }

  /** What was seen in the running process happened. */
  lemma {:induction false} SeenHappened(log: seq<Event>, e: Event) returns (i: nat)
    requires Seen(log, e)
    ensures i < |log| && log[i] == e
  {
    assert SeenByLast(log, e);
    if log[|log| - 1] == e {
      i := |log| - 1;
    } else {
      i := SeenHappened(log[..|log| - 1], e);
    }
  }

  lemma {:induction false} HappenedAt(log: seq<Event>, e: Event) returns (i: nat)
    requires Happened(log, e)
    ensures i < |log| && log[i] == e
  {
    assert HappenedByLast(log, e);
    if log[|log| - 1] == e {
      i := |log| - 1;
    } else {
      i := HappenedAt(log[..|log| - 1], e);
    }
  }

  lemma VerifiedIsWhole(log: seq<Event>, stage: Stage)
    requires Lawful(log) && Seen(log, RecordVerified(stage))
    ensures !Happened(log, RecordCut(stage))
  {
    if Happened(log, RecordCut(stage)) {
      var i := HappenedAt(log, RecordCut(stage));
      var r := SeenHappened(log, RecordVerified(stage));
      CutIsFinal(log, i, r, stage);
    }
  }

  /** The save that put a flag on disk first. */
  lemma {:induction false} FirstSave(log: seq<Event>, k: nat, f: Flag) returns (j: nat)
    requires Lawful(log) && k <= |log| && FlagOnDisk(log[..k], f)
    ensures j < k && log[j].Saved? && f in log[j].checkpoint.flags && !FlagOnDisk(log[..j], f)
    ensures Disk(log[..j]).Some? && Earned(log[..j], Disk(log[..j]).value, f)
    decreases k
  {
    DiskStep(log, k - 1);
    if FlagOnDisk(log[..k - 1], f) {
      j := FirstSave(log, k - 1, f);
    } else {
      j := k - 1;
      LawfulAt(log, j);
    }
  }

  /** What the next process does before it comes to the same effect again. */
  function Again(log: seq<Event>, c: Checkpoint, e: Effect): seq<Event> {
    var again := log + [ProcessStarted] + [BaselineHeld];
    var backup := again + [BackupVerified(c.backupId)];
    var evidence := backup + [RecordVerified(DatabaseExpanded)];
    match e
    case Pull => backup
    case Migrate => backup
    case RestartSynapse => evidence
    case StartServer => evidence
    case SyncIdentity => evidence + [Began(StartServer)] + [Ended(StartServer)]
    case StartGateway => again + [RecordVerified(CompatibleServer)]
  }

  lemma OnceMore(log: seq<Event>, e: Event)
    requires Lawful(log) && Permitted(log, e) && !e.Saved? && !e.ProcessStarted?
    ensures Lawful(log + [e]) && Disk(log + [e]) == Disk(log) && Seen(log + [e], e)
    ensures forall x :: Seen(log, x) ==> Seen(log + [e], x)
    ensures forall x :: Happened(log + [e], x) <==> e == x || Happened(log, x)
  {
    Extend(log, e);
  }

  lemma BackupAgain(log: seq<Event>, c: Checkpoint)
    requires Lawful(log) && Disk(log) == Some(c)
    ensures var next := log + [ProcessStarted] + [BaselineHeld];
            && Lawful(next) && Disk(next) == Some(c) && Seen(next, BaselineHeld)
            && forall s :: Happened(next, RecordCut(s)) <==> Happened(log, RecordCut(s))
    ensures var next := log + [ProcessStarted] + [BaselineHeld] + [BackupVerified(c.backupId)];
            && Lawful(next) && Disk(next) == Some(c)
            && Seen(next, BaselineHeld) && Seen(next, BackupVerified(c.backupId))
            && forall s :: Happened(next, RecordCut(s)) <==> Happened(log, RecordCut(s))
  {
    Extend(log, ProcessStarted);
    OnceMore(log + [ProcessStarted], BaselineHeld);
    OnceMore(log + [ProcessStarted] + [BaselineHeld], BackupVerified(c.backupId));
  }

  lemma EvidenceAgain(log: seq<Event>, c: Checkpoint)
    requires Lawful(log) && Disk(log) == Some(c) && Migrated in c.flags
    requires !Happened(log, RecordCut(DatabaseExpanded))
    ensures var next := log + [ProcessStarted] + [BaselineHeld] + [BackupVerified(c.backupId)]
                            + [RecordVerified(DatabaseExpanded)];
            && Lawful(next) && Disk(next) == Some(c)
            && Seen(next, BaselineHeld) && Seen(next, RecordVerified(DatabaseExpanded))
  {
    BackupAgain(log, c);
    OnceMore(log + [ProcessStarted] + [BaselineHeld] + [BackupVerified(c.backupId)], RecordVerified(DatabaseExpanded));
  }

  /** The server is not verified before the realm is in step. */
  lemma RealmBeforeServer(log: seq<Event>)
    requires Lawful(log) && FlagOnDisk(log, ServerVerified)
    ensures FlagOnDisk(log, IdentityReconciled)
  {
    assert log[..|log|] == log;
    var j := FirstSave(log, |log|, ServerVerified);
    FlagsNeverGoBack(log, j, |log|);
  }

  lemma StartedAgain(log: seq<Event>, c: Checkpoint)
    requires Lawful(log) && Disk(log) == Some(c) && IdentityReconciled !in c.flags && Ready(log, c, SyncIdentity)
    requires !Happened(log, RecordCut(DatabaseExpanded))
    ensures var next := log + [ProcessStarted] + [BaselineHeld] + [BackupVerified(c.backupId)]
                            + [RecordVerified(DatabaseExpanded)] + [Began(StartServer)] + [Ended(StartServer)];
            Lawful(next) && Permitted(next, Began(SyncIdentity))
  {
    var evidence := log + [ProcessStarted] + [BaselineHeld] + [BackupVerified(c.backupId)]
                        + [RecordVerified(DatabaseExpanded)];
    EvidenceAgain(log, c);
    if ServerVerified in c.flags {
      RealmBeforeServer(log);
    }
    OnceMore(evidence, Began(StartServer));
    OnceMore(evidence + [Began(StartServer)], Ended(StartServer));
  }

  /** An effect, its end lost before the save, and the next process up to the same effect. */
  lemma ComesBack(log: seq<Event>, c: Checkpoint, e: Effect)
    requires Lawful(log) && Disk(log) == Some(c) && FlagOf(e) !in c.flags
    requires Ready(log, c, e) && forall s :: Seen(log, RecordVerified(s)) ==> !Happened(log, RecordCut(s))
    ensures Lawful(Again(log, c, e)) && Permitted(Again(log, c, e), Began(e))
  {
    BackupAgain(log, c);
    match e
    case Pull =>
    case Migrate =>
    case RestartSynapse => EvidenceAgain(log, c);
    case StartServer => EvidenceAgain(log, c);
    case SyncIdentity => StartedAgain(log, c);
    case StartGateway => OnceMore(log + [ProcessStarted] + [BaselineHeld], RecordVerified(CompatibleServer));
  }

  /**
    Before its flag is on disk an effect may repeat: a process may end between the effect and the save, and the
    next one, having checked again what the effect waits for, begins it a second time.
   */
  lemma MayRepeatBeforeFlag(log: seq<Event>, e: Effect)
    requires Lawful(log) && Permitted(log, Began(e))
    ensures Lawful(Again(log + [Began(e)] + [Ended(e)], Disk(log).value, e) + [Began(e)])
  {
    var c := Disk(log).value;
    var once := log + [Began(e)] + [Ended(e)];
    OnceMore(log, Began(e));
    OnceMore(log + [Began(e)], Ended(e));
    StillReady(log, once, c, e);
    forall s | Seen(once, RecordVerified(s)) ensures !Happened(once, RecordCut(s)) {
      VerifiedIsWhole(once, s);
    }
    ComesBack(once, c, e);
    Extend(Again(once, c, e), Began(e));
  }

  lemma StillReady(log: seq<Event>, later: seq<Event>, c: Checkpoint, e: Effect)
    requires Ready(log, c, e) && forall x :: Seen(log, x) ==> Seen(later, x)
    ensures Ready(later, c, e)
  {
  }

  /** Migration begins only with a checkpoint on disk whose backup was verified again in this process. */
  lemma MigrationNeedsBackup(log: seq<Event>, k: nat) returns (b: nat)
    requires Lawful(log) && k < |log| && log[k] == Began(Migrate)
    ensures Disk(log[..k]).Some? && Pulled in Disk(log[..k]).value.flags
    ensures b < k && log[b] == BackupVerified(Disk(log[..k]).value.backupId) && Seen(log[..k], log[b])
  {
    LawfulAt(log, k);
    b := SeenHappened(log[..k], BackupVerified(Disk(log[..k]).value.backupId));
  }

  /**
    Identity and control plane are touched only after the migration ended and was saved, its evidence
    was verified, and, when Synapse's configuration changed, its restart ended and was saved.
   */
  lemma ServerNeedsMigration(log: seq<Event>, k: nat) returns (m: nat, s: nat, r: nat)
    requires Lawful(log) && k < |log| && (log[k] == Began(StartServer) || log[k] == Began(SyncIdentity))
    ensures m < s < r < k && log[m] == Ended(Migrate)
    ensures log[s].Saved? && Migrated in log[s].checkpoint.flags
    ensures log[r] == RecordVerified(DatabaseExpanded) && Seen(log[..k], log[r])
    ensures Disk(log[..k]).Some?
    ensures Disk(log[..k]).value.synapseChanged ==>
              exists x, y :: 0 <= x < y < k && log[x] == Ended(RestartSynapse)
                             && log[y].Saved? && SynapseRestarted in log[y].checkpoint.flags
  {
    LawfulAt(log, k);
    r := SeenHappened(log[..k], RecordVerified(DatabaseExpanded));
    LawfulAt(log, r);
    s := FirstSave(log, r, Migrated);
    m := s - 2;
    if Disk(log[..k]).value.synapseChanged {
      var y := FirstSave(log, k, SynapseRestarted);
      assert log[y - 1] == Ended(RestartSynapse);
    }
  }

  /** A verified server was started, with its identity service in step, before it was verified. */
  lemma VerifiedServerWasStarted(log: seq<Event>, k: nat) returns (u: nat, y: nat, v: nat)
    requires Lawful(log) && k <= |log| && FlagOnDisk(log[..k], ServerVerified)
    ensures u < k && v < k && y < k && log[u] == Began(StartServer)
    ensures u < v && log[v].RunningVerified? && log[y] == Ended(SyncIdentity)
    ensures Disk(log[..v]).Some? && Running(log[v].services, log[v].images, Disk(log[..v]).value, log[v].web)
    ensures RunsCandidate(log[v].services, log[v].images, Disk(log[..v]).value, log[v].web)
  {
    var j := FirstSave(log, k, ServerVerified);
    v := j - 1;
    LawfulAt(log, v);
    DiskStep(log, v);
    var ended := SeenHappened(log[..v], Ended(StartServer));
    LawfulAt(log, ended);
    u := ended - 1;
    var i := FirstSave(log, j, IdentityReconciled);
    y := i - 1;
    RunningMeans(log[v].services, log[v].images, Disk(log[..v]).value, log[v].web);
  }

  /** A verified web was started, and then verified with the candidate's gateway. */
  lemma VerifiedWebWasStarted(log: seq<Event>, k: nat) returns (u: nat, v: nat)
    requires Lawful(log) && k <= |log| && FlagOnDisk(log[..k], WebVerified)
    ensures u < v < k && log[u] == Began(StartGateway) && log[v].RunningVerified? && log[v].web
    ensures Disk(log[..v]).Some? && RunsCandidate(log[v].services, log[v].images, Disk(log[..v]).value, true)
  {
    var j := FirstSave(log, k, WebVerified);
    v := j - 1;
    LawfulAt(log, v);
    DiskStep(log, v);
    var ended := SeenHappened(log[..v], Ended(StartGateway));
    LawfulAt(log, ended);
    u := ended - 1;
    RunningMeans(log[v].services, log[v].images, Disk(log[..v]).value, true);
  }

  /**
    The whole order: backup verified, migration, evidence, server started, server verified and saved,
    compatible-server record verified, and only then the gateway.
   */
  lemma GatewayIsLast(log: seq<Event>, k: nat) returns (b: nat, m: nat, d: nat, u: nat, v: nat, r: nat)
    requires Lawful(log) && k < |log| && log[k] == Began(StartGateway)
    ensures b < m < d < u < v < r < k
    ensures Disk(log[..k]).Some? && log[b] == BackupVerified(Disk(log[..k]).value.backupId)
    ensures log[m] == Began(Migrate) && log[d] == RecordVerified(DatabaseExpanded) && log[u] == Began(StartServer)
    ensures log[v].RunningVerified? && Running(log[v].services, log[v].images, Disk(log[..k]).value, log[v].web)
    ensures log[r] == RecordVerified(CompatibleServer) && Seen(log[..k], log[r])
    ensures ServerVerified in Disk(log[..k]).value.flags
  {
    LawfulAt(log, k);
    r := SeenHappened(log[..k], RecordVerified(CompatibleServer));
    LawfulAt(log, r);
    var y;
    u, y, v := VerifiedServerWasStarted(log, r);
    var ended, s;
    ended, s, d := ServerNeedsMigration(log, u);
    LawfulAt(log, ended);
    m := ended - 1;
    b := MigrationNeedsBackup(log, m);
    FlagsNeverGoBack(log, m, k);
    FlagsNeverGoBack(log, v, k);
  }

  /**
    A record cut short stops the deployment for good: no process ever starts the gateway, and when it is the
    evidence of the migration, nothing but the pull and the migration ever begins.
   */
  lemma CutStopsTheDeployment(log: seq<Event>, i: nat, k: nat, e: Effect)
    requires Lawful(log) && i < |log| && k < |log| && log[i].RecordCut? && log[k] == Began(e)
    ensures !e.StartGateway?
    ensures log[i].stage.DatabaseExpanded? ==> e.Pull? || e.Migrate?
  {
    var stage := log[i].stage;
    if e.StartGateway? {
      var b, m, d, u, v, r := GatewayIsLast(log, k);
      CutIsFinal(log, i, if stage.DatabaseExpanded? then d else r, stage);
    } else if stage.DatabaseExpanded? && !e.Pull? && !e.Migrate? {
      LawfulAt(log, k);
      var r := SeenHappened(log[..k], RecordVerified(stage));
      CutIsFinal(log, i, r, stage);
    }
  }

  // ---------------------------------------------------------------- the host

  class World {
    const candidate: Candidate
    var disk: Option<Checkpoint>
    var configuration: string          // digest of the deployed configuration
    var synapseConfiguration: string   // digest of the part that Synapse reads
    var services: map<Service, Container>
    var images: map<string, string>    // the image that the host has for a reference
    var records: set<Stage>            // promotion records beside the candidate,
    var unfinished: set<Stage>         // and those among them that were cut short
    ghost var log: seq<Event>

    ghost predicate Valid()
      reads this
    {
      && Lawful(log) && disk == Disk(log)
      && (disk.Some? ==> disk.value.candidate == candidate)
      && (forall s :: IsThere(log, s) ==> s in records) && unfinished <= records
      && (forall s :: Happened(log, RecordCut(s)) ==> s in unfinished)
    }

    /** The log grows within one process, the records only grow, and what was seen stays seen. */
    twostate predicate Continued()
      reads this
    {
      && old(log) <= log && old(records) <= records && unfinished * old(records) == old(unfinished)
      && (forall e :: Seen(old(log), e) ==> Seen(log, e))
    }

    constructor (candidate: Candidate)
      ensures Valid() && log == [] && this.candidate == candidate
    {
      this.candidate := candidate;
      disk, configuration, synapseConfiguration := None, "", "";
      records, unfinished := {}, {};
      services, images := map[], map[];
      log := [];
    }

    /** Containers, configuration and records may change under the feet of the command. */
    method OthersAct()
      requires Valid()
      modifies `configuration, `synapseConfiguration, `services, `images, `records, `unfinished
      ensures Valid() && Continued()
    {
      configuration, synapseConfiguration, services, images := *, *, *, *;
      var more: set<Stage>, cut: set<Stage> := *, *;
      unfinished := unfinished + (more * cut - records);
      records := records + more;
    }

    /** A fact that was read, or a step that another tool completed. */
    ghost method Note(e: Event)
      requires Valid() && Permitted(log, e) && !e.Saved? && !e.RecordWritten? && !e.RecordCut?
      requires e.RecordVerified? ==> e.stage in records - unfinished
      requires e == BaselineHeld && disk.Some? ==> configuration == disk.value.configuration
      requires e.RunningVerified? || e.Surveyed? ==> e.services == services
      requires e.RunningVerified? ==> e.images == images
      requires e.Surveyed? || e.ConfigurationKept? || e.Rendered? ==> e.configuration == configuration
      requires e.Surveyed? || e.Rendered? ==> e.synapse == synapseConfiguration
      modifies `log
      ensures Valid() && log == old(log) + [e] && (!e.ProcessStarted? ==> Continued())
      ensures Seen(log, e) == !e.ProcessStarted?
    {
      Extend(log, e);
      log := log + [e];
    }

    method Check() returns (o: Outcome)
    {
      if * {
        return Stopped;
      }
      return Done;
    }

    method Save(c: Checkpoint) returns (o: Outcome)
      requires Valid() && MaySave(log, c) && c.candidate == candidate
      modifies `log, `disk
      ensures Valid() && Continued()
      ensures log == old(log) || log == old(log) + [Saved(c)]
      ensures o.Done? ==> log == old(log) + [Saved(c)] && disk == Some(c)
    {
      if * {
        return Stopped;
      }
      Extend(log, Saved(c));
      disk := Some(c);
      log := log + [Saved(c)];
      if * {
        return Stopped;
      }
      return Done;
    }

    /** Starting services replaces their containers, as far as it gets. */
    method MoveServices(e: Effect)
      modifies `services
    {
      if e.StartServer? || e.StartGateway? {
        var n: int := *;
        while 0 < n
          decreases n
        {
          var s: Service := *;
          var id: string, imageId: string := *, *;
          var healthy: bool := *;
          if s in (if e.StartServer? then {Identity, ControlPlane} else {Gateway}) {
            services := services[s := Container(id, candidate.Image(s), imageId, healthy)];
          }
          n := n - 1;
        }
      }
    }

    /** An effect on the host: it may not begin, not end, or end with its result lost. */
    method Do(e: Effect) returns (o: Outcome)
      requires Valid() && Permitted(log, Began(e))
      modifies `log, `services
      ensures Valid() && Continued()
      ensures o.Done? ==> log == old(log) + [Began(e), Ended(e)] && Seen(log, Ended(e))
    {
      if * {
        return Stopped;
      }
      Note(Began(e));
      MoveServices(e);
      if * {
        return Stopped;
      }
      Note(Ended(e));
      if * {
        return Stopped;
      }
      return Done;
    }

    /** Writes a promotion record, which must not exist; the process may end before the new file is whole. */
    method WriteRecord(stage: Stage) returns (o: Outcome)
      requires Valid() && FlagOnDisk(log, if stage.DatabaseExpanded? then Migrated else ServerVerified)
      modifies `log, `records, `unfinished
      ensures Valid() && Continued()
      ensures stage in old(records) ==> log == old(log) && !o.Done?
      ensures log == old(log) || log == old(log) + [RecordWritten(stage)] || log == old(log) + [RecordCut(stage)]
      ensures o.Done? ==> log == old(log) + [RecordWritten(stage)] && stage in records - unfinished
    {
      if stage in records {
        return Stopped;
      }
      if * {
        return Stopped;
      }
      records := records + {stage};
      if * {
        Extend(log, RecordCut(stage));
        log := log + [RecordCut(stage)];
        unfinished := unfinished + {stage};
        return Stopped;
      }
      Extend(log, RecordWritten(stage));
      log := log + [RecordWritten(stage)];
      if * {
        return Stopped;
      }
      return Done;
    }
  }

  // ---------------------------------------------------------------- the command

  predicate SameButFlags(c: Checkpoint, now: Option<Checkpoint>) {
    now.Some? && c.flags <= now.value.flags && now.value.(flags := {}) == c.(flags := {})
  }

  class Deployment {
    const world: World
    var state: Option<Checkpoint>  // None while the checkpoint is the empty object

    ghost predicate InSync()
      reads this, world
    {
      world.Valid() && world.disk == state
    }

    twostate predicate Kept(o: Outcome)
      reads this, world
    {
      && world.Valid() && world.Continued()
      && (o.Done? ==> InSync())
      && (o.Done? && old(state).Some? ==> SameButFlags(old(state).value, state))
    }

    constructor (world: World)
      requires world.Valid()
      ensures this.world == world && InSync()
    {
      this.world, state := world, world.disk;
    }

    predicate Has(f: Flag)
      reads this
    {
      state.Some? && f in state.value.flags
    }

    method SaveFlag(f: Flag) returns (o: Outcome)
      requires InSync() && state.Some? && Earned(world.log, state.value, f)
      modifies `state, world`log, world`disk
      ensures Kept(o) && (o.Done? ==> Has(f))
      ensures o.Done? ==> world.log == old(world.log) + [Saved(state.value)]
    {
      var c := state.value.(flags := state.value.flags + {f});
      state := Some(c);
      o := world.Save(c);
    }

    /** `baseline`: clean locked sources, and the configuration that the checkpoint recorded. */
    method Baseline() returns (o: Outcome)
      requires InSync()
      modifies world`log
      ensures Kept(o)
      ensures o.Done? ==> world.log == old(world.log) + [BaselineHeld] && Seen(world.log, BaselineHeld)
      ensures o.Done? && state.Some? ==> world.configuration == state.value.configuration
      ensures state.Some? && world.configuration != state.value.configuration ==> world.log == old(world.log)
    {
      var clean := world.Check();
      :- clean;
      if state.Some? && state.value.configuration != world.configuration {
        return Stopped;
      }
      world.Note(BaselineHeld);
      return Done;
    }

    /** The first half of `prepare`: survey, backup, rendering, first checkpoint. */
    method FirstCheckpoint() returns (o: Outcome)
      requires InSync() && state.None? && Seen(world.log, BaselineHeld)
      modifies this, world
      ensures Kept(o) && (o.Done? ==> state.Some?)
    {
      var healthy := world.Check();  // preflight, health and federation
      :- healthy;
      world.OthersAct();
      var before := world.services;
      if !(REQUIRED_SERVICES <= before.Keys) {
        return Stopped;
      }
      var configuration, synapse := world.configuration, world.synapseConfiguration;
      world.Note(Surveyed(before, configuration, synapse));
      var backedUp, id := TakeBackup(configuration);
      :- backedUp;
      o := RenderAndSave(before, configuration, synapse, id);
    }

    /** A verified backup, refused if taking it changed the configuration. */
    method TakeBackup(configuration: string) returns (o: Outcome, id: string)
      requires InSync() && state.None? && Seen(world.log, BaselineHeld)
      modifies world`log
      ensures Kept(o)
      ensures o.Done? ==>
                world.log == old(world.log) + [BackupTaken(id), BackupVerified(id), ConfigurationKept(configuration)]
    {
      id := *;
      o := world.Check();
      if o.Done? {
        world.Note(BackupTaken(id));
        o := world.Check();
        if o.Done? {
          world.Note(BackupVerified(id));
          if configuration != world.configuration {
            return Stopped, id;
          }
          world.Note(ConfigurationKept(configuration));
        }
      }
    }

    /** Renders with the candidate's code and saves what was found. */
    method RenderAndSave(before: map<Service, Container>, configuration: string, synapse: string, id: string)
      returns (o: Outcome)
      requires InSync() && state.None? && REQUIRED_SERVICES <= before.Keys
      requires EndsWithBackup(world.log, before, configuration, synapse, id)
      modifies this, world
      ensures Kept(o) && (o.Done? ==> state.Some?)
    {
      Render();
      o := world.Check();
      if o.Done? {
        var changed := world.synapseConfiguration != synapse;
        var c := Checkpoint(world.candidate, world.configuration, changed, id, before, {});
        MayStartNow(world.log, configuration, synapse, world.synapseConfiguration, c);
        world.Note(Rendered(c.configuration, world.synapseConfiguration));
        state := Some(c);
        o := world.Save(c);
      }
    }

    /** Renders the deployment with the code of the candidate. */
    method Render()
      requires InSync()
      modifies world`configuration, world`synapseConfiguration
      ensures InSync()
    {
      if * {
        world.configuration, world.synapseConfiguration := *, *;
      }
    }

    method Prepare() returns (o: Outcome)
      requires InSync()
      modifies this, world
      ensures Kept(o)
      ensures o.Done? ==>
                && state.Some? && Has(Pulled)
                && Seen(world.log, BaselineHeld) && Seen(world.log, BackupVerified(state.value.backupId))
    {
      var held := Baseline();
      :- held;
      if state.None? {
        :- FirstCheckpoint();
      }
      :- world.Check();
      world.Note(BackupVerified(state.value.backupId));
      :- world.Check();  // the image overlay is unchanged and the compose configuration valid
      o := PullImages();
    }

    method PullImages() returns (o: Outcome)
      requires InSync() && state.Some? && Seen(world.log, BaselineHeld)
      requires Seen(world.log, BackupVerified(state.value.backupId))
      modifies this, world
      ensures Kept(o) && (o.Done? ==> Has(Pulled))
      ensures old(Has(Pulled)) ==> world.log == old(world.log)
    {
      if !Has(Pulled) {
        :- world.Do(Pull);
        :- SaveFlag(Pulled);
      }
      return Done;
    }

    /** `evidence`: writes report and record unless they exist, and verifies them in either case. */
    method Evidence(stage: Stage) returns (o: Outcome)
      requires InSync() && Has(if stage.DatabaseExpanded? then Migrated else ServerVerified)
      modifies world
      ensures Kept(o) && (o.Done? ==> stage in world.records && Seen(world.log, RecordVerified(stage)))
      ensures stage in old(world.unfinished) ==> !o.Done? && world.log == old(world.log)
    {
      var reported := world.Check();  // the report
      :- reported;
      if stage !in world.records {
        :- world.WriteRecord(stage);
      }
      :- world.Check();  // the stage of the record, and its evidence
      if stage in world.unfinished {
        return Stopped;
      }
      world.Note(RecordVerified(stage));
      return Done;
    }

    method RestartSynapse() returns (o: Outcome)
      requires InSync() && Has(Migrated)
      requires Seen(world.log, BaselineHeld) && Seen(world.log, RecordVerified(DatabaseExpanded))
      modifies this, world
      ensures Kept(o) && (o.Done? ==> state.value.synapseChanged ==> Has(SynapseRestarted))
    {
      if !state.value.synapseChanged || Has(SynapseRestarted) {
        return Done;
      }
      :- world.Do(Effect.RestartSynapse);
      o := SaveFlag(SynapseRestarted);
    }

    method VerifyRunning(web: bool) returns (o: Outcome)
      requires InSync() && state.Some? && (Has(ServerVerified) || Seen(world.log, Ended(StartServer)))
      requires web ==> Has(WebVerified) || Seen(world.log, Ended(StartGateway))
      modifies world
      ensures Kept(o)
      ensures o.Done? ==> EndsWith(world.log, RunningVerified(web, world.services, world.images))
      ensures o.Done? ==> RunsCandidate(world.services, world.images, state.value, web)
    {
      world.OthersAct();
      var after := world.services;
      if !Running(after, world.images, state.value, web) {
        return Stopped;
      }
      :- world.Check();  // health and federation
      :- Baseline();
      world.Note(RunningVerified(web, after, world.images));
      RunningMeans(after, world.images, state.value, web);
      return Done;
    }

    /** Phase `server`. */
    method Server() returns (o: Outcome)
      requires InSync()
      modifies this, world
      ensures Kept(o)
      ensures o.Done? ==> Has(ServerVerified) && Seen(world.log, RecordVerified(CompatibleServer))
    {
      var prepared := Prepare();
      :- prepared;
      :- ExpandDatabase();
      :- RestartSynapse();
      :- StartServices();
      :- ConfirmServer();
      o := Evidence(CompatibleServer);
    }

    /** The server flag is saved only after the running services were verified. */
    method ConfirmServer() returns (o: Outcome)
      requires InSync() && Has(IdentityReconciled) && (Has(ServerVerified) || Seen(world.log, Ended(StartServer)))
      modifies this, world
      ensures Kept(o) && (o.Done? ==> Has(ServerVerified))
    {
      var running := VerifyRunning(Has(WebVerified));
      :- running;
      o := SaveFlag(ServerVerified);
    }

    method ExpandDatabase() returns (o: Outcome)
      requires InSync() && Has(Pulled) && Seen(world.log, BaselineHeld)
      requires Seen(world.log, BackupVerified(state.value.backupId))
      modifies this, world
      ensures Kept(o) && (o.Done? ==> Has(Migrated) && Seen(world.log, RecordVerified(DatabaseExpanded)))
    {
      if !Has(Migrated) {
        :- world.Do(Migrate);
        :- Baseline();
        :- SaveFlag(Migrated);
      }
      o := Evidence(DatabaseExpanded);
    }

    method StartServices() returns (o: Outcome)
      requires InSync() && Has(Migrated) && Seen(world.log, BaselineHeld)
      requires Seen(world.log, RecordVerified(DatabaseExpanded))
      requires state.value.synapseChanged ==> Has(SynapseRestarted)
      modifies this, world
      ensures Kept(o)
      ensures o.Done? ==> Has(IdentityReconciled) && (Has(ServerVerified) || Seen(world.log, Ended(StartServer)))
    {
      if !Has(ServerVerified) {
        :- world.Do(StartServer);
      }
      if !Has(IdentityReconciled) {
        :- world.Do(SyncIdentity);
        :- SaveFlag(IdentityReconciled);
      }
      return Done;
    }

    /** Phase `web`. */
    method Web() returns (o: Outcome)
      requires InSync()
      modifies this, world
      ensures Kept(o) && (o.Done? ==> Has(WebVerified))
      ensures !old(Has(ServerVerified)) ==> !o.Done? && world.log == old(world.log)
      ensures CompatibleServer in old(world.unfinished) ==> !o.Done?
    {
      if !Has(ServerVerified) {
        return Stopped;
      }
      :- Baseline();
      :- world.Check();
      if CompatibleServer !in world.records || CompatibleServer in world.unfinished {
        return Stopped;
      }
      world.Note(RecordVerified(CompatibleServer));
      o := StartWeb();
    }

    method StartWeb() returns (o: Outcome)
      requires InSync() && Has(ServerVerified)
      requires Seen(world.log, BaselineHeld) && Seen(world.log, RecordVerified(CompatibleServer))
      modifies this, world
      ensures Kept(o) && (o.Done? ==> Has(WebVerified))
      ensures o.Done? && !old(Has(WebVerified)) ==> Seen(world.log, Ended(StartGateway))
      ensures o.Done? ==>
                && |world.log| >= 2 && world.log[|world.log| - 2].RunningVerified? && world.log[|world.log| - 2].web
                && world.log[|world.log| - 1] == Saved(state.value)
    {
      if !Has(WebVerified) {
        :- world.Do(StartGateway);
      }
      :- VerifyRunning(true);
      o := SaveFlag(WebVerified);
    }
  }

  /** Any number of processes, each running one phase and ending wherever it ends. */
  method Operate(world: World, invocations: nat)
    requires world.Valid()
    modifies world
    ensures world.Valid() && old(world.log) <= world.log
  {
    for k := 0 to invocations
      invariant world.Valid() && old(world.log) <= world.log
    {
      world.OthersAct();
      world.Note(ProcessStarted);
      var deployment := new Deployment(world);
      var o;
      if * {
        o := deployment.Server();
      } else {
        o := deployment.Web();
      }
    }
  }
}
