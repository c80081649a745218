/**
  Promotion records: a release moves through its stages one at a time, every record is written once,
  and a record carries the evidence of every stage since the candidate.
 */
module ReleasePromotion {
  import opened Wrappers

  datatype Stage =
    | Candidate | DatabaseExpanded | CompatibleServer | ClientsPublished | CompatibilityObserved
    | LegacyContracted | UnknownStage(name: string)

  const STAGES: seq<Stage> := [
    Candidate, DatabaseExpanded, CompatibleServer, ClientsPublished, CompatibilityObserved, LegacyContracted]

  /** `STAGES.index`. */
  function Index(s: Stage): (k: nat)
    requires !s.UnknownStage?
    ensures k < |STAGES| && STAGES[k] == s
  {
    match s
    case Candidate => 0
    case DatabaseExpanded => 1
    case CompatibleServer => 2
    case ClientsPublished => 3
    case CompatibilityObserved => 4
    case LegacyContracted => 5
  }

  /** A version text with the verdict of the SemVer pattern, and an address with the one of the HTTPS check. */
  datatype Version = Version(text: string, semantic: bool)
  datatype Url = Url(text: string, https: bool)

  predicate IsHex(s: string, length: nat) {
    |s| == length && forall k :: 0 <= k < |s| ==> '0' <= s[k] <= '9' || 'a' <= s[k] <= 'f'
  }

  datatype Item = Item(stage: Stage, url: Url, sha256: string, recordedAt: int)

  datatype Record = Record(schema: int, version: Version, revision: string, stage: Stage, history: seq<Item>)

  predicate ItemWellFormed(i: Item) {
    i.url.https && IsHex(i.sha256, 64) && i.recordedAt >= 0
  }

  /** The history is exactly the stages after the candidate up to the current one. */
  predicate Valid(r: Record) {
    && r.schema == 1 && r.version.semantic && IsHex(r.revision, 40)
    && !r.stage.UnknownStage? && |r.history| == Index(r.stage)
    && forall k :: 0 <= k < |r.history| ==> ItemWellFormed(r.history[k]) && r.history[k].stage == STAGES[k + 1]
  }

  function StagesOf(history: seq<Item>): seq<Stage> {
    seq(|history|, k requires 0 <= k < |history| => history[k].stage)
  }

  predicate IsDigest(s: string, length: nat) {
    |s| == length && forall c :: c in s ==> c in "0123456789abcdef"
  }

  /** The same, stage by stage and check by check. */
  predicate ByName(r: Record) {
    && r.schema == 1 && r.version.semantic && IsDigest(r.revision, 40)
    && (forall i :: i in r.history ==> i.url.https && IsDigest(i.sha256, 64) && i.recordedAt >= 0)
    && match r.stage
       case Candidate => StagesOf(r.history) == []
       case DatabaseExpanded => StagesOf(r.history) == [DatabaseExpanded]
       case CompatibleServer => StagesOf(r.history) == [DatabaseExpanded, CompatibleServer]
       case ClientsPublished => StagesOf(r.history) == [DatabaseExpanded, CompatibleServer, ClientsPublished]
       case CompatibilityObserved =>
         StagesOf(r.history) == [DatabaseExpanded, CompatibleServer, ClientsPublished, CompatibilityObserved]
       case LegacyContracted =>
         StagesOf(r.history)
         == [DatabaseExpanded, CompatibleServer, ClientsPublished, CompatibilityObserved, LegacyContracted]
       case UnknownStage(_) => false
  }

  lemma HexIsDigest(s: string, length: nat)
    ensures IsHex(s, length) <==> IsDigest(s, length)
  {
    var hex := "0123456789abcdef";
    assert hex[0] == '0' && hex[1] == '1' && hex[2] == '2' && hex[3] == '3' && hex[4] == '4' && hex[5] == '5'
           && hex[6] == '6' && hex[7] == '7' && hex[8] == '8' && hex[9] == '9' && hex[10] == 'a' && hex[11] == 'b'
           && hex[12] == 'c' && hex[13] == 'd' && hex[14] == 'e' && hex[15] == 'f';
    assert forall k :: 0 <= k < |s| ==> s[k] in s;
  }

  lemma StagesAre(r: Record)
    requires !r.stage.UnknownStage?
    ensures |r.history| == Index(r.stage) && (forall k :: 0 <= k < |r.history| ==> r.history[k].stage == STAGES[k + 1])
       <==> StagesOf(r.history) == STAGES[1..Index(r.stage) + 1]
  {
    var actual, expected := StagesOf(r.history), STAGES[1..Index(r.stage) + 1];
    assert |expected| == Index(r.stage) && forall k :: 0 <= k < |expected| ==> expected[k] == STAGES[k + 1];
    if actual == expected {
      forall k | 0 <= k < |r.history| ensures r.history[k].stage == STAGES[k + 1] {
        assert actual[k] == expected[k];
      }
    }
  }

  /** A record is valid exactly when it reads so. */
  lemma ValidByName(r: Record)
    ensures Valid(r) <==> ByName(r)
  {
    HexIsDigest(r.revision, 40);
    forall i | i in r.history ensures IsHex(i.sha256, 64) <==> IsDigest(i.sha256, 64) {
      HexIsDigest(i.sha256, 64);
    }
    if !r.stage.UnknownStage? {
      StagesAre(r);
    }
  }

  /** `validate_record`. */
  method ValidateRecord(r: Record) returns (ok: bool)
    ensures ok <==> Valid(r)
    ensures ok <==> ByName(r)
  {
    ValidByName(r);
    if r.schema != 1 || !r.version.semantic || !IsHex(r.revision, 40) || r.stage.UnknownStage? {
      return false;
    }
    var expected := STAGES[1..Index(r.stage) + 1];
    var actual := [];
    for k := 0 to |r.history|
      invariant |actual| == k
      invariant forall j :: 0 <= j < k ==> ItemWellFormed(r.history[j]) && actual[j] == r.history[j].stage
    {
      if !ItemWellFormed(r.history[k]) {
        return false;
      }
      actual := actual + [r.history[k].stage];
    }
    ok := actual == expected;
  }

  // ---------------------------------------------------------------- transitions

  function Initial(version: Version, revision: string): Record {
    Record(1, version, revision, Candidate, [])
  }

  /** The stage after this one, if there is one. */
  function Next(s: Stage): Option<Stage>
    requires !s.UnknownStage?
  {
    if Index(s) + 1 < |STAGES| then Some(STAGES[Index(s) + 1]) else None
  }

  /** One transition, refused unless it goes to the next stage with well-formed evidence. */
  function Promote(r: Record, item: Item): Option<Record>
    requires Valid(r)
  {
    if Next(r.stage) == Some(item.stage) && ItemWellFormed(item) then
      Some(r.(stage := item.stage, history := r.history + [item]))
    else None
  }

  /** A transition keeps records valid and appends one entry to the history of its predecessor. */
  lemma PromoteKeepsValid(r: Record, item: Item)
    requires Valid(r) && Promote(r, item).Some?
    ensures var p := Promote(r, item).value;
            Valid(p) && p.history == r.history + [item] && Index(p.stage) == Index(r.stage) + 1
  {
  }

  /** The record reached from the initial one by the given transitions. */
  function Replay(version: Version, revision: string, items: seq<Item>): (r: Option<Record>)
    requires version.semantic && IsHex(revision, 40)
    ensures r.Some? ==> Valid(r.value)
  {
    if items == [] then Some(Initial(version, revision))
    else
      var n := |items| - 1;
      match Replay(version, revision, items[..n])
      case None => None
      case Some(before) =>
        var r := Promote(before, items[n]);
        if r.Some? then PromoteKeepsValid(before, items[n]); r else None
  }

  /** A valid record with a history is the promotion of the one before it. */
  lemma WithoutLast(r: Record)
    requires Valid(r) && r.history != []
    ensures var n := |r.history| - 1;
            var before := r.(stage := STAGES[n], history := r.history[..n]);
            Valid(before) && Promote(before, r.history[n]) == Some(r)
  {
    var n := |r.history| - 1;
    assert Index(STAGES[n]) == n by {
      assert STAGES[Index(STAGES[n])] == STAGES[n];
    }
    assert r.history == r.history[..n] + [r.history[n]];
  }

  /** The valid records are the reachable ones: exactly what replaying their own history gives. */
  lemma {:induction false} ValidIsReachable(r: Record)
    requires r.version.semantic && IsHex(r.revision, 40)
    ensures Valid(r) <==> Replay(r.version, r.revision, r.history) == Some(r)
    decreases |r.history|
  {
    if r.history == [] {
    } else if Valid(r) {
      var n := |r.history| - 1;
      WithoutLast(r);
      ValidIsReachable(r.(stage := STAGES[n], history := r.history[..n]));
    }
  }

  // ---------------------------------------------------------------- record files

  /** A file holds a record, or a text that does not parse, as an interrupted write leaves behind. */
  datatype Document = Parsed(record: Record) | Malformed

  type Files = map<string, Document>

  /** `load_record`. */
  function Load(files: Files, path: string): (r: Option<Record>)
    ensures r.Some? <==> path in files && files[path].Parsed? && Valid(files[path].record)
  {
    if path in files && files[path].Parsed? && Valid(files[path].record) then Some(files[path].record) else None
  }

  datatype Transition = Transition(stage: Stage, url: Url, sha256: string)

  function At(t: Transition, time: int): Item {
    Item(t.stage, t.url, t.sha256, time)
  }

  /** The files after a complete `advance`, or nothing when it refuses. */
  function Advanced(
    files: Files, source: string, output: string, t: Transition, now: int, resume: bool): Option<Files>
  {
    var before := Load(files, source);
    if before.None? || Promote(before.value, At(t, now)).None? then None
    else if output !in files then Some(files[output := Parsed(Promote(before.value, At(t, now)).value)])
    else
      var existing := Load(files, output);
      if resume && existing.Some? && existing.value.history != [] && SavedAt(existing.value) <= now
         && Promote(before.value, At(t, SavedAt(existing.value))) == existing then Some(files)
      else None
  }

  function SavedAt(r: Record): int
    requires r.history != []
  {
    r.history[|r.history| - 1].recordedAt
  }

  predicate WriteOnce(a: Files, b: Files) {
    forall p :: p in a ==> p in b && b[p] == a[p]
  }

  /** Refused or not, no existing file changes; what appears is one valid record, one stage further. */
  lemma AdvanceWritesOnce(files: Files, source: string, output: string, t: Transition, now: int, resume: bool)
    requires Advanced(files, source, output, t, now, resume).Some?
    ensures var after := Advanced(files, source, output, t, now, resume).value;
            && WriteOnce(files, after) && Load(files, source).Some? && Load(after, output).Some?
            && Load(files, source).value.history <= Load(after, output).value.history
            && |Load(after, output).value.history| == |Load(files, source).value.history| + 1
            && (output in files ==> after == files)
  {
  }

  /** Resuming the identical transition later succeeds, whatever other files came in between, and changes nothing. */
  lemma ResumeSucceeds(files: Files, source: string, output: string, t: Transition, now: int, later: int, after: Files)
    requires output !in files && Advanced(files, source, output, t, now, false).Some? && now <= later
    requires WriteOnce(Advanced(files, source, output, t, now, false).value, after)
    ensures Advanced(after, source, output, t, later, true) == Some(after)
  {
  }

  /** Any other stage or evidence is refused, and so is any repetition without `resume` or at an earlier time. */
  lemma OtherTransitionsAreRefused(
    files: Files, source: string, output: string, t: Transition, now: int,
    other: Transition, time: int, resume: bool, after: Files)
    requires output !in files && Advanced(files, source, output, t, now, false).Some?
    requires WriteOnce(Advanced(files, source, output, t, now, false).value, after)
    requires other != t || !resume || time < now
    ensures Advanced(after, source, output, other, time, resume).None?
  {
  }

  /** After an interrupted `advance`, resuming it works exactly unless the interruption left an unfinished file. */
  lemma ResumeAfterInterruption(
    files: Files, source: string, output: string, t: Transition, now: int, later: int, after: Files)
    requires output !in files && Advanced(files, source, output, t, now, false).Some? && now <= later
    requires || after == files || after == files[output := Malformed]
             || after == Advanced(files, source, output, t, now, false).value
    ensures Advanced(after, source, output, t, later, true).Some? <==> after != files[output := Malformed]
  {
    var before := Load(files, source).value;
    assert Load(after, source) == Some(before);
    if after == files {
      assert Promote(before, At(t, later)).Some?;
    } else if after == Advanced(files, source, output, t, now, false).value {
      ResumeSucceeds(files, source, output, t, now, later, after);
      assert after[output].Parsed?;
    }
  }

  class RecordStore {
    var files: Files

    /** `write_new`: creates the file, then writes it; the process may end at either point. */
    method WriteNew(path: string, r: Record) returns (done: bool)
      modifies this
      ensures WriteOnce(old(files), files)
      ensures files == old(files) || files == old(files)[path := Malformed] || files == old(files)[path := Parsed(r)]
      ensures done ==> path !in old(files) && files == old(files)[path := Parsed(r)]
    {
      if path in files {
        return false;
      }
      if * {
        return false;
      }
      files := files[path := Malformed];
      if * {
        return false;
      }
      files := files[path := Parsed(r)];
      if * {
        return false;
      }
      return true;
    }

    /** `initialize`. */
    method Initialize(version: Version, revision: string, output: string) returns (done: bool)
      modifies this
      ensures WriteOnce(old(files), files)
      ensures done ==> Load(files, output) == Some(Initial(version, revision)) && output !in old(files)
      ensures forall p :: p in files && p !in old(files) && files[p].Parsed? ==> Valid(files[p].record)
    {
      if !version.semantic || !IsHex(revision, 40) {
        return false;
      }
      done := WriteNew(output, Initial(version, revision));
    }

    /** `advance`: does what `Advanced` says, or nothing, or leaves an unfinished file behind. */
    method Advance(source: string, output: string, t: Transition, now: int, resume: bool) returns (done: bool)
      modifies this
      ensures WriteOnce(old(files), files)
      ensures done ==> Advanced(old(files), source, output, t, now, resume) == Some(files)
      ensures Advanced(old(files), source, output, t, now, resume).None? ==> files == old(files)
      // A resumption writes nothing, so nothing can interrupt it.
      ensures resume && output in old(files) ==>
                (done <==> Advanced(old(files), source, output, t, now, resume).Some?)
      ensures forall p :: p in files && p !in old(files) && files[p].Parsed? ==> p == output && Valid(files[p].record)
    {
      var loaded := Load(files, source);
      if loaded.None? {
        return false;
      }
      var before := loaded.value;
      var updated := before.(stage := t.stage, history := before.history + [At(t, now)]);
      if Next(before.stage) != Some(t.stage) || !t.url.https || !IsHex(t.sha256, 64) || now < 0 {
        return false;
      }
      PromoteKeepsValid(before, At(t, now));
      var ok := ValidateRecord(updated);
      if !ok {
        return false;
      }
      if resume && output in files {
        var existing := Load(files, output);
        if existing.None? || existing.value.history == [] {
          return false;
        }
        var saved := SavedAt(existing.value);
        if saved > now {
          return false;
        }
        done := existing.value == updated.(history := before.history + [At(t, saved)]);
        return;
      }
      done := WriteNew(output, updated);
    }
  }

  /** Every file that parses holds a valid record. */
  predicate AllValid(files: Files) {
    forall p :: p in files && files[p].Parsed? ==> Valid(files[p].record)
  }

  /** Any number of processes, each initialising or advancing as it likes and ending wherever it ends. */
  method Operate(store: RecordStore, steps: nat)
    requires AllValid(store.files)
    modifies store
    ensures AllValid(store.files) && WriteOnce(old(store.files), store.files)
  {
    for k := 0 to steps
      invariant AllValid(store.files) && WriteOnce(old(store.files), store.files)
    {
      var done;
      var source: string, output: string := *, *;
      if * {
        var version: Version, revision: string := *, *;
        done := store.Initialize(version, revision, output);
      } else {
        var t: Transition, now: int, resume: bool := *, *, *;
        done := store.Advance(source, output, t, now, resume);
      }
    }
  }
}
