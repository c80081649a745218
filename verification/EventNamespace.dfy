/**
  Migration of the event namespace: `str.replace` of the retired name by the active one, over every
  candidate file, and the check that nothing of the retired name is left.
 */
module EventNamespace {
  import opened Outcomes
  import opened Text
  import opened Wrappers

  const LEGACY_NAMESPACE := "org.agentroom"
  const ACTIVE_NAMESPACE := "io.github.rainyflash.agentroom"

  /** `str.replace`: left to right, without overlaps. */
  function Replace(s: string, old_: string, new_: string): string
    requires old_ != ""
    decreases |s|
  {
    match Find(s, old_)
    case None => s
    case Some(i) => s[..i] + new_ + Replace(s[i + |old_|..], old_, new_)
  }

  /** A non-empty end of `a` that is also a beginning of `b`. */
  predicate Bridges(a: string, b: string, n: int) {
    0 < n <= |a| && n <= |b| && a[|a| - n..] == b[..n]
  }

  /**
    No occurrence of `old_` can arise around an inserted `new_`: none inside it, none entering it
    from the left or leaving it to the right, and none that covers it.
   */
  ghost predicate Inert(old_: string, new_: string) {
    && old_ != "" && |new_| >= |old_|
    && !Contains(new_, old_)
    && (forall n :: !Bridges(old_, new_, n))
    && (forall n :: !Bridges(new_, old_, n))
  }

  /** An occurrence that lies across a seam splits into an end of the left and a beginning of the right. */
  lemma OccurrenceAcross(a: string, b: string, p: string, i: nat)
    requires i < |a| < i + |p| <= |a| + |b|
    ensures OccursAt(a + b, p, i) ==> p[..|a| - i] == a[i..] && p[|a| - i..] == b[..i + |p| - |a|]
  {
    assert (a + b)[i..i + |p|] == a[i..] + b[..i + |p| - |a|];
  }

  /** No position around one inserted `new_` starts an occurrence. */
  lemma NoOccurrenceAround(left: string, new_: string, right: string, old_: string, i: nat)
    requires Inert(old_, new_) && !Contains(left, old_) && !Contains(right, old_)
    ensures !OccursAt(left + new_ + right, old_, i)
  {
    var s := left + new_ + right;
    var l, m, n := |left|, |new_|, |old_|;
    if i + n <= l {
      assert s[0..l] == left;
      OccursInPart(s, old_, 0, l, i);
    } else if i + n <= |s| && i >= l + m {
      assert s[l + m..|s|] == right;
      OccursInPart(s, old_, l + m, |s|, i);
    } else if i + n <= |s| && i < l {
      var k := i + n - l;
      assert s == left + (new_ + right) && (new_ + right)[..k] == new_[..k];
      OccurrenceAcross(left, new_ + right, old_, i);
      assert !Bridges(old_, new_, k);
    } else if i + n <= |s| && i + n > l + m {
      var k := l + m - i;
      assert s == (left + new_) + right && (left + new_)[i..] == new_[m - k..];
      OccurrenceAcross(left + new_, right, old_, i);
      assert !Bridges(new_, old_, k);
    } else if i + n <= |s| {
      assert s[l..l + m] == new_;
      OccursInPart(s, old_, l, l + m, i);
    }
  }

  /** The text left of the leftmost occurrence holds none. */
  lemma NothingBefore(s: string, p: string, i: nat)
    requires Find(s, p) == Some(i) && p != ""
    ensures !Contains(s[..i], p)
  {
    forall j | 0 <= j <= i - |p| ensures !OccursAt(s[..i], p, j) {
      OccursInPart(s, p, 0, i, j);
    }
  }

  /** For an inert pair, replacement leaves no occurrence in any text. */
  lemma {:induction false} ReplaceLeavesNothing(s: string, old_: string, new_: string)
    requires Inert(old_, new_)
    ensures !Contains(Replace(s, old_, new_), old_)
    decreases |s|
  {
    match Find(s, old_)
    case None =>
    case Some(i) =>
      ReplaceLeavesNothing(s[i + |old_|..], old_, new_);
      NothingBefore(s, old_, i);
      var right := Replace(s[i + |old_|..], old_, new_);
      forall j: nat ensures !OccursAt(s[..i] + new_ + right, old_, j) {
        NoOccurrenceAround(s[..i], new_, right, old_, j);
      }
  }

  lemma OnlyAnOccurrenceChangesText(s: string, old_: string, new_: string)
    requires Inert(old_, new_)
    ensures Replace(s, old_, new_) == s <==> !Contains(s, old_)
  {
    ReplaceLeavesNothing(s, old_, new_);
  }

  // ---------------------------------------------------------------- what replacement keeps

  /** The parts with a separator between any two. */
  function Glue(parts: seq<string>, separator: string): string
    requires parts != []
  {
    if |parts| == 1 then parts[0] else parts[0] + separator + Glue(parts[1..], separator)
  }

  /** No part holds the name. */
  predicate AllWithout(parts: seq<string>, name: string) {
    forall p :: p in parts ==> !Contains(p, name)
  }

  lemma GlueNext(first: string, rest: seq<string>, separator: string)
    requires rest != []
    ensures Glue([first] + rest, separator) == first + separator + Glue(rest, separator)
  {
    assert ([first] + rest)[1..] == rest;
  }

  /** A text around an occurrence. */
  lemma AroundOccurrence(s: string, p: string, i: nat)
    requires OccursAt(s, p, i)
    ensures s == s[..i] + p + s[i + |p|..]
  {
    assert s[..i] + s[i..i + |p|] == s[..i + |p|];
  }

  /** Every text is glued from parts without the name, and replacement puts the other name between them. */
  lemma {:induction false} ReplaceKeepsParts(s: string, old_: string, new_: string) returns (parts: seq<string>)
    requires old_ != ""
    ensures parts != [] && AllWithout(parts, old_)
    ensures s == Glue(parts, old_) && Replace(s, old_, new_) == Glue(parts, new_)
    decreases |s|
  {
    match Find(s, old_)
    case None => parts := [s];
    case Some(i) =>
      var rest := ReplaceKeepsParts(s[i + |old_|..], old_, new_);
      parts := [s[..i]] + rest;
      NothingBefore(s, old_, i);
      AroundOccurrence(s, old_, i);
      GlueNext(s[..i], rest, old_);
      GlueNext(s[..i], rest, new_);
  }

  /** The name does not overlap itself. */
  ghost predicate Unbordered(name: string) {
    name != "" && forall n :: 0 < n < |name| ==> !Bridges(name, name, n)
  }

  /** Then the first occurrence after a part without the name is the one that was put there. */
  lemma FirstSeparator(first: string, name: string, rest: string)
    requires Unbordered(name) && !Contains(first, name)
    ensures Find(first + name + rest, name) == Some(|first|)
  {
    var s, l, n := first + name + rest, |first|, |name|;
    assert s[l..l + n] == name;
    forall i | 0 <= i < l ensures !OccursAt(s, name, i) {
      if i + n <= l {
        assert s[0..l] == first;
        OccursInPart(s, name, 0, l, i);
      } else if i + n <= |s| {
        var k := i + n - l;
        assert s == first + (name + rest) && (name + rest)[..k] == name[..k];
        OccurrenceAcross(first, name + rest, name, i);
        assert !Bridges(name, name, k);
      }
    }
    var found := Find(s, name);
    assert OccursAt(s, name, l);
  }

  /** And whatever the parts are, exactly the names between them are replaced. */
  lemma {:induction false} ReplaceOfGlue(parts: seq<string>, old_: string, new_: string)
    requires parts != [] && AllWithout(parts, old_) && Unbordered(old_)
    ensures Replace(Glue(parts, old_), old_, new_) == Glue(parts, new_)
  {
    var first := parts[0];
    if |parts| == 1 {
      assert first in parts;
    } else {
      var rest := Glue(parts[1..], old_);
      var s := first + old_ + rest;
      ReplaceOfGlue(parts[1..], old_, new_);
      FirstSeparator(first, old_, rest);
      assert s[..|first|] == first && s[|first| + |old_|..] == rest;
    }
  }

  // ---------------------------------------------------------------- the two names

  /** The first two letters of `old_` never follow each other in `new_`. */
  predicate NoStart(old_: string, new_: string)
    requires |old_| > 1
  {
    forall i :: 0 <= i < |new_| - 1 ==> new_[i] != old_[0] || new_[i + 1] != old_[1]
  }

  /** Names are inert if one never starts in the other, and neither begins with a letter at the end of the other. */
  lemma InertByLetters(old_: string, new_: string)
    requires 1 < |old_| <= |new_| && NoStart(old_, new_)
    requires new_[0] !in old_ && new_[|new_| - 1] != old_[0]
    ensures Inert(old_, new_)
  {
    var o, n := old_, new_;
    forall i | 0 <= i <= |n| - |o| ensures !OccursAt(n, o, i) {
      OccursByLetters(n, o, i);
      assert n[i + 0] != o[0] || n[i + 1] != o[1];
    }
    forall k ensures !Bridges(o, n, k) {
      if 0 < k <= |o| {
        assert o[|o| - k..][0] == o[|o| - k] != n[0] == n[..k][0];
      }
    }
    forall k ensures !Bridges(n, o, k) {
      if 1 < k <= |o| {
        assert n[|n| - k] != o[0] || n[|n| - k + 1] != o[1];
        assert n[|n| - k..][0] == n[|n| - k] && n[|n| - k..][1] == n[|n| - k + 1];
        assert o[..k][0] == o[0] && o[..k][1] == o[1];
      } else if k == 1 {
        assert n[|n| - k..][0] == n[|n| - 1] && o[..k][0] == o[0];
      }
    }
  }

  lemma NamespacesAreInert()
    ensures Inert(LEGACY_NAMESPACE, ACTIVE_NAMESPACE)
  {
    var o, n := LEGACY_NAMESPACE, ACTIVE_NAMESPACE;
    assert n[0] == 'i' && n[1] == 'o' && n[2] == '.' && n[3] == 'g' && n[4] == 'i' && n[5] == 't' && n[6] == 'h'
           && n[7] == 'u' && n[8] == 'b' && n[9] == '.' && n[10] == 'r' && n[11] == 'a' && n[12] == 'i'
           && n[13] == 'n' && n[14] == 'y' && n[15] == 'f' && n[16] == 'l' && n[17] == 'a' && n[18] == 's'
           && n[19] == 'h' && n[20] == '.' && n[21] == 'a' && n[22] == 'g' && n[23] == 'e' && n[24] == 'n'
           && n[25] == 't' && n[26] == 'r' && n[27] == 'o' && n[28] == 'o' && n[29] == 'm';
    assert o[0] == 'o' && o[1] == 'r' && 'i' !in o;
    InertByLetters(o, n);
  }

  lemma LegacyIsUnbordered()
    ensures Unbordered(LEGACY_NAMESPACE)
  {
    var o := LEGACY_NAMESPACE;
    assert o[0] == 'o' && o[1] == 'r' && o[2] == 'g' && o[3] == '.' && o[4] == 'a' && o[5] == 'g' && o[6] == 'e'
           && o[7] == 'n' && o[8] == 't' && o[9] == 'r' && o[10] == 'o' && o[11] == 'o' && o[12] == 'm';
    forall n | 0 < n < |o| ensures !Bridges(o, o, n) {
      assert o[|o| - n..][0] == o[|o| - n] && o[..n][0] == o[0];
      if n > 1 {
        assert o[|o| - n..][1] == o[|o| - n + 1] && o[..n][1] == o[1];
      }
    }
  }

  // ---------------------------------------------------------------- files

  predicate Stale(text: string) {
    Contains(text, LEGACY_NAMESPACE)
  }

  function MigratedText(text: string): string {
    Replace(text, LEGACY_NAMESPACE, ACTIVE_NAMESPACE)
  }

  /** The files that `check` reports, in the order of the walk. */
  function StaleFiles(content: map<string, string>, files: seq<string>): seq<string>
    requires forall f :: f in files ==> f in content
  {
    if files == [] then []
    else
      var last := files[|files| - 1];
      StaleFiles(content, files[..|files| - 1]) + if Find(content[last], LEGACY_NAMESPACE).Some? then [last] else []
  }

  lemma StaleFilesNext(content: map<string, string>, before: seq<string>, last: string)
    requires last in content && forall f :: f in before ==> f in content
    ensures StaleFiles(content, before + [last])
         == StaleFiles(content, before) + if Stale(content[last]) then [last] else []
  {
    assert (before + [last])[..|before|] == before;
  }

  lemma {:induction false} StaleFilesAre(content: map<string, string>, files: seq<string>)
    requires forall f :: f in files ==> f in content
    ensures forall f :: f in StaleFiles(content, files) <==> f in files && Stale(content[f])
    ensures StaleFiles(content, files) == [] <==> forall f :: f in files ==> !Stale(content[f])
  {
    if files != [] {
      var before, last := files[..|files| - 1], files[|files| - 1];
      StaleFilesAre(content, before);
      assert files == before + [last];
      StaleFilesNext(content, before, last);
    }
  }

  /** The tree after a complete migration. */
  function MigratedTree(content: map<string, string>, files: seq<string>): map<string, string> {
    map f | f in content :: if f in files then MigratedText(content[f]) else content[f]
  }

  /** One text: migrating twice is migrating once, and only a stale text changes. */
  lemma MigratedTwice(text: string)
    ensures MigratedText(MigratedText(text)) == MigratedText(text)
    ensures MigratedText(text) == text <==> !Stale(text)
    ensures !Stale(MigratedText(text))
  {
    NamespacesAreInert();
    ReplaceLeavesNothing(text, LEGACY_NAMESPACE, ACTIVE_NAMESPACE);
    OnlyAnOccurrenceChangesText(text, LEGACY_NAMESPACE, ACTIVE_NAMESPACE);
    OnlyAnOccurrenceChangesText(MigratedText(text), LEGACY_NAMESPACE, ACTIVE_NAMESPACE);
  }

  /** The second text is the first one with the active name for the retired one, and nothing else is different. */
  ghost predicate Renamed(text: string, now: string) {
    exists parts :: parts != [] && AllWithout(parts, LEGACY_NAMESPACE)
                    && text == Glue(parts, LEGACY_NAMESPACE) && now == Glue(parts, ACTIVE_NAMESPACE)
  }

  /** Migration renames, and there is one way to do it. */
  lemma MigratedMeansRenamed(text: string, now: string)
    ensures now == MigratedText(text) <==> Renamed(text, now)
  {
    LegacyIsUnbordered();
    var parts := ReplaceKeepsParts(text, LEGACY_NAMESPACE, ACTIVE_NAMESPACE);
    if Renamed(text, now) {
      var others :| others != [] && AllWithout(others, LEGACY_NAMESPACE)
                    && text == Glue(others, LEGACY_NAMESPACE) && now == Glue(others, ACTIVE_NAMESPACE);
      ReplaceOfGlue(others, LEGACY_NAMESPACE, ACTIVE_NAMESPACE);
    }
  }

  lemma OneMoreFile(content: map<string, string>, files: seq<string>, k: nat)
    requires k < |files| && files[k] in content
    ensures var before := MigratedTree(content, files[..k]);
            MigratedTree(content, files[..k + 1]) == before[files[k] := MigratedText(before[files[k]])]
  {
    assert files[..k + 1] == files[..k] + [files[k]];
    MigratedTwice(content[files[k]]);
  }

  /** Migrating the stale files is migrating all of them. */
  lemma OnlyStaleFilesMatter(content: map<string, string>, files: seq<string>)
    requires forall f :: f in files ==> f in content
    ensures MigratedTree(content, StaleFiles(content, files)) == MigratedTree(content, files)
  {
    StaleFilesAre(content, files);
    forall f | f in files ensures MigratedText(content[f]) == content[f] <==> !Stale(content[f]) {
      MigratedTwice(content[f]);
    }
  }

  /** `check` succeeds after `migrate`. */
  lemma NothingStaleAfterMigration(content: map<string, string>, files: seq<string>)
    requires forall f :: f in files ==> f in content
    ensures StaleFiles(MigratedTree(content, files), files) == []
  {
    var tree := MigratedTree(content, files);
    StaleFilesAre(tree, files);
    forall f | f in files ensures !Stale(tree[f]) {
      MigratedTwice(content[f]);
    }
  }

  /** A beginning of the migrated text, in place of a stale one. */
  predicate CutFrom(text: string, now: string) {
    Stale(text) && now <= MigratedText(text)
  }

  /** No beginning of a migrated text is stale: a file that was cut is never reported and never rewritten. */
  lemma CutIsNotReported(text: string, now: string)
    requires CutFrom(text, now)
    ensures !Stale(now) && MigratedText(now) == now
  {
    var whole := MigratedText(text);
    MigratedTwice(text);
    forall j | 0 <= j <= |now| - |LEGACY_NAMESPACE| ensures !OccursAt(now, LEGACY_NAMESPACE, j) {
      OccursInPart(whole, LEGACY_NAMESPACE, 0, |now|, j);
    }
    MigratedTwice(now);
  }

  /** What interrupted migrations may leave. */
  predicate Partly(content: map<string, string>, now: map<string, string>, files: seq<string>) {
    && content.Keys == now.Keys
    && forall f :: f in content ==> now[f] == content[f] || (f in files && CutFrom(content[f], now[f]))
  }

  /** One interrupted migration after another. */
  lemma PartlyAgain(
    content: map<string, string>, now: map<string, string>, later: map<string, string>, files: seq<string>)
    requires Partly(content, now, files) && Partly(now, later, files)
    ensures Partly(content, later, files)
  {
    forall f | f in content && now[f] != content[f] ensures later[f] == now[f] {
      CutIsNotReported(content[f], now[f]);
    }
  }

  /** An interruption within file k of the loop. */
  lemma PartlyAfter(before: map<string, string>, now: map<string, string>, stale: seq<string>, k: nat)
    requires k < |stale| && forall f :: f in stale ==> f in before && Stale(before[f])
    requires now.Keys == before.Keys
    requires var tree := MigratedTree(before, stale[..k]);
             && (forall f :: f in before && f != stale[k] ==> now[f] == tree[f])
             && (now[stale[k]] == tree[stale[k]] || now[stale[k]] <= MigratedText(tree[stale[k]]))
    ensures Partly(before, now, stale)
  {
    MigratedTwice(before[stale[k]]);
  }

  /** No file was cut: each is as it was, or as it should be. */
  predicate NothingCut(content: map<string, string>, now: map<string, string>)
    requires content.Keys == now.Keys
  {
    forall f :: f in content ==> now[f] == content[f] || now[f] == MigratedText(content[f])
  }

  lemma OneFileConverges(text: string, now: string)
    requires now == text || CutFrom(text, now)
    ensures MigratedText(now) == MigratedText(text) <==> now == text || now == MigratedText(text)
  {
    MigratedTwice(text);
    if now != text {
      CutIsNotReported(text, now);
    }
  }

  lemma SameTree(a: map<string, string>, b: map<string, string>)
    requires a.Keys == b.Keys
    ensures a == b <==> forall f :: f in a ==> a[f] == b[f]
  {
  }

  /** After interruptions, a complete run ends in the tree of an uninterrupted one exactly when no file was cut. */
  lemma MigrationConverges(content: map<string, string>, partial: map<string, string>, files: seq<string>)
    requires Partly(content, partial, files)
    ensures MigratedTree(partial, files) == MigratedTree(content, files) <==> NothingCut(content, partial)
  {
    var ends, should := MigratedTree(partial, files), MigratedTree(content, files);
    forall f | f in content
      ensures ends[f] == should[f] <==> partial[f] == content[f] || partial[f] == MigratedText(content[f])
    {
      OneFileConverges(content[f], partial[f]);
    }
    SameTree(ends, should);
  }

  lemma TreeIsRenamed(content: map<string, string>, files: seq<string>)
    ensures forall f :: f in content && f in files ==> Renamed(content[f], MigratedTree(content, files)[f])
  {
    forall f | f in content && f in files ensures Renamed(content[f], MigratedTree(content, files)[f]) {
      MigratedMeansRenamed(content[f], MigratedText(content[f]));
    }
  }

  class Tree {
    var content: map<string, string>

    /** `legacy_occurrences` over the candidate files. */
    method LegacyOccurrences(files: seq<string>) returns (stale: seq<string>)
      requires forall f :: f in files ==> f in content
      ensures stale == StaleFiles(content, files)
    {
      stale := [];
      for k := 0 to |files|
        invariant stale == StaleFiles(content, files[..k])
      {
        assert files[..k + 1][..k] == files[..k];
        if Find(content[files[k]], LEGACY_NAMESPACE).Some? {
          stale := stale + [files[k]];
        }
      }
      assert files[..|files|] == files;
    }

    /** `write_text`: empties the file, then writes it; the process may end before, after, or anywhere between. */
    method Rewrite(file: string) returns (o: Outcome)
      requires file in content
      modifies this
      ensures content.Keys == old(content).Keys
      ensures forall f :: f in content && f != file ==> content[f] == old(content)[f]
      ensures content == old(content) || content[file] <= MigratedText(old(content)[file])
      ensures o.Done? ==> content == old(content)[file := MigratedText(old(content)[file])]
    {
      if * {
        return Stopped;
      }
      var text := MigratedText(content[file]);
      var written: int := *;
      if 0 <= written < |text| {
        content := content[file := text[..written]];
        return Stopped;
      }
      content := content[file := text];
      if * {
        return Stopped;
      }
      return Done;
    }

    /** One turn of the loop of `migrate`. */
    method RewriteNext(stale: seq<string>, k: nat, ghost before: map<string, string>) returns (o: Outcome)
      requires k < |stale| && forall f :: f in stale ==> f in before && Stale(before[f])
      requires content == MigratedTree(before, stale[..k])
      modifies this
      ensures Partly(before, content, stale)
      ensures o.Done? ==> content == MigratedTree(before, stale[..k + 1])
    {
      OneMoreFile(before, stale, k);
      o := Rewrite(stale[k]);
      PartlyAfter(before, content, stale, k);
    }

    /** The loop of `migrate`. */
    method RewriteAll(stale: seq<string>) returns (o: Outcome, changed: seq<string>)
      requires forall f :: f in stale ==> f in content && Stale(content[f])
      modifies this
      ensures Partly(old(content), content, stale)
      ensures o.Done? ==> content == MigratedTree(old(content), stale) && changed == stale
    {
      assert stale[..0] == [] && MigratedTree(content, []) == content;
      changed := [];
      for k := 0 to |stale|
        invariant Partly(old(content), content, stale)
        invariant changed == stale[..k] && content == MigratedTree(old(content), stale[..k])
      {
        o := RewriteNext(stale, k, old(content));
        if o.Stopped? {
          return;
        }
        changed := changed + [stale[k]];
      }
      assert stale[..|stale|] == stale;
      return Done, changed;
    }

    /** `migrate`: rewrites the stale files and reports them. */
    method Migrate(files: seq<string>) returns (o: Outcome, changed: seq<string>)
      requires forall f :: f in files ==> f in content
      modifies this
      ensures Partly(old(content), content, files)
      ensures o.Done? ==> content == MigratedTree(old(content), files) && changed == StaleFiles(old(content), files)
      ensures o.Done? ==> content.Keys == old(content).Keys && forall f :: f in content ==>
                if f in files then Renamed(old(content)[f], content[f]) else content[f] == old(content)[f]
    {
      var stale := LegacyOccurrences(files);
      StaleFilesAre(content, files);
      OnlyStaleFilesMatter(content, files);
      o, changed := RewriteAll(stale);
      TreeIsRenamed(old(content), files);
    }

    /** `main --write`: migrate, then check; run again, it changes no file. */
    method MigrateAndCheck(files: seq<string>) returns (o: Outcome, changed: seq<string>, stale: seq<string>)
      requires forall f :: f in files ==> f in content
      modifies this
      ensures Partly(old(content), content, files)
      ensures o.Done? ==> stale == [] && content == MigratedTree(old(content), files)
      ensures o.Done? ==> forall f :: f in content && f in files ==> Renamed(old(content)[f], content[f])
      ensures o.Done? ==> (changed == [] <==> content == old(content))
    {
      stale := [];
      o, changed := Migrate(files);
      if o.Done? {
        NothingStaleAfterMigration(old(content), files);
        stale := LegacyOccurrences(files);
        StaleFilesAre(old(content), files);
        forall f | f in files ensures Stale(old(content)[f]) <==> content[f] != old(content)[f] {
          MigratedTwice(old(content)[f]);
        }
      }
    }
  }

  /**
    Any number of migrations, each ending wherever it ends, and a complete one: it succeeds in any case, and the
    files are those of an uninterrupted migration exactly when no interruption cut one.
   */
  method Operate(tree: Tree, files: seq<string>, runs: nat)
    returns (o: Outcome, ghost partial: map<string, string>, stale: seq<string>)
    requires forall f :: f in files ==> f in tree.content
    modifies tree
    ensures Partly(old(tree.content), partial, files)
    ensures o.Done? ==> stale == []
    ensures o.Done? ==>
              (tree.content == MigratedTree(old(tree.content), files) <==> NothingCut(old(tree.content), partial))
  {
    var changed;
    for k := 0 to runs
      invariant Partly(old(tree.content), tree.content, files)
    {
      ghost var now := tree.content;
      o, changed, stale := tree.MigrateAndCheck(files);
      PartlyAgain(old(tree.content), now, tree.content, files);
    }
    partial := tree.content;
    MigrationConverges(old(tree.content), partial, files);
    o, changed, stale := tree.MigrateAndCheck(files);
  }
}
