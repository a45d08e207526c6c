/**
 * The backup-job registry of `backup_manager.py`: jobs with exclusion
 * patterns, and the change detection of full, incremental and differential
 * backups.  The walk of the source directory is given as a sequence of file
 * entries, each with its path, its path relative to the source and the hash
 * of its contents; copying, zipping and hashing themselves are not modelled.
 */
module BackupManager {
  import opened Wrappers
  import opened Json
  import opened Text
  import opened Seqs

  const Full := "full"
  const Incremental := "incremental"
  const Differential := "differential"

  datatype BackupJob = BackupJob(
    source: string,
    destination: string,
    name: string,
    backupType: string,
    schedule: string,
    compress: bool,
    excludePatterns: seq<string>,
    lastBackup: Option<string>,
    fileHashes: map<string, string>)

  /** A fresh job: no schedule, compressed, no patterns, never backed up. */
  function NewJob(source: string, destination: string, name: string, backupType: string): (j: BackupJob)
    ensures j.source == source && j.destination == destination && j.name == name && j.backupType == backupType
    ensures j.schedule == "" && j.compress && j.excludePatterns == []
    ensures j.lastBackup == None && j.fileHashes == map[]
  {
    BackupJob(source, destination, name, backupType, "", true, [], None, map[])
  }

  // ---------------------------------------------------------------------
  // The saved form

  function ToDict(j: BackupJob): Json {
    JObj(map[
      "source" := JStr(j.source),
      "destination" := JStr(j.destination),
      "name" := JStr(j.name),
      "backup_type" := JStr(j.backupType),
      "schedule" := JStr(j.schedule),
      "compress" := JBool(j.compress),
      "exclude_patterns" := Strs(j.excludePatterns),
      "last_backup" := (if j.lastBackup.Some? then JStr(j.lastBackup.value) else JNull),
      "file_hashes" := StrMap(j.fileHashes)])
  }

  function AsOptStr(j: Json): Option<Option<string>> {
    if j.JNull? then Some(None) else if j.JStr? then Some(Some(j.s)) else None
  }

  /** The nine keys `from_dict` looks up. */
  predicate HasJobKeys(m: map<string, Json>) {
    && "source" in m && "destination" in m && "name" in m && "backup_type" in m && "schedule" in m
    && "compress" in m && "exclude_patterns" in m && "last_backup" in m && "file_hashes" in m
  }

  /**
   * `BackupJob.from_dict`: `None` where Python would raise (a missing key)
   * or where a value does not have the type of the job's field; otherwise
   * every field is the value stored under its key.
   */
  function FromDict(d: Json): (r: Option<BackupJob>)
    ensures d.JObj? && !HasJobKeys(d.fields) ==> r.None?
    ensures r.Some? ==> d.JObj? && HasJobKeys(d.fields)
    ensures r.Some? ==> var m := d.fields;
      && GetStr(m, "source") == Some(r.value.source) && GetStr(m, "destination") == Some(r.value.destination)
      && GetStr(m, "name") == Some(r.value.name) && GetStr(m, "backup_type") == Some(r.value.backupType)
      && GetStr(m, "schedule") == Some(r.value.schedule) && GetBool(m, "compress") == Some(r.value.compress)
      && AsStrs(m["exclude_patterns"]) == Some(r.value.excludePatterns)
      && AsOptStr(m["last_backup"]) == Some(r.value.lastBackup)
      && AsStrMap(m["file_hashes"]) == Some(r.value.fileHashes)
    ensures d.JObj? && HasJobKeys(d.fields) ==> var m := d.fields;
      (r.Some? <==> GetStr(m, "source").Some? && GetStr(m, "destination").Some? && GetStr(m, "name").Some?
                    && GetStr(m, "backup_type").Some? && GetStr(m, "schedule").Some? && GetBool(m, "compress").Some?
                    && AsStrs(m["exclude_patterns"]).Some? && AsOptStr(m["last_backup"]).Some?
                    && AsStrMap(m["file_hashes"]).Some?)
  {
    if !d.JObj? then None else
    var m := d.fields;
    var source := GetStr(m, "source");
    var destination := GetStr(m, "destination");
    var name := GetStr(m, "name");
    var backupType := GetStr(m, "backup_type");
    var schedule := GetStr(m, "schedule");
    var compress := GetBool(m, "compress");
    var patterns := if "exclude_patterns" in m then AsStrs(m["exclude_patterns"]) else None;
    var last := if "last_backup" in m then AsOptStr(m["last_backup"]) else None;
    var hashes := if "file_hashes" in m then AsStrMap(m["file_hashes"]) else None;
    if source.None? || destination.None? || name.None? || backupType.None? || schedule.None?
       || compress.None? || patterns.None? || last.None? || hashes.None? then None
    else Some(BackupJob(source.value, destination.value, name.value, backupType.value, schedule.value,
                        compress.value, patterns.value, last.value, hashes.value))
  }

  /** The saved form holds each field under its own key. */
  lemma ToDictFields(j: BackupJob)
    ensures var m := ToDict(j).fields;
      GetStr(m, "source") == Some(j.source) && GetStr(m, "destination") == Some(j.destination)
      && GetStr(m, "name") == Some(j.name) && GetStr(m, "backup_type") == Some(j.backupType)
      && GetStr(m, "schedule") == Some(j.schedule) && GetBool(m, "compress") == Some(j.compress)
      && "exclude_patterns" in m && m["exclude_patterns"] == Strs(j.excludePatterns)
      && "last_backup" in m && AsOptStr(m["last_backup"]) == Some(j.lastBackup)
      && "file_hashes" in m && m["file_hashes"] == StrMap(j.fileHashes)
  {
  }

  lemma FromDictToDict(j: BackupJob)
    ensures FromDict(ToDict(j)) == Some(j)
  {
    ToDictFields(j);
    AsStrsStrs(j.excludePatterns);
    AsStrMapStrMap(j.fileHashes);
  }

  // ---------------------------------------------------------------------
  // Exclusion patterns

  /** `_should_backup_file`: no pattern occurs anywhere in the path. */
  function ShouldBackupFile(path: string, patterns: seq<string>): (r: bool)
    ensures r <==> forall i, k :: 0 <= i < |patterns| ==> !OccursAt(path, patterns[i], k)
  {
    if patterns == [] then true
    else
      var rest := ShouldBackupFile(path, patterns[1..]);
      assert forall i :: 0 < i < |patterns| ==> patterns[i] == patterns[1..][i - 1];
      !Contains(path, patterns[0]) && rest
  }

  /** `add_exclude_pattern` on a known job: append unless already present. */
  function WithPattern(patterns: seq<string>, p: string): (r: seq<string>)
    ensures p in r && patterns <= r && |r| <= |patterns| + 1
    ensures forall q :: q in r <==> q in patterns || q == p
  {
    if p in patterns then patterns else patterns + [p]
  }

  /** Python's `list.remove`: drops the first occurrence of `p`, if any. */
  function WithoutPattern(patterns: seq<string>, p: string): (r: seq<string>)
    ensures p !in patterns ==> r == patterns
    ensures p in patterns ==> |r| == |patterns| - 1 && multiset(r) == multiset(patterns) - multiset{p}
  {
    if patterns == [] then []
    else
      assert patterns == [patterns[0]] + patterns[1..];
      if patterns[0] == p then patterns[1..]
      else [patterns[0]] + WithoutPattern(patterns[1..], p)
  }

  ghost predicate Distinct(xs: seq<string>) {
    forall i, j :: 0 <= i < j < |xs| ==> xs[i] != xs[j]
  }

  /** Adding a pattern twice is adding it once. */
  lemma WithPatternIdempotent(patterns: seq<string>, p: string)
    ensures WithPattern(WithPattern(patterns, p), p) == WithPattern(patterns, p)
  {
  }

  /** Adding keeps patterns distinct, as they are when only `add_exclude_pattern` builds them. */
  lemma WithPatternDistinct(patterns: seq<string>, p: string)
    requires Distinct(patterns)
    ensures Distinct(WithPattern(patterns, p))
  {
  }

  /** Removing a pattern that was just added gives back the old list. */
  lemma WithoutWithPattern(patterns: seq<string>, p: string)
    requires p !in patterns
    ensures WithoutPattern(WithPattern(patterns, p), p) == patterns
  {
    WithoutAppended(patterns, p);
  }

  lemma {:induction false} WithoutAppended(patterns: seq<string>, p: string)
    requires p !in patterns
    ensures WithoutPattern(patterns + [p], p) == patterns
  {
    if patterns != [] {
      assert (patterns + [p])[1..] == patterns[1..] + [p];
      WithoutAppended(patterns[1..], p);
    }
  }

  /** On distinct patterns, removal really gets rid of the pattern. */
  lemma {:induction false} WithoutPatternGone(patterns: seq<string>, p: string)
    requires Distinct(patterns)
    ensures p !in WithoutPattern(patterns, p)
  {
    if patterns != [] {
      var rest := patterns[1..];
      assert forall j :: 0 <= j < |rest| ==> rest[j] == patterns[j + 1];
      if patterns[0] != p {
        WithoutPatternGone(rest, p);
      }
    }
  }

  /** Every extra pattern can only exclude more files. */
  lemma MorePatternsExcludeMore(path: string, patterns: seq<string>, p: string)
    requires ShouldBackupFile(path, WithPattern(patterns, p))
    ensures ShouldBackupFile(path, patterns) && !Contains(path, p)
  {
    var ps := WithPattern(patterns, p);
    var i :| 0 <= i < |ps| && ps[i] == p;
    forall j, k | 0 <= j < |patterns| ensures !OccursAt(path, patterns[j], k) {
      assert patterns[j] == ps[j];
    }
    assert forall k :: !OccursAt(path, ps[i], k);
  }

  // ---------------------------------------------------------------------
  // Change detection

  /** One file of the walk: its path, its path relative to the source, and its hash. */
  datatype FileEntry = FileEntry(path: string, relPath: string, hash: string)

  /** The file is new to `hashes` or its contents changed. */
  predicate IsChanged(hashes: map<string, string>, f: FileEntry) {
    f.relPath !in hashes || hashes[f.relPath] != f.hash
  }

  function ShouldBackup(patterns: seq<string>): FileEntry -> bool {
    (f: FileEntry) => ShouldBackupFile(f.path, patterns)
  }

  function ChangedAgainst(patterns: seq<string>, hashes: map<string, string>): FileEntry -> bool {
    (f: FileEntry) => ShouldBackupFile(f.path, patterns) && IsChanged(hashes, f)
  }

  /** No two entries of a walk share a relative path. */
  ghost predicate DistinctPaths(files: seq<FileEntry>) {
    forall i, j :: 0 <= i < j < |files| ==> files[i].relPath != files[j].relPath
  }

  /**
   * The incremental scan over `files`, in walk order: the changed files,
   * and the hashes after each changed file's new hash is recorded.
   */
  function IncrementalScan(files: seq<FileEntry>, patterns: seq<string>, hashes: map<string, string>)
    : (seq<FileEntry>, map<string, string>)
  {
    if files == [] then ([], hashes)
    else
      var prev := IncrementalScan(files[..|files| - 1], patterns, hashes);
      var f := files[|files| - 1];
      if ShouldBackupFile(f.path, patterns) && IsChanged(prev.1, f) then (prev.0 + [f], prev.1[f.relPath := f.hash])
      else prev
  }

  /** The hashes a full backup records: every file that passes the patterns. */
  function FullScan(files: seq<FileEntry>, patterns: seq<string>, hashes: map<string, string>): map<string, string> {
    if files == [] then hashes
    else
      var prev := FullScan(files[..|files| - 1], patterns, hashes);
      var f := files[|files| - 1];
      if ShouldBackupFile(f.path, patterns) then prev[f.relPath := f.hash] else prev
  }

  /**
   * The hashes after an incremental scan: each file that passes the
   * patterns has its own hash, and every other key keeps its old value.
   */
  lemma {:induction false} IncrementalHashes(files: seq<FileEntry>, patterns: seq<string>, hashes: map<string, string>)
    requires DistinctPaths(files)
    ensures forall i :: 0 <= i < |files| && ShouldBackupFile(files[i].path, patterns) ==>
      files[i].relPath in IncrementalScan(files, patterns, hashes).1
      && IncrementalScan(files, patterns, hashes).1[files[i].relPath] == files[i].hash
    ensures forall k :: (forall i :: 0 <= i < |files| ==> files[i].relPath != k) ==>
      (k in IncrementalScan(files, patterns, hashes).1 <==> k in hashes)
      && (k in hashes ==> IncrementalScan(files, patterns, hashes).1[k] == hashes[k])
  {
    forall k | forall i :: 0 <= i < |files| ==> files[i].relPath != k
      ensures (k in IncrementalScan(files, patterns, hashes).1 <==> k in hashes)
      ensures k in hashes ==> IncrementalScan(files, patterns, hashes).1[k] == hashes[k]
    {
      IncrementalKeeps(files, patterns, hashes, k);
    }
    forall i | 0 <= i < |files| && ShouldBackupFile(files[i].path, patterns)
      ensures files[i].relPath in IncrementalScan(files, patterns, hashes).1
      ensures IncrementalScan(files, patterns, hashes).1[files[i].relPath] == files[i].hash
    {
      IncrementalHashAt(files, patterns, hashes, i);
    }
  }

  /** A file that passes the patterns has its own hash once the scan is over. */
  lemma {:induction false} IncrementalHashAt(files: seq<FileEntry>, patterns: seq<string>, hashes: map<string, string>, i: nat)
    requires DistinctPaths(files) && i < |files| && ShouldBackupFile(files[i].path, patterns)
    ensures files[i].relPath in IncrementalScan(files, patterns, hashes).1
    ensures IncrementalScan(files, patterns, hashes).1[files[i].relPath] == files[i].hash
  {
    var init := files[..|files| - 1];
    if i < |files| - 1 {
      assert init[i] == files[i];
      assert files[i].relPath != files[|files| - 1].relPath;
      assert DistinctPaths(init) by {
        assert forall a :: 0 <= a < |init| ==> init[a] == files[a];
      }
      IncrementalHashAt(init, patterns, hashes, i);
    }
  }

  /** A relative path the walk does not reach keeps its recorded hash, or its absence. */
  lemma {:induction false} IncrementalKeeps(files: seq<FileEntry>, patterns: seq<string>, hashes: map<string, string>, k: string)
    requires forall i :: 0 <= i < |files| ==> files[i].relPath != k
    ensures k in IncrementalScan(files, patterns, hashes).1 <==> k in hashes
    ensures k in hashes ==> IncrementalScan(files, patterns, hashes).1[k] == hashes[k]
  {
    if files != [] {
      var init := files[..|files| - 1];
      assert forall i :: 0 <= i < |init| ==> init[i] == files[i];
      IncrementalKeeps(init, patterns, hashes, k);
    }
  }

  /** The hashes after a full scan agree with those after an incremental scan. */
  lemma {:induction false} FullScanHashes(files: seq<FileEntry>, patterns: seq<string>, hashes: map<string, string>)
    ensures FullScan(files, patterns, hashes) == IncrementalScan(files, patterns, hashes).1
  {
    if files != [] {
      FullScanHashes(files[..|files| - 1], patterns, hashes);
    }
  }

  /**
   * On a walk with distinct relative paths, an incremental scan picks the
   * same files as a differential scan against the same recorded hashes.
   */
  lemma {:induction false} IncrementalIsDifferential(files: seq<FileEntry>, patterns: seq<string>, hashes: map<string, string>)
    requires DistinctPaths(files)
    ensures IncrementalScan(files, patterns, hashes).0 == Filter(ChangedAgainst(patterns, hashes), files)
  {
    if files != [] {
      var init := files[..|files| - 1];
      var f := files[|files| - 1];
      assert forall i :: 0 <= i < |init| ==> init[i] == files[i] && init[i].relPath != f.relPath;
      IncrementalIsDifferential(init, patterns, hashes);
      IncrementalKeeps(init, patterns, hashes, f.relPath);
      FilterLast(ChangedAgainst(patterns, hashes), files);
    }
  }

  /**
   * Once a full backup has recorded the hashes of a walk, an incremental or
   * differential backup of the same unchanged walk finds nothing to copy.
   */
  lemma NothingChangedAfterFull(files: seq<FileEntry>, patterns: seq<string>, hashes: map<string, string>)
    requires DistinctPaths(files)
    ensures IncrementalScan(files, patterns, FullScan(files, patterns, hashes)).0 == []
  {
    var h := FullScan(files, patterns, hashes);
    FullScanHashes(files, patterns, hashes);
    IncrementalHashes(files, patterns, hashes);
    IncrementalIsDifferential(files, patterns, h);
    FilterNone(ChangedAgainst(patterns, h), files);
  }

  // ---------------------------------------------------------------------
  // The manager

  class Manager {
    /** The jobs by name. */
    var jobs: map<string, BackupJob>

    ghost predicate Valid()
      reads this
    {
      forall n :: n in jobs ==> jobs[n].name == n
    }

    constructor()
      ensures Valid() && jobs == map[]
    {
      jobs := map[];
    }

    /** `add_job`, given whether the source path exists. */
    method AddJob(source: string, destination: string, name: string, backupType: string, sourceExists: bool)
      returns (ok: bool)
      requires Valid()
      modifies this
      ensures Valid()
      ensures ok <==> name !in old(jobs) && sourceExists
      ensures ok ==> jobs == old(jobs)[name := NewJob(source, destination, name, backupType)]
      ensures !ok ==> jobs == old(jobs)
    {
      if name in jobs {
        return false;
      }
      if !sourceExists {
        return false;
      }
      jobs := jobs[name := NewJob(source, destination, name, backupType)];
      return true;
    }

    method RemoveJob(name: string) returns (ok: bool)
      requires Valid()
      modifies this
      ensures Valid()
      ensures ok <==> name in old(jobs)
      ensures jobs == old(jobs) - {name}
    {
      if name !in jobs {
        return false;
      }
      jobs := jobs - {name};
      return true;
    }

    /**
     * `run_backup`: a known job is handed to the worker and `true` returned;
     * an unknown one gives `false`.
     */
    method RunBackup(name: string) returns (ok: bool)
      ensures ok <==> name in jobs
    {
      if name !in jobs {
        return false;
      }
      return true;
    }

    method SetSchedule(name: string, schedule: string) returns (ok: bool)
      requires Valid()
      modifies this
      ensures Valid()
      ensures ok <==> name in old(jobs)
      ensures jobs == if ok then old(jobs)[name := old(jobs)[name].(schedule := schedule)] else old(jobs)
    {
      if name !in jobs {
        return false;
      }
      jobs := jobs[name := jobs[name].(schedule := schedule)];
      return true;
    }

    method SetCompression(name: string, compress: bool) returns (ok: bool)
      requires Valid()
      modifies this
      ensures Valid()
      ensures ok <==> name in old(jobs)
      ensures jobs == if ok then old(jobs)[name := old(jobs)[name].(compress := compress)] else old(jobs)
    {
      if name !in jobs {
        return false;
      }
      jobs := jobs[name := jobs[name].(compress := compress)];
      return true;
    }

    method AddExcludePattern(name: string, pattern: string) returns (ok: bool)
      requires Valid()
      modifies this
      ensures Valid()
      ensures ok <==> name in old(jobs)
      ensures jobs == if ok then old(jobs)[name := old(jobs)[name].(
        excludePatterns := WithPattern(old(jobs)[name].excludePatterns, pattern))] else old(jobs)
    {
      if name !in jobs {
        return false;
      }
      var j := jobs[name];
      if pattern !in j.excludePatterns {
        jobs := jobs[name := j.(excludePatterns := j.excludePatterns + [pattern])];
      }
      return true;
    }

    method RemoveExcludePattern(name: string, pattern: string) returns (ok: bool)
      requires Valid()
      modifies this
      ensures Valid()
      ensures ok <==> name in old(jobs)
      ensures jobs == if ok then old(jobs)[name := old(jobs)[name].(
        excludePatterns := WithoutPattern(old(jobs)[name].excludePatterns, pattern))] else old(jobs)
    {
      if name !in jobs {
        return false;
      }
      var j := jobs[name];
      if pattern in j.excludePatterns {
        jobs := jobs[name := j.(excludePatterns := WithoutPattern(j.excludePatterns, pattern))];
      }
      return true;
    }

    /** The loop of `_incremental_backup`: collects changed files and records their hashes. */
    static method ScanIncremental(files: seq<FileEntry>, patterns: seq<string>, hashes: map<string, string>)
      returns (changed: seq<FileEntry>, newHashes: map<string, string>)
      ensures (changed, newHashes) == IncrementalScan(files, patterns, hashes)
    {
      changed, newHashes := [], hashes;
      for i := 0 to |files|
        invariant (changed, newHashes) == IncrementalScan(files[..i], patterns, hashes)
      {
        assert files[..i + 1][..i] == files[..i];
        var f := files[i];
        if !ShouldBackupFile(f.path, patterns) {
          continue;
        }
        if f.relPath !in newHashes || newHashes[f.relPath] != f.hash {
          changed := changed + [f];
          newHashes := newHashes[f.relPath := f.hash];
        }
      }
      assert files[..|files|] == files;
    }

    /** The loop of `_differential_backup`: the same test, with the hashes left alone. */
    static method ScanDifferential(files: seq<FileEntry>, patterns: seq<string>, hashes: map<string, string>)
      returns (changed: seq<FileEntry>)
      ensures changed == Filter(ChangedAgainst(patterns, hashes), files)
    {
      changed := [];
      for i := 0 to |files|
        invariant changed == Filter(ChangedAgainst(patterns, hashes), files[..i])
      {
        var f := files[i];
        FilterSnoc(ChangedAgainst(patterns, hashes), files[..i], f);
        assert files[..i + 1] == files[..i] + [f];
        if ShouldBackupFile(f.path, patterns) && IsChanged(hashes, f) {
          changed := changed + [f];
        }
      }
      assert files[..|files|] == files;
    }

    /** The hashing loop of `_full_backup`. */
    static method ScanFull(files: seq<FileEntry>, patterns: seq<string>, hashes: map<string, string>)
      returns (newHashes: map<string, string>)
      ensures newHashes == FullScan(files, patterns, hashes)
    {
      newHashes := hashes;
      for i := 0 to |files|
        invariant newHashes == FullScan(files[..i], patterns, hashes)
      {
        assert files[..i + 1][..i] == files[..i];
        var f := files[i];
        if ShouldBackupFile(f.path, patterns) {
          newHashes := newHashes[f.relPath := f.hash];
        }
      }
      assert files[..|files|] == files;
    }

    /**
     * `_execute_backup` of the job `name` over the walk `files`, finishing
     * at `now`; `raised` says whether writing the backup raised.  Returns the
     * files written to the backup, `None` when it raised.  A full backup
     * copies the whole tree when it does not compress; an unknown backup
     * type copies nothing.  A backup that completes records its hashes and
     * `now`; one that raised leaves the finishing time and every field but
     * the hashes as they were.
     */
    method ExecuteBackup(name: string, files: seq<FileEntry>, now: string, raised: bool)
      returns (copied: Option<seq<FileEntry>>)
      requires Valid() && name in jobs
      modifies this
      ensures Valid() && name in jobs
      ensures copied.None? <==> raised
      ensures raised ==> jobs == old(jobs)[name := old(jobs)[name].(fileHashes := jobs[name].fileHashes)]
      ensures
        var j := old(jobs)[name];
        var hashes :=
          if j.backupType == Full then FullScan(files, j.excludePatterns, j.fileHashes)
          else if j.backupType == Incremental then IncrementalScan(files, j.excludePatterns, j.fileHashes).1
          else j.fileHashes;
        !raised ==> jobs == old(jobs)[name := j.(fileHashes := hashes, lastBackup := Some(now))]
      ensures
        var j := old(jobs)[name];
        !raised ==> copied == Some(
          if j.backupType == Full then (if j.compress then Filter(ShouldBackup(j.excludePatterns), files) else files)
          else if j.backupType == Incremental then IncrementalScan(files, j.excludePatterns, j.fileHashes).0
          else if j.backupType == Differential then Filter(ChangedAgainst(j.excludePatterns, j.fileHashes), files)
          else [])
    {
      if raised {
        return None;
      }
      var j := jobs[name];
      var hashes := j.fileHashes;
      var written: seq<FileEntry>;
      if j.backupType == Full {
        hashes := ScanFull(files, j.excludePatterns, j.fileHashes);
        if j.compress {
          written := FilterFiles(files, j.excludePatterns);
        } else {
          written := files;
        }
      } else if j.backupType == Incremental {
        written, hashes := ScanIncremental(files, j.excludePatterns, j.fileHashes);
      } else if j.backupType == Differential {
        written := ScanDifferential(files, j.excludePatterns, j.fileHashes);
      } else {
        written := [];
      }
      jobs := jobs[name := j.(fileHashes := hashes, lastBackup := Some(now))];
      copied := Some(written);
    }

    /** The files a compressed full backup writes: those that pass the patterns, in walk order. */
    static method FilterFiles(files: seq<FileEntry>, patterns: seq<string>) returns (kept: seq<FileEntry>)
      ensures kept == Filter(ShouldBackup(patterns), files)
    {
      kept := [];
      for i := 0 to |files|
        invariant kept == Filter(ShouldBackup(patterns), files[..i])
      {
        FilterSnoc(ShouldBackup(patterns), files[..i], files[i]);
        assert files[..i + 1] == files[..i] + [files[i]];
        if ShouldBackupFile(files[i].path, patterns) {
          kept := kept + [files[i]];
        }
      }
      assert files[..|files|] == files;
    }
  }
}
