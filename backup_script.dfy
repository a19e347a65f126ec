/**
 * The database backup job: timestamped copies of the application and session databases
 * into the backup directory, then rotation down to the newest 30 `.db` files.
 * The directory is a sequence of (name, mtime) entries; the clock and the outcome of the
 * file-system calls are parameters.
 */
module BackupScript {
  import opened Strings

  /** MAX_BACKUPS. */
  const MaxBackups: nat := 30

  // ---------------------------------------------------------------------------------------------
  // getBackupFilename
  // ---------------------------------------------------------------------------------------------

  /** `iso.replace(/[:.]/g, '-')`: the timestamp with every colon and dot turned into a dash. */
  function Stamp(iso: string): (r: string)
    ensures |r| == |iso|
    ensures forall i | 0 <= i < |iso| :: r[i] == (if iso[i] == ':' || iso[i] == '.' then '-' else iso[i])
    ensures ':' !in r && '.' !in r
  {
    if iso == [] then []
    else [if iso[0] == ':' || iso[0] == '.' then '-' else iso[0]] + Stamp(iso[1..])
  }

  /** `${dbName}_backup_${timestamp}.db`. */
  function BackupFilename(dbName: string, iso: string): (r: string)
    ensures StartsWith(r, dbName + "_backup_")
    ensures EndsWith(r, ".db")
    ensures ':' !in dbName ==> ':' !in r
  {
    assert ':' !in ".db";
    dbName + "_backup_" + Stamp(iso) + ".db"
  }

  // ---------------------------------------------------------------------------------------------
  // The backup directory
  // ---------------------------------------------------------------------------------------------

  /** A directory entry: its name and its modification time in milliseconds. */
  datatype BackupFile = BackupFile(name: string, mtime: int)

  predicate UniqueNames(files: seq<BackupFile>)
  {
    forall i, j | 0 <= i < j < |files| :: files[i].name != files[j].name
  }

  predicate NamePresent(files: seq<BackupFile>, name: string)
  {
    exists i | 0 <= i < |files| :: files[i].name == name
  }

  /** Writing a file: an entry with the same name is overwritten in place, otherwise the file is added. */
  function Put(files: seq<BackupFile>, f: BackupFile): (r: seq<BackupFile>)
    ensures NamePresent(files, f.name) ==> |r| == |files|
    ensures !NamePresent(files, f.name) ==> r == files + [f]
    ensures forall i | 0 <= i < |files| && files[i].name != f.name :: r[i] == files[i]
    ensures f in r
  {
    if files == [] then [f]
    else if files[0].name == f.name then [f] + files[1..]
    else
      assert NamePresent(files, f.name) ==> NamePresent(files[1..], f.name) by {
        if NamePresent(files, f.name) {
          var i :| 0 <= i < |files| && files[i].name == f.name;
          assert files[1..][i - 1].name == f.name;
        }
      }
      assert NamePresent(files[1..], f.name) ==> NamePresent(files, f.name) by {
        if NamePresent(files[1..], f.name) {
          var i :| 0 <= i < |files[1..]| && files[1..][i].name == f.name;
          assert files[i + 1].name == f.name;
        }
      }
      [files[0]] + Put(files[1..], f)
  }

  /** Names of entries. */
  function Names(files: seq<BackupFile>): (r: set<string>)
    ensures forall i | 0 <= i < |files| :: files[i].name in r
    ensures forall n | n in r :: NamePresent(files, n)
  {
    if files == [] then {}
    else
      var rest := Names(files[1..]);
      assert forall n | n in rest :: NamePresent(files, n) by {
        forall n | n in rest ensures NamePresent(files, n) {
          var i :| 0 <= i < |files[1..]| && files[1..][i].name == n;
          assert files[i + 1].name == n;
        }
      }
      {files[0].name} + rest
  }

  /** `fs.unlinkSync` for every name in `gone`: the entries whose names are not in it, in order. */
  function Without(files: seq<BackupFile>, gone: set<string>): (r: seq<BackupFile>)
    ensures |r| <= |files|
  {
    if files == [] then []
    else if files[0].name in gone then Without(files[1..], gone)
    else [files[0]] + Without(files[1..], gone)
  }

  /** What survives a deletion: exactly the entries whose names were not deleted. */
  lemma {:induction false} WithoutMembers(files: seq<BackupFile>, gone: set<string>)
    ensures forall f | f in Without(files, gone) :: f in files && f.name !in gone
    ensures forall f | f in files && f.name !in gone :: f in Without(files, gone)
  {
    if files != [] {
      WithoutMembers(files[1..], gone);
    }
  }

  lemma {:induction false} WithoutNothing(files: seq<BackupFile>)
    ensures Without(files, {}) == files
  {
    if files != [] {
      WithoutNothing(files[1..]);
    }
  }

  lemma {:induction false} WithoutTwice(files: seq<BackupFile>, a: set<string>, b: set<string>)
    ensures Without(Without(files, a), b) == Without(files, a + b)
  {
    if files != [] {
      WithoutTwice(files[1..], a, b);
    }
  }

  // ---------------------------------------------------------------------------------------------
  // rotateBackups
  // ---------------------------------------------------------------------------------------------

  predicate IsBackup(f: BackupFile)
  {
    EndsWith(f.name, ".db")
  }

  /** `readdirSync(...).filter(f => f.endsWith('.db'))`, in directory order. */
  function Backups(files: seq<BackupFile>): (r: seq<BackupFile>)
    ensures forall f | f in r :: f in files && IsBackup(f)
    ensures forall f | f in files && IsBackup(f) :: f in r
    ensures |r| <= |files|
  {
    if files == [] then []
    else if IsBackup(files[0]) then [files[0]] + Backups(files[1..])
    else Backups(files[1..])
  }

  predicate NewestFirst(files: seq<BackupFile>)
  {
    forall i, j | 0 <= i < j < |files| :: files[i].mtime >= files[j].mtime
  }

  /** Places `f` before the first entry that is not newer than it. */
  function Insert(f: BackupFile, sorted: seq<BackupFile>): (r: seq<BackupFile>)
    requires NewestFirst(sorted)
    ensures NewestFirst(r)
    ensures multiset(r) == multiset(sorted) + multiset{f}
    ensures |r| == |sorted| + 1
    ensures r[0] == f || (sorted != [] && r[0] == sorted[0])
  {
    if sorted == [] || f.mtime >= sorted[0].mtime then [f] + sorted
    else
      var rest := Insert(f, sorted[1..]);
      assert sorted == [sorted[0]] + sorted[1..];
      [sorted[0]] + rest
  }

  /** `.sort((a, b) => b.time - a.time)`: newest first, a rearrangement of its input. */
  function SortNewestFirst(files: seq<BackupFile>): (r: seq<BackupFile>)
    ensures NewestFirst(r)
    ensures multiset(r) == multiset(files)
    ensures |r| == |files|
  {
    if files == [] then []
    else
      assert files == [files[0]] + files[1..];
      Insert(files[0], SortNewestFirst(files[1..]))
  }

  /** `files.slice(MAX_BACKUPS)` when there are more than MAX_BACKUPS, else nothing. */
  function ToDelete(sorted: seq<BackupFile>): (r: seq<BackupFile>)
    ensures |sorted| <= MaxBackups ==> r == []
    ensures |sorted| > MaxBackups ==> |r| == |sorted| - MaxBackups && r == sorted[MaxBackups..]
  {
    if |sorted| > MaxBackups then sorted[MaxBackups..] else []
  }

  /** The directory once the old backups are gone. */
  function Rotated(files: seq<BackupFile>): seq<BackupFile>
  {
    Without(files, Names(ToDelete(SortNewestFirst(Backups(files)))))
  }

  /** Rotation deletes only `.db` files: every other entry is still there. */
  lemma RotationKeepsOthers(files: seq<BackupFile>, f: BackupFile)
    requires f in files && !IsBackup(f)
    ensures f in Rotated(files)
  {
    var sorted := SortNewestFirst(Backups(files));
    var doomed := ToDelete(sorted);
    forall g | g in doomed ensures IsBackup(g) {
      assert g in multiset(sorted);
    }
    BackupNames(doomed);
    WithoutMembers(files, Names(doomed));
  }

  /** With 30 or fewer backups the directory is left exactly as it was. */
  lemma RotationUnderLimit(files: seq<BackupFile>)
    requires |Backups(files)| <= MaxBackups
    ensures Rotated(files) == files
  {
    WithoutNothing(files);
  }

  lemma BackupNames(files: seq<BackupFile>)
    requires forall g | g in files :: IsBackup(g)
    ensures forall n | n in Names(files) :: EndsWith(n, ".db")
  {
    forall n | n in Names(files) ensures EndsWith(n, ".db") {
      var i :| 0 <= i < |files| && files[i].name == n;
      assert IsBackup(files[i]);
    }
  }

  /** In a directory with unique names, a name picks out one entry. */
  lemma SameNameSameFile(files: seq<BackupFile>, a: BackupFile, b: BackupFile)
    requires UniqueNames(files) && a in files && b in files && a.name == b.name
    ensures a == b
  {
    var i :| 0 <= i < |files| && files[i] == a;
    var j :| 0 <= j < |files| && files[j] == b;
    assert files[i].name == files[j].name;
    assert i == j;
  }

  /** An entry of the directory that rotation removed is one of the backups past the newest 30. */
  lemma RemovedWasDoomed(files: seq<BackupFile>, gone: BackupFile) returns (g: nat)
    requires UniqueNames(files)
    requires gone in files && gone !in Rotated(files)
    ensures |SortNewestFirst(Backups(files))| > MaxBackups
    ensures MaxBackups <= g < |SortNewestFirst(Backups(files))|
    ensures SortNewestFirst(Backups(files))[g] == gone
  {
    var sorted := SortNewestFirst(Backups(files));
    var doomed := ToDelete(sorted);
    WithoutMembers(files, Names(doomed));
    assert gone.name in Names(doomed);
    var d :| 0 <= d < |doomed| && doomed[d].name == gone.name;
    assert doomed[d] == sorted[MaxBackups + d];
    assert sorted[MaxBackups + d] in multiset(Backups(files));
    SameNameSameFile(files, sorted[MaxBackups + d], gone);
    g := MaxBackups + d;
  }

  /** A backup still present after rotation is one of the newest 30. */
  lemma KeptWasNewest(files: seq<BackupFile>, kept: BackupFile) returns (k: nat)
    requires kept in Rotated(files) && IsBackup(kept)
    ensures k < MaxBackups && k < |SortNewestFirst(Backups(files))|
    ensures SortNewestFirst(Backups(files))[k] == kept
  {
    var sorted := SortNewestFirst(Backups(files));
    var doomed := ToDelete(sorted);
    WithoutMembers(files, Names(doomed));
    assert kept in files && kept.name !in Names(doomed);
    assert kept in multiset(sorted);
    k :| 0 <= k < |sorted| && sorted[k] == kept;
  }

  /** Every backup that survives rotation is at least as new as every entry it deleted. */
  lemma RotationKeepsNewest(files: seq<BackupFile>, kept: BackupFile, gone: BackupFile)
    requires UniqueNames(files)
    requires kept in Rotated(files) && IsBackup(kept)
    requires gone in files && gone !in Rotated(files)
    ensures kept.mtime >= gone.mtime
  {
    var k := KeptWasNewest(files, kept);
    var g := RemovedWasDoomed(files, gone);
  }

  lemma {:induction false} WithoutAppend(a: seq<BackupFile>, b: seq<BackupFile>, gone: set<string>)
    ensures Without(a + b, gone) == Without(a, gone) + Without(b, gone)
  {
    if a != [] {
      WithoutAppend(a[1..], b, gone);
      assert (a + b)[0] == a[0];
      assert (a + b)[1..] == a[1..] + b;
    } else {
      assert a + b == b;
    }
  }

  lemma {:induction false} WithoutNone(files: seq<BackupFile>, gone: set<string>)
    requires forall f | f in files :: f.name !in gone
    ensures Without(files, gone) == files
  {
    if files != [] {
      WithoutNone(files[1..], gone);
    }
  }

  lemma {:induction false} WithoutAll(files: seq<BackupFile>, gone: set<string>)
    requires forall f | f in files :: f.name in gone
    ensures Without(files, gone) == []
  {
    if files != [] {
      WithoutAll(files[1..], gone);
    }
  }

  /** Filtering by extension and deleting by name commute. */
  lemma {:induction false} BackupsWithout(files: seq<BackupFile>, gone: set<string>)
    ensures Backups(Without(files, gone)) == Without(Backups(files), gone)
  {
    if files != [] {
      BackupsWithout(files[1..], gone);
    }
  }

  /** How many entries survive a deletion does not depend on their order. */
  lemma {:induction false} WithoutRearranged(x: seq<BackupFile>, y: seq<BackupFile>, gone: set<string>)
    requires multiset(x) == multiset(y)
    ensures |Without(x, gone)| == |Without(y, gone)|
    decreases |x|
  {
    if x != [] {
      assert x[0] in multiset(y);
      var j :| 0 <= j < |y| && y[j] == x[0];
      RestRearranged(x, y, j);
      WithoutRearranged(x[1..], y[..j] + y[j + 1..], gone);
      SurvivorsSplit(x, 0, gone);
      SurvivorsSplit(y, j, gone);
      assert x[..0] + x[1..] == x[1..];
    }
  }

  lemma RestRearranged(x: seq<BackupFile>, y: seq<BackupFile>, j: nat)
    requires multiset(x) == multiset(y) && x != [] && j < |y| && y[j] == x[0]
    ensures multiset(y[..j] + y[j + 1..]) == multiset(x[1..])
  {
    RemoveAt(y, j);
    assert x == [x[0]] + x[1..];
  }

  /** The survivors of a sequence are those of the entry at `j` and those of the rest. */
  lemma SurvivorsSplit(y: seq<BackupFile>, j: nat, gone: set<string>)
    requires j < |y|
    ensures |Without(y, gone)| == |Without([y[j]], gone)| + |Without(y[..j] + y[j + 1..], gone)|
  {
    assert y == (y[..j] + [y[j]]) + y[j + 1..];
    WithoutAppend(y[..j] + [y[j]], y[j + 1..], gone);
    WithoutAppend(y[..j], [y[j]], gone);
    WithoutAppend(y[..j], y[j + 1..], gone);
  }

  lemma RemoveAt(y: seq<BackupFile>, j: nat)
    requires j < |y|
    ensures multiset(y[..j] + y[j + 1..]) == multiset(y) - multiset{y[j]}
  {
    assert y == y[..j] + [y[j]] + y[j + 1..];
  }

  lemma {:induction false} BackupsUnique(files: seq<BackupFile>)
    requires UniqueNames(files)
    ensures UniqueNames(Backups(files))
  {
    if files != [] {
      BackupsUnique(files[1..]);
      var r := Backups(files);
      if IsBackup(files[0]) {
        forall i, j | 0 <= i < j < |r| ensures r[i].name != r[j].name {
          if i == 0 {
            assert r[j] in files[1..];
          }
        }
      }
    }
  }

  /** An entry occurs at most once in a sequence with unique names. */
  lemma {:induction false} OccursOnce(files: seq<BackupFile>, e: BackupFile)
    requires UniqueNames(files)
    ensures multiset(files)[e] <= 1
  {
    if files != [] {
      OccursOnce(files[1..], e);
      assert files == [files[0]] + files[1..];
      if files[0] == e {
        assert e !in files[1..];
      }
    }
  }

  /** A rearrangement of a sequence with unique names has unique names. */
  lemma RearrangedUnique(x: seq<BackupFile>, y: seq<BackupFile>)
    requires UniqueNames(x) && multiset(x) == multiset(y)
    ensures UniqueNames(y)
  {
    forall i, j | 0 <= i < j < |y| ensures y[i].name != y[j].name {
      if y[i].name == y[j].name {
        assert y[i] in multiset(x) && y[j] in multiset(x);
        SameNameSameFile(x, y[i], y[j]);
        assert y == y[..j] + y[j..];
        assert y[i] in y[..j] && y[j] in y[j..];
        assert multiset(y)[y[i]] == multiset(y[..j])[y[i]] + multiset(y[j..])[y[i]];
        OccursOnce(x, y[i]);
      }
    }
  }

  /** With unique names, none of the newest 30 shares a name with a deleted backup. */
  lemma KeptNamesSurvive(sorted: seq<BackupFile>)
    requires UniqueNames(sorted) && |sorted| > MaxBackups
    ensures forall f | f in sorted[..MaxBackups] :: f.name !in Names(sorted[MaxBackups..])
  {
    var keep, doomed := sorted[..MaxBackups], sorted[MaxBackups..];
    forall f | f in keep ensures f.name !in Names(doomed) {
      var k :| 0 <= k < |keep| && keep[k] == f;
      forall d | 0 <= d < |doomed| ensures doomed[d].name != f.name {
        assert sorted[k].name != sorted[MaxBackups + d].name;
      }
    }
  }

  /** After rotation exactly min(n, 30) of the n backups remain. */
  lemma {:induction false} RotationLeavesAtMostThirty(files: seq<BackupFile>)
    requires UniqueNames(files)
    ensures |Backups(Rotated(files))| == if |Backups(files)| < MaxBackups then |Backups(files)| else MaxBackups
  {
    var b := Backups(files);
    var sorted := SortNewestFirst(b);
    var gone := Names(ToDelete(sorted));
    BackupsWithout(files, gone);
    WithoutRearranged(b, sorted, gone);
    if |sorted| <= MaxBackups {
      WithoutNothing(b);
    } else {
      BackupsUnique(files);
      RearrangedUnique(b, sorted);
      var keep, doomed := sorted[..MaxBackups], sorted[MaxBackups..];
      assert sorted == keep + doomed;
      WithoutAppend(keep, doomed, gone);
      KeptNamesSurvive(sorted);
      WithoutNone(keep, gone);
      WithoutAll(doomed, gone);
    }
  }

  // ---------------------------------------------------------------------------------------------
  // The directory as the job changes it
  // ---------------------------------------------------------------------------------------------

  class BackupDirectory {
    var files: seq<BackupFile>

    /** A directory never holds two entries with the same name. */
    predicate Valid()
      reads this
    {
      UniqueNames(files)
    }

    constructor (files: seq<BackupFile>)
      requires UniqueNames(files)
      ensures this.files == files && Valid()
    {
      this.files := files;
    }

    /**
     * `backupDatabase(sourceFile, dbName)`: fails and writes nothing when the source is missing;
     * otherwise copies it to the timestamped name, failing (and writing nothing) when the copy fails.
     * When the copy succeeds but reading its size back (`statSync`) throws, the copy stays and the
     * answer is still failure.
     */
    method BackupDatabase(sourceExists: bool, copyOk: bool, statOk: bool, dbName: string, iso: string, now: int)
      returns (ok: bool)
      requires Valid()
      modifies this
      ensures Valid()
      ensures ok <==> sourceExists && copyOk && statOk
      ensures sourceExists && copyOk ==> files == Put(old(files), BackupFile(BackupFilename(dbName, iso), now))
      ensures !(sourceExists && copyOk) ==> files == old(files)
    {
      if !sourceExists {
        return false;
      }
      var backupFile := BackupFilename(dbName, iso);
      if !copyOk {
        return false;
      }
      PutKeepsUnique(files, BackupFile(backupFile, now));
      files := Put(files, BackupFile(backupFile, now));
      ok := statOk;
    }

    /**
     * `rotateBackups()`: deletes, one file at a time, every `.db` file after the newest 30, and
     * reports how many backups remain counted.
     */
    method RotateBackups() returns (total: nat)
      requires Valid()
      modifies this
      ensures Valid()
      ensures files == Rotated(old(files))
      ensures total == if |Backups(old(files))| < MaxBackups then |Backups(old(files))| else MaxBackups
      ensures total == |Backups(files)|
    {
      var sorted := SortNewestFirst(Backups(files));
      ghost var before := files;
      if |sorted| > MaxBackups {
        var toDelete := sorted[MaxBackups..];
        WithoutNothing(files);
        assert toDelete[..0] == [];
        for i := 0 to |toDelete|
          invariant files == Without(before, Names(toDelete[..i]))
          invariant UniqueNames(files)
        {
          UnlinkStep(before, toDelete, i);
          WithoutKeepsUnique(files, {toDelete[i].name});
          files := Without(files, {toDelete[i].name});
        }
        assert toDelete[..|toDelete|] == ToDelete(sorted);
      } else {
        WithoutNothing(files);
        assert Names(ToDelete(sorted)) == {};
      }
      total := if |sorted| < MaxBackups then |sorted| else MaxBackups;
      RotationLeavesAtMostThirty(before);
    }

    /**
     * `performBackup()`: backs up the application database, then the session database, rotates in
     * any case, and reports success exactly when both copies succeeded.
     */
    method PerformBackup(mainExists: bool, mainCopyOk: bool, mainStatOk: bool, mainIso: string, mainNow: int,
                         sessionExists: bool, sessionCopyOk: bool, sessionStatOk: bool, sessionIso: string, sessionNow: int)
      returns (success: bool)
      requires Valid()
      modifies this
      ensures Valid()
      ensures success <==> mainExists && mainCopyOk && mainStatOk && sessionExists && sessionCopyOk && sessionStatOk
      ensures files == Rotated(
        PutIf(sessionExists && sessionCopyOk, BackupFile(BackupFilename("sessions", sessionIso), sessionNow),
          PutIf(mainExists && mainCopyOk, BackupFile(BackupFilename("helnay", mainIso), mainNow), old(files))))
    {
      success := true;
      var mainOk := BackupDatabase(mainExists, mainCopyOk, mainStatOk, "helnay", mainIso, mainNow);
      if !mainOk {
        success := false;
      }
      var sessionOk := BackupDatabase(sessionExists, sessionCopyOk, sessionStatOk, "sessions", sessionIso, sessionNow);
      if !sessionOk {
        success := false;
      }
      var _ := RotateBackups();
    }
  }

  /** The directory after one `backupDatabase` whose copy did or did not happen. */
  function PutIf(copied: bool, f: BackupFile, files: seq<BackupFile>): seq<BackupFile>
  {
    if copied then Put(files, f) else files
  }

  lemma {:induction false} PutKeepsUnique(files: seq<BackupFile>, f: BackupFile)
    requires UniqueNames(files)
    ensures UniqueNames(Put(files, f))
  {
    if files != [] && files[0].name != f.name {
      PutKeepsUnique(files[1..], f);
      var r := Put(files, f);
      forall i, j | 0 <= i < j < |r| ensures r[i].name != r[j].name {
        if i == 0 {
          PutNames(files[1..], f, r[j]);
        }
      }
    }
  }

  /** Every entry after a write is the written file or an entry that was already there. */
  lemma {:induction false} PutNames(files: seq<BackupFile>, f: BackupFile, g: BackupFile)
    requires g in Put(files, f)
    ensures g == f || g in files
  {
    if files != [] && files[0].name != f.name {
      if g != files[0] {
        PutNames(files[1..], f, g);
      }
    }
  }

  lemma {:induction false} WithoutKeepsUnique(files: seq<BackupFile>, gone: set<string>)
    requires UniqueNames(files)
    ensures UniqueNames(Without(files, gone))
  {
    if files != [] {
      WithoutKeepsUnique(files[1..], gone);
      WithoutMembers(files[1..], gone);
      var r := Without(files, gone);
      if files[0].name !in gone {
        forall i, j | 0 <= i < j < |r| ensures r[i].name != r[j].name {
          if i == 0 {
            assert r[j] in files[1..];
          }
        }
      }
    }
  }

  lemma {:induction false} NamesAppend(files: seq<BackupFile>, f: BackupFile)
    ensures Names(files + [f]) == Names(files) + {f.name}
  {
    if files != [] {
      NamesAppend(files[1..], f);
      assert (files + [f])[1..] == files[1..] + [f];
    }
  }

  /** Deleting the next doomed file extends the set of names already deleted by one. */
  lemma UnlinkStep(files: seq<BackupFile>, toDelete: seq<BackupFile>, i: nat)
    requires i < |toDelete|
    ensures Without(Without(files, Names(toDelete[..i])), {toDelete[i].name}) == Without(files, Names(toDelete[..i + 1]))
  {
    WithoutTwice(files, Names(toDelete[..i]), {toDelete[i].name});
    NamesAppend(toDelete[..i], toDelete[i]);
    assert toDelete[..i + 1] == toDelete[..i] + [toDelete[i]];
  }
}
