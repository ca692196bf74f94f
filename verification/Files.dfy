/** The per-host file map, keyed by the path relative to the configuration directory, and what the compound
    file operations of app/services/config_file_service.py make of it. */
module Files {
  import opened Text
  import opened PathNames
  import opened Template

  type FileMap = map<string, string>

  // ---------------------------------------------------------------- compound operations on values

  /** An existing `.bak` is moved to its stamped name. */
  function Rotated(fs: FileMap, path: string, stamp: string): FileMap {
    if Bak(path) in fs then (fs - {Bak(path)})[FileOf(path, RotatedBackup(stamp)) := fs[Bak(path)]] else fs
  }

  /** `backup_config_by_config_path` */
  function BackedUp(fs: FileMap, path: string, stamp: string): FileMap
    requires path in fs
  {
    Rotated(fs, path, stamp)[Bak(path) := fs[path]]
  }

  /** An existing live file is moved to its stamped name. */
  function Aside(fs: FileMap, path: string, stamp: string): FileMap {
    if path in fs then (fs - {path})[FileOf(path, SetAside(stamp)) := fs[path]] else fs
  }

  /** `restore_config_by_config_path` */
  function Restored(fs: FileMap, path: string, stamp: string): FileMap
    requires Bak(path) in fs
  {
    Aside(fs, path, stamp)[path := fs[Bak(path)]]
  }

  /** The files of an update once every file step has run. */
  function Updated(fs: FileMap, path: string, target: string, content: string, stamp: string): FileMap
    requires path in fs
  {
    var written := BackedUp(fs, path, stamp)[target := content];
    if target == path then written else written - {path}
  }

  /** The files once a failed update has been compensated completely. */
  function Undone(fs: FileMap, path: string, target: string, stamp: string): FileMap
    requires Bak(path) in fs && Bak(path) != target
  {
    Restored(Withdrawn(fs, path, target), path, stamp)
  }

  /** The first compensating step: a renamed target is removed again. */
  function Withdrawn(fs: FileMap, path: string, target: string): FileMap {
    if target == path then fs else fs - {target}
  }

  /** Rotating the `.bak` of `path`, if there is one, hits no existing file. */
  predicate Fresh(fs: FileMap, path: string, stamp: string) {
    IsStamp(stamp) && (Bak(path) in fs ==> FileOf(path, RotatedBackup(stamp)) !in fs)
  }

  /** Setting the live file of `path` aside, if there is one, hits no existing file. */
  predicate AsideFree(fs: FileMap, path: string, stamp: string) {
    IsStamp(stamp) && (path in fs ==> FileOf(path, SetAside(stamp)) !in fs)
  }

  // ---------------------------------------------------------------- where an operation may stop

  predicate BackupCut(fs: FileMap, fs': FileMap, path: string, stamp: string) {
    || fs' == fs
    || fs' == Rotated(fs, path, stamp)
    || (path in fs && fs' == BackedUp(fs, path, stamp))
  }

  predicate RestoreCut(fs: FileMap, fs': FileMap, path: string, stamp: string) {
    || fs' == fs
    || (Bak(path) in fs && (fs' == Aside(fs, path, stamp) || fs' == Restored(fs, path, stamp)))
  }

  predicate ArchiveCut(fs: FileMap, fs': FileMap, path: string, stamp: string) {
    || BackupCut(fs, fs', path, stamp)
    || (path in fs && fs' == BackedUp(fs, path, stamp) - {path})
  }

  predicate UpdateCut(fs: FileMap, fs': FileMap, path: string, target: string, content: string, stamp: string) {
    || BackupCut(fs, fs', path, stamp)
    || (path in fs && fs' == BackedUp(fs, path, stamp)[target := content])
    || (path in fs && fs' == Updated(fs, path, target, content, stamp))
  }

  /** Where the compensation of an update may stop; `fs` are the files it starts from. */
  predicate UndoCut(fs: FileMap, fs': FileMap, path: string, target: string, stamp: string) {
    || fs' == fs
    || RestoreCut(Withdrawn(fs, path, target), fs', path, stamp)
  }

  // ---------------------------------------------------------------- backups of a path

  predicate IsBackupKind(kind: Kind) { ValidKind(kind) && (kind.Backup? || kind.RotatedBackup?) }

  /** Some backup of `path` mentions the port. */
  ghost predicate BackupMentions(fs: FileMap, path: string, port: int) {
    exists kind :: IsBackupKind(kind) && FileOf(path, kind) in fs && Mentions(fs[FileOf(path, kind)], port)
  }

  /** The files an operation on `path` never touches. */
  predicate Elsewhere(f: string, path: string, stamp: string) {
    f != path && f != Bak(path) && f != FileOf(path, RotatedBackup(stamp)) && f != FileOf(path, SetAside(stamp))
  }

  predicate IniFile(path: string) { EndsWith(path, ".ini") }

  lemma NamesDiffer(path: string, kind1: Kind, kind2: Kind)
    requires IniFile(path) && ValidKind(kind1) && ValidKind(kind2) && kind1 != kind2
    ensures FileOf(path, kind1) != FileOf(path, kind2)
  {
    if FileOf(path, kind1) == FileOf(path, kind2) {
      FileOfInjective(path, kind1, path, kind2);
    }
  }

  lemma FourNames(path: string, stamp: string)
    requires IniFile(path) && IsStamp(stamp)
    ensures var r := FileOf(path, RotatedBackup(stamp)); var s := FileOf(path, SetAside(stamp));
            path != Bak(path) && path != r && path != s && Bak(path) != r && Bak(path) != s && r != s
  {
    hide FileOf, IniFile;
    assert FileOf(path, Live) == path && FileOf(path, Backup) == Bak(path) by { LiveAndBackup(path); }
    NamesDiffer(path, Live, Backup);
    NamesDiffer(path, Live, RotatedBackup(stamp));
    NamesDiffer(path, Live, SetAside(stamp));
    NamesDiffer(path, Backup, RotatedBackup(stamp));
    NamesDiffer(path, Backup, SetAside(stamp));
    NamesDiffer(path, RotatedBackup(stamp), SetAside(stamp));
  }

  lemma LiveAndBackup(path: string)
    ensures FileOf(path, Live) == path && FileOf(path, Backup) == Bak(path)
  {
  }

  // ---------------------------------------------------------------- conservation

  /** Every content found before is found after, in some file. */
  predicate Conserved(fs: FileMap, fs': FileMap) { fs.Values <= fs'.Values }

  lemma ConservedByFiles(fs: FileMap, fs': FileMap)
    requires forall f :: f in fs ==> exists g :: g in fs' && fs'[g] == fs[f]
    ensures Conserved(fs, fs')
  {
  }

  lemma RotateConserves(fs: FileMap, path: string, stamp: string)
    requires IniFile(path) && Fresh(fs, path, stamp)
    ensures Conserved(fs, Rotated(fs, path, stamp))
    ensures path in fs ==> path in Rotated(fs, path, stamp) && Rotated(fs, path, stamp)[path] == fs[path]
  {
    hide Bak, FileOf;
    FourNames(path, stamp);
    var r := Rotated(fs, path, stamp);
    if Bak(path) in fs {
      var g := FileOf(path, RotatedBackup(stamp));
      forall f | f in fs ensures exists h :: h in r && r[h] == fs[f] {
        if f == Bak(path) { assert r[g] == fs[f]; } else { assert r[f] == fs[f]; }
      }
    }
  }

  lemma BackupConserves(fs: FileMap, path: string, stamp: string)
    requires IniFile(path) && Fresh(fs, path, stamp) && path in fs
    ensures var b := BackedUp(fs, path, stamp);
            Conserved(fs, b) && path in b && b[path] == fs[path] && Bak(path) in b && b[Bak(path)] == fs[path]
    ensures Conserved(fs, BackedUp(fs, path, stamp) - {path})
  {
    hide Bak, FileOf;
    FourNames(path, stamp);
    RotateConserves(fs, path, stamp);
    var r := Rotated(fs, path, stamp);
    var b := BackedUp(fs, path, stamp);
    assert Bak(path) !in r;
    forall f | f in fs ensures exists h :: h in b && h != path && b[h] == fs[f] {
      if f == path { assert b[Bak(path)] == fs[f]; }
      else {
        assert fs[f] in fs.Values && fs[f] in r.Values;
        var h :| h in r && r[h] == fs[f];
        if h == path { assert b[Bak(path)] == fs[f]; } else { assert b[h] == fs[f]; }
      }
    }
    var c := b - {path};
    forall f | f in fs ensures exists h :: h in c && c[h] == fs[f] {
      var h :| h in b && h != path && b[h] == fs[f];
      assert c[h] == fs[f];
    }
  }

  lemma UpdateConserves(fs: FileMap, fs': FileMap, path: string, target: string, content: string, stamp: string)
    requires IniFile(path) && IniFile(target) && Fresh(fs, path, stamp) && (target == path || target !in fs)
    requires UpdateCut(fs, fs', path, target, content, stamp)
    ensures Conserved(fs, fs')
  {
    hide Bak, FileOf, IniFile, BackedUp;
    RotateConserves(fs, path, stamp);
    if path in fs {
      BackupConserves(fs, path, stamp);
      var b := BackedUp(fs, path, stamp);
      if fs' == b[target := content] || fs' == Updated(fs, path, target, content, stamp) {
        if target != path { TargetIsNew(fs, path, target, stamp); }
        var c := b - {path};
        forall f | f in fs ensures exists h :: h in fs' && fs'[h] == fs[f] {
          assert fs[f] in fs.Values && fs[f] in c.Values;
          var h :| h in c && c[h] == fs[f];
          assert fs'[h] == fs[f];
        }
      }
    }
  }

  lemma TargetIsNew(fs: FileMap, path: string, target: string, stamp: string)
    requires IniFile(path) && IniFile(target) && IsStamp(stamp) && path in fs && target !in fs
    ensures target !in BackedUp(fs, path, stamp)
  {
    hide Bak, FileOf, IniFile;
    TargetIsApart(path, target, stamp);
  }

  /** The target of an update is a live name, so it is none of the backup names. */
  lemma TargetIsApart(path: string, target: string, stamp: string)
    requires IniFile(path) && IniFile(target) && IsStamp(stamp)
    ensures target != Bak(path) && target != FileOf(path, RotatedBackup(stamp)) && target != FileOf(path, SetAside(stamp))
  {
    hide FileOf, EndsWith;
    LiveAndBackup(path);
    LiveAndBackup(target);
    if target == Bak(path) { FileOfInjective(target, Live, path, Backup); }
    if target == FileOf(path, RotatedBackup(stamp)) { FileOfInjective(target, Live, path, RotatedBackup(stamp)); }
    if target == FileOf(path, SetAside(stamp)) { FileOfInjective(target, Live, path, SetAside(stamp)); }
  }

  lemma RestoreConserves(fs: FileMap, fs': FileMap, path: string, stamp: string)
    requires IniFile(path) && AsideFree(fs, path, stamp)
    requires RestoreCut(fs, fs', path, stamp)
    ensures Conserved(fs, fs')
    ensures Bak(path) in fs ==> Bak(path) in fs' && fs'[Bak(path)] == fs[Bak(path)]
  {
    hide Bak, FileOf, IniFile;
    FourNames(path, stamp);
    if fs' != fs {
      var g := FileOf(path, SetAside(stamp));
      forall f | f in fs ensures exists h :: h in fs' && fs'[h] == fs[f] {
        if f == path { assert fs'[g] == fs[f]; } else { assert fs'[f] == fs[f]; }
      }
    }
  }

  /** The whole request, compensation included: what was there before an update is still there after it,
      wherever update and compensation stop. */
  lemma UndoConserves(fs: FileMap, fs': FileMap, path: string, target: string, content: string, stamp: string, stamp2: string)
    requires IniFile(path) && IniFile(target) && path in fs && Fresh(fs, path, stamp) && (target == path || target !in fs)
    requires AsideFree(fs, path, stamp2)
    requires UndoCut(Updated(fs, path, target, content, stamp), fs', path, target, stamp2)
    ensures Conserved(fs, fs')
  {
    hide Bak, FileOf, IniFile, RestoreCut, BackedUp, Updated;
    var done := Updated(fs, path, target, content, stamp);
    UpdateConserves(fs, done, path, target, content, stamp);
    var start := Withdrawn(done, path, target);
    assert Conserved(fs, start) by {
      if target != path { RemovedTarget(fs, path, target, content, stamp); }
    }
    if fs' != done {
      UndoFresh(fs, path, target, content, stamp, stamp2);
      assert FileOf(path, SetAside(stamp2)) !in start;
      RestoreConserves(start, fs', path, stamp2);
    }
  }

  lemma RemovedTarget(fs: FileMap, path: string, target: string, content: string, stamp: string)
    requires IniFile(path) && IniFile(target) && path in fs && Fresh(fs, path, stamp) && target !in fs
    ensures Updated(fs, path, target, content, stamp) - {target} == BackedUp(fs, path, stamp) - {path}
    ensures Conserved(fs, Updated(fs, path, target, content, stamp) - {target})
  {
    hide Bak, FileOf, IniFile;
    FourNames(path, stamp);
    TargetIsApart(path, target, stamp);
    BackupConserves(fs, path, stamp);
    assert target !in BackedUp(fs, path, stamp);
  }

  lemma UndoFresh(fs: FileMap, path: string, target: string, content: string, stamp: string, stamp2: string)
    requires IniFile(path) && IniFile(target) && path in fs && IsStamp(stamp) && IsStamp(stamp2)
    requires FileOf(path, SetAside(stamp2)) !in fs
    ensures FileOf(path, SetAside(stamp2)) !in Updated(fs, path, target, content, stamp)
  {
    hide Bak, FileOf, IniFile;
    FourNames(path, stamp2);
    TargetIsApart(path, target, stamp2);
    NamesDiffer(path, SetAside(stamp2), RotatedBackup(stamp));
  }

  /** The count of files shows what a clash of stamps costs: a backup adds exactly one file unless an
      existing `.bak` is rotated onto an existing name. */
  lemma BackupCount(fs: FileMap, path: string, stamp: string)
    requires IniFile(path) && IsStamp(stamp) && path in fs
    ensures var clash := Bak(path) in fs && FileOf(path, RotatedBackup(stamp)) in fs;
            |BackedUp(fs, path, stamp)| == |fs| + (if clash then 0 else 1)
  {
    hide Bak, FileOf, IniFile;
    FourNames(path, stamp);
    var g := FileOf(path, RotatedBackup(stamp));
    var b := BackedUp(fs, path, stamp);
    if Bak(path) in fs {
      assert b.Keys == fs.Keys + {g};
    } else {
      assert b.Keys == fs.Keys + {Bak(path)};
    }
  }

  /** What stands at `g` stands somewhere else too. */
  ghost predicate HasCopy(fs: FileMap, g: string)
    requires g in fs
  {
    exists f :: f in fs && f != g && fs[f] == fs[g]
  }

  /** Moving `source` onto `target` and copying `live` to where it was: nothing is lost but what stood at
      `target`, and that exactly when it had no copy. */
  lemma MoveAndCopy(fs: FileMap, source: string, target: string, live: string)
    requires source in fs && live in fs && source != target && live != source && live != target
    ensures var b := (fs - {source})[target := fs[source]][source := fs[live]];
            Conserved(fs, b) <==> (target in fs ==> HasCopy(fs, target))
  {
    var b := (fs - {source})[target := fs[source]][source := fs[live]];
    forall f | f in fs && f != target ensures fs[f] in b.Values {
      if f == source { assert b[target] == fs[f]; } else if f == live { assert b[source] == fs[f]; } else { assert b[f] == fs[f]; }
    }
    assert Conserved(fs, b) <==> (target in fs ==> fs[target] in b.Values);
    if target in fs {
      CopyLeft(fs, b, source, target, live);
    }
  }

  lemma CopyLeft(fs: FileMap, b: FileMap, source: string, target: string, live: string)
    requires source in fs && live in fs && target in fs && source != target && live != source && live != target
    requires b == (fs - {source})[target := fs[source]][source := fs[live]]
    ensures fs[target] in b.Values <==> HasCopy(fs, target)
  {
    if fs[target] in b.Values {
      var f :| f in b && b[f] == fs[target];
      var origin := if f == target then source else if f == source then live else f;
      assert origin in fs && origin != target && fs[origin] == fs[target];
    }
    if HasCopy(fs, target) {
      var f :| f in fs && f != target && fs[f] == fs[target];
      var image := if f == source then target else f;
      assert image in b && b[image] == fs[target];
    }
  }

  /** A backup loses content exactly when it rotates `.bak` onto an existing file whose content is nowhere else.
      Removing the live file afterwards, as archive does, loses nothing more. */
  lemma BackupConservesIff(fs: FileMap, path: string, stamp: string)
    requires IniFile(path) && IsStamp(stamp) && path in fs
    ensures var g := FileOf(path, RotatedBackup(stamp));
            Conserved(fs, BackedUp(fs, path, stamp)) <==> (Bak(path) in fs && g in fs ==> HasCopy(fs, g))
    ensures Conserved(fs, BackedUp(fs, path, stamp) - {path}) <==> Conserved(fs, BackedUp(fs, path, stamp))
  {
    hide Bak, FileOf, IniFile;
    FourNames(path, stamp);
    var b := BackedUp(fs, path, stamp);
    if Bak(path) in fs {
      MoveAndCopy(fs, Bak(path), FileOf(path, RotatedBackup(stamp)), path);
    } else {
      BackupConserves(fs, path, stamp);
    }
    var c := b - {path};
    forall f | f in b ensures b[f] in c.Values { if f == path { assert c[Bak(path)] == b[f]; } else { assert c[f] == b[f]; } }
    assert c.Values == b.Values by { assert forall f :: f in c ==> f in b && b[f] == c[f]; }
  }

  /** A restore loses content exactly when it sets the live file aside onto an existing file whose content is nowhere
      else. */
  lemma RestoreConservesIff(fs: FileMap, path: string, stamp: string)
    requires IniFile(path) && IsStamp(stamp) && Bak(path) in fs
    ensures var g := FileOf(path, SetAside(stamp));
            Conserved(fs, Restored(fs, path, stamp)) <==> (path in fs && g in fs ==> HasCopy(fs, g))
  {
    hide Bak, FileOf, IniFile;
    FourNames(path, stamp);
    if path in fs {
      MoveAndCopy(fs, path, FileOf(path, SetAside(stamp)), Bak(path));
    } else {
      RestoreConserves(fs, Restored(fs, path, stamp), path, stamp);
    }
  }

  /** A clash: two backups of one file within one second lose the backup rotated first. */
  lemma StampClashLoses(path: string, stamp: string, first: string, bak: string, live: string)
    requires IniFile(path) && IsStamp(stamp) && first != bak && first != live
    ensures var fs := map[path := live, Bak(path) := bak, FileOf(path, RotatedBackup(stamp)) := first];
            !Conserved(fs, BackedUp(fs, path, stamp))
  {
    hide Bak, FileOf, IniFile;
    FourNames(path, stamp);
    var g := FileOf(path, RotatedBackup(stamp));
    var fs := map[path := live, Bak(path) := bak, g := first];
    var b := BackedUp(fs, path, stamp);
    assert fs[g] == first;
    assert b == map[path := live, Bak(path) := live, g := bak];
    assert forall f :: f in b ==> b[f] != first;
    assert first in fs.Values && first !in b.Values;
  }

  // ---------------------------------------------------------------- exact compensation

  /** The live `.ini` files. */
  function LiveFiles(fs: FileMap): FileMap { map f | f in fs && IniFile(f) :: fs[f] }

  lemma StampedIsNotLive(path: string, kind: Kind)
    requires IniFile(path) && ValidKind(kind) && !kind.Live?
    ensures !IniFile(FileOf(path, kind))
  {
    if IniFile(FileOf(path, kind)) {
      LiveAndBackup(FileOf(path, kind));
      FileOfInjective(FileOf(path, kind), Live, path, kind);
    }
  }

  /** When every compensating call of a failed update succeeds, the live `.ini` files are those from before
      the request, renamed or not. */
  lemma UndoIsExact(fs: FileMap, path: string, target: string, content: string, stamp: string, stamp2: string)
    requires IniFile(path) && IniFile(target) && path in fs && IsStamp(stamp) && (target == path || target !in fs)
    requires IsStamp(stamp2)
    ensures var done := Updated(fs, path, target, content, stamp);
            Bak(path) in done && LiveFiles(Undone(done, path, target, stamp2)) == LiveFiles(fs)
  {
    hide Bak, FileOf, IniFile;
    FourNames(path, stamp);
    FourNames(path, stamp2);
    TargetIsApart(path, target, stamp);
    TargetIsApart(path, target, stamp2);
    StampedIsNotLive(path, Backup);
    LiveAndBackup(path);
    StampedIsNotLive(path, RotatedBackup(stamp));
    StampedIsNotLive(path, SetAside(stamp2));
    var done := Updated(fs, path, target, content, stamp);
    var undone := Undone(done, path, target, stamp2);
    assert Bak(path) in done && done[Bak(path)] == fs[path];
    forall f | IniFile(f)
      ensures f in undone <==> f in fs
      ensures f in fs ==> undone[f] == fs[f]
    {
      if f == path {
        assert undone[f] == fs[f];
      } else if f != target {
        assert f in BackedUp(fs, path, stamp) <==> f in fs;
      }
    }
  }
}
