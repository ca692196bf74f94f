/** What every request keeps, wherever it stops, and what therefore holds over every run. */
module Safety {
  import opened Text
  import opened PathNames
  import opened Template
  import opened Files
  import opened Registry
  import opened Lifecycle

  // ---------------------------------------------------------------- frames

  /** Outside the files of `path` and the target nothing changes. */
  ghost predicate SameElsewhere(fs: FileMap, fs': FileMap, path: string, target: string, stamps: set<string>) {
    forall f :: f != target && f != path && f != Bak(path) && (forall t :: t in stamps ==> Elsewhere(f, path, t)) ==>
      (f in fs <==> f in fs') && (f in fs ==> fs'[f] == fs[f])
  }

  lemma UpdateFrame(fs: FileMap, fs': FileMap, path: string, target: string, content: string, stamp: string)
    requires UpdateCut(fs, fs', path, target, content, stamp) || ArchiveCut(fs, fs', path, stamp)
    ensures SameElsewhere(fs, fs', path, target, {stamp})
  {
    hide Bak, FileOf;
    forall f | f != target && f != path && f != Bak(path) && (forall t :: t in {stamp} ==> Elsewhere(f, path, t))
      ensures (f in fs <==> f in fs') && (f in fs ==> fs'[f] == fs[f])
    {
      assert stamp in {stamp};
      assert Elsewhere(f, path, stamp);
    }
  }

  lemma UndoFrame(fs: FileMap, fs': FileMap, path: string, target: string, stamp: string)
    requires UndoCut(fs, fs', path, target, stamp)
    ensures SameElsewhere(fs, fs', path, target, {stamp})
  {
    hide Bak, FileOf;
    forall f | f != target && f != path && f != Bak(path) && (forall t :: t in {stamp} ==> Elsewhere(f, path, t))
      ensures (f in fs <==> f in fs') && (f in fs ==> fs'[f] == fs[f])
    {
      assert stamp in {stamp};
      assert Elsewhere(f, path, stamp);
    }
  }

  lemma RestoreFrame(fs: FileMap, fs': FileMap, path: string, stamp: string)
    requires RestoreCut(fs, fs', path, stamp)
    ensures SameElsewhere(fs, fs', path, path, {stamp})
  {
    hide Bak, FileOf;
    forall f | f != path && f != Bak(path) && (forall t :: t in {stamp} ==> Elsewhere(f, path, t))
      ensures (f in fs <==> f in fs') && (f in fs ==> fs'[f] == fs[f])
    {
      assert stamp in {stamp};
      assert Elsewhere(f, path, stamp);
    }
  }

  lemma FrameTransitive(fs: FileMap, fs1: FileMap, fs2: FileMap, path: string, target: string, s1: set<string>, s2: set<string>)
    requires SameElsewhere(fs, fs1, path, target, s1) && SameElsewhere(fs1, fs2, path, target, s2)
    ensures SameElsewhere(fs, fs2, path, target, s1 + s2)
  {
    hide Elsewhere;
    forall f | f != target && f != path && f != Bak(path) && (forall t :: t in s1 + s2 ==> Elsewhere(f, path, t))
      ensures (f in fs <==> f in fs2) && (f in fs ==> fs2[f] == fs[f])
    {
      assert forall t :: t in s1 ==> t in s1 + s2;
      assert forall t :: t in s2 ==> t in s1 + s2;
    }
  }

  /** The files of one registered path lie outside those of another. */
  lemma OtherFile(path: string, other: string, kind: Kind, target: string, stamps: set<string>)
    requires IniFile(path) && IniFile(other) && IniFile(target) && path != other && ValidKind(kind)
    requires (forall t :: t in stamps ==> IsStamp(t)) && (kind.Live? ==> other != target)
    ensures var f := FileOf(other, kind);
            f != target && f != path && f != Bak(path) && forall t :: t in stamps ==> Elsewhere(f, path, t)
  {
    hide FileOf, EndsWith;
    var f := FileOf(other, kind);
    LiveAndBackup(path);
    LiveAndBackup(target);
    if f == path { FileOfInjective(other, kind, path, Live); }
    if f == Bak(path) { FileOfInjective(other, kind, path, Backup); }
    if f == target { FileOfInjective(other, kind, target, Live); }
    forall t | t in stamps ensures Elsewhere(f, path, t) {
      if f == FileOf(path, RotatedBackup(t)) { FileOfInjective(other, kind, path, RotatedBackup(t)); }
      if f == FileOf(path, SetAside(t)) { FileOfInjective(other, kind, path, SetAside(t)); }
    }
  }

  /** Every file of another path is as before. */
  lemma OtherSame(fs: FileMap, fs': FileMap, path: string, other: string, target: string, stamps: set<string>)
    requires IniFile(path) && IniFile(other) && IniFile(target) && path != other
    requires (forall t :: t in stamps ==> IsStamp(t)) && SameElsewhere(fs, fs', path, target, stamps)
    ensures forall kind :: ValidKind(kind) && (kind.Live? ==> other != target) ==>
              (FileOf(other, kind) in fs <==> FileOf(other, kind) in fs')
              && (FileOf(other, kind) in fs ==> fs'[FileOf(other, kind)] == fs[FileOf(other, kind)])
  {
    hide FileOf, EndsWith, Elsewhere;
    forall kind | ValidKind(kind) && (kind.Live? ==> other != target)
      ensures (FileOf(other, kind) in fs <==> FileOf(other, kind) in fs')
              && (FileOf(other, kind) in fs ==> fs'[FileOf(other, kind)] == fs[FileOf(other, kind)])
    {
      OtherFile(path, other, kind, target, stamps);
    }
  }

  // ---------------------------------------------------------------- archived rows hold their bytes

  /** An archived row's `.bak` exists and holds the bytes its config file had at its last archive. */
  predicate HeldAt(disks: map<string, FileMap>, snaps: map<int, string>, id: int, row: Row) {
    row.archived ==>
      row.host in disks && id in snaps && Bak(row.path) in disks[row.host]
      && disks[row.host][Bak(row.path)] == snaps[id]
  }

  ghost predicate AllHeld(w: World) {
    forall id :: id in w.table.rows ==> HeldAt(w.disks, w.snaps, id, w.table.rows[id])
  }

  ghost predicate Inv(w: World) { ValidTable(w.table) && AllHeld(w) }

  /** A change to the files of one path leaves every other row's backup alone. */
  lemma HeldElsewhere(disks: map<string, FileMap>, snaps: map<int, string>, id: int, row: Row,
                      host: string, fs': FileMap, path: string, target: string, stamps: set<string>)
    requires HeldAt(disks, snaps, id, row) && host in disks && (row.host != host || row.path != path)
    requires IniFile(path) && IniFile(row.path) && IniFile(target) && forall t :: t in stamps ==> IsStamp(t)
    requires SameElsewhere(disks[host], fs', path, target, stamps)
    ensures HeldAt(disks[host := fs'], snaps, id, row)
  {
    hide Bak, SameElsewhere, IniFile;
    if row.archived && row.host == host {
      OtherSame(disks[host], fs', path, row.path, target, stamps);
      LiveAndBackup(row.path);
      assert FileOf(row.path, Backup) == Bak(row.path);
    }
  }

  // ---------------------------------------------------------------- ports

  /** The row's port stands in one of its own scanned files: a backup, or the live file while not archived. */
  ghost predicate Witness(disks: map<string, FileMap>, row: Row) {
    row.port.Some? ==>
      row.host in disks
      && (BackupMentions(disks[row.host], row.path, row.port.value)
          || (!row.archived && LiveMentions(disks[row.host], row.path, row.port.value)))
  }

  predicate LiveMentions(fs: FileMap, path: string, port: int) { path in fs && Mentions(fs[path], port) }

  ghost predicate AllWitnessed(w: World) {
    forall id :: id in w.table.rows ==> Witness(w.disks, w.table.rows[id])
  }

  lemma WitnessElsewhere(disks: map<string, FileMap>, row: Row, host: string, fs': FileMap,
                         path: string, target: string, stamps: set<string>)
    requires Witness(disks, row) && host in disks
    requires row.host != host || (row.path != path && row.path != target)
    requires IniFile(path) && IniFile(row.path) && IniFile(target) && forall t :: t in stamps ==> IsStamp(t)
    requires SameElsewhere(disks[host], fs', path, target, stamps)
    ensures Witness(disks[host := fs'], row)
  {
    hide Mentions, SameElsewhere, IniFile;
    if row.port.Some? && row.host == host {
      OtherSame(disks[host], fs', path, row.path, target, stamps);
      LiveAndBackup(row.path);
      if BackupMentions(disks[host], row.path, row.port.value) {
        BackupsStay(disks[host], fs', row.path, row.port.value);
      } else {
        assert FileOf(row.path, Live) == row.path;
      }
    }
  }

  lemma BackupsStay(fs: FileMap, fs': FileMap, path: string, port: int)
    requires BackupMentions(fs, path, port)
    requires forall kind :: IsBackupKind(kind) && FileOf(path, kind) in fs ==>
               FileOf(path, kind) in fs' && fs'[FileOf(path, kind)] == fs[FileOf(path, kind)]
    ensures BackupMentions(fs', path, port)
  {
    hide FileOf, Mentions;
    var kind :| IsBackupKind(kind) && FileOf(path, kind) in fs && Mentions(fs[FileOf(path, kind)], port);
    assert FileOf(path, kind) in fs';
  }

  /** Rotating the `.bak` keeps every mention among the backups. */
  lemma RotateKeepsBackups(fs: FileMap, path: string, stamp: string, port: int)
    requires IniFile(path) && Fresh(fs, path, stamp) && BackupMentions(fs, path, port)
    ensures BackupMentions(Rotated(fs, path, stamp), path, port)
  {
    hide FileOf, Mentions, IniFile;
    var kind :| IsBackupKind(kind) && FileOf(path, kind) in fs && Mentions(fs[FileOf(path, kind)], port);
    LiveAndBackup(path);
    var r := Rotated(fs, path, stamp);
    if kind.Backup? {
      var moved := RotatedBackup(stamp);
      assert IsBackupKind(moved) && FileOf(path, moved) in r;
    } else {
      NamesDiffer(path, kind, Backup);
      assert Bak(path) in fs ==> FileOf(path, kind) != FileOf(path, RotatedBackup(stamp));
      assert FileOf(path, kind) in r;
    }
  }

  /** After a backup, whatever the live file or a backup mentioned is mentioned by a backup. */
  lemma BackupCollects(fs: FileMap, path: string, stamp: string, port: int)
    requires IniFile(path) && Fresh(fs, path, stamp) && path in fs
    requires BackupMentions(fs, path, port) || LiveMentions(fs, path, port)
    ensures BackupMentions(BackedUp(fs, path, stamp), path, port)
  {
    hide FileOf, Mentions, IniFile;
    LiveAndBackup(path);
    var b := BackedUp(fs, path, stamp);
    var r := Rotated(fs, path, stamp);
    if LiveMentions(fs, path, port) {
      assert IsBackupKind(Backup) && FileOf(path, Backup) in b && b[FileOf(path, Backup)] == fs[path];
    } else {
      RotateKeepsBackups(fs, path, stamp, port);
      FourNames(path, stamp);
      var kind :| IsBackupKind(kind) && FileOf(path, kind) in r && Mentions(r[FileOf(path, kind)], port);
      assert Bak(path) !in r;
      assert FileOf(path, kind) in b && b[FileOf(path, kind)] == r[FileOf(path, kind)];
    }
  }

  /** Writing or removing live files touches no backup. */
  lemma LiveKeepsBackups(fs: FileMap, fs': FileMap, path: string, a: string, b: string, port: int)
    requires BackupMentions(fs, path, port) && IniFile(path) && IniFile(a) && IniFile(b)
    requires forall f :: f in fs && f != a && f != b ==> f in fs' && fs'[f] == fs[f]
    ensures BackupMentions(fs', path, port)
  {
    hide FileOf, Mentions, EndsWith;
    forall kind | IsBackupKind(kind) && FileOf(path, kind) in fs
      ensures FileOf(path, kind) in fs' && fs'[FileOf(path, kind)] == fs[FileOf(path, kind)]
    {
      LiveAndBackup(a);
      LiveAndBackup(b);
      if FileOf(path, kind) == a { FileOfInjective(path, kind, a, Live); }
      if FileOf(path, kind) == b { FileOfInjective(path, kind, b, Live); }
    }
    BackupsStay(fs, fs', path, port);
  }

  ghost predicate OwnMention(fs: FileMap, path: string, port: int) {
    BackupMentions(fs, path, port) || LiveMentions(fs, path, port)
  }

  lemma UpdateKeepsOwn(fs: FileMap, fs': FileMap, path: string, target: string, content: string, stamp: string, port: int)
    requires IniFile(path) && IniFile(target) && Fresh(fs, path, stamp) && OwnMention(fs, path, port)
    requires UpdateCut(fs, fs', path, target, content, stamp) || ArchiveCut(fs, fs', path, stamp)
    ensures OwnMention(fs', path, port)
    ensures fs' != fs && fs' != Rotated(fs, path, stamp) ==> BackupMentions(fs', path, port)
  {
    hide FileOf, Mentions, IniFile, Bak, BackupMentions;
    if fs' == fs {
    } else if fs' == Rotated(fs, path, stamp) {
      if BackupMentions(fs, path, port) { RotateKeepsBackups(fs, path, stamp, port); }
      else { RotateConserves(fs, path, stamp); }
    } else {
      BackupCollects(fs, path, stamp, port);
      var b := BackedUp(fs, path, stamp);
      LiveKeepsBackups(b, fs', path, path, target, port);
    }
  }

  lemma RestoreKeepsBackups(fs: FileMap, fs': FileMap, path: string, stamp: string, port: int)
    requires IniFile(path) && IsStamp(stamp) && BackupMentions(fs, path, port)
    requires RestoreCut(fs, fs', path, stamp)
    ensures BackupMentions(fs', path, port)
  {
    hide FileOf, Mentions, EndsWith;
    LiveAndBackup(path);
    forall kind | IsBackupKind(kind) && FileOf(path, kind) in fs
      ensures FileOf(path, kind) in fs' && fs'[FileOf(path, kind)] == fs[FileOf(path, kind)]
    {
      NamesDiffer(path, kind, Live);
      NamesDiffer(path, kind, SetAside(stamp));
    }
    BackupsStay(fs, fs', path, port);
  }
}
