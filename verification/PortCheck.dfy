/** app/services/port_check_service.py: which files the port scan reads and what it concludes. */
module PortCheck {
  import opened Text
  import opened PathNames
  import opened Template
  import opened Files

  /** The globs `*.ini`, `*.ini.bak` and `*.ini.bak.*` of the recursive listing. */
  predicate Listed(f: string) {
    var base := Basename(f);
    EndsWith(base, ".ini") || EndsWith(base, ".ini.bak") || Contains(base, ".ini.bak.")
  }

  /** `_should_skip` */
  predicate Skipped(f: string, exclude: Option<string>) {
    exclude.Some? && exclude.value != "" && (f == exclude.value || exclude.value + ".bak" <= f)
  }

  /** The file is scanned and mentions the port. */
  predicate Hit(fs: FileMap, f: string, port: int, exclude: Option<string>) {
    f in fs && Listed(f) && !Skipped(f, exclude) && Mentions(fs[f], port)
  }

  ghost predicate ScanConflict(fs: FileMap, port: int, exclude: Option<string>) {
    exists f :: Hit(fs, f, port, exclude)
  }

  lemma {:induction false} SplitTail(s: string, tail: string)
    requires NoChar(tail, '/')
    ensures var a, b := Split(s, '/'), Split(s + tail, '/');
            |b| == |a| && b[|b| - 1] == a[|a| - 1] + tail && b[..|b| - 1] == a[..|a| - 1]
  {
    if s == "" {
      SplitHead(tail, "", '/');
      assert s + tail == tail && "" + tail == tail;
    } else {
      assert (s + tail)[1..] == s[1..] + tail && (s + tail)[0] == s[0];
      SplitTail(s[1..], tail);
      SplitStep(s);
      SplitStep(s + tail);
      LongerLast(s[0], Split(s[1..], '/'), Split(s[1..] + tail, '/'), tail);
    }
  }

  /** The segments once one more character is put in front. */
  function Fronted(c: char, segments: seq<string>): seq<string>
    requires segments != []
  {
    if c == '/' then [""] + segments else [[c] + segments[0]] + segments[1..]
  }

  lemma SplitStep(s: string)
    requires s != ""
    ensures Split(s, '/') == Fronted(s[0], Split(s[1..], '/'))
  {
  }

  lemma LongerLast(c: char, a: seq<string>, b: seq<string>, tail: string)
    requires a != [] && |b| == |a| && b[|b| - 1] == a[|a| - 1] + tail && b[..|b| - 1] == a[..|a| - 1]
    ensures var a', b' := Fronted(c, a), Fronted(c, b);
            |b'| == |a'| && b'[|b'| - 1] == a'[|a'| - 1] + tail && b'[..|b'| - 1] == a'[..|a'| - 1]
  {
    var n := |a| - 1;
    var a', b' := Fronted(c, a), Fronted(c, b);
    if c == '/' {
      assert a'[..n + 1] == [""] + a[..n] && b'[..n + 1] == [""] + b[..n];
    } else if n == 0 {
      assert a' == [[c] + a[0]] && b' == [[c] + b[0]];
      assert [c] + (a[0] + tail) == [c] + a[0] + tail;
    } else {
      assert b[0] == b[..n][0] && a[0] == a[..n][0];
      assert a'[..n] == [[c] + a[0]] + a[..n][1..] && b'[..n] == [[c] + b[0]] + b[..n][1..];
      assert a'[n] == a[n] && b'[n] == b[n];
    }
  }

  lemma BasenameAppend(path: string, tail: string)
    requires NoChar(tail, '/')
    ensures Basename(path + tail) == Basename(path) + tail
  {
    hide Split;
    SplitTail(path, tail);
  }

  lemma CanonicalName(path: string)
    requires Canonical(path)
    ensures EndsWith(Basename(path), ".ini") && IniFile(path)
  {
    hide NormalizeConfigPath, Split, Join, EndsWith, EnsureSafeName;
    AcceptedParts(path, false, path);
    NormalizeIdempotent(path, path);
  }

  lemma StampText(t: string)
    requires IsStamp(t)
    ensures NoChar("." + t, '/') && NoChar(".bak." + t, '/') && NoChar(".bak", '/')
    ensures NoChar(".bak", 'i') && NoChar(".bak." + t, 'i')
  {
    forall i | 0 <= i < 15 ensures t[i] != '/' && t[i] != 'i' { assert i == 8 || IsDigit(t[i]); }
  }

  /** The scan covers the live file and every backup of a registered path. */
  lemma OwnFilesAreListed(path: string, kind: Kind)
    requires Canonical(path) && (kind.Live? || IsBackupKind(kind))
    ensures Listed(FileOf(path, kind))
  {
    hide NormalizeConfigPath, Split, Basename, Contains, EndsWith;
    CanonicalName(path);
    var base := Basename(path);
    match kind
    case Live =>
    case Backup =>
      BasenameAppend(path, ".bak");
      BackupEnds(base, "");
    case RotatedBackup(t) =>
      StampText(t);
      BasenameAppend(path, ".bak." + t);
      assert path + ".bak." + t == path + (".bak." + t);
      BackupEnds(base, t);
  }

  lemma BackupEnds(base: string, t: string)
    requires EndsWith(base, ".ini")
    ensures EndsWith(base + ".bak", ".ini.bak") && Contains(base + (".bak." + t), ".ini.bak.")
  {
    var n := |base| - 4;
    assert base == base[..n] + ".ini";
    assert base + ".bak" == base[..n] + (".ini" + ".bak") && ".ini" + ".bak" == ".ini.bak";
    assert (base + ".bak")[n..] == ".ini.bak";
    var long := base + (".bak." + t);
    assert ".ini" + (".bak." + t) == ".ini.bak." + t;
    assert long == base[..n] + (".ini.bak." + t);
    assert long[n..n + 9] == ".ini.bak.";
    assert At(long, ".ini.bak.", n);
  }

  /** A scan that leaves out the files of `path` leaves out a file of another registered path only when that
      other path extends `path + ".bak"`. */
  lemma SkipMeansExtends(path: string, other: string, kind: Kind)
    requires IniFile(path) && IniFile(other) && path != other && (kind.Live? || IsBackupKind(kind))
    requires Skipped(FileOf(other, kind), Some(path))
    ensures Bak(path) <= other
  {
    var g := FileOf(other, kind);
    if g == path { FileOfInjective(other, kind, path, Live); }
    var tail := if kind.Live? then "" else if kind.Backup? then ".bak" else ".bak." + kind.stamp;
    assert g == other + tail;
    assert NoChar(tail, 'i') by { if kind.RotatedBackup? { StampText(kind.stamp); } else { StampText("20240101-000000"); } }
    PrefixExtends(path, other, tail, g);
  }

  lemma PrefixExtends(path: string, other: string, tail: string, g: string)
    requires IniFile(path) && IniFile(other) && path != other && NoChar(tail, 'i')
    requires tail == "" || ".bak" <= tail
    requires g == other + tail && Bak(path) <= g
    ensures Bak(path) <= other
  {
    assert path[|path| - 1] == path[|path| - 4..][3] && other[|other| - 1] == other[|other| - 4..][3];
    assert g[..|path|] == path && g[..|other|] == other;
    assert g[|path| - 1] == 'i' && g[|other| - 1] == 'i';
    assert forall i :: |other| <= i < |g| ==> g[i] == tail[i - |other|];
    assert forall i :: |path| <= i < |path| + 4 ==> g[i] == Bak(path)[i] && g[i] != 'i';
    assert |other| == |path| || |other| >= |path| + 4;
    if |other| >= |path| + 4 {
      assert Bak(path) == g[..|path| + 4] == other[..|path| + 4];
    }
  }

  /** The scan leaves out all files of the excluded path. */
  lemma OwnFilesAreSkipped(path: string, kind: Kind)
    requires path != "" && (kind.Live? || kind.Backup? || kind.RotatedBackup?)
    ensures Skipped(FileOf(path, kind), Some(path))
  {
  }

  /** A live file that was set aside is never scanned. */
  lemma SetAsideIsNotListed(path: string, stamp: string)
    requires Canonical(path) && IsStamp(stamp)
    ensures !Listed(FileOf(path, SetAside(stamp)))
  {
    hide NormalizeConfigPath, Split, Basename, Contains, EndsWith, IsStamp;
    CanonicalName(path);
    CanonicalFile(path);
    StampText(stamp);
    BasenameAppend(path, "." + stamp);
    assert path + "." + stamp == path + ("." + stamp);
    AsideName(Basename(path), stamp);
  }

  lemma CanonicalFile(path: string)
    requires Canonical(path)
    ensures !Contains(Basename(path), ".bak.")
  {
    hide NormalizeConfigPath, Split, Contains, EnsureSafeName, EndsWith;
    AcceptedParts(path, false, path);
  }

  lemma AsideName(base: string, stamp: string)
    requires EndsWith(base, ".ini") && !Contains(base, ".bak.") && IsStamp(stamp)
    ensures var name := base + ("." + stamp);
            !EndsWith(name, ".ini") && !EndsWith(name, ".ini.bak") && !Contains(name, ".ini.bak.")
  {
    hide Contains;
    var name := base + ("." + stamp);
    assert name[|name| - 1] == stamp[14] && IsDigit(stamp[14]);
    assert ".ini"[3] == 'i' && ".ini.bak"[7] == 'k';
    assert !Contains(name, ".ini.bak.") by { NoMarkAside(base, stamp); }
  }

  lemma NoMarkAside(base: string, stamp: string)
    requires EndsWith(base, ".ini") && !Contains(base, ".bak.") && IsStamp(stamp)
    ensures !Contains(base + ("." + stamp), ".ini.bak.")
  {
    var name := base + ("." + stamp);
    assert base[|base| - 1] == base[|base| - 4..][3] == 'i';
    forall k | 0 <= k <= |name| ensures !At(name, ".ini.bak.", k) {
      if At(name, ".ini.bak.", k) { MarkInside(base, stamp, k); }
    }
  }

  lemma MarkInside(base: string, stamp: string, k: nat)
    requires base != "" && base[|base| - 1] == 'i' && IsStamp(stamp) && At(base + ("." + stamp), ".ini.bak.", k)
    ensures Contains(base, ".bak.")
  {
    var name := base + ("." + stamp);
    var m := name[k..k + 9];
    assert m[4..] == ".bak." && name[k + 7] == m[7] == 'k' && name[k + 8] == m[8] == '.';
    assert forall i :: |base| < i < |name| ==> name[i] == stamp[i - |base| - 1] && (IsDigit(name[i]) || name[i] == '-');
    assert k + 8 < |base|;
    assert base[k + 4..k + 9] == m[4..];
    assert At(base, ".bak.", k + 4);
  }
}
