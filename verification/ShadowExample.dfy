/** A run of four completed requests from the empty registry that ends with two services on one port: the archived
    one's path begins with the other's path followed by ".bak", so the scan takes its backup for an own one. */
module ShadowExample {
  import opened Text
  import opened PathNames
  import opened Template
  import opened Files
  import opened PortCheck
  import opened Registry
  import opened Lifecycle
  import opened Ports
  import RoundTrip
  import ParseBack
  import OnlyPort
  import Runs

  const HOST := "h"
  const LIVE := "a.ini"
  const SHADOW := "a.ini.bakx.ini"

  /** The requests: create a on 9000, create b on 9001, move a to 9001; the second names its file. */
  const FIRST := Request("a", "", 9000)
  const SECOND := Request("b", "a.ini.bakx.ini", 9001)
  const THIRD := Request("a", "", 9001)

  function Request(name: string, fileName: string, port: int): Fields {
    Fields("j", "m", name, "/j", "p", port, "m.jar", fileName, "1", "1", "u")
  }

  /** What the template makes of a request. */
  function TextOf(f: Fields): string
    requires f.port >= 0
  {
    Content(f, f.name, "m.jar")
  }

  function Rendering(f: Fields, path: string): Rendered
    requires f.port >= 0
  {
    Rendered(f.name, path, TextOf(f))
  }

  function DraftFor(f: Fields, path: string): Draft
    requires f.port >= 0
  {
    RequestDraft(HOST, f, Rendering(f, path), path)
  }

  // ---------------------------------------------------------------- the worlds of the run

  const EMPTY := World(map[HOST := map[]], Table(map[], 1), map[])

  function Created(): World {
    World(map[HOST := map[LIVE := TextOf(FIRST)]], Table(map[1 := NewRow(DraftFor(FIRST, LIVE))], 2), map[])
  }

  function BothCreated(): World {
    World(map[HOST := map[LIVE := TextOf(FIRST), SHADOW := TextOf(SECOND)]],
          Table(map[1 := NewRow(DraftFor(FIRST, LIVE)), 2 := NewRow(DraftFor(SECOND, SHADOW))], 3), map[])
  }

  /** The second service archived: only its `.bak` is left. */
  function Archived(): World {
    World(map[HOST := map[LIVE := TextOf(FIRST), Bak(SHADOW) := TextOf(SECOND)]],
          Table(map[1 := NewRow(DraftFor(FIRST, LIVE)),
                    2 := NewRow(DraftFor(SECOND, SHADOW)).(archived := true, runtime := Runtime("STOPPED", None, None))], 3),
          map[2 := TextOf(SECOND)])
  }

  function Clashing(stamp: string): World {
    var w := Archived();
    var fs := w.disks[HOST];
    w.(disks := w.disks[HOST := Updated(fs, LIVE, LIVE, TextOf(THIRD), stamp)],
       table := Replace(w.table, 1, UpdatedRow(w.table.rows[1], DraftFor(THIRD, LIVE), NEW_RUNTIME, TextOf(FIRST))))
  }

  function Worlds(stamp2: string): seq<World> { [EMPTY, Created(), BothCreated(), Archived(), Clashing(stamp2)] }

  function Events(stamp1: string, stamp2: string, stamp3: string): seq<Event> {
    [Create(HOST, FIRST, Done), Create(HOST, SECOND, Done), Archive(HOST, "b", stamp1, Done),
     Update(HOST, "a", THIRD, stamp2, stamp3, Done)]
  }

  // ---------------------------------------------------------------- names and texts

  lemma SafeLiteral(s: string)
    requires s != "" && AllSafe(s)
    ensures EnsureSafeName(s) == Ok(s)
  {
    hide IsSafeChar;
    SafeIsNotSpace(s[0]);
    SafeIsNotSpace(s[|s| - 1]);
    StripFixed(s);
  }

  lemma OneSegment(name: string)
    requires EndsWith(name, ".ini") && |name| > 4 && AllSafe(name)
    requires !EndsWith(name, ".bak") && !Contains(name, ".bak.")
    ensures Canonical(name) && Split(name, '/') == [name]
  {
    hide Contains, EnsureSafeName, Split, IsSafeChar;
    ParseBack.SafeText(name);
    SplitHead(name, "", '/');
    SafeLiteral(name[..|name| - 4]);
    SafeIsNotSpace(name[0]);
    SafeIsNotSpace(name[|name| - 1]);
    assert |name| > 2;
    AcceptParts([name], false);
  }

  lemma ExamplePaths()
    ensures Canonical(LIVE) && Canonical(SHADOW) && Split(LIVE, '/') == [LIVE]
  {
    hide Canonical, Contains, Split;
    assert LIVE[|LIVE| - 4..] == ".ini" && SHADOW[|SHADOW| - 4..] == ".ini";
    NoContains(LIVE, ".bak.", 'k');
    ShadowHasNoMark();
    OneSegment(LIVE);
    OneSegment(SHADOW);
  }

  lemma ShadowHasNoMark()
    ensures !Contains(SHADOW, ".bak.")
  {
    assert SHADOW[9] == 'x' && forall i :: 0 <= i < |SHADOW| && SHADOW[i] == 'k' ==> i == 8;
    forall k | 0 <= k <= |SHADOW| ensures !At(SHADOW, ".bak.", k) {
      Mismatch(SHADOW, ".bak.", k, if k == 5 then 4 else 3);
    }
  }

  lemma RequestIsReadable(f: Fields)
    requires f == FIRST || f == SECOND || f == THIRD
    ensures RoundTrip.Readable(f) && EndsWith("m.jar", ".jar") && NoChar(f.user, '=')
  {
    hide RoundTrip.Plain, RoundTrip.NoQuoting, RoundTrip.NoBreak, Contains;
    assert "m.jar"[1..] == ".jar";
    PlainLiteral("/j");
    PlainLiteral("1");
    PlainLiteral("p");
    ParseBack.SafeText("u");
    SafeIsNotSpace('u');
    assert RoundTrip.NoQuoting("/j") by { PathIsUnquoted(); }
  }

  lemma PathIsUnquoted()
    ensures RoundTrip.NoQuoting("/j")
  {
  }

  /** A word without any character of the marks. */
  lemma PlainLiteral(s: string)
    requires s == "/j" || s == "1" || s == "p"
    ensures RoundTrip.Plain(s) && !Contains(s, "-Xms") && !Contains(s, "-Xmx") && !Contains(s, PROFILE_MARK)
  {
    hide Contains;
    NoContains(s, ".jar", '.');
    NoContains(s, "-Xms", '-');
    NoContains(s, "-Xmx", '-');
    NoContains(s, PROFILE_MARK, '-');
  }

  lemma FileNames()
    ensures NormalizeConfigName("", "a") == Ok(LIVE) && NormalizeConfigName(SHADOW, "b") == Ok(SHADOW)
  {
    hide Contains, EnsureSafeName;
    StripFixed("");
    SafeLiteral("a");
    NoContains("a", "..", '.');
    NoContains("a", ".bak.", '.');
    assert "a" + ".ini" == LIVE;
    ShadowStem();
  }

  lemma ShadowStem()
    ensures NormalizeConfigName(SHADOW, "b") == Ok(SHADOW)
  {
    hide Contains, EnsureSafeName, Strip;
    var stem := "a.ini.bakx";
    SafeIsNotSpace('a');
    SafeIsNotSpace('i');
    StripFixed(SHADOW);
    assert stem + ".ini" == SHADOW && SHADOW[|SHADOW| - 4..] == ".ini" && SHADOW[..|SHADOW| - 4] == stem;
    assert !Contains(stem, "..") && !Contains(stem, ".bak.") by { StemMarks(stem); }
    assert stem[|stem| - 4..][3] == 'x';
    SafeLiteral(stem);
  }

  lemma StemMarks(stem: string)
    requires stem == "a.ini.bakx"
    ensures !Contains(stem, "..") && !Contains(stem, ".bak.")
  {
    assert forall i :: 0 <= i < |stem| && stem[i] == '.' ==> i == 1 || i == 5;
    assert forall i :: 0 <= i < |stem| && stem[i] == 'k' ==> i == 8;
    forall k | 0 <= k <= |stem| ensures !At(stem, "..", k) && !At(stem, ".bak.", k) {
      Mismatch(stem, "..", k, if k == 1 || k == 5 then 1 else 0);
      Mismatch(stem, ".bak.", k, if k == 5 then 4 else 3);
    }
  }

  lemma Mismatch(s: string, mark: string, k: nat, i: nat)
    requires i < |mark| && (k + |mark| <= |s| ==> s[k + i] != mark[i])
    ensures !At(s, mark, k)
  {
    if k + |mark| <= |s| { assert s[k..k + |mark|][i] == s[k + i]; }
  }

  lemma Renders(f: Fields, path: string)
    requires (f == FIRST && path == LIVE) || (f == SECOND && path == SHADOW) || (f == THIRD && path == LIVE)
    ensures RenderService(f) == Ok(Rendering(f, path))
    ensures forall port :: Mentions(TextOf(f), port) <==> port == f.port
  {
    hide RenderService, Content, RoundTrip.Readable, EnsureSafeName, Contains, NormalizeConfigName, Mentions, AllSafe, EndsWith;
    SafeLiteral(f.name) by { NamesAreSafe(); }
    SafeLiteral("m.jar") by { NamesAreSafe(); }
    RequestIsReadable(f);
    FileNames();
    ParseBack.ParseOfRender(f, f.name, "m.jar", path);
    assert ParseBack.SafeJar("m.jar") && AllSafe(f.name) by { NamesAreSafe(); }
    forall port ensures Mentions(TextOf(f), port) <==> port == f.port { OnlyPort.OnlyRenderedPort(f, f.name, "m.jar", port); }
  }

  lemma NamesAreSafe()
    ensures AllSafe("a") && AllSafe("b") && AllSafe("m.jar") && AllSafe(HOST) && EndsWith("m.jar", ".jar")
  {
    assert "m.jar"[1..] == ".jar";
  }

  lemma ExampleNames()
    ensures LIVE != SHADOW && "a" != "b" && LIVE != Bak(SHADOW) && SHADOW != Bak(SHADOW) && LIVE != Bak(LIVE)
    ensures Bak(LIVE) <= SHADOW && Bak(LIVE) <= Bak(SHADOW)
  {
    assert "a"[0] != "b"[0];
    assert |LIVE| < |SHADOW| < |Bak(SHADOW)|;
    assert SHADOW[..9] == Bak(LIVE) && Bak(SHADOW)[..9] == Bak(LIVE);
  }

  lemma HostIsOk()
    ensures EnsureSafeHost(HOST) == Ok(HOST)
  {
    NamesAreSafe();
    SafeLiteral(HOST);
  }

  // ---------------------------------------------------------------- the four steps

  lemma FirstStep()
    ensures CreateStep(EMPTY, Created(), HOST, FIRST, Done)
  {
    hide RenderService, EnsureSafeHost, Hit, TextOf;
    Renders(FIRST, LIVE);
    HostIsOk();
    assert EMPTY.disks[HOST := EMPTY.disks[HOST][LIVE := TextOf(FIRST)]] == Created().disks;
    assert !ScanConflict(EMPTY.disks[HOST], 9000, None) by { NothingToScan(); }
  }

  lemma NothingToScan()
    ensures !ScanConflict(map[], 9000, None)
  {
  }

  lemma SecondStep()
    ensures CreateStep(Created(), BothCreated(), HOST, SECOND, Done)
  {
    hide RenderService, EnsureSafeHost, TextOf;
    Renders(FIRST, LIVE);
    Renders(SECOND, SHADOW);
    HostIsOk();
    ExampleNames();
    var w := Created();
    assert w.disks[HOST := w.disks[HOST][SHADOW := TextOf(SECOND)]] == BothCreated().disks;
    assert !ScanConflict(w.disks[HOST], 9001, None) by { FirstHasOtherPort(); }
    assert NoConflict(w.table.rows, DraftFor(SECOND, SHADOW), 0);
  }

  lemma FirstHasOtherPort()
    ensures !ScanConflict(Created().disks[HOST], 9001, None)
  {
    hide Listed, Mentions, TextOf;
    Renders(FIRST, LIVE);
  }

  lemma ThirdStep(stamp: string)
    ensures ArchiveStep(BothCreated(), Archived(), HOST, "b", stamp, Done)
  {
    hide EnsureSafeHost, TextOf, DraftFor, Bak;
    HostIsOk();
    ExampleNames();
    DraftKeys();
    var w := BothCreated();
    var fs := w.disks[HOST];
    assert w.table.rows[2].host == HOST && w.table.rows[2].name == "b";
    assert IdOf(w.table.rows, HOST, "b") == 2;
    assert BackedUp(fs, SHADOW, stamp) - {SHADOW} == Archived().disks[HOST];
    assert w.disks[HOST := BackedUp(fs, SHADOW, stamp) - {SHADOW}] == Archived().disks;
    assert SetByName(w.table, HOST, "b", true, Runtime("STOPPED", None, None)) == Archived().table;
    assert w.snaps[2 := fs[SHADOW]] == Archived().snaps;
  }

  /** The columns of the drafts that the checks look at. */
  lemma DraftKeys()
    ensures var d := DraftFor(FIRST, LIVE); d.host == HOST && d.name == "a" && d.path == LIVE && d.port == Some(9000)
    ensures var d := DraftFor(SECOND, SHADOW); d.host == HOST && d.name == "b" && d.path == SHADOW && d.port == Some(9001)
    ensures var d := DraftFor(THIRD, LIVE);
            d.host == HOST && d.name == "a" && d.path == LIVE && d.port == Some(9001) && d.baseline == TextOf(THIRD)
            && d == RequestDraft(HOST, THIRD, Rendering(THIRD, LIVE), LIVE)
  {
    hide TextOf;
  }

  lemma FourthStep(stamp2: string, stamp3: string)
    ensures UpdateStep(Archived(), Clashing(stamp2), HOST, "a", THIRD, stamp2, stamp3, Done)
    ensures !UniquePorts(Clashing(stamp2).table.rows)
  {
    hide EnsureSafeHost, TextOf, RenderService, Updated, UpdatedRow, Bak, DraftFor, UpdateGuard, TargetPath;
    var w := Archived();
    Renders(THIRD, LIVE);
    DraftKeys();
    SameTarget();
    GuardHolds();
    LiveRowIsFirst();
    ExampleNames();
    var row, fs, w' := w.table.rows[1], w.disks[HOST], Clashing(stamp2);
    assert row.path == LIVE && fs[LIVE] == TextOf(FIRST);
    assert w'.disks == w.disks[HOST := Updated(fs, LIVE, LIVE, TextOf(THIRD), stamp2)];
    assert w'.table == Replace(w.table, 1, UpdatedRow(row, RequestDraft(HOST, THIRD, Rendering(THIRD, LIVE), LIVE), NEW_RUNTIME, fs[LIVE]));
    Runs.UpdatedRowKeeps(w.table.rows[1], DraftFor(THIRD, LIVE), TextOf(FIRST));
    assert SamePort(Clashing(stamp2).table.rows[1], Clashing(stamp2).table.rows[2]);
  }

  lemma LiveRowIsFirst()
    ensures var rows := Archived().table.rows; Registered(rows, HOST, "a") && IdOf(rows, HOST, "a") == 1
  {
    hide TextOf, DraftFor, Bak;
    DraftKeys();
    ExampleNames();
    var rows := Archived().table.rows;
    assert rows[1].host == HOST && rows[1].name == "a";
  }

  lemma GuardHolds()
    ensures UpdateGuard(Archived(), HOST, 1, THIRD, LIVE)
  {
    hide EnsureSafeHost, TextOf, RenderService, Bak, DraftFor, NoConflict, ScanConflict, TargetPath;
    Renders(THIRD, LIVE);
    HostIsOk();
    ExampleNames();
    DraftKeys();
    SameTarget();
    NoConflictLeft();
    NothingSeen();
  }

  lemma SameTarget()
    ensures TargetPath(LIVE, LIVE) == LIVE
  {
    hide Split, Canonical;
    ExamplePaths();
    assert "" + LIVE == LIVE;
  }

  lemma NoConflictLeft()
    ensures NoConflict(Archived().table.rows, DraftFor(THIRD, LIVE), 1)
  {
    hide TextOf, DraftFor, Bak;
    DraftKeys();
    ExampleNames();
  }

  lemma NothingSeen()
    ensures !ScanConflict(Archived().disks[HOST], 9001, Some(LIVE))
  {
    hide Listed, Mentions, TextOf;
    ExampleNames();
  }

  // ---------------------------------------------------------------- the run

  /** A stamp is fresh where no file ends in a digit. */
  lemma NoStampedFile(w: World, name: string, stamp: string)
    requires IsStamp(stamp) && HOST in w.disks
    requires forall f :: f in w.disks[HOST] ==> f != "" && !IsDigit(f[|f| - 1])
    ensures RotatesFreely(w, HOST, name, stamp) && SetsAsideFreely(w, HOST, name, stamp)
  {
    hide IsDigit, Bak;
    forall path ensures Fresh(w.disks[HOST], path, stamp) && AsideFree(w.disks[HOST], path, stamp) {
      assert FileOf(path, RotatedBackup(stamp))[|FileOf(path, RotatedBackup(stamp))| - 1] == stamp[14];
      assert FileOf(path, SetAside(stamp))[|FileOf(path, SetAside(stamp))| - 1] == stamp[14];
    }
  }

  lemma LastCharacters()
    ensures Bak(SHADOW) != "" && !IsDigit(LIVE[|LIVE| - 1]) && !IsDigit(SHADOW[|SHADOW| - 1]) && !IsDigit(Bak(SHADOW)[|Bak(SHADOW)| - 1])
  {
  }

  ghost predicate FromEmptyToClash(ws: seq<World>, es: seq<Event>) {
    |es| == 4 && Run(ws, es) && ws[0] == World(map[HOST := map[]], Table(map[], 1), map[])
    && (forall i :: 0 <= i < 4 ==> (es[i].Create? || es[i].Archive? || es[i].Update?) && es[i].out == Done
                                   && FreshStamps(ws[i], es[i]))
    && UniquePorts(ws[3].table.rows) && !UniquePorts(ws[4].table.rows)
  }

  /** From an empty registry and an empty host, four completed requests lead to two rows with one port; up to the last
      one the ports are different. */
  lemma ShadowedRun(stamp1: string, stamp2: string, stamp3: string)
    requires IsStamp(stamp1) && IsStamp(stamp2) && IsStamp(stamp3)
    ensures FromEmptyToClash(Worlds(stamp2), Events(stamp1, stamp2, stamp3))
  {
    hide Created, BothCreated, Archived, Clashing, CreateStep, ArchiveStep, UpdateStep, IsDigit, IsStamp, UniquePorts, RotatesFreely,
      SetsAsideFreely;
    FirstStep();
    SecondStep();
    ThirdStep(stamp1);
    FourthStep(stamp2, stamp3);
    StampsAreFresh(stamp1, stamp2, stamp3);
    PortsDifferBefore();
  }

  lemma StampsAreFresh(stamp1: string, stamp2: string, stamp3: string)
    requires IsStamp(stamp1) && IsStamp(stamp2) && IsStamp(stamp3)
    ensures RotatesFreely(BothCreated(), HOST, "b", stamp1)
    ensures RotatesFreely(Archived(), HOST, "a", stamp2) && SetsAsideFreely(Archived(), HOST, "a", stamp3)
  {
    hide IsStamp, RotatesFreely, SetsAsideFreely, Created, BothCreated, Archived;
    FilesAreUnstamped();
    NoStampedFile(BothCreated(), "b", stamp1);
    NoStampedFile(Archived(), "a", stamp2);
    NoStampedFile(Archived(), "a", stamp3);
  }

  lemma FilesAreUnstamped()
    ensures HOST in BothCreated().disks && HOST in Archived().disks
    ensures forall f :: f in BothCreated().disks[HOST] ==> f != "" && !IsDigit(f[|f| - 1])
    ensures forall f :: f in Archived().disks[HOST] ==> f != "" && !IsDigit(f[|f| - 1])
  {
    hide IsDigit, TextOf, Bak, DraftFor;
    LastCharacters();
    ExampleNames();
  }

  lemma PortsDifferBefore()
    ensures UniquePorts(Archived().table.rows)
  {
    hide TextOf, DraftFor, Bak;
    DraftKeys();
  }
}
