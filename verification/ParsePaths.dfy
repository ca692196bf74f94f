/** Where `parse` takes job and module from, told on the texts of the options: the working directory, then the jar
    path, then the program name; app/services/template_service.py, `_extract_job_and_module`. */
module ParsePaths {
  import opened Text
  import opened PathNames
  import opened Template
  import RoundTrip
  import Ini

  // ---------------------------------------------------------------- segments of a path text

  function Segments(s: string): seq<string> { NonEmpty(Split(s, '/')) }

  lemma {:induction false} SplitAppend(a: string, b: string)
    ensures Split(a + ['/'] + b, '/') == Split(a, '/') + Split(b, '/')
  {
    var s := a + ['/'] + b;
    if a == "" {
      assert s[1..] == b && s[0] == '/';
      assert Split("", '/') == [""];
    } else {
      assert s[1..] == a[1..] + ['/'] + b && s[0] == a[0];
      SplitAppend(a[1..], b);
      var x, y := Split(a[1..], '/'), Split(b, '/');
      assert (x + y)[0] == x[0] && (x + y)[1..] == x[1..] + y;
    }
  }

  lemma {:induction false} NonEmptyAppend(a: seq<string>, b: seq<string>)
    ensures NonEmpty(a + b) == NonEmpty(a) + NonEmpty(b)
  {
    if a == [] {
      assert a + b == b;
    } else {
      assert (a + b)[1..] == a[1..] + b;
      NonEmptyAppend(a[1..], b);
    }
  }

  lemma SegmentsAppend(a: string, b: string)
    ensures Segments(a + "/" + b) == Segments(a) + Segments(b)
  {
    hide Split, NonEmpty;
    SplitAppend(a, b);
    NonEmptyAppend(Split(a, '/'), Split(b, '/'));
  }

  lemma OneSegment(a: string)
    requires NoChar(a, '/')
    ensures Segments(a) == if a == "" then [] else [a]
  {
    SplitHead(a, "", '/');
    assert [a][1..] == [] && NonEmpty([]) == [];
    assert [a] + [] == [a];
  }

  predicate OnlySlashes(gap: string) { forall i :: 0 <= i < |gap| ==> gap[i] == '/' }

  /** A run of slashes counts for one. */
  lemma {:induction false} GapSegments(gap: string, s: string)
    requires OnlySlashes(gap)
    ensures Segments(gap + s) == Segments(s)
  {
    if gap == "" {
      assert gap + s == s;
    } else {
      GapSegments(gap[1..], s);
      assert gap + s == "" + "/" + (gap[1..] + s);
      SegmentsAppend("", gap[1..] + s);
      OneSegment("");
    }
  }

  /** A name as it occurs in such paths. */
  predicate Plain(s: string) { s != "" && NoSpace(s) && NoChar(s, '/') && NoChar(s, '\\') }

  const ROOT := "/data/content/"

  lemma RootSegments(gap: string, rest: string)
    requires OnlySlashes(gap)
    ensures Segments(ROOT + gap + rest) == ["data", "content"] + Segments(rest)
  {
    hide Segments;
    assert ROOT + gap + rest == "" + "/" + ("data" + "/" + ("content" + "/" + (gap + rest)));
    OneSegment("");
    OneSegment("data");
    OneSegment("content");
    SegmentsAppend("", "data" + "/" + ("content" + "/" + (gap + rest)));
    SegmentsAppend("data", "content" + "/" + (gap + rest));
    SegmentsAppend("content", gap + rest);
    GapSegments(gap, rest);
    assert [] + (["data"] + (["content"] + Segments(rest))) == ["data", "content"] + Segments(rest);
  }

  /** A path text without blanks and backslashes. */
  predicate Clean(s: string) { s != "" && NoSpace(s) && NoChar(s, '\\') }

  lemma AfterClean(s: string)
    requires Clean(s)
    ensures AfterContent(Some(s)) ==
            var parts := Segments(s);
            if |parts| < 3 || parts[0] != "data" || parts[1] != "content" then [] else parts[2..]
  {
    hide Split, Strip, NonEmpty, IsSpace;
    StripFixed(s);
  }

  lemma RootIsClean()
    ensures NoSpace(ROOT) && NoChar(ROOT, '\\') && !IsSpace('/')
  {
  }

  lemma CleanRoot(gap: string, rest: string)
    requires OnlySlashes(gap) && NoSpace(rest) && NoChar(rest, '\\')
    ensures Clean(ROOT + gap + rest)
  {
    hide IsSpace;
    RootIsClean();
  }

  /** The part of a path below the content root. */
  lemma Below(gap: string, rest: string, parts: seq<string>)
    requires OnlySlashes(gap) && NoSpace(rest) && NoChar(rest, '\\') && Segments(rest) == parts && parts != []
    ensures AfterContent(Some(ROOT + gap + rest)) == parts
  {
    hide Segments, AfterContent, NoSpace;
    CleanRoot(gap, rest);
    RootSegments(gap, rest);
    AfterClean(ROOT + gap + rest);
    assert (["data", "content"] + parts)[2..] == parts;
  }

  lemma OneBelow(job: string, tail: string)
    requires Plain(job) && OnlySlashes(tail)
    ensures Segments(job + tail) == [job] && NoSpace(job + tail) && NoChar(job + tail, '\\')
  {
    hide Segments, IsSpace;
    OneSegment(job);
    RootIsClean();
    if tail == "" {
      assert job + tail == job;
    } else {
      assert job + tail == job + "/" + tail[1..];
      SegmentsAppend(job, tail[1..]);
      GapSegments(tail[1..], "");
      assert tail[1..] + "" == tail[1..];
      OneSegment("");
    }
  }

  lemma TwoBelow(job: string, part: string, tail: string)
    requires Plain(job) && Plain(part) && OnlySlashes(tail)
    ensures var s := job + "/" + part + tail; Segments(s) == [job, part] && NoSpace(s) && NoChar(s, '\\')
  {
    hide Segments, IsSpace;
    OneSegment(job);
    RootIsClean();
    OneBelow(part, tail);
    assert job + "/" + part + tail == job + "/" + (part + tail);
    SegmentsAppend(job, part + tail);
  }

  lemma ThreeBelow(job: string, part: string, file: string)
    requires Plain(job) && Plain(part) && Plain(file)
    ensures var s := job + "/" + part + "/" + file; Segments(s) == [job, part, file] && NoSpace(s) && NoChar(s, '\\')
  {
    hide Segments, IsSpace;
    OneSegment(job);
    RootIsClean();
    TwoBelow(part, file, "");
    assert job + "/" + part + "/" + file == job + "/" + (part + "/" + file + "");
    SegmentsAppend(job, part + "/" + file + "");
  }

  // ---------------------------------------------------------------- what parse makes of them

  /** The options of a program whose command ends in the jar path. */
  predicate Runs(options: map<string, string>, words: string, jar: string) {
    Lookup(options, "command") == Some(words + " " + jar) && !Contains(words + " ", ".jar")
    && |jar| >= 6 && jar[0] == '/' && NoSpace(jar) && EndsWith(jar, ".jar")
  }

  /** The directory option is missing or not below the content root. */
  ghost predicate Elsewhere(options: map<string, string>) {
    match Lookup(options, "directory")
    case None => true
    case Some(d) => exists x, rest :: Plain(x) && x != "data" && NoSpace(rest) && NoChar(rest, '\\') && d == "/" + x + "/" + rest
  }

  lemma ElsewhereHasNone(options: map<string, string>)
    requires Elsewhere(options)
    ensures FromDirectory(Lookup(options, "directory")) == (None, None)
  {
    hide AfterContent, IsSpace, NoSpace;
    match Lookup(options, "directory")
    case None => EmptyPath();
    case Some(d) =>
      var x, rest :| Plain(x) && x != "data" && NoSpace(rest) && NoChar(rest, '\\') && d == "/" + x + "/" + rest;
      Foreign(x, rest);
  }

  lemma EmptyPath()
    ensures AfterContent(None) == []
  {
    StripFixed("");
    assert Slashes("") == "";
    SplitHead("", "", '/');
    assert [""][1..] == [];
  }

  lemma Foreign(x: string, rest: string)
    requires Plain(x) && x != "data" && NoSpace(rest) && NoChar(rest, '\\')
    ensures AfterContent(Some("/" + x + "/" + rest)) == []
  {
    hide Segments, IsSpace, AfterContent;
    var d := "/" + x + "/" + rest;
    RootIsClean();
    assert Clean(d);
    assert d == "" + "/" + (x + "/" + rest);
    OneSegment("");
    OneSegment(x);
    SegmentsAppend("", x + "/" + rest);
    SegmentsAppend(x, rest);
    AfterClean(d);
  }

  /** Job and module of a parse. */
  predicate Says(options: map<string, string>, name: string, content: string, warnings: seq<Warning>, job: string, moduleName: string) {
    var p := ReadFields(name, options, content, warnings);
    p.job == Some(job) && p.moduleName == Some(moduleName)
  }

  /** A parsed config is what its options and its program name say. */
  lemma ParsedReads(content: string)
    requires Parse(content).Ok?
    ensures var p := Parse(content).value; p == ReadFields(p.name, p.options, content, p.warnings)
  {
    hide ExtractJar, FromDirectory, FromJar, FromProgram, ExtractMark, ExtractPort, ExtractJavaPath, Strip, Basename, EnsureSafeName,
      Ini.ReadIni, Ini.Items, ProgramSections, Find, Warnings;
  }

  lemma Combine(options: map<string, string>, name: string, content: string, warnings: seq<Warning>)
    ensures var p := ReadFields(name, options, content, warnings);
            var jar := ExtractJar(if "command" in options then options["command"] else "", 0);
            var d, j, n := FromDirectory(Lookup(options, "directory")), FromJar(jar), FromProgram(name);
            p.job == FirstNonEmpty(d.0, j.0, n.0) && p.moduleName == FirstNonEmpty(d.1, j.1, n.1)
  {
    hide ExtractJar, FromDirectory, FromJar, FromProgram, ExtractMark, ExtractPort, ExtractJavaPath, Strip, Basename;
  }

  lemma JarFound(options: map<string, string>, words: string, jar: string)
    requires Runs(options, words, jar)
    ensures "command" in options && ExtractJar(options["command"], 0) == Some(jar)
  {
    hide Contains, ExtractJar, NoSpace, EndsWith;
    RoundTrip.ExtractJarAtEnd(words, jar);
  }

  lemma ModuleJar(m: string)
    requires Plain(m)
    ensures EndsWith(m + ".jar", ".jar") && Stem(m + ".jar") == m && Plain(m + ".jar")
  {
    assert (m + ".jar")[|m|..] == ".jar" && (m + ".jar")[..|m|] == m;
  }

  /** A directory with job and module decides both, whatever the command and the program name are. */
  lemma DirectoryWins(options: map<string, string>, name: string, content: string, warnings: seq<Warning>, gap: string, job: string, m: string, tail: string)
    requires Plain(job) && Plain(m) && OnlySlashes(gap) && OnlySlashes(tail)
    requires Lookup(options, "directory") == Some(ROOT + gap + (job + "/" + m + tail))
    ensures Says(options, name, content, warnings, job, m)
  {
    hide ReadFields, FromJar, FromProgram, AfterContent, NoSpace, ExtractJar;
    TwoBelow(job, m, tail);
    Below(gap, job + "/" + m + tail, [job, m]);
    Combine(options, name, content, warnings);
  }

  /** A directory with the job only leaves the module to the jar: the stem of a jar directly below the job. */
  lemma JarGivesModule(
    options: map<string, string>, name: string, content: string, warnings: seq<Warning>, gap: string, job: string, tail: string,
    words: string, gap2: string, other: string, m: string)
    requires Plain(job) && Plain(other) && Plain(m) && OnlySlashes(gap) && OnlySlashes(tail) && OnlySlashes(gap2)
    requires Lookup(options, "directory") == Some(ROOT + gap + (job + tail))
    requires Runs(options, words, ROOT + gap2 + (other + "/" + (m + ".jar") + ""))
    ensures Says(options, name, content, warnings, job, m)
  {
    hide ReadFields, FromProgram, AfterContent, NoSpace, ExtractJar, EndsWith, Stem, Runs;
    ModuleJar(m);
    OneBelow(job, tail);
    Below(gap, job + tail, [job]);
    TwoBelow(other, m + ".jar", "");
    Below(gap2, other + "/" + (m + ".jar") + "", [other, m + ".jar"]);
    JarFound(options, words, ROOT + gap2 + (other + "/" + (m + ".jar") + ""));
    Combine(options, name, content, warnings);
  }

  /** And the directory between job and jar otherwise. */
  lemma JarDirectoryGivesModule(
    options: map<string, string>, name: string, content: string, warnings: seq<Warning>, gap: string, job: string, tail: string,
    words: string, gap2: string, other: string, m: string, file: string)
    requires Plain(job) && Plain(other) && Plain(m) && Plain(file) && OnlySlashes(gap) && OnlySlashes(tail) && OnlySlashes(gap2)
    requires Lookup(options, "directory") == Some(ROOT + gap + (job + tail))
    requires Runs(options, words, ROOT + gap2 + (other + "/" + m + "/" + file))
    ensures Says(options, name, content, warnings, job, m)
  {
    hide ReadFields, FromProgram, AfterContent, NoSpace, ExtractJar, EndsWith, Stem, Runs;
    OneBelow(job, tail);
    Below(gap, job + tail, [job]);
    ThreeBelow(other, m, file);
    Below(gap2, other + "/" + m + "/" + file, [other, m, file]);
    JarFound(options, words, ROOT + gap2 + (other + "/" + m + "/" + file));
    Combine(options, name, content, warnings);
  }

  /** Without a directory below the root the jar decides, whatever the program name is. */
  lemma JarWins(
    options: map<string, string>, name: string, content: string, warnings: seq<Warning>, words: string, gap: string,
    job: string, m: string, file: string)
    requires Elsewhere(options) && Plain(job) && Plain(m) && Plain(file) && OnlySlashes(gap)
    requires Runs(options, words, ROOT + gap + (job + "/" + m + "/" + file))
    ensures Says(options, name, content, warnings, job, m)
  {
    hide ReadFields, FromDirectory, FromProgram, AfterContent, NoSpace, ExtractJar, EndsWith, Stem, Runs, Elsewhere;
    ElsewhereHasNone(options);
    ThreeBelow(job, m, file);
    Below(gap, job + "/" + m + "/" + file, [job, m, file]);
    JarFound(options, words, ROOT + gap + (job + "/" + m + "/" + file));
    Combine(options, name, content, warnings);
  }

  /** A jar directly below the job names the module. */
  lemma ShortJarWins(
    options: map<string, string>, name: string, content: string, warnings: seq<Warning>, words: string, gap: string,
    job: string, m: string)
    requires Elsewhere(options) && Plain(job) && Plain(m) && OnlySlashes(gap)
    requires Runs(options, words, ROOT + gap + (job + "/" + (m + ".jar") + ""))
    ensures Says(options, name, content, warnings, job, m)
  {
    hide ReadFields, FromDirectory, FromProgram, AfterContent, NoSpace, ExtractJar, EndsWith, Stem, Runs, Elsewhere;
    ElsewhereHasNone(options);
    ModuleJar(m);
    TwoBelow(job, m + ".jar", "");
    Below(gap, job + "/" + (m + ".jar") + "", [job, m + ".jar"]);
    JarFound(options, words, ROOT + gap + (job + "/" + (m + ".jar") + ""));
    Combine(options, name, content, warnings);
  }

  /** With neither, the program name is cut at its last underscore. */
  lemma NameComesLast(
    options: map<string, string>, content: string, warnings: seq<Warning>, words: string, x: string, rest: string,
    job: string, m: string)
    requires Elsewhere(options) && job != "" && m != "" && NoChar(m, '_')
    requires Plain(x) && x != "data" && NoSpace(rest) && NoChar(rest, '\\') && Runs(options, words, "/" + x + "/" + rest)
    ensures Says(options, job + "_" + m, content, warnings, job, m)
  {
    hide ReadFields, FromDirectory, AfterContent, NoSpace, ExtractJar, EndsWith, Stem, Runs, Elsewhere, FromProgram;
    ElsewhereHasNone(options);
    Foreign(x, rest);
    JarFound(options, words, "/" + x + "/" + rest);
    CutName(job, m);
    Combine(options, job + "_" + m, content, warnings);
  }

  /** The same when the command holds no jar at all. */
  lemma NameWithoutJar(options: map<string, string>, content: string, warnings: seq<Warning>, job: string, m: string)
    requires Elsewhere(options) && job != "" && m != "" && NoChar(m, '_')
    requires Lookup(options, "command") == None
    ensures Says(options, job + "_" + m, content, warnings, job, m)
  {
    hide ReadFields, FromDirectory, AfterContent, Elsewhere, FromProgram;
    ElsewhereHasNone(options);
    EmptyPath();
    CutName(job, m);
    Combine(options, job + "_" + m, content, warnings);
  }

  lemma CutName(job: string, m: string)
    requires job != "" && m != "" && NoChar(m, '_')
    ensures FromProgram(job + "_" + m) == (Some(job), Some(m))
  {
    hide LastUnderscore;
    var name := job + "_" + m;
    LastCut(name, |name|, |job|);
    assert name[..|job|] == job && name[|job| + 1..] == m;
  }

  lemma {:induction false} LastCut(s: string, k: nat, at: nat)
    requires at < k <= |s| && s[at] == '_' && forall i :: at < i < k ==> s[i] != '_'
    ensures LastUnderscore(s, k) == at
    decreases k
  {
    if k > at + 1 { LastCut(s, k - 1, at); }
  }
}
