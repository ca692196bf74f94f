/** `parse(render(x))` gives back the fields of `x`, complete and without warnings. */
module ParseBack {
  import opened Text
  import opened PathNames
  import opened Template
  import opened RoundTrip
  import Ini
  import DuplicateKeys

  // ---------------------------------------------------------------- the template's option lines

  lemma SafeKey(key: string)
    requires key != "" && AllSafe(key)
    ensures Ini.PlainKey(key)
  {
    forall i | 0 <= i < |key| ensures !IsSpace(key[i]) { SafeIsNotSpace(key[i]); }
  }

  lemma KeysArePlain1()
    ensures Ini.PlainKey("command") && Ini.PlainKey("directory") && Ini.PlainKey("autostart")
    ensures Ini.PlainKey("startsecs") && Ini.PlainKey("autorestart") && Ini.PlainKey("startretries")
    ensures Ini.PlainKey("user") && Ini.PlainKey("priority")
  {
    hide Ini.PlainKey;
    SafeKey("command");
    SafeKey("directory");
    SafeKey("autostart");
    SafeKey("startsecs");
    SafeKey("autorestart");
    SafeKey("startretries");
    SafeKey("user");
    SafeKey("priority");
  }

  lemma KeysArePlain2()
    ensures Ini.PlainKey("redirect_stderr") && Ini.PlainKey("stdout_logfile_maxbytes")
    ensures Ini.PlainKey("stdout_logfile_backups")
  {
    hide Ini.PlainKey;
    SafeKey("redirect_stderr");
    SafeKey("stdout_logfile_maxbytes");
    SafeKey("stdout_logfile_backups");
  }

  lemma KeysArePlain3()
    ensures Ini.PlainKey("stopasgroup") && Ini.PlainKey("killasgroup") && Ini.PlainKey("stdout_logfile")
  {
    hide Ini.PlainKey;
    SafeKey("stopasgroup");
    SafeKey("killasgroup");
    SafeKey("stdout_logfile");
  }

  /** A text that may stand as an option value on one line. */
  predicate LineValue(s: string) { Ini.TrimmedValue(s) && NoBreak(s) }

  lemma {:induction false} SafeText(s: string)
    requires AllSafe(s)
    ensures NoSpace(s) && NoBreak(s) && NoChar(s, '/') && NoChar(s, '=') && NoChar(s, ' ') && NoChar(s, '\\')
  {
    forall i | 0 <= i < |s| ensures !IsSpace(s[i]) && !DuplicateKeys.IsLineBreak(s[i]) {
      SafeIsNotSpace(s[i]);
      BreakIsSpace(s[i]);
    }
  }

  lemma NoSpaceNoBreak(s: string)
    requires NoSpace(s)
    ensures NoBreak(s)
  {
    forall i | 0 <= i < |s| ensures !DuplicateKeys.IsLineBreak(s[i]) { BreakIsSpace(s[i]); }
  }

  lemma BreakAppend(a: string, b: string)
    requires NoBreak(a) && NoBreak(b)
    ensures NoBreak(a + b)
  {
  }

  lemma {:induction false} BreakJoin(words: seq<string>)
    requires forall i :: 0 <= i < |words| ==> NoBreak(words[i])
    ensures NoBreak(Join(words, ' '))
  {
    if |words| > 1 {
      BreakJoin(words[1..]);
      BreakIsSpace(' ');
    }
  }

  lemma SpaceAppend(a: string, b: string)
    requires NoSpace(a) && NoSpace(b)
    ensures NoSpace(a + b)
  {
  }

  function JarPath(f: Fields, jar: string): string { "/data/content/" + f.job + "/" + f.moduleName + "/" + jar }

  predicate SafeJar(jar: string) { jar != "" && AllSafe(jar) && EndsWith(jar, ".jar") }

  lemma JarPathShape(f: Fields, jar: string)
    requires Readable(f) && SafeJar(jar)
    ensures var p := JarPath(f, jar);
            |p| >= 6 && p[0] == '/' && NoSpace(p) && EndsWith(p, ".jar") && !IsSpace(p[|p| - 1])
  {
    hide IsSpace, IsSafeChar;
    SafeText(f.job);
    SafeText(f.moduleName);
    SafeText(jar);
    DataText();
    var p := JarPath(f, jar);
    SpaceAppend("/data/content/", f.job);
    SpaceAppend("/data/content/" + f.job, "/");
    SpaceAppend("/data/content/" + f.job + "/", f.moduleName);
    SpaceAppend("/data/content/" + f.job + "/" + f.moduleName, "/");
    SpaceAppend("/data/content/" + f.job + "/" + f.moduleName + "/", jar);
    assert p[|p| - 4..] == jar[|jar| - 4..];
    assert p[|p| - 1] == jar[|jar| - 1];
  }

  lemma DataText()
    ensures NoSpace("/data/content/") && NoSpace("/") && NoBreak("/data/content/") && NoBreak("/")
  {
    NoSpaceNoBreak("/data/content/");
    NoSpaceNoBreak("/");
  }

  lemma WordsAreLines(f: Fields, jar: string)
    requires f.port >= 0 && Readable(f) && SafeJar(jar)
    ensures var w := CommandWords(f, jar); forall i :: 0 <= i < |w| ==> NoBreak(w[i])
  {
    hide IsSpace, IsSafeChar, Contains, Decimal, DuplicateKeys.IsLineBreak;
    var w := CommandWords(f, jar);
    NoSpaceNoBreak(f.javaPath);
    NoSpaceNoBreak(f.xms);
    NoSpaceNoBreak(f.xmx);
    NoSpaceNoBreak(f.active);
    MarkText();
    BreakAppend("-Xms", f.xms);
    BreakAppend("-Xmx", f.xmx);
    BreakAppend(PROFILE_MARK, f.active);
    DigitText(f.port);
    BreakAppend(PORT_MARK, Decimal(f.port));
    JarPathShape(f, jar);
    NoSpaceNoBreak(w[6]);
  }

  lemma MarkText()
    ensures NoBreak("-jar") && NoBreak("-Xms") && NoBreak("-Xmx") && NoBreak(PROFILE_MARK) && NoBreak(PORT_MARK)
  {
    NoSpaceNoBreak("-jar");
    NoSpaceNoBreak("-Xms");
    NoSpaceNoBreak("-Xmx");
    NoSpaceNoBreak(PROFILE_MARK);
    NoSpaceNoBreak(PORT_MARK);
  }

  lemma DigitText(n: nat)
    ensures NoSpace(Decimal(n)) && NoBreak(Decimal(n)) && NoChar(Decimal(n), '.')
  {
    forall i | 0 <= i < |Decimal(n)| ensures !IsSpace(Decimal(n)[i]) && Decimal(n)[i] != '.' {
      assert IsDigit(Decimal(n)[i]);
    }
    NoSpaceNoBreak(Decimal(n));
  }

  lemma FreeValues(f: Fields, jar: string)
    requires f.port >= 0 && Readable(f) && SafeJar(jar)
    ensures var p := TemplatePairs(f, jar);
            LineValue(p[0].1) && LineValue(p[1].1) && LineValue(p[6].1) && LineValue(p[13].1)
  {
    hide IsSpace, IsSafeChar, Contains, Decimal, DuplicateKeys.IsLineBreak, Join, CommandWords;
    var w := CommandWords(f, jar);
    WordsAreLines(f, jar);
    BreakJoin(w);
    CommandEnds(f, jar);
    SafeText(f.job);
    SafeText(f.moduleName);
    DataText();
    var d := "/data/content/" + f.job + "/" + f.moduleName;
    BreakAppend("/data/content/", f.job);
    BreakAppend("/data/content/" + f.job, "/");
    BreakAppend("/data/content/" + f.job + "/", f.moduleName);
    assert d[0] == '/' && d[|d| - 1] == f.moduleName[|f.moduleName| - 1];
    SlashIsNotSpace();
    LogValue(f);
  }

  lemma SlashIsNotSpace()
    ensures !IsSpace('/') && !IsSpace('g')
  {
  }

  lemma LogValue(f: Fields)
    requires AllSafe(f.job) && AllSafe(f.moduleName)
    ensures LineValue("/data/logs/" + f.job + "/" + f.job + "-" + f.moduleName + ".log")
  {
    hide IsSpace, IsSafeChar, DuplicateKeys.IsLineBreak;
    var s := "/data/logs/" + f.job + "/" + f.job + "-" + f.moduleName + ".log";
    SafeText(f.job);
    SafeText(f.moduleName);
    LogText();
    BreakAppend("/data/logs/", f.job);
    BreakAppend("/data/logs/" + f.job, "/");
    BreakAppend("/data/logs/" + f.job + "/", f.job);
    BreakAppend("/data/logs/" + f.job + "/" + f.job, "-");
    BreakAppend("/data/logs/" + f.job + "/" + f.job + "-", f.moduleName);
    BreakAppend("/data/logs/" + f.job + "/" + f.job + "-" + f.moduleName, ".log");
    assert s[0] == '/' && s[|s| - 1] == 'g';
    SlashIsNotSpace();
  }

  lemma LogText()
    ensures NoBreak("/data/logs/") && NoBreak("/") && NoBreak("-") && NoBreak(".log")
  {
    NoSpaceNoBreak("/data/logs/");
    NoSpaceNoBreak("/");
    NoSpaceNoBreak("-");
    NoSpaceNoBreak(".log");
  }

  lemma CommandEnds(f: Fields, jar: string)
    requires f.port >= 0 && Readable(f) && SafeJar(jar)
    ensures Ini.TrimmedValue(Join(CommandWords(f, jar), ' '))
  {
    hide IsSpace, Contains, Decimal, Join;
    var w := CommandWords(f, jar);
    var s := Join(w, ' ');
    JoinAppend([w[0]], w[1..], ' ');
    assert [w[0]] + w[1..] == w;
    JoinOne(w[0], ' ');
    assert s[0] == f.javaPath[0];
    JoinAppend(w[..6], [w[6]], ' ');
    assert w[..6] + [w[6]] == w;
    JoinOne(w[6], ' ');
    JarPathShape(f, jar);
    assert s[|s| - 1] == w[6][|w[6]| - 1];
  }

  lemma FixedValues()
    ensures LineValue("true") && LineValue("10") && LineValue("3") && LineValue("999") && LineValue("1GB")
    ensures LineValue("1") && LineValue("false")
  {
  }

  lemma PairsArePlain(f: Fields, jar: string)
    requires f.port >= 0 && Readable(f) && SafeJar(jar)
    ensures var p := TemplatePairs(f, jar);
            Ini.PlainPairs(p) && Ini.DistinctKeys(p) && forall i :: 0 <= i < |p| ==> LineValue(p[i].1)
  {
    hide Ini.PlainKey, Ini.TrimmedValue, NoBreak, Join, CommandWords;
    KeysArePlain1();
    KeysArePlain2();
    KeysArePlain3();
    FixedValues();
    FreeValues(f, jar);
  }

  // ---------------------------------------------------------------- the lines read back

  function Section(name: string): string { "program:" + name }

  lemma HeaderLine(name: string)
    requires name != "" && AllSafe(name)
    ensures var h := Header(name);
            NoBreak(h) && Strip(h) == h && |h| >= 3 && h[0] == '[' && h[|h| - 1] == ']' && h[1..|h| - 1] == Section(name)
            && NoChar(Section(name), ']') && Strip(Section(name)) == Section(name)
  {
    hide IsSafeChar, DuplicateKeys.IsLineBreak, Strip;
    var h := Header(name);
    assert h == "[" + Section(name) + "]";
    SafeText(name);
    ProgramText();
    assert Section(name)[|Section(name)| - 1] == name[|name| - 1];
    StripFixed(h);
    StripFixed(Section(name));
    assert forall i :: 0 <= i < |name| ==> name[i] != ']' by {
      forall i | 0 <= i < |name| ensures name[i] != ']' { assert IsSafeChar(name[i]); BracketIsNotSafe(); }
    }
    BreakAppend("[program:", name);
    BreakAppend("[program:" + name, "]");
  }

  lemma BracketIsNotSafe()
    ensures !IsSafeChar(']')
  {
  }

  lemma ProgramText()
    ensures NoBreak("[program:") && NoBreak("]") && NoChar("program:", ']')
    ensures !IsSpace('[') && !IsSpace(']') && !IsSpace('p')
  {
  }

  lemma ReadHeaderLine(name: string, strict: bool)
    requires name != "" && AllSafe(name)
    ensures Ini.ReadLine(Ini.EMPTY_STATE, Header(name), strict)
         == Ok(Ini.State([Section(name)], map[Section(name) := map[]], Some(Section(name)), "", 0, false))
  {
    hide Strip, SkipSpaces, Ini.LastBracket, Ini.ReadOption, IsSpace, Header;
    var h := Header(name);
    HeaderLine(name);
    assert SkipSpaces(h, 0) == 0 by { ProgramText(); }
    assert Ini.LastBracket(h, |h|) == |h| - 1;
    assert Section(name) != "DEFAULT" by { assert Section(name)[0] == 'p' && "DEFAULT"[0] == 'D'; }
    assert [] + [Section(name)] == [Section(name)];
    assert h[0] != '#' && h[0] != ';';
  }

  lemma SplitContent(lines: seq<string>)
    requires lines != [] && forall i :: 0 <= i < |lines| ==> NoChar(lines[i], '\n')
    ensures Ini.FileLines(Join(lines, '\n') + "\n") == lines
  {
    hide Split, Join;
    var all := lines + [""];
    JoinAppend(lines, [""], '\n');
    JoinOne("", '\n');
    assert Join(lines, '\n') + "\n" == Join(all, '\n');
    SplitJoin(all, '\n');
    assert all[..|all| - 1] == lines;
  }

  /** The parser's view of a rendered file, under either strictness. */
  lemma ReadBack(f: Fields, name: string, jar: string, strict: bool)
    requires f.port >= 0 && Readable(f) && SafeJar(jar) && name != "" && AllSafe(name)
    ensures var r := Ini.ReadIni(Content(f, name, jar), strict);
            r.Ok? && r.value.sections == [Section(name)]
            && r.value.options == map[Section(name) := Ini.Collected(TemplatePairs(f, jar), map[])]
  {
    hide Join, Ini.ReadLine, TemplatePairs, Ini.PlainKey, Readable, SafeJar, Ini.FileLines, Header;
    var pairs := TemplatePairs(f, jar);
    PairsArePlain(f, jar);
    ContentLines(f, name, jar);
    var lines := [Header(name)] + Ini.OptionLines(pairs);
    SplitContent(lines);
    assert lines[1..] == Ini.OptionLines(pairs);
    ReadHeaderLine(name, strict);
    var st := Ini.State([Section(name)], map[Section(name) := map[]], Some(Section(name)), "", 0, false);
    Ini.ReadOptionLines(st, pairs, strict);
  }

  lemma ContentLines(f: Fields, name: string, jar: string)
    requires f.port >= 0 && Readable(f) && SafeJar(jar) && name != "" && AllSafe(name)
    ensures var lines := [Header(name)] + Ini.OptionLines(TemplatePairs(f, jar));
            forall i :: 0 <= i < |lines| ==> NoBreak(lines[i]) && NoChar(lines[i], '\n')
  {
    hide Join, TemplatePairs, Ini.PlainKey, Readable, SafeJar, DuplicateKeys.IsLineBreak, Header;
    var pairs := TemplatePairs(f, jar);
    PairsArePlain(f, jar);
    HeaderLine(name);
    NoBreakNoNewline(Header(name));
    var lines := [Header(name)] + Ini.OptionLines(pairs);
    forall i | 0 <= i < |lines| ensures NoBreak(lines[i]) && NoChar(lines[i], '\n') {
      if i > 0 {
        var pair := pairs[i - 1];
        KeyNoBreak(pair.0);
        BreakAppend(pair.0, "=");
        BreakAppend(pair.0 + "=", pair.1);
        NoBreakNoNewline(lines[i]);
      }
    }
  }

  lemma KeyNoBreak(key: string)
    requires Ini.PlainKey(key)
    ensures NoBreak(key) && NoBreak("=")
  {
    NoSpaceNoBreak(key);
  }

  lemma NoBreakNoNewline(s: string)
    requires NoBreak(s)
    ensures NoChar(s, '\n')
  {
    forall i | 0 <= i < |s| ensures s[i] != '\n' { assert !DuplicateKeys.IsLineBreak(s[i]); }
  }

  // ---------------------------------------------------------------- no duplicate-key warning

  lemma {:induction false} SplitLinesHead(a: string, rest: string)
    requires NoBreak(a)
    ensures DuplicateKeys.SplitLines(a + "\n" + rest) == [a] + DuplicateKeys.SplitLines(rest)
  {
    hide DuplicateKeys.IsLineBreak;
    var s := a + "\n" + rest;
    if a == "" {
      assert s[0] == '\n' && s[1..] == rest;
      NewlineIsBreak();
    } else {
      assert s[1..] == a[1..] + "\n" + rest;
      SplitLinesHead(a[1..], rest);
      assert [a[0]] + a[1..] == a;
    }
  }

  lemma NewlineIsBreak()
    ensures DuplicateKeys.IsLineBreak('\n')
  {
  }

  lemma {:induction false} SplitLinesBack(lines: seq<string>)
    requires lines != [] && forall i :: 0 <= i < |lines| ==> NoBreak(lines[i])
    ensures DuplicateKeys.SplitLines(Join(lines, '\n') + "\n") == lines
  {
    hide DuplicateKeys.SplitLines;
    if |lines| == 1 {
      assert lines[0] + "\n" == lines[0] + "\n" + "";
      SplitLinesHead(lines[0], "");
      assert DuplicateKeys.SplitLines("") == [] by { NoLines(); }
    } else {
      SplitLinesBack(lines[1..]);
      var rest := Join(lines[1..], '\n') + "\n";
      assert Join(lines, '\n') + "\n" == lines[0] + "\n" + rest;
      SplitLinesHead(lines[0], rest);
    }
  }

  lemma NoLines()
    ensures DuplicateKeys.SplitLines("") == []
  {
  }

  lemma OptionLineShape(pair: (string, string))
    requires Ini.PlainKey(pair.0) && Ini.TrimmedValue(pair.1)
    ensures var line := Ini.OptionLine(pair);
            Strip(line) == line && !DuplicateKeys.Skipped(line) && DuplicateKeys.SectionOf(line).None?
            && DuplicateKeys.KeyOf(line) == Some(pair.0)
  {
    hide Strip, Ini.FirstDelimiter, IsSpace;
    var line := Ini.OptionLine(pair);
    var key := pair.0;
    assert line[0] == key[0] && line[|line| - 1] == pair.1[|pair.1| - 1];
    StripFixed(line);
    Ini.DelimiterOf(pair);
    assert line[..|key|] == key;
    StripFixed(key);
    assert key[0] != '=' && key[0] != ':' && key[0] != '#' && key[0] != ';';
  }

  function KeyEntries(name: string, pairs: seq<(string, string)>, n: nat): (r: seq<DuplicateKeys.Entry>)
    requires n <= |pairs|
    ensures |r| == n && forall i :: 0 <= i < n ==> r[i] == DuplicateKeys.Entry(Section(name), pairs[i].0)
  {
    seq(n, i requires 0 <= i < n => DuplicateKeys.Entry(Section(name), pairs[i].0))
  }

  lemma {:induction false} EntriesOfLines(name: string, pairs: seq<(string, string)>, n: nat)
    requires name != "" && AllSafe(name) && Ini.PlainPairs(pairs) && n <= |pairs|
    ensures var lines := [Header(name)] + Ini.OptionLines(pairs);
            DuplicateKeys.Entries(lines[..n + 1]) == KeyEntries(name, pairs, n)
            && DuplicateKeys.CurrentSection(lines[..n + 1]) == Some(Section(name))
  {
    hide Strip, DuplicateKeys.Skipped, DuplicateKeys.SectionOf, DuplicateKeys.KeyOf, Header,
      DuplicateKeys.Entries, DuplicateKeys.CurrentSection, Ini.PlainKey, Ini.TrimmedValue, Ini.OptionLine;
    var lines := [Header(name)] + Ini.OptionLines(pairs);
    DuplicateKeys.Snoc(lines, n);
    if n == 0 {
      HeaderEntry(name);
      assert lines[..0] == [];
      DuplicateKeys.Start();
    } else {
      EntriesOfLines(name, pairs, n - 1);
      OptionLineShape(pairs[n - 1]);
      assert lines[n] == Ini.OptionLine(pairs[n - 1]);
      assert KeyEntries(name, pairs, n)
          == KeyEntries(name, pairs, n - 1) + [DuplicateKeys.Entry(Section(name), pairs[n - 1].0)];
    }
  }

  lemma HeaderEntry(name: string)
    requires name != "" && AllSafe(name)
    ensures var h := Header(name);
            !DuplicateKeys.Skipped(Strip(h)) && DuplicateKeys.SectionOf(Strip(h)) == Some(Section(name))
  {
    hide Strip, Header;
    HeaderLine(name);
  }

  lemma NoWarnings(f: Fields, name: string, jar: string)
    requires f.port >= 0 && Readable(f) && SafeJar(jar) && name != "" && AllSafe(name)
    ensures Warnings(Content(f, name, jar), 1) == []
  {
    hide Join, TemplatePairs, Ini.PlainKey, Ini.TrimmedValue, Readable, SafeJar, Header, NoBreak, DuplicateKeys.Entries;
    var pairs := TemplatePairs(f, jar);
    var lines := [Header(name)] + Ini.OptionLines(pairs);
    PairsArePlain(f, jar);
    ContentLines(f, name, jar);
    SplitLinesBack(lines);
    EntriesOfLines(name, pairs, |pairs|);
    assert lines[..|pairs| + 1] == lines;
    DuplicateKeys.NoWarningIffDistinct(KeyEntries(name, pairs, |pairs|));
  }

  // ---------------------------------------------------------------- the fields

  lemma PortComesFirst(f: Fields, name: string, jar: string)
    requires f.port >= 0 && Readable(f) && SafeJar(jar) && AllSafe(name)
    ensures ExtractPort(Content(f, name, jar), 0) == Some(f.port)
  {
    hide Content, Decimal, PortLiteral, PortNumber, Contains, Readable;
    var a := BeforePort(f, name, jar);
    var b := ContentAroundPort(f, name, jar);
    var s := Content(f, name, jar);
    PortAt(a, f.port, b);
    NoPortMark(f, name, jar);
    forall i | 0 <= i < |a| ensures PortLiteral(s, i) == 0 { NoEarlyPort(a, s, i); }
    SkipToPort(s, 0, |a|);
  }

  lemma {:induction false} SkipToPort(s: string, i: nat, k: nat)
    requires i <= k < |s| && PortLiteral(s, k) > 0 && forall j :: i <= j < k ==> PortLiteral(s, j) == 0
    ensures ExtractPort(s, i) == Some(PortNumber(s, k + PortLiteral(s, k)))
    decreases k - i
  {
    hide PortLiteral, PortNumber;
    if i < k {
      SkipToPort(s, i + 1, k);
    }
  }

  /** No "=" of `a` follows a "t": so none ends "port=". */
  predicate NoTEquals(a: string) { forall k :: 0 < k < |a| && a[k] == '=' ==> a[k - 1] != 't' }

  lemma NoEarlyPort(a: string, s: string, i: nat)
    requires NoTEquals(a) && i < |a| < |s| && a == s[..|a|] && s[|a|] == '-'
    ensures PortLiteral(s, i) == 0
  {
    hide DigitsEnd;
    var n := PortLiteral(s, i);
    if n > 0 {
      var mark := if n == 14 then PORT_MARK else if n == 12 then "server.port=" else "port=";
      AtChars(s, mark, i);
      assert s[i + n - 1] == '=' && s[i + n - 2] == 't';
      AtAcross(s, mark, i, |a|);
    }
  }

  lemma NoTAppend(a: string, b: string)
    requires NoTEquals(a) && NoTEquals(b) && (b == "" || b[0] != '=')
    ensures NoTEquals(a + b)
  {
    forall k | 0 < k < |a + b| && (a + b)[k] == '=' ensures (a + b)[k - 1] != 't' {
      if k < |a| { assert a[k] == '='; }
      else { assert b[k - |a|] == '='; }
    }
  }

  lemma {:induction false} NoTJoin(words: seq<string>)
    requires forall i :: 0 <= i < |words| ==> NoTEquals(words[i]) && words[i] != "" && words[i][0] != '='
    ensures NoTEquals(Join(words, ' ')) && (words != [] ==> Join(words, ' ') != "" && Join(words, ' ')[0] != '=')
  {
    if |words| > 1 {
      NoTJoin(words[1..]);
      NoTAppend(words[0], " ");
      NoTAppend(words[0] + " ", Join(words[1..], ' '));
    }
  }

  lemma NoPortMark(f: Fields, name: string, jar: string)
    requires f.port >= 0 && Readable(f) && SafeJar(jar) && AllSafe(name)
    ensures NoTEquals(BeforePort(f, name, jar))
  {
    hide IsSafeChar, Contains, Decimal, Join;
    var w := CommandWords(f, jar)[..5];
    NoTAppend("-Xms", f.xms);
    NoTAppend("-Xmx", f.xmx);
    MarkNoT();
    NoTAppend(PROFILE_MARK, f.active);
    assert f.javaPath[0] != '=';
    NoTJoin(w);
    SafeText(name);
    var j := Join(w, ' ');
    NoTAppend("[program:", name);
    NoTAppend("[program:" + name, "]");
    NoTAppend(Header(name), "\ncommand=");
    NoTAppend(Header(name) + "\ncommand=", j);
    NoTAppend(Header(name) + "\ncommand=" + j, " ");
  }

  lemma MarkNoT()
    ensures NoTEquals(PROFILE_MARK)
  {
  }

  lemma {:induction false} LexKeepsFirst(s: string, st: Lex, token: string, quoted: bool, first: string)
    ensures ShlexFirst(s, st, token, quoted, Some(first)) in {None, Some(first)}
    decreases |s|
  {
    if s != "" {
      var c := s[0];
      match st
      case Between | Word =>
        LexKeepsFirst(s[1..], Between, "", false, first);
        LexKeepsFirst(s[1..], Quoted(c), token, true, first);
        LexKeepsFirst(s[1..], Escaped(Word), token, quoted, first);
        LexKeepsFirst(s[1..], Word, token + [c], quoted, first);
      case Quoted(q) =>
        LexKeepsFirst(s[1..], Word, token, true, first);
        LexKeepsFirst(s[1..], Escaped(st), token, true, first);
        LexKeepsFirst(s[1..], st, token + [c], true, first);
      case Escaped(back) =>
        LexKeepsFirst(s[1..], back, token + [c], quoted, first);
        LexKeepsFirst(s[1..], back, token + ['\\'] + [c], quoted, first);
    }
  }

  lemma {:induction false} LexWord(word: string, rest: string, st: Lex, token: string)
    requires NoSpace(word) && NoQuoting(word) && (st == Between || st == Word) && token + word != ""
    ensures ShlexFirst(word + " " + rest, st, token, false, None)
         == ShlexFirst(rest, Between, "", false, Some(token + word))
    decreases |word|
  {
    hide IsSpace;
    var s := word + " " + rest;
    if word == "" {
      assert s[0] == ' ' && s[1..] == rest;
      assert token + word == token;
    } else {
      assert s[0] == word[0] && s[1..] == word[1..] + " " + rest;
      BlankChars();
      LexWord(word[1..], rest, Word, token + [word[0]]);
      assert token + [word[0]] + word[1..] == token + word;
    }
  }

  lemma BlankChars()
    ensures IsSpace(' ') && IsSpace('\t') && IsSpace('\r') && IsSpace('\n')
  {
  }

  /** The Java path is the first word, whether or not the rest can be tokenised. */
  lemma JavaPathIsFirstWord(java: string, rest: string)
    requires java != "" && NoSpace(java) && NoQuoting(java)
    ensures ExtractJavaPath(java + " " + rest) == Some(java)
  {
    hide ShlexFirst, IsSpace, Strip, Split;
    var s := java + " " + rest;
    StripIsEmpty(s);
    assert s[0] == java[0];
    LexWord(java, rest, Between, "");
    assert "" + java == java;
    LexKeepsFirst(rest, Between, "", false, java);
    BlankChars();
    SplitHead(java, rest, ' ');
    StripFixed(java);
  }

  // ---------------------------------------------------------------- job, module and jar

  lemma DirectoryText(f: Fields)
    ensures "/data/content/" + f.job + "/" + f.moduleName == Join(["", "data", "content", f.job, f.moduleName], '/')
  {
    var d := ["", "data", "content"];
    assert Join(d, '/') == "/data/content" by {
      assert d[1..] == ["data", "content"] && d[1..][1..] == ["content"];
    }
    JoinLast(d, f.job);
    JoinLast(d + [f.job], f.moduleName);
    assert d + [f.job] + [f.moduleName] == ["", "data", "content", f.job, f.moduleName];
  }

  lemma JarText(f: Fields, jar: string)
    ensures JarPath(f, jar) == Join(["", "data", "content", f.job, f.moduleName, jar], '/')
  {
    hide Join;
    var d := ["", "data", "content", f.job, f.moduleName];
    DirectoryText(f);
    JoinLast(d, jar);
    assert d + [jar] == ["", "data", "content", f.job, f.moduleName, jar];
  }

  lemma PathParts(f: Fields)
    requires Readable(f)
    ensures Split("/data/content/" + f.job + "/" + f.moduleName, '/') == ["", "data", "content", f.job, f.moduleName]
  {
    hide Split, Join, IsSafeChar, Contains;
    SafeText(f.job);
    SafeText(f.moduleName);
    DirectoryText(f);
    SplitJoin(["", "data", "content", f.job, f.moduleName], '/');
  }

  lemma JarParts(f: Fields, jar: string)
    requires Readable(f) && SafeJar(jar)
    ensures Split(JarPath(f, jar), '/') == ["", "data", "content", f.job, f.moduleName, jar]
  {
    hide Split, Join, IsSafeChar, Contains;
    SafeText(f.job);
    SafeText(f.moduleName);
    SafeText(jar);
    JarText(f, jar);
    SplitJoin(["", "data", "content", f.job, f.moduleName, jar], '/');
  }

  lemma NonEmptyHead(head: string, rest: seq<string>)
    ensures NonEmpty([head] + rest) == (if head == "" then [] else [head]) + NonEmpty(rest)
  {
    assert ([head] + rest)[1..] == rest;
  }

  lemma NonEmptyFive(a: string, b: string)
    requires a != "" && b != ""
    ensures NonEmpty(["", "data", "content", a, b]) == ["data", "content", a, b]
  {
    hide NonEmpty;
    NonEmptyHead(b, []);
    NonEmptyNil();
    NonEmptyHead(a, [b]);
    NonEmptyHead("content", [a, b]);
    NonEmptyHead("data", ["content", a, b]);
    NonEmptyHead("", ["data", "content", a, b]);
    assert [b] + [] == [b] && [a] + [b] == [a, b] && ["content"] + [a, b] == ["content", a, b];
    assert ["data"] + ["content", a, b] == ["data", "content", a, b];
    assert [""] + ["data", "content", a, b] == ["", "data", "content", a, b];
    assert [] + ["data", "content", a, b] == ["data", "content", a, b];
  }

  lemma NonEmptyNil()
    ensures NonEmpty([]) == []
  {
  }

  lemma DirectoryRecovers(f: Fields)
    requires Readable(f)
    ensures FromDirectory(Some("/data/content/" + f.job + "/" + f.moduleName)) == (Some(f.job), Some(f.moduleName))
  {
    hide Split, NonEmpty, Strip, Contains, IsSafeChar, IsSpace;
    var d := "/data/content/" + f.job + "/" + f.moduleName;
    SafeText(f.job);
    SafeText(f.moduleName);
    assert d[0] == '/' && d[|d| - 1] == f.moduleName[|f.moduleName| - 1];
    SlashIsNotSpace();
    StripFixed(d);
    assert NoChar("/data/content/", '\\') && NoChar("/", '\\');
    assert NoChar(d, '\\');
    PathParts(f);
    NonEmptyFive(f.job, f.moduleName);
    assert ["data", "content", f.job, f.moduleName][2..] == [f.job, f.moduleName];
  }

  // ---------------------------------------------------------------- the marks

  lemma ClearPrefixes()
    ensures Clear("-Xms", "-Xmx", 3) && Clear("-Xms", PROFILE_MARK, 1) && Clear("-Xmx", PROFILE_MARK, 1)
    ensures Clear("-Xms", ".jar", 1) && Clear("-Xmx", ".jar", 1) && Clear(PORT_MARK, ".jar", 1)
    ensures Clear(PROFILE_MARK, ".jar", 1)
    ensures NoChar(PROFILE_MARK, ' ') && NoChar("-Xms", ' ') && NoChar("-Xmx", ' ')
  {
  }

  lemma JarOptionIsClear()
    ensures !Contains("-jar", "-Xms") && !Contains("-jar", "-Xmx") && !Contains("-jar", PROFILE_MARK)
    ensures !Contains("-jar", ".jar")
  {
    NoContains("-jar", "-Xms", 'X');
    NoContains("-jar", "-Xmx", 'X');
    NoContains("-jar", PROFILE_MARK, 'D');
    NoContains("-jar", ".jar", '.');
  }

  lemma CommandSplit(f: Fields, jar: string, n: nat)
    requires f.port >= 0 && 0 < n < 6
    ensures var w := CommandWords(f, jar);
            Join(w, ' ') == Join(w[..n], ' ') + " " + (w[n] + " " + Join(w[n + 1..], ' '))
  {
    hide Join, Decimal;
    var w := CommandWords(f, jar);
    JoinAppend(w[..n], w[n..], ' ');
    assert w[..n] + w[n..] == w;
    JoinAppend([w[n]], w[n + 1..], ' ');
    assert [w[n]] + w[n + 1..] == w[n..];
    JoinOne(w[n], ' ');
  }

  lemma MarkRecovers(f: Fields, jar: string, n: nat, mark: string, value: string)
    requires f.port >= 0 && 0 < n < 6 && CommandWords(f, jar)[n] == mark + value
    requires mark != "" && NoChar(mark, ' ') && value != "" && NoSpace(value)
    requires forall i :: 0 <= i < n ==> !Contains(CommandWords(f, jar)[i], mark)
    ensures ExtractMark(Join(CommandWords(f, jar), ' '), mark, 0) == Some(value)
  {
    hide Join, Decimal, CommandWords, Contains, ExtractMark, NoSpace, NoChar;
    var w := CommandWords(f, jar);
    CommandSplit(f, jar, n);
    assert forall i :: 0 <= i < n ==> w[..n][i] == w[i];
    ExtractFromWords(w[..n], mark, value, Join(w[n + 1..], ' '));
  }

  lemma MarksRecover(f: Fields, jar: string)
    requires f.port >= 0 && Readable(f)
    ensures var c := Join(CommandWords(f, jar), ' ');
            ExtractMark(c, "-Xms", 0) == Some(f.xms) && ExtractMark(c, "-Xmx", 0) == Some(f.xmx)
            && ExtractMark(c, PROFILE_MARK, 0) == Some(f.active)
  {
    hide Join, Decimal, Contains, ExtractMark, NoSpace, NoChar, Clear;
    ClearPrefixes();
    JarOptionIsClear();
    PrefixClear("-Xms", f.xms, "-Xmx", 3);
    PrefixClear("-Xms", f.xms, PROFILE_MARK, 1);
    PrefixClear("-Xmx", f.xmx, PROFILE_MARK, 1);
    MarkRecovers(f, jar, 2, "-Xms", f.xms);
    MarkRecovers(f, jar, 3, "-Xmx", f.xmx);
    MarkRecovers(f, jar, 4, PROFILE_MARK, f.active);
  }

  lemma JarRecovers(f: Fields, jar: string)
    requires f.port >= 0 && Readable(f) && SafeJar(jar)
    ensures ExtractJar(Join(CommandWords(f, jar), ' '), 0) == Some(JarPath(f, jar))
  {
    hide Join, Decimal, Contains, ExtractJar, NoSpace, NoChar, Clear, SafeJar, EndsWith;
    var w := CommandWords(f, jar);
    ClearPrefixes();
    JarOptionIsClear();
    PrefixClear("-Xms", f.xms, ".jar", 1);
    PrefixClear("-Xmx", f.xmx, ".jar", 1);
    PrefixClear(PROFILE_MARK, f.active, ".jar", 1);
    DigitText(f.port);
    NoContains(Decimal(f.port), ".jar", '.');
    PrefixClear(PORT_MARK, Decimal(f.port), ".jar", 1);
    assert NoChar(".jar", ' ') by { JarMark(); }
    NoMarkInWords(w[..6], ".jar");
    JarPathShape(f, jar);
    JoinAppend(w[..6], [w[6]], ' ');
    assert w[..6] + [w[6]] == w;
    JoinOne(w[6], ' ');
    ExtractJarAtEnd(Join(w[..6], ' '), w[6]);
  }

  lemma JarMark()
    ensures NoChar(".jar", ' ')
  {
  }

  lemma JavaRecovers(f: Fields, jar: string)
    requires f.port >= 0 && Readable(f)
    ensures ExtractJavaPath(Join(CommandWords(f, jar), ' ')) == Some(f.javaPath)
  {
    hide Join, Decimal, Contains, ExtractJavaPath, NoSpace, NoQuoting;
    var w := CommandWords(f, jar);
    JoinAppend([w[0]], w[1..], ' ');
    assert [w[0]] + w[1..] == w;
    JoinOne(w[0], ' ');
    JavaPathIsFirstWord(f.javaPath, Join(w[1..], ' '));
  }

  // ---------------------------------------------------------------- the round trip

  function CommandValue(f: Fields, jar: string): string
    requires f.port >= 0
  {
    Join(CommandWords(f, jar), ' ')
  }

  function DirectoryValue(f: Fields): string { "/data/content/" + f.job + "/" + f.moduleName }

  function LogFile(f: Fields): string { "/data/logs/" + f.job + "/" + f.job + "-" + f.moduleName + ".log" }

  /** The options that carry the request's fields. */
  predicate OptionsRecovered(o: map<string, string>, f: Fields, jar: string)
    requires f.port >= 0
  {
    Lookup(o, "command") == Some(CommandValue(f, jar)) && Lookup(o, "directory") == Some(DirectoryValue(f))
    && Lookup(o, "user") == Some(f.user) && Lookup(o, "stdout_logfile") == Some(LogFile(f))
  }

  /** The options the template fixes. */
  predicate FixedOptions(o: map<string, string>) {
    Lookup(o, "autostart") == Some("true") && Lookup(o, "startsecs") == Some("10") && Lookup(o, "autorestart") == Some("true")
    && Lookup(o, "startretries") == Some("3") && Lookup(o, "priority") == Some("999")
    && Lookup(o, "redirect_stderr") == Some("true") && Lookup(o, "stdout_logfile_maxbytes") == Some("1GB")
    && Lookup(o, "stdout_logfile_backups") == Some("1") && Lookup(o, "stopasgroup") == Some("false")
    && Lookup(o, "killasgroup") == Some("false")
  }

  lemma TenPairs(f: Fields, jar: string)
    requires f.port >= 0
    ensures var p := TemplatePairs(f, jar);
            |p| == 14 && p[2] == ("autostart", "true") && p[3] == ("startsecs", "10") && p[4] == ("autorestart", "true")
            && p[5] == ("startretries", "3") && p[7] == ("priority", "999") && p[8] == ("redirect_stderr", "true")
            && p[9] == ("stdout_logfile_maxbytes", "1GB") && p[10] == ("stdout_logfile_backups", "1")
            && p[11] == ("stopasgroup", "false") && p[12] == ("killasgroup", "false")
  {
    hide CommandWords, Join;
  }

  lemma FixedRecover(f: Fields, name: string, jar: string, st: Ini.State)
    requires f.port >= 0 && Readable(f) && SafeJar(jar)
    requires st.options == map[Section(name) := Ini.Collected(TemplatePairs(f, jar), map[])]
    ensures FixedOptions(Ini.Items(st, Section(name)))
  {
    hide Ini.Collected, Ini.Items, TemplatePairs, Readable, SafeJar, Ini.PlainPairs, Ini.DistinctKeys, LineValue, Section;
    var p := TemplatePairs(f, jar);
    PairsArePlain(f, jar);
    NotDefault(name);
    TenPairs(f, jar);
    forall i | i in {2, 3, 4, 5, 7, 8, 9, 10, 11, 12}
      ensures p[i].0 in Ini.Items(st, Section(name)) && Ini.Items(st, Section(name))[p[i].0] == p[i].1
    {
      ItemAt(st, Section(name), p, i);
    }
  }

  lemma OptionsRecover(f: Fields, name: string, jar: string, st: Ini.State)
    requires f.port >= 0 && Readable(f) && SafeJar(jar)
    requires st.options == map[Section(name) := Ini.Collected(TemplatePairs(f, jar), map[])]
    ensures OptionsRecovered(Ini.Items(st, Section(name)), f, jar)
  {
    hide Ini.Collected, Ini.Items, TemplatePairs, CommandWords, Readable, SafeJar, Ini.PlainPairs, Ini.DistinctKeys,
      LineValue, Section, CommandValue, DirectoryValue, LogFile;
    var p := TemplatePairs(f, jar);
    PairsArePlain(f, jar);
    NotDefault(name);
    FourPairs(f, jar);
    ItemAt(st, Section(name), p, 0);
    ItemAt(st, Section(name), p, 1);
    ItemAt(st, Section(name), p, 6);
    ItemAt(st, Section(name), p, 13);
  }

  lemma NotDefault(name: string)
    ensures Section(name) != Ini.DEFAULT_SECTION
  {
    assert Section(name)[0] == 'p' && Ini.DEFAULT_SECTION[0] == 'D';
  }

  lemma FourPairs(f: Fields, jar: string)
    requires f.port >= 0
    ensures var p := TemplatePairs(f, jar);
            |p| == 14 && p[0] == ("command", CommandValue(f, jar)) && p[1] == ("directory", DirectoryValue(f))
            && p[6] == ("user", f.user) && p[13] == ("stdout_logfile", LogFile(f))
  {
    hide CommandWords, Join;
  }

  /** The items of a section hold every option line that was read into it. */
  lemma ItemAt(st: Ini.State, section: string, pairs: seq<(string, string)>, i: nat)
    requires section != Ini.DEFAULT_SECTION && st.options == map[section := Ini.Collected(pairs, map[])]
    requires Ini.DistinctKeys(pairs) && i < |pairs| && LineValue(pairs[i].1)
    ensures pairs[i].0 in Ini.Items(st, section) && Ini.Items(st, section)[pairs[i].0] == pairs[i].1
  {
    hide Ini.Collected, Ini.DistinctKeys, NoBreak, TrimRight, Join, Ini.TrimmedValue;
    Ini.CollectedAt(pairs, map[]);
    var own := Ini.Collected(pairs, map[]);
    assert map[] + own == own;
    OneLine(pairs[i].1);
  }

  lemma OneLine(value: string)
    requires Ini.TrimmedValue(value)
    ensures TrimRight(Join([value], '\n')) == value
  {
    hide TrimRight;
    Ini.TrimRightFixed(value);
  }

  lemma SectionIsProgram(name: string)
    requires name != "" && AllSafe(name)
    ensures "program:" <= Section(name) && ProgramSections([Section(name)]) == [Section(name)]
    ensures Find(Section(name), "program:", 0) == 0 && Section(name)[8..] == name
    ensures EnsureSafeName(Strip(name)) == Ok(name)
  {
    hide Strip, IsSafeChar;
    HeaderLine(name);
    var s := Section(name);
    assert s[0..8] == "program:";
    assert ToLower(s)[..8] == "program:" by {
      assert forall i :: 0 <= i < 8 ==> ToLower(s)[i] == s[i] == "program:"[i];
    }
    assert [s][1..] == [];
    SafeText(name);
    StripFixed(name);
  }

  /** What `parse` must give back for a request. */
  predicate Recovered(p: Parsed, f: Fields, name: string, jar: string) {
    && p.name == name && p.job == Some(f.job) && p.moduleName == Some(f.moduleName) && p.port == Some(f.port)
    && p.javaPath == Some(f.javaPath) && p.active == Some(f.active) && p.jar == Some(jar)
    && p.xms == Some(f.xms) && p.xmx == Some(f.xmx) && p.user == Some(f.user)
    && p.complete && p.warnings == []
  }

  lemma FieldsRecover(f: Fields, name: string, jar: string, options: map<string, string>)
    requires f.port >= 0 && Readable(f) && SafeJar(jar) && AllSafe(name)
    requires OptionsRecovered(options, f, jar)
    ensures Recovered(ReadFields(name, options, Content(f, name, jar), []), f, name, jar)
  {
    hide Join, CommandWords, Content, ExtractMark, ExtractJar, ExtractPort, ExtractJavaPath, FromDirectory, FromJar,
      FromProgram, Split, Strip, SafeJar, Contains;
    PortComesFirst(f, name, jar);
    MarksRecover(f, jar);
    JarRecovers(f, jar);
    JavaRecovers(f, jar);
    DirectoryRecovers(f);
    JarParts(f, jar);
    StripFixed(f.user);
    assert jar != "" by { JarNotEmpty(jar); }
  }

  /** Without a jar name the jar is the module's. */
  lemma DefaultJar(f: Fields)
    ensures JarName(f).Ok? ==> JarName(f).value == if f.jar == "" then Strip(f.moduleName) + ".jar" else Strip(f.jar)
  {
    hide Strip, AllSafe;
    JarTail(Strip(f.moduleName));
  }

  lemma JarTail(m: string)
    ensures m != "" && AllSafe(m) ==> Strip(m + ".jar") == m + ".jar"
  {
    hide Strip, IsSafeChar;
    if m != "" && AllSafe(m) {
      SafeIsNotSpace(m[0]);
      SafeIsNotSpace('r');
      StripFixed(m + ".jar");
    }
  }

  lemma JarNotEmpty(jar: string)
    requires SafeJar(jar)
    ensures jar != ""
  {
  }

  /** Parsing a rendered file recovers job, module, program name, port, Java path, profile, jar, heap
      sizes and user, with complete metadata and no warnings; and rendering such fields always succeeds. */
  lemma ParseOfRender(f: Fields, name: string, jar: string, configName: string)
    requires Readable(f) && ValidPort(f.port)
    requires EnsureSafeName(f.name) == Ok(name) && NormalizeConfigName(f.fileName, name) == Ok(configName)
    requires JarName(f) == Ok(jar) && EndsWith(jar, ".jar")
    ensures RenderService(f) == Ok(Rendered(name, configName, Content(f, name, jar)))
    ensures var p := Parse(Content(f, name, jar));
            p.Ok? && Recovered(p.value, f, name, jar) && OptionsRecovered(p.value.options, f, jar)
            && FixedOptions(p.value.options)
  {
    hide FixedOptions, OptionsRecovered, Content, NormalizeConfigName, ValidIni, Readable, Recovered, JarName, Strip, AllSafe, EndsWith, Parse;
    assert name != "" && AllSafe(name);
    assert SafeJar(jar) by { JarIsSafe(f, jar); }
    RenderedIsValid(f, name, jar);
    ContentParses(f, name, jar);
  }

  lemma JarIsSafe(f: Fields, jar: string)
    requires JarName(f) == Ok(jar) && EndsWith(jar, ".jar")
    ensures SafeJar(jar)
  {
    hide Strip, IsSafeChar, EndsWith;
  }

  lemma RenderedIsValid(f: Fields, name: string, jar: string)
    requires f.port >= 0 && Readable(f) && SafeJar(jar) && name != "" && AllSafe(name)
    ensures ValidIni(Content(f, name, jar))
  {
    hide Content, Ini.ReadIni, Readable, SafeJar, AllSafe, TemplatePairs, Find, ProgramSections, Ini.Collected, Section, Strip;
    ReadBack(f, name, jar, true);
    SectionIsProgram(name);
  }

  lemma ContentParses(f: Fields, name: string, jar: string)
    requires f.port >= 0 && Readable(f) && SafeJar(jar) && name != "" && AllSafe(name)
    ensures var p := Parse(Content(f, name, jar));
            p.Ok? && Recovered(p.value, f, name, jar) && OptionsRecovered(p.value.options, f, jar)
            && FixedOptions(p.value.options)
  {
    hide FixedOptions, OptionsRecovered, Content, Ini.ReadIni, ReadFields, Warnings, Readable, Find, ProgramSections, Recovered, SafeJar, AllSafe,
      Ini.Items, Ini.Collected, TemplatePairs, CommandWords, Join, Section, EnsureSafeName, Strip;
    ReadBack(f, name, jar, false);
    SectionIsProgram(name);
    var st := Ini.ReadIni(Content(f, name, jar), false).value;
    OptionsRecover(f, name, jar, st);
    FixedRecover(f, name, jar, st);
    NoWarnings(f, name, jar);
    FieldsRecover(f, name, jar, Ini.Items(st, Section(name)));
    OptionsKept(name, Ini.Items(st, Section(name)), Content(f, name, jar));
  }

  lemma OptionsKept(name: string, options: map<string, string>, content: string)
    ensures ReadFields(name, options, content, []).options == options
  {
    hide ExtractJar, ExtractMark, ExtractPort, ExtractJavaPath, FromDirectory, FromJar, FromProgram, Strip;
  }

  /** The texts a request carries are not empty, and the option values have no blanks around them. */
  lemma RequestTexts(f: Fields, jar: string)
    requires f.port >= 0 && Readable(f) && SafeJar(jar)
    ensures f.job != "" && f.moduleName != "" && f.javaPath != "" && f.active != "" && f.xms != "" && f.xmx != ""
            && f.user != "" && jar != ""
    ensures Strip(CommandValue(f, jar)) == CommandValue(f, jar) != "" && Strip(DirectoryValue(f)) == DirectoryValue(f) != ""
            && Strip(LogFile(f)) == LogFile(f) != ""
  {
    hide CommandValue, TemplatePairs, Contains, NoBreak, Strip, AllSafe, NoQuoting;
    FreeValues(f, jar);
    FourPairs(f, jar);
    StripFixed(CommandValue(f, jar));
    StripFixed(DirectoryValue(f));
    StripFixed(LogFile(f));
  }
}
