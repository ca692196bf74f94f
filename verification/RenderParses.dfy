/** Whatever free text a request carries: a text that `render_service` lets through is one that `parse` accepts,
    under the program name of the request. */
module RenderParses {
  import opened Text
  import opened PathNames
  import opened Template
  import opened ParseBack
  import Ini
  import RoundTrip

  /** A line the strict parser accepts means the same to the tolerant one. */
  lemma StrictLine(st: Ini.State, line: string)
    ensures Ini.ReadLine(st, line, true).Ok? ==> Ini.ReadLine(st, line, false) == Ini.ReadLine(st, line, true)
  {
    hide Strip, SkipSpaces, Ini.LastBracket, Ini.FirstDelimiter, TrimRight;
  }

  lemma {:induction false} StrictLines(st: Ini.State, lines: seq<string>)
    ensures Ini.ReadLines(st, lines, true).Ok? ==> Ini.ReadLines(st, lines, false) == Ini.ReadLines(st, lines, true)
    decreases |lines|
  {
    hide Ini.ReadLine;
    if lines != [] {
      StrictLine(st, lines[0]);
      if Ini.ReadLine(st, lines[0], true).Ok? { StrictLines(Ini.ReadLine(st, lines[0], true).value, lines[1..]); }
    }
  }

  /** Sections are only ever added. */
  lemma SectionsGrow(st: Ini.State, line: string, strict: bool)
    ensures Ini.ReadLine(st, line, strict).Ok? ==> st.sections <= Ini.ReadLine(st, line, strict).value.sections
  {
    hide Strip, SkipSpaces, Ini.LastBracket, Ini.FirstDelimiter, TrimRight;
  }

  lemma {:induction false} SectionsStay(st: Ini.State, lines: seq<string>, strict: bool)
    ensures Ini.ReadLines(st, lines, strict).Ok? ==> st.sections <= Ini.ReadLines(st, lines, strict).value.sections
    decreases |lines|
  {
    hide Ini.ReadLine;
    if lines != [] {
      SectionsGrow(st, lines[0], strict);
      if Ini.ReadLine(st, lines[0], strict).Ok? { SectionsStay(Ini.ReadLine(st, lines[0], strict).value, lines[1..], strict); }
    }
  }

  /** Whatever follows it, the header is the first line. */
  lemma FirstLine(header: string, rest: string)
    requires NoChar(header, '\n')
    ensures Ini.FileLines(header + ['\n'] + rest) != [] && Ini.FileLines(header + ['\n'] + rest)[0] == header
  {
    hide Split;
    SplitHead(header, rest, '\n');
  }

  lemma HeaderNoNewline(name: string)
    requires name != "" && AllSafe(name)
    ensures NoChar(Header(name), '\n')
  {
    hide RoundTrip.NoBreak, Strip;
    HeaderLine(name);
    NoBreakNoNewline(Header(name));
  }

  lemma ContentStarts(f: Fields, name: string, jar: string) returns (rest: string)
    requires f.port >= 0
    ensures Content(f, name, jar) == Header(name) + ['\n'] + rest
  {
    hide TemplatePairs, Header, Join;
    var lines := Ini.OptionLines(TemplatePairs(f, jar));
    assert |lines| == 14 by { PairCount(f, jar); }
    JoinAppend([Header(name)], lines, '\n');
    RoundTrip.JoinOne(Header(name), '\n');
    rest := Join(lines, '\n') + "\n";
  }

  lemma PairCount(f: Fields, jar: string)
    requires f.port >= 0
    ensures |TemplatePairs(f, jar)| == 14
  {
    hide Join, CommandWords;
  }

  /** A text that begins with the program's header and that the strict check accepts has that one section. */
  lemma ValidMeansOneSection(name: string, rest: string)
    requires name != "" && AllSafe(name) && ValidIni(Header(name) + ['\n'] + rest)
    ensures var r := Ini.ReadIni(Header(name) + ['\n'] + rest, false); r.Ok? && r.value.sections == [Section(name)]
  {
    hide Ini.ReadLine, Header, Section, AllSafe, Ini.FileLines;
    var lines := Ini.FileLines(Header(name) + ['\n'] + rest);
    HeaderNoNewline(name);
    FirstLine(Header(name), rest);
    ReadHeaderLine(name, true);
    StrictLines(Ini.EMPTY_STATE, lines);
    SectionsStay(Ini.ReadLine(Ini.EMPTY_STATE, lines[0], true).value, lines[1..], true);
  }

  /** What an update renders always parses, so the parse after the files were written cannot fail. */
  lemma RenderedParses(f: Fields)
    requires RenderService(f).Ok?
    ensures var r := RenderService(f).value; Parse(r.content).Ok? && Parse(r.content).value.name == r.name
  {
    hide Ini.ReadIni, ReadFields, Warnings, ProgramSections, Find, EnsureSafeName, Strip, ValidIni, AllSafe, Section,
      Content, JarName, NormalizeConfigName, Header;
    var r := RenderService(f).value;
    SafeProgram(f.name);
    var jar := JarName(f).value;
    var rest := ContentStarts(f, r.name, jar);
    ValidMeansOneSection(r.name, rest);
    SectionIsProgram(r.name);
    ParsedUnder(r.content, r.name);
  }

  lemma SafeProgram(value: string)
    ensures EnsureSafeName(value).Ok? ==> EnsureSafeName(value).value != "" && AllSafe(EnsureSafeName(value).value)
  {
    hide Strip;
  }

  lemma ParsedUnder(content: string, name: string)
    requires name != "" && AllSafe(name)
    requires Ini.ReadIni(content, false).Ok? && Ini.ReadIni(content, false).value.sections == [Section(name)]
    ensures Parse(content).Ok? && Parse(content).value.name == name
  {
    hide Ini.ReadIni, ReadFields, Warnings, ProgramSections, Find, EnsureSafeName, Strip, AllSafe, Section;
    SectionIsProgram(name);
    var ini := Ini.ReadIni(content, false).value;
    NameKept(name, Ini.Items(ini, Section(name)), content, Warnings(content, 1));
  }

  lemma NameKept(name: string, options: map<string, string>, content: string, warnings: seq<Warning>)
    ensures ReadFields(name, options, content, warnings).name == name
  {
    hide ExtractJar, ExtractMark, ExtractPort, ExtractJavaPath, FromDirectory, FromJar, FromProgram, Strip;
  }
}
