/** When `parse` warns and when it refuses; app/services/template_service.py, `parse`. */
module ParseVerdicts {
  import opened Text
  import opened PathNames
  import opened Template
  import opened ParseBack
  import opened RenderParses
  import Ini
  import DuplicateKeys

  lemma {:induction false} DeduplicateKeeps(ws: seq<Warning>, x: Warning)
    ensures x in Deduplicate(ws) <==> x in ws
  {
    if ws != [] {
      DeduplicateKeeps(ws[..|ws| - 1], x);
      assert ws == ws[..|ws| - 1] + [ws[|ws| - 1]];
    }
  }

  lemma {:induction false} DeduplicateOnce(ws: seq<Warning>, i: nat, j: nat)
    requires i < j < |Deduplicate(ws)|
    ensures Deduplicate(ws)[i] != Deduplicate(ws)[j]
  {
    var before, last := ws[..|ws| - 1], ws[|ws| - 1];
    if j < |Deduplicate(before)| {
      DeduplicateOnce(before, i, j);
    } else {
      assert Deduplicate(before)[i] in Deduplicate(before);
    }
  }

  /** The warnings of a parsed text: one for every repeated key of a section, one if there is not exactly one section,
      none twice and no others. */
  lemma WarningsAre(content: string, x: Warning)
    requires Parse(content).Ok?
    ensures var p := Parse(content).value;
            var repeats := DuplicateKeys.Repeats(DuplicateKeys.Entries(DuplicateKeys.SplitLines(content)));
            (x in p.warnings <==>
             match x
             case DuplicateKey(e) => e in repeats
             case ExtraSection => |Ini.ReadIni(content, false).value.sections| != 1)
            && forall i, j :: 0 <= i < j < |p.warnings| ==> p.warnings[i] != p.warnings[j]
  {
    hide Ini.ReadIni, Ini.Items, ProgramSections, Find, EnsureSafeName, Strip, DuplicateKeys.Repeats, DuplicateKeys.Entries,
      DuplicateKeys.SplitLines, Deduplicate, Warnings, ReadFields;
    var ini := Ini.ReadIni(content, false).value;
    ParsedWarnings(content);
    WarningMembers(content, |ini.sections|, x);
    forall i, j | 0 <= i < j < |Warnings(content, |ini.sections|)|
      ensures Warnings(content, |ini.sections|)[i] != Warnings(content, |ini.sections|)[j]
    {
      WarningsOnce(content, |ini.sections|, i, j);
    }
  }

  lemma ParsedWarnings(content: string)
    requires Parse(content).Ok?
    ensures Ini.ReadIni(content, false).Ok?
    ensures Parse(content).value.warnings == Warnings(content, |Ini.ReadIni(content, false).value.sections|)
  {
    hide Ini.ReadIni, Ini.Items, ProgramSections, Find, EnsureSafeName, Strip, Warnings, ExtractJar, ExtractMark, ExtractPort,
      ExtractJavaPath, FromDirectory, FromJar, FromProgram;
  }

  lemma WarningMembers(content: string, sections: nat, x: Warning)
    ensures var repeats := DuplicateKeys.Repeats(DuplicateKeys.Entries(DuplicateKeys.SplitLines(content)));
            x in Warnings(content, sections) <==> match x case DuplicateKey(e) => e in repeats case ExtraSection => sections != 1
  {
    hide DuplicateKeys.Repeats, DuplicateKeys.Entries, DuplicateKeys.SplitLines, Deduplicate;
    var repeats := DuplicateKeys.Repeats(DuplicateKeys.Entries(DuplicateKeys.SplitLines(content)));
    var own := seq(|repeats|, i requires 0 <= i < |repeats| => DuplicateKey(repeats[i]));
    var all := own + if sections != 1 then [ExtraSection] else [];
    DeduplicateKeeps(all, x);
    if x.DuplicateKey? && x.entry in repeats {
      var i :| 0 <= i < |repeats| && repeats[i] == x.entry;
      assert own[i] == x && all[i] == x;
    }
  }

  lemma WarningsOnce(content: string, sections: nat, i: nat, j: nat)
    requires i < j < |Warnings(content, sections)|
    ensures Warnings(content, sections)[i] != Warnings(content, sections)[j]
  {
    hide DuplicateKeys.Repeats, DuplicateKeys.Entries, DuplicateKeys.SplitLines, Deduplicate;
    var repeats := DuplicateKeys.Repeats(DuplicateKeys.Entries(DuplicateKeys.SplitLines(content)));
    DeduplicateOnce(
      seq(|repeats|, i requires 0 <= i < |repeats| => DuplicateKey(repeats[i])) + if sections != 1 then [ExtraSection] else [], i, j);
  }

  // ---------------------------------------------------------------- two programs

  /** Whatever was read before it, a program's header opens or continues its section. */
  lemma HeaderOpens(st: Ini.State, name: string)
    requires name != "" && AllSafe(name)
    ensures var r := Ini.ReadLine(st, Header(name), false); r.Ok? && Section(name) in r.value.sections
  {
    hide Strip, SkipSpaces, Ini.LastBracket, Ini.ReadOption, IsSpace, Header;
    var h := Header(name);
    HeaderLine(name);
    assert SkipSpaces(h, 0) == 0 by { ProgramText(); }
    assert Ini.LastBracket(h, |h|) == |h| - 1;
    NotDefault(name);
    assert h[0] != '#' && h[0] != ';';
  }

  lemma {:induction false} HeaderStays(st: Ini.State, lines: seq<string>, i: nat, name: string)
    requires i < |lines| && lines[i] == Header(name) && name != "" && AllSafe(name)
    ensures Ini.ReadLines(st, lines, false).Ok? ==> Section(name) in Ini.ReadLines(st, lines, false).value.sections
    decreases i
  {
    hide Ini.ReadLine, Header, Section, AllSafe;
    if i == 0 {
      HeaderOpens(st, name);
      var st' := Ini.ReadLine(st, lines[0], false).value;
      SectionsStay(st', lines[1..], false);
    } else if Ini.ReadLine(st, lines[0], false).Ok? {
      HeaderStays(Ini.ReadLine(st, lines[0], false).value, lines[1..], i - 1, name);
    }
  }

  lemma {:induction false} ProgramsKept(sections: seq<string>, name: string)
    requires name != "" && AllSafe(name) && Section(name) in sections
    ensures Section(name) in ProgramSections(sections)
  {
    hide IsProgramSection, AllSafe, Section;
    IsProgram(name);
    if sections[0] != Section(name) { ProgramsKept(sections[1..], name); }
  }

  lemma IsProgram(name: string)
    requires name != "" && AllSafe(name)
    ensures IsProgramSection(Section(name))
  {
    hide IsProgramSection, AllSafe, Section;
    SectionIsProgram(name);
    assert [Section(name)][1..] == [];
    KeptMeans(Section(name));
  }

  lemma KeptMeans(section: string)
    requires ProgramSections([section]) == [section]
    ensures IsProgramSection(section)
  {
    hide IsProgramSection;
    assert [section][1..] == [] && ProgramSections([]) == [];
  }

  /** A text with the headers of two programs is refused, whatever else it holds. */
  lemma TwoProgramsRefused(content: string, i: nat, j: nat, a: string, b: string)
    requires a != "" && AllSafe(a) && b != "" && AllSafe(b) && a != b
    requires var lines := Ini.FileLines(content); i < |lines| && j < |lines| && lines[i] == Header(a) && lines[j] == Header(b)
    ensures Parse(content).Err?
  {
    hide Ini.ReadLines, Ini.FileLines, ProgramSections, Header, AllSafe, Find, EnsureSafeName, Strip, ReadFields, Warnings, Ini.Items;
    var lines := Ini.FileLines(content);
    HeaderStays(Ini.EMPTY_STATE, lines, i, a);
    HeaderStays(Ini.EMPTY_STATE, lines, j, b);
    SectionsApart(a, b);
    if Ini.ReadIni(content, false).Ok? {
      var sections := Ini.ReadIni(content, false).value.sections;
      ProgramsKept(sections, a);
      ProgramsKept(sections, b);
    }
  }

  lemma SectionsApart(a: string, b: string)
    requires a != b
    ensures Section(a) != Section(b)
  {
    assert Section(a)[8..] == a && Section(b)[8..] == b;
  }
}
