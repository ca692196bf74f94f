/** The duplicate-key scan of app/services/template_service.py. */
module DuplicateKeys {
  import opened Text
  import Ini

  /** One warning of the scan: a key seen again in its section. */
  datatype Entry = Entry(section: string, key: string)

  /** Line boundaries of `str.splitlines`. */
  predicate IsLineBreak(c: char) {
    var n := c as int;
    10 <= n <= 13 || 28 <= n <= 30 || n == 0x85 || n == 0x2028 || n == 0x2029
  }

  function SplitLines(s: string): seq<string> {
    if s == "" then []
    else if IsLineBreak(s[0]) then
      [""] + SplitLines(if s[0] == '\r' && |s| > 1 && s[1] == '\n' then s[2..] else s[1..])
    else
      var rest := SplitLines(s[1..]);
      if rest == [] then [[s[0]]] else [[s[0]] + rest[0]] + rest[1..]
  }

  /** `SECTION_PATTERN` on a stripped line: the section's name. */
  function SectionOf(line: string): Option<string> {
    if |line| >= 3 && line[0] == '[' && line[|line| - 1] == ']' && NoChar(line[1..|line| - 1], ']')
    then Some(Strip(line[1..|line| - 1]))
    else None
  }

  /** `OPTION_PATTERN` on a stripped line: the key. */
  function KeyOf(line: string): Option<string> {
    if line == "" || line[0] in "=:#;" then None
    else
      var k := Ini.FirstDelimiter(line, 0);
      if k == |line| then None else Some(Strip(line[..k]))
  }

  predicate Skipped(line: string) { line == "" || line[0] == '#' || line[0] == ';' }

  /** Name of the section in force after `lines`. */
  function CurrentSection(lines: seq<string>): Option<string> {
    if lines == [] then None
    else
      var last := Strip(lines[|lines| - 1]);
      if !Skipped(last) && SectionOf(last).Some? then SectionOf(last)
      else CurrentSection(lines[..|lines| - 1])
  }

  /** What one stripped line adds, given the section in force. */
  function Added(section: Option<string>, line: string): seq<Entry> {
    if Skipped(line) || SectionOf(line).Some? || section.None? || KeyOf(line).None? then []
    else [Entry(section.value, KeyOf(line).value)]
  }

  /** The keys of `lines` with their sections, in document order. */
  function Entries(lines: seq<string>): seq<Entry> {
    if lines == [] then []
    else
      var before := lines[..|lines| - 1];
      Entries(before) + Added(CurrentSection(before), Strip(lines[|lines| - 1]))
  }

  /** The members that already occurred earlier, in order. */
  function Repeats(entries: seq<Entry>): seq<Entry> {
    if entries == [] then []
    else
      var before := entries[..|entries| - 1];
      var last := entries[|entries| - 1];
      Repeats(before) + if last in before then [last] else []
  }

  ghost predicate SeenIs(seen: map<string, set<string>>, entries: seq<Entry>) {
    forall s, k :: (s in seen && k in seen[s]) <==> Entry(s, k) in entries
  }

  lemma Snoc(lines: seq<string>, i: nat)
    requires i < |lines|
    ensures var last := Strip(lines[i]);
            Entries(lines[..i + 1]) == Entries(lines[..i]) + Added(CurrentSection(lines[..i]), last)
            && CurrentSection(lines[..i + 1])
               == if !Skipped(last) && SectionOf(last).Some? then SectionOf(last) else CurrentSection(lines[..i])
  {
    hide Strip, SectionOf, Added;
    assert lines[..i + 1][..i] == lines[..i];
  }

  lemma SeenAdded(seen: map<string, set<string>>, entries: seq<Entry>, e: Entry)
    requires SeenIs(seen, entries) && e.section in seen
    ensures SeenIs(seen[e.section := seen[e.section] + {e.key}], entries + [e])
  {
    var seen' := seen[e.section := seen[e.section] + {e.key}];
    forall s, k
      ensures (s in seen' && k in seen'[s]) <==> Entry(s, k) in entries + [e]
    {
      assert (s in seen && k in seen[s]) <==> Entry(s, k) in entries;
    }
  }

  method CollectDuplicateOptionWarnings(content: string) returns (warnings: seq<Entry>)
    ensures warnings == Repeats(Entries(SplitLines(content)))
  {
    hide Strip, SectionOf, KeyOf, SplitLines, Entries, CurrentSection, SeenIs, Repeats, Skipped;
    var lines := SplitLines(content);
    warnings := [];
    var currentSection: Option<string> := None;
    var seenKeys: map<string, set<string>> := map[];
    Start();
    assert lines[..0] == [];
    for i := 0 to |lines|
      invariant currentSection == CurrentSection(lines[..i])
      invariant warnings == Repeats(Entries(lines[..i]))
      invariant SeenIs(seenKeys, Entries(lines[..i]))
      invariant currentSection.Some? ==> currentSection.value in seenKeys
    {
      ghost var entries := Entries(lines[..i]);
      Snoc(lines, i);
      assert entries + [] == entries;
      var stripped := Strip(lines[i]);
      if Skipped(stripped) {
        continue;
      }
      var section := SectionOf(stripped);
      if section.Some? {
        currentSection := section;
        if section.value !in seenKeys {
          SeenOpened(seenKeys, entries, section.value);
          seenKeys := seenKeys[section.value := {}];
        }
        continue;
      }
      if currentSection.None? {
        continue;
      }
      var key := KeyOf(stripped);
      if key.None? {
        continue;
      }
      ghost var entry := Entry(currentSection.value, key.value);
      var seen := seenKeys[currentSection.value];
      RepeatsSnoc(entries, entry);
      SeenLookup(seenKeys, entries, entry);
      SeenAdded(seenKeys, entries, entry);
      if key.value in seen {
        warnings := warnings + [Entry(currentSection.value, key.value)];
        SeenAgain(seenKeys, currentSection.value, key.value);
      } else {
        seenKeys := seenKeys[currentSection.value := seen + {key.value}];
      }
    }
    assert lines[..|lines|] == lines;
  }

  lemma Start()
    ensures Entries([]) == [] && CurrentSection([]) == None && SeenIs(map[], []) && Repeats([]) == []
  {
  }

  lemma RepeatsSnoc(entries: seq<Entry>, e: Entry)
    ensures Repeats(entries + [e]) == Repeats(entries) + if e in entries then [e] else []
  {
    assert (entries + [e])[..|entries|] == entries;
  }

  lemma SeenAgain(seen: map<string, set<string>>, section: string, key: string)
    requires section in seen && key in seen[section]
    ensures seen[section := seen[section] + {key}] == seen
  {
    assert seen[section] + {key} == seen[section];
  }

  lemma SeenOpened(seen: map<string, set<string>>, entries: seq<Entry>, section: string)
    requires SeenIs(seen, entries) && section !in seen
    ensures SeenIs(seen[section := {}], entries)
  {
    var seen' := seen[section := {}];
    forall s, k
      ensures (s in seen' && k in seen'[s]) <==> Entry(s, k) in entries
    {
      assert (s in seen && k in seen[s]) <==> Entry(s, k) in entries;
    }
  }

  lemma SeenLookup(seen: map<string, set<string>>, entries: seq<Entry>, e: Entry)
    requires SeenIs(seen, entries) && e.section in seen
    ensures e.key in seen[e.section] <==> e in entries
  {
    assert (e.section in seen && e.key in seen[e.section]) <==> Entry(e.section, e.key) in entries;
  }

  /** A key that occurs n times in its section is warned about n - 1 times. */
  lemma {:induction false} WarningCount(entries: seq<Entry>, e: Entry)
    ensures multiset(Repeats(entries))[e] == if e in entries then multiset(entries)[e] - 1 else 0
  {
    if entries != [] {
      var before := entries[..|entries| - 1];
      assert entries == before + [entries[|entries| - 1]];
      WarningCount(before, e);
    }
  }

  /** No warning exactly when the keys of every section are distinct. */
  lemma {:induction false} NoWarningIffDistinct(entries: seq<Entry>)
    ensures Repeats(entries) == [] <==> forall i, j :: 0 <= i < j < |entries| ==> entries[i] != entries[j]
  {
    if entries != [] {
      var before := entries[..|entries| - 1];
      var last := entries[|entries| - 1];
      NoWarningIffDistinct(before);
      if last in before {
        var i :| 0 <= i < |before| && before[i] == last;
        assert entries[i] == entries[|entries| - 1];
      } else {
        assert Repeats(entries) == Repeats(before);
        forall i, j | 0 <= i < j < |entries|
          ensures Repeats(before) == [] ==> entries[i] != entries[j]
        {
          assert entries[i] == before[i];
          if j < |before| { assert entries[j] == before[j]; }
        }
        if forall i, j :: 0 <= i < j < |entries| ==> entries[i] != entries[j] {
          forall i, j | 0 <= i < j < |before| ensures before[i] != before[j] {
            assert entries[i] != entries[j];
          }
        }
      }
    }
  }

  /** Keys that repeat keep their order: a warning is emitted at each later occurrence, in document order. */
  lemma {:induction false} WarningsInDocumentOrder(entries: seq<Entry>, n: nat)
    requires n <= |entries|
    ensures Repeats(entries[..n]) <= Repeats(entries)
    decreases |entries| - n
  {
    if n < |entries| {
      assert entries[..n + 1][..n] == entries[..n];
      WarningsInDocumentOrder(entries, n + 1);
    } else {
      assert entries[..n] == entries;
    }
  }
}
