/** The duplicate-key scan on documents put together from sections, options, comments and blank lines. */
module DuplicateDocs {
  import opened Text
  import opened DuplicateKeys
  import Ini

  datatype DocLine =
    | SectionLine(name: string)
    | OptionLine(key: string, delimiter: char, value: string)
    | CommentLine(mark: char, text: string)
    | BlankLine

  /** A name without "]" and outer blanks; a key without delimiters and outer blanks that does not begin like a
      comment or a section. */
  predicate Good(l: DocLine) {
    match l
    case SectionLine(name) => name != "" && NoChar(name, ']') && !IsSpace(name[0]) && !IsSpace(name[|name| - 1])
    case OptionLine(key, delimiter, value) =>
      key != "" && NoChar(key, '=') && NoChar(key, ':') && !IsSpace(key[0]) && !IsSpace(key[|key| - 1])
      && key[0] != '#' && key[0] != ';' && key[0] != '[' && (delimiter == '=' || delimiter == ':')
    case CommentLine(mark, _) => mark == '#' || mark == ';'
    case BlankLine => true
  }

  function TextOf(l: DocLine): string {
    match l
    case SectionLine(name) => "[" + name + "]"
    case OptionLine(key, delimiter, value) => key + [delimiter] + value
    case CommentLine(mark, text) => [mark] + text
    case BlankLine => ""
  }

  function TextsOf(doc: seq<DocLine>): seq<string> { seq(|doc|, i requires 0 <= i < |doc| => TextOf(doc[i])) }

  /** The section the end of the document is in. */
  function SectionAt(doc: seq<DocLine>): Option<string> {
    if doc == [] then None
    else if doc[|doc| - 1].SectionLine? then Some(doc[|doc| - 1].name)
    else SectionAt(doc[..|doc| - 1])
  }

  /** Every option under a section, with it. */
  function Options(doc: seq<DocLine>): seq<Entry> {
    if doc == [] then []
    else
      var before, last := doc[..|doc| - 1], doc[|doc| - 1];
      Options(before) + if last.OptionLine? && SectionAt(before).Some? then [Entry(SectionAt(before).value, last.key)] else []
  }

  lemma FixedEnds()
    ensures !IsSpace('[') && !IsSpace(']') && !IsSpace('#') && !IsSpace(';') && !IsSpace('=') && !IsSpace(':')
  {
  }

  lemma SectionShape(name: string)
    requires Good(SectionLine(name))
    ensures var s := Strip(TextOf(SectionLine(name))); !Skipped(s) && SectionOf(s) == Some(name)
  {
    hide IsSpace, Strip;
    FixedEnds();
    var line := TextOf(SectionLine(name));
    StripFixed(line);
    assert line[1..|line| - 1] == name;
    StripFixed(name);
  }

  lemma StripHead(s: string)
    requires s != "" && !IsSpace(s[0])
    ensures Strip(s) != "" && Strip(s)[0] == s[0] && Strip(s) <= s
    ensures forall k :: 0 <= k < |s| && !IsSpace(s[k]) ==> k < |Strip(s)|
  {
    hide IsSpace, SkipBack;
    assert SkipSpaces(s, 0) == 0;
    var e := SkipBack(s, 0, |s|);
    assert Strip(s) == s[..e];
    assert forall k :: e <= k < |s| ==> IsSpace(s[k]);
  }

  lemma OptionShape(key: string, delimiter: char, value: string)
    requires Good(OptionLine(key, delimiter, value))
    ensures var s := Strip(TextOf(OptionLine(key, delimiter, value)));
            !Skipped(s) && SectionOf(s).None? && KeyOf(s) == Some(key)
  {
    hide IsSpace, Strip, Ini.FirstDelimiter;
    FixedEnds();
    var line := TextOf(OptionLine(key, delimiter, value));
    StripHead(line);
    var s := Strip(line);
    assert line[|key|] == delimiter && |key| < |s|;
    assert forall k :: 0 <= k < |key| ==> s[k] == line[k] == key[k];
    assert s[|key|] == line[|key|];
    assert Ini.FirstDelimiter(s, 0) == |key|;
    assert s[..|key|] == key;
    StripFixed(key);
  }

  lemma CommentShape(mark: char, text: string)
    requires Good(CommentLine(mark, text))
    ensures Skipped(Strip(TextOf(CommentLine(mark, text))))
  {
    hide IsSpace, Strip;
    FixedEnds();
    StripHead(TextOf(CommentLine(mark, text)));
  }

  /** One line of the document does to the scan what it is there for. */
  lemma LineShape(l: DocLine)
    requires Good(l)
    ensures var s := Strip(TextOf(l));
            match l
            case SectionLine(name) => !Skipped(s) && SectionOf(s) == Some(name)
            case OptionLine(key, _, _) => !Skipped(s) && SectionOf(s).None? && KeyOf(s) == Some(key)
            case _ => Skipped(s)
  {
    hide IsSpace, Strip, SectionOf, KeyOf, Skipped, TextOf;
    match l
    case SectionLine(name) => SectionShape(name);
    case OptionLine(key, delimiter, value) => OptionShape(key, delimiter, value);
    case CommentLine(mark, text) => CommentShape(mark, text);
    case BlankLine => Nothing();
  }

  lemma Nothing()
    ensures TextOf(BlankLine) == "" && Skipped(Strip(""))
  {
    hide IsSpace;
    StripFixed("");
  }

  /** The scan sees exactly the options of the document, each under its section, in order. */
  lemma {:induction false} EntriesOfDocument(doc: seq<DocLine>)
    requires forall i :: 0 <= i < |doc| ==> Good(doc[i])
    ensures Entries(TextsOf(doc)) == Options(doc) && CurrentSection(TextsOf(doc)) == SectionAt(doc)
    decreases |doc|
  {
    hide Strip, SectionOf, KeyOf, Skipped, TextOf, Good;
    if doc != [] {
      var n := |doc| - 1;
      EntriesOfDocument(doc[..n]);
      LineShape(doc[n]);
      assert TextsOf(doc)[..n] == TextsOf(doc[..n]);
      assert TextsOf(doc)[n] == TextOf(doc[n]);
    }
  }

  /** So a document warns for a key exactly as often as it repeats it in its section. */
  lemma DocumentWarnings(doc: seq<DocLine>, e: Entry)
    requires forall i :: 0 <= i < |doc| ==> Good(doc[i])
    ensures multiset(Repeats(Entries(TextsOf(doc))))[e] ==
            if e in Options(doc) then multiset(Options(doc))[e] - 1 else 0
  {
    hide Good, Entries, TextsOf;
    EntriesOfDocument(doc);
    WarningCount(Options(doc), e);
  }
}
