/** The part of Python 3.12's `configparser.ConfigParser` that app/services/template_service.py uses:
    `interpolation=None`, `optionxform=str`, default delimiters and comment prefixes. */
module Ini {
  import opened Text

  /** `option` is "" where the parser's `optname` is None; `bad` records a deferred ParsingError. */
  datatype State = State(
    sections: seq<string>,
    options: map<string, map<string, seq<string>>>,
    current: Option<string>,
    option: string,
    indent: nat,
    bad: bool)

  const DEFAULT_SECTION := "DEFAULT"

  function FirstDelimiter(s: string, i: nat): (r: nat)
    requires i <= |s|
    ensures i <= r <= |s|
    ensures forall k :: i <= k < r ==> s[k] != '=' && s[k] != ':'
    ensures r < |s| ==> s[r] == '=' || s[r] == ':'
    decreases |s| - i
  {
    if i == |s| || s[i] == '=' || s[i] == ':' then i else FirstDelimiter(s, i + 1)
  }

  /** Position of the last `]` in `s[..hi]`, 0 when there is none past position 0. */
  function LastBracket(s: string, hi: nat): (r: nat)
    requires hi <= |s|
    ensures r < hi || r == 0
    ensures r > 0 ==> s[r] == ']'
    ensures forall k :: r < k < hi ==> s[k] != ']'
    decreases hi
  {
    if hi <= 1 then 0 else if s[hi - 1] == ']' then hi - 1 else LastBracket(s, hi - 1)
  }

  function AddToValue(st: State, text: string): State {
    if st.current.None? || st.option == "" || st.current.value !in st.options
       || st.option !in st.options[st.current.value] then st
    else
      var sec := st.current.value;
      var opts := st.options[sec];
      st.(options := st.options[sec := opts[st.option := opts[st.option] + [text]]])
  }

  function ReadHeader(st: State, header: string, strict: bool): Result<State> {
    if header in st.sections then
      if strict then Err(ParamError) else Ok(st.(current := Some(header), option := ""))
    else
      var options := if header in st.options then st.options else st.options[header := map[]];
      var sections := if header == DEFAULT_SECTION then st.sections else st.sections + [header];
      Ok(st.(sections := sections, options := options, current := Some(header), option := ""))
  }

  function ReadOption(st: State, value: string, strict: bool): Result<State> {
    var k := FirstDelimiter(value, 0);
    if st.current.None? then Err(ParamError)
    else if k == |value| then Ok(st.(bad := true))
    else
      var sec := st.current.value;
      var opts := if sec in st.options then st.options[sec] else map[];
      var name := TrimRight(value[..k]);
      if strict && name in opts then Err(ParamError)
      else
        Ok(st.(options := st.options[sec := opts[name := [Strip(value[k + 1..])]]],
               option := name, bad := st.bad || name == ""))
  }

  function ReadLine(st: State, line: string, strict: bool): Result<State> {
    var value := Strip(line);
    if value == "" then Ok(AddToValue(st, ""))
    else if value[0] == '#' || value[0] == ';' then Ok(st)
    else
      var indent := SkipSpaces(line, 0);
      if st.current.Some? && st.option != "" && indent > st.indent then Ok(AddToValue(st, value))
      else
        var st' := st.(indent := indent);
        var close := LastBracket(value, |value|);
        if value[0] == '[' && close >= 2 then ReadHeader(st', value[1..close], strict)
        else ReadOption(st', value, strict)
  }

  function ReadLines(st: State, lines: seq<string>, strict: bool): Result<State>
    decreases |lines|
  {
    if lines == [] then Ok(st)
    else
      var st' :- ReadLine(st, lines[0], strict);
      ReadLines(st', lines[1..], strict)
  }

  /** Lines of a text stream: cut at "\n", no extra empty line after the last one. */
  function FileLines(content: string): seq<string> {
    var pieces := Split(content, '\n');
    if pieces[|pieces| - 1] == "" then pieces[..|pieces| - 1] else pieces
  }

  const EMPTY_STATE := State([], map[], None, "", 0, false)

  function ReadIni(content: string, strict: bool): Result<State> {
    var st :- ReadLines(EMPTY_STATE, FileLines(content), strict);
    if st.bad then Err(ParamError) else Ok(st)
  }

  /** `dict(parser.items(section))` */
  function Items(st: State, section: string): map<string, string> {
    var defaults := if DEFAULT_SECTION in st.options then st.options[DEFAULT_SECTION] else map[];
    var own := if section in st.options then st.options[section] else map[];
    var all := defaults + own;
    map name | name in all :: TrimRight(Join(all[name], '\n'))
  }

  // ---------------------------------------------------------------- a run of "key=value" lines

  /** A key that needs no trimming and cannot be taken for a comment, a header or a delimiter. */
  predicate PlainKey(key: string) {
    && key != "" && NoSpace(key) && NoChar(key, '=') && NoChar(key, ':')
    && key[0] != '#' && key[0] != ';' && key[0] != '['
  }

  predicate TrimmedValue(value: string) {
    value != "" && !IsSpace(value[0]) && !IsSpace(value[|value| - 1])
  }

  function OptionLine(pair: (string, string)): string { pair.0 + "=" + pair.1 }

  function OptionLines(pairs: seq<(string, string)>): (r: seq<string>)
    ensures |r| == |pairs|
    ensures forall i :: 0 <= i < |r| ==> r[i] == OptionLine(pairs[i])
  {
    seq(|pairs|, i requires 0 <= i < |pairs| => OptionLine(pairs[i]))
  }

  predicate PlainPairs(pairs: seq<(string, string)>) {
    forall i :: 0 <= i < |pairs| ==> PlainKey(pairs[i].0) && TrimmedValue(pairs[i].1)
  }

  predicate DistinctKeys(pairs: seq<(string, string)>) {
    forall i, j :: 0 <= i < j < |pairs| ==> pairs[i].0 != pairs[j].0
  }

  lemma ReadOptionLine(st: State, pair: (string, string), strict: bool)
    requires PlainKey(pair.0) && TrimmedValue(pair.1) && st.indent == 0
    requires st.current.Some? && st.current.value in st.options
    requires pair.0 !in st.options[st.current.value]
    ensures var sec := st.current.value;
            ReadLine(st, OptionLine(pair), strict)
            == Ok(st.(options := st.options[sec := st.options[sec][pair.0 := [pair.1]]], option := pair.0))
  {
    hide SkipSpaces, SkipBack, FirstDelimiter, LastBracket, IsSpace, Strip, TrimRight;
    var line := OptionLine(pair);
    assert line[0] == pair.0[0] && line[|line| - 1] == pair.1[|pair.1| - 1];
    StripFixed(line);
    assert SkipSpaces(line, 0) == 0;
    DelimiterOf(pair);
    assert line[..|pair.0|] == pair.0 && line[|pair.0| + 1..] == pair.1;
    TrimRightFixed(pair.0);
    StripFixed(pair.1);
  }

  lemma TrimRightFixed(s: string)
    requires s != "" && !IsSpace(s[|s| - 1])
    ensures TrimRight(s) == s
  {
    hide SkipBack, IsSpace;
    assert s[..|s|] == s;
  }

  lemma DelimiterOf(pair: (string, string))
    requires PlainKey(pair.0)
    ensures FirstDelimiter(OptionLine(pair), 0) == |pair.0|
  {
    hide FirstDelimiter;
    var line := OptionLine(pair);
    assert line[|pair.0|] == '=';
    assert forall k :: 0 <= k < |pair.0| ==> line[k] == pair.0[k];
  }

  /** The options a run of "key=value" lines leaves behind. */
  function Collected(pairs: seq<(string, string)>, opts: map<string, seq<string>>): map<string, seq<string>> {
    if pairs == [] then opts else Collected(pairs[1..], opts[pairs[0].0 := [pairs[0].1]])
  }

  lemma {:induction false} CollectedAt(pairs: seq<(string, string)>, opts: map<string, seq<string>>)
    requires DistinctKeys(pairs)
    ensures forall i :: 0 <= i < |pairs| ==>
              pairs[i].0 in Collected(pairs, opts) && Collected(pairs, opts)[pairs[i].0] == [pairs[i].1]
    ensures forall k :: k in opts && (forall i :: 0 <= i < |pairs| ==> pairs[i].0 != k) ==>
              k in Collected(pairs, opts) && Collected(pairs, opts)[k] == opts[k]
  {
    if pairs != [] {
      var opts' := opts[pairs[0].0 := [pairs[0].1]];
      CollectedAt(pairs[1..], opts');
      forall i | 0 <= i < |pairs|
        ensures pairs[i].0 in Collected(pairs, opts) && Collected(pairs, opts)[pairs[i].0] == [pairs[i].1]
      {
        if i > 0 {
          assert pairs[i] == pairs[1..][i - 1];
        }
      }
    }
  }

  lemma {:induction false} ReadOptionLines(st: State, pairs: seq<(string, string)>, strict: bool)
    requires PlainPairs(pairs) && DistinctKeys(pairs) && st.indent == 0
    requires st.current.Some? && st.current.value in st.options
    requires forall i :: 0 <= i < |pairs| ==> pairs[i].0 !in st.options[st.current.value]
    ensures var r := ReadLines(st, OptionLines(pairs), strict);
            r.Ok? && r.value.sections == st.sections && r.value.bad == st.bad
            && r.value.options
               == (if pairs == [] then st.options
                   else st.options[st.current.value := Collected(pairs, st.options[st.current.value])])
    decreases |pairs|
  {
    hide ReadLine;
    if pairs != [] {
      var sec := st.current.value;
      var opts := st.options[sec];
      ReadOptionLine(st, pairs[0], strict);
      var opts' := opts[pairs[0].0 := [pairs[0].1]];
      var st' := st.(options := st.options[sec := opts'], option := pairs[0].0);
      assert OptionLines(pairs)[1..] == OptionLines(pairs[1..]);
      assert forall i :: 0 <= i < |pairs[1..]| ==> pairs[1..][i] == pairs[i + 1];
      ReadOptionLines(st', pairs[1..], strict);
      assert st.options[sec := opts'][sec := Collected(pairs[1..], opts')]
          == st.options[sec := Collected(pairs[1..], opts')];
    }
  }
}
