/** app/services/template_service.py and app/templates/supervisor_program.ini.j2:
    printing a service's fields as INI text and reading the fields back. */
module Template {
  import opened Text
  import opened PathNames
  import Ini
  import DuplicateKeys

  /** The structured fields of a create or update request. */
  datatype Fields = Fields(
    job: string, moduleName: string, name: string, javaPath: string, active: string, port: int,
    jar: string, fileName: string, xms: string, xmx: string, user: string)

  datatype Rendered = Rendered(name: string, configName: string, content: string)

  datatype Warning = DuplicateKey(entry: DuplicateKeys.Entry) | ExtraSection

  datatype Parsed = Parsed(
    name: string, options: map<string, string>,
    job: Option<string>, moduleName: Option<string>, port: Option<int>, javaPath: Option<string>,
    active: Option<string>, jar: Option<string>, xms: Option<string>, xmx: Option<string>,
    user: Option<string>, complete: bool, warnings: seq<Warning>)

  const PORT_MARK := "-Dserver.port="
  const PROFILE_MARK := "-Dspring.profiles.active="

  predicate ValidPort(port: int) { 1 <= port <= 65535 }

  // ---------------------------------------------------------------- printing

  function CommandWords(f: Fields, jar: string): (words: seq<string>)
    requires f.port >= 0
    ensures |words| == 7
  {
    [f.javaPath, "-jar", "-Xms" + f.xms, "-Xmx" + f.xmx, PROFILE_MARK + f.active, PORT_MARK + Decimal(f.port),
     "/data/content/" + f.job + "/" + f.moduleName + "/" + jar]
  }

  /** The option lines of the template, in order. */
  function TemplatePairs(f: Fields, jar: string): seq<(string, string)>
    requires f.port >= 0
  {
    [ ("command", Join(CommandWords(f, jar), ' ')),
      ("directory", "/data/content/" + f.job + "/" + f.moduleName),
      ("autostart", "true"),
      ("startsecs", "10"),
      ("autorestart", "true"),
      ("startretries", "3"),
      ("user", f.user),
      ("priority", "999"),
      ("redirect_stderr", "true"),
      ("stdout_logfile_maxbytes", "1GB"),
      ("stdout_logfile_backups", "1"),
      ("stopasgroup", "false"),
      ("killasgroup", "false"),
      ("stdout_logfile", "/data/logs/" + f.job + "/" + f.job + "-" + f.moduleName + ".log") ]
  }

  function Header(name: string): string { "[program:" + name + "]" }

  /** The rendered text; it begins with "[" and ends with ".log", so the source's `strip()` keeps all of it. */
  function Content(f: Fields, name: string, jar: string): string
    requires f.port >= 0
  {
    Join([Header(name)] + Ini.OptionLines(TemplatePairs(f, jar)), '\n') + "\n"
  }

  /** `validate_ini` */
  predicate ValidIni(content: string) {
    var r := Ini.ReadIni(content, true);
    r.Ok? && |r.value.sections| == 1 && "program:" <= r.value.sections[0]
  }

  function JarName(f: Fields): Result<string> {
    if f.jar != "" then EnsureSafeName(f.jar)
    else
      var m :- EnsureSafeName(f.moduleName);
      EnsureSafeName(m + ".jar")
  }

  function RenderService(f: Fields): Result<Rendered> {
    var name :- EnsureSafeName(f.name);
    var configName :- NormalizeConfigName(f.fileName, name);
    var jar :- JarName(f);
    if !ValidPort(f.port) then Err(ParamError)
    else
      var content := Content(f, name, jar);
      if !ValidIni(content) then Err(ParamError) else Ok(Rendered(name, configName, content))
  }

  // ---------------------------------------------------------------- searching

  function WordEnd(s: string, i: nat): (r: nat)
    requires i <= |s|
    ensures i <= r <= |s|
    ensures forall k :: i <= k < r ==> !IsSpace(s[k])
    ensures r < |s| ==> IsSpace(s[r])
    decreases |s| - i
  {
    if i < |s| && !IsSpace(s[i]) then WordEnd(s, i + 1) else i
  }

  function DigitsEnd(s: string, i: nat): (r: nat)
    requires i <= |s|
    ensures i <= r <= |s|
    ensures forall k :: i <= k < r ==> IsDigit(s[k])
    ensures r < |s| ==> !IsDigit(s[r])
    decreases |s| - i
  {
    if i < |s| && IsDigit(s[i]) then DigitsEnd(s, i + 1) else i
  }

  /** Leftmost match of `mark(?P<value>\S+)` from position `i` on. */
  function ExtractMark(s: string, mark: string, i: nat): Option<string>
    requires i <= |s|
    decreases |s| - i
  {
    if i == |s| then None
    else if At(s, mark, i) && i + |mark| < |s| && !IsSpace(s[i + |mark|]) then
      Some(s[i + |mark|..WordEnd(s, i + |mark|)])
    else ExtractMark(s, mark, i + 1)
  }

  /** Last position in `s[lo..hi]` at which ".jar" fits, `hi` when there is none. */
  function LastJar(s: string, lo: nat, hi: nat, k: nat): (r: nat)
    requires lo <= k <= hi <= |s|
    ensures r == hi || (lo <= r <= k && r + 4 <= hi && At(s, ".jar", r))
    ensures forall j :: r < j <= k && j + 4 <= hi ==> !At(s, ".jar", j)
    ensures r == hi ==> forall j :: lo <= j <= k && j + 4 <= hi ==> !At(s, ".jar", j)
    decreases k
  {
    if k + 4 <= hi && At(s, ".jar", k) then k else if k == lo then hi else LastJar(s, lo, hi, k - 1)
  }

  /** Leftmost match of `JAR_PATTERN`, `/\S+\.jar`, from position `i` on. */
  function ExtractJar(s: string, i: nat): Option<string>
    requires i <= |s|
    decreases |s| - i
  {
    if i == |s| then None
    else
      var e := WordEnd(s, i);
      if s[i] == '/' && i + 2 <= e && LastJar(s, i + 2, e, e) < e
      then Some(s[i..LastJar(s, i + 2, e, e) + 4])
      else ExtractJar(s, i + 1)
  }

  /** Length of the literal with which `PORT_PATTERN` matches at `i`, 0 when it does not match there. */
  function PortLiteral(s: string, i: nat): (n: nat)
    requires i <= |s|
    ensures n > 0 ==> i + n < |s| && IsDigit(s[i + n]) && (n == 14 || n == 12 || n == 5)
  {
    if At(s, PORT_MARK, i) && i + 14 < |s| && IsDigit(s[i + 14]) then 14
    else if At(s, "server.port=", i) && i + 12 < |s| && IsDigit(s[i + 12]) then 12
    else if At(s, "port=", i) && i + 5 < |s| && IsDigit(s[i + 5]) then 5
    else 0
  }

  function PortNumber(s: string, i: nat): nat
    requires i <= |s|
  {
    var digits := s[i..DigitsEnd(s, i)];
    assert forall k :: 0 <= k < |digits| ==> digits[k] == s[i + k];
    ToInt(digits)
  }

  /** First port number `PORT_PATTERN` finds. */
  function ExtractPort(s: string, i: nat): Option<int>
    requires i <= |s|
    decreases |s| - i
  {
    if i == |s| then None
    else if PortLiteral(s, i) > 0 then Some(PortNumber(s, i + PortLiteral(s, i)))
    else ExtractPort(s, i + 1)
  }

  /** Some match of `PORT_PATTERN.finditer` is this port: the test of app/services/port_check_service.py. */
  predicate MentionsPort(s: string, port: int, i: nat)
    requires i <= |s|
    decreases |s| - i
  {
    if i == |s| then false
    else if PortLiteral(s, i) > 0 then
      var start := i + PortLiteral(s, i);
      PortNumber(s, start) == port || MentionsPort(s, port, DigitsEnd(s, start))
    else MentionsPort(s, port, i + 1)
  }

  predicate Mentions(content: string, port: int) { MentionsPort(content, port, 0) }

  // ---------------------------------------------------------------- shlex

  datatype Lex = Between | Word | Quoted(q: char) | Escaped(back: Lex)

  /** First token of `shlex.split(s)` in POSIX mode; None where it raises ValueError or finds no token.
      `first` is the finished first token, `token` the one being read, `quoted` whether it had quotes. */
  function ShlexFirst(s: string, st: Lex, token: string, quoted: bool, first: Option<string>): Option<string>
    decreases |s|
  {
    if s == "" then
      (if st.Quoted? || st.Escaped? then None
       else if first.None? && (token != "" || quoted) then Some(token)
       else first)
    else
      var c := s[0];
      var rest := s[1..];
      var blank := c == ' ' || c == '\t' || c == '\r' || c == '\n';
      match st
      case Between | Word =>
        if blank then
          ShlexFirst(rest, Between, "", false,
                     if first.None? && (token != "" || quoted) then Some(token) else first)
        else if c == '"' || c == '\'' then ShlexFirst(rest, Quoted(c), token, true, first)
        else if c == '\\' then ShlexFirst(rest, Escaped(Word), token, quoted, first)
        else ShlexFirst(rest, Word, token + [c], quoted, first)
      case Quoted(q) =>
        if c == q then ShlexFirst(rest, Word, token, true, first)
        else if c == '\\' && q == '"' then ShlexFirst(rest, Escaped(st), token, true, first)
        else ShlexFirst(rest, st, token + [c], true, first)
      case Escaped(back) =>
        var kept := if back.Quoted? && c != '\\' && c != back.q then token + ['\\'] else token;
        ShlexFirst(rest, back, kept + [c], quoted, first)
  }

  function ExtractJavaPath(command: string): Option<string> {
    if Strip(command) == "" then None
    else
      var token := ShlexFirst(command, Between, "", false, None);
      if token.Some? then token
      else
        var head := Strip(Split(command, ' ')[0]);
        if head == "" then None else Some(head)
  }

  // ---------------------------------------------------------------- job and module

  function NonEmpty(parts: seq<string>): seq<string> {
    if parts == [] then [] else (if parts[0] == "" then [] else [parts[0]]) + NonEmpty(parts[1..])
  }

  /** `_extract_path_after_content` */
  function AfterContent(path: Option<string>): seq<string> {
    var parts := NonEmpty(Split(Slashes(Strip(if path.Some? then path.value else "")), '/'));
    if |parts| < 3 || parts[0] != "data" || parts[1] != "content" then [] else parts[2..]
  }

  function FromDirectory(directory: Option<string>): (Option<string>, Option<string>) {
    var parts := AfterContent(directory);
    if parts == [] then (None, None)
    else if |parts| == 1 then (Some(parts[0]), None)
    else (Some(parts[0]), Some(parts[1]))
  }

  function Stem(name: string): string {
    if EndsWith(name, ".jar") && |name| > 4 then name[..|name| - 4] else name
  }

  function FromJar(jarPath: Option<string>): (Option<string>, Option<string>) {
    var parts := AfterContent(jarPath);
    if parts == [] then (None, None)
    else
      var last := parts[|parts| - 1];
      var stem := if EndsWith(last, ".jar") then Some(Stem(last)) else None;
      if |parts| == 1 then (None, stem)
      else if |parts| == 2 then (Some(parts[0]), stem)
      else (Some(parts[0]), Some(parts[1]))
  }

  function LastUnderscore(s: string, k: nat): nat
    requires k <= |s|
    decreases k
  {
    if k == 0 then |s| else if s[k - 1] == '_' then k - 1 else LastUnderscore(s, k - 1)
  }

  function OrNone(s: string): Option<string> { if s == "" then None else Some(s) }

  function FromProgram(name: string): (Option<string>, Option<string>) {
    var k := LastUnderscore(name, |name|);
    if k >= |name| then (None, None) else (OrNone(name[..k]), OrNone(name[k + 1..]))
  }

  function FirstNonEmpty(a: Option<string>, b: Option<string>, c: Option<string>): Option<string> {
    if a.Some? && a.value != "" then a
    else if b.Some? && b.value != "" then b
    else if c.Some? && c.value != "" then c
    else None
  }

  predicate Present(v: Option<string>) { v.Some? && v.value != "" }

  // ---------------------------------------------------------------- parsing

  function ToLower(s: string): string {
    seq(|s|, i requires 0 <= i < |s| => if 'A' <= s[i] <= 'Z' then (s[i] as int + 32) as char else s[i])
  }

  predicate IsProgramSection(section: string) { "program:" <= ToLower(Strip(section)) }

  function ProgramSections(sections: seq<string>): seq<string> {
    if sections == [] then []
    else (if IsProgramSection(sections[0]) then [sections[0]] else []) + ProgramSections(sections[1..])
  }

  /** `dict.fromkeys`: keeps the first of equal members. */
  function Deduplicate(ws: seq<Warning>): seq<Warning> {
    if ws == [] then []
    else
      var before := Deduplicate(ws[..|ws| - 1]);
      var last := ws[|ws| - 1];
      if last in before then before else before + [last]
  }

  function Warnings(content: string, sections: nat): seq<Warning> {
    var repeats := DuplicateKeys.Repeats(DuplicateKeys.Entries(DuplicateKeys.SplitLines(content)));
    Deduplicate(seq(|repeats|, i requires 0 <= i < |repeats| => DuplicateKey(repeats[i]))
                + if sections != 1 then [ExtraSection] else [])
  }

  function Lookup(options: map<string, string>, name: string): Option<string> {
    if name in options then Some(options[name]) else None
  }

  function ReadFields(name: string, options: map<string, string>, content: string, warnings: seq<Warning>): Parsed {
    var command := if "command" in options then options["command"] else "";
    var directory := Lookup(options, "directory");
    var jarPath := ExtractJar(command, 0);
    var fromDir := FromDirectory(directory);
    var fromJar := FromJar(jarPath);
    var fromProgram := FromProgram(name);
    var job := FirstNonEmpty(fromDir.0, fromJar.0, fromProgram.0);
    var moduleName := FirstNonEmpty(fromDir.1, fromJar.1, fromProgram.1);
    var port := ExtractPort(content, 0);
    var javaPath := ExtractJavaPath(command);
    var active := ExtractMark(command, PROFILE_MARK, 0);
    var jar := if jarPath.Some? then Some(Basename(jarPath.value)) else None;
    var xms := ExtractMark(command, "-Xms", 0);
    var xmx := ExtractMark(command, "-Xmx", 0);
    var user := OrNone(Strip(if "user" in options then options["user"] else ""));
    var complete := Present(job) && Present(moduleName) && port.Some? && Present(javaPath) && Present(active)
                    && Present(jar) && Present(xms) && Present(xmx) && Present(user);
    Parsed(name, options, job, moduleName, port, javaPath, active, jar, xms, xmx, user, complete, warnings)
  }

  function Parse(content: string): Result<Parsed> {
    var ini :- Ini.ReadIni(content, false);
    var program := ProgramSections(ini.sections);
    if |program| != 1 then Err(ParamError)
    else
      var k := Find(program[0], "program:", 0);
      // `split("program:", 1)[1]` raises IndexError when the section is written with capitals
      if k == |program[0]| then Err(Unexpected)
      else
        assert At(program[0], "program:", k);
        var name :- EnsureSafeName(Strip(program[0][k + 8..]));
        Ok(ReadFields(name, Ini.Items(ini, program[0]), content, Warnings(content, |ini.sections|)))
  }
}
