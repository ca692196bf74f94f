/** app/core/security.py: how program names, config names and config paths are checked and rewritten,
    and the backup names that app/services/config_file_service.py builds from them. */
module PathNames {
  import opened Text

  // ---------------------------------------------------------------- checks and rewrites

  function EnsureSafeName(value: string): Result<string> {
    var raw := Strip(value);
    if raw == "" || !AllSafe(raw) then Err(ParamError) else Ok(raw)
  }

  function EnsureSafeHost(value: string): Result<string> {
    var raw := Strip(value);
    if raw == "" || exists i :: 0 <= i < |raw| && !IsSafeChar(raw[i]) && raw[i] != ':' then Err(ParamError) else Ok(raw)
  }

  function NormalizeConfigName(configName: string, programName: string): Result<string> {
    var text := Strip(configName);
    if text == "" && programName == "" then Err(InvalidConfigName)
    else
      var full := if text == "" then programName else text;
      var raw := if EndsWith(full, ".ini") then full[..|full| - 4] else full;
      if '/' in raw || '\\' in raw || Contains(raw, "..") then Err(InvalidConfigName)
      else if EndsWith(raw, ".bak") || Contains(raw, ".bak.") then Err(InvalidConfigName)
      else if EnsureSafeName(raw).Err? then Err(ParamError)
      else Ok(raw + ".ini")
  }

  /** `s.replace("\\", "/")` */
  function Slashes(s: string): (r: string)
    ensures NoChar(r, '\\')
    ensures NoChar(s, '\\') ==> r == s
  {
    seq(|s|, i requires 0 <= i < |s| => if s[i] == '\\' then '/' else s[i])
  }

  function SkipSlashes(s: string, i: nat): (r: nat)
    requires i <= |s|
    ensures i <= r <= |s|
    ensures r < |s| ==> s[r] != '/'
    ensures i < |s| && s[i] != '/' ==> r == i
    decreases |s| - i
  {
    if i < |s| && s[i] == '/' then SkipSlashes(s, i + 1) else i
  }

  function SkipSlashesBack(s: string, lo: nat, hi: nat): (r: nat)
    requires lo <= hi <= |s|
    ensures lo <= r <= hi
    ensures lo < hi && s[hi - 1] != '/' ==> r == hi
    decreases hi
  {
    if lo < hi && s[hi - 1] == '/' then SkipSlashesBack(s, lo, hi - 1) else hi
  }

  /** `s.strip("/")` */
  function StripSlashes(s: string): string {
    var a := SkipSlashes(s, 0);
    s[a..SkipSlashesBack(s, a, |s|)]
  }

  /** The component loop of `os.path.normpath`. */
  function Collapse(comps: seq<string>, absolute: bool, acc: seq<string>): seq<string>
    decreases |comps|
  {
    if comps == [] then acc
    else
      var comp := comps[0];
      var acc' :=
        if comp == "" || comp == "." then acc
        else if comp != ".." || (!absolute && acc == []) || (acc != [] && acc[|acc| - 1] == "..") then acc + [comp]
        else if acc != [] then acc[..|acc| - 1]
        else acc;
      Collapse(comps[1..], absolute, acc')
  }

  /** `os.path.normpath` on POSIX. */
  function NormPath(path: string): string {
    if path == "" then "."
    else
      var lead := if !("/" <= path) then "" else if "//" <= path && !("///" <= path) then "//" else "/";
      var text := lead + Join(Collapse(Split(path, '/'), lead != "", []), '/');
      if text == "" then "." else text
  }

  /** `s.split(mark, 1)[0]` */
  function Before(s: string, mark: string): string
    requires mark != ""
  {
    s[..Find(s, mark, 0)]
  }

  function CheckFileName(fileName: string, allowBackups: bool): Result<string> {
    if allowBackups then
      if !(EndsWith(fileName, ".ini") || EndsWith(fileName, ".ini.bak") || Contains(fileName, ".ini.bak."))
      then Err(InvalidConfigName)
      else EnsureSafeName(Before(fileName, ".ini"))
    else if !EndsWith(fileName, ".ini") then Err(InvalidConfigName)
    else if EndsWith(fileName, ".bak") || Contains(fileName, ".bak.") then Err(InvalidConfigName)
    else EnsureSafeName(fileName[..|fileName| - 4])
  }

  /** The rewriting half of `normalize_config_path`; "" when nothing is left. */
  function Flatten(configPath: string): string {
    var raw := StripSlashes(Strip(Slashes(configPath)));
    if raw == "" then "" else StripSlashes(Slashes(NormPath(raw)))
  }

  predicate HasDots(parts: seq<string>) { "" in parts || "." in parts || ".." in parts }

  predicate SafeDirs(parts: seq<string>) {
    forall i :: 0 <= i < |parts| - 1 ==> EnsureSafeName(parts[i]).Ok?
  }

  function NormalizeConfigPath(configPath: string, allowBackups: bool): Result<string> {
    var normalized := Flatten(configPath);
    if normalized == "" || normalized == "." then Err(InvalidConfigName)
    else
      var parts := Split(normalized, '/');
      if HasDots(parts) then Err(InvalidConfigName)
      else if !SafeDirs(parts) then Err(ParamError)
      else
        var checked := CheckFileName(parts[|parts| - 1], allowBackups);
        if checked.Err? then Err(checked.error) else Ok(normalized)
  }

  // ---------------------------------------------------------------- segments

  predicate PlainPart(part: string) { part != "" && part != "." && part != ".." && NoChar(part, '/') }

  predicate AllPlain(parts: seq<string>) { forall i :: 0 <= i < |parts| ==> PlainPart(parts[i]) }

  predicate PlainParts(parts: seq<string>) { |parts| >= 1 && AllPlain(parts) }

  /** A config path in the form the normaliser leaves alone; every registered path is of this form. */
  predicate Canonical(path: string) { NormalizeConfigPath(path, false) == Ok(path) }

  function Basename(path: string): string {
    var parts := Split(path, '/');
    parts[|parts| - 1]
  }

  lemma {:induction false} CollapsePlain(parts: seq<string>, absolute: bool, acc: seq<string>)
    requires AllPlain(parts)
    ensures Collapse(parts, absolute, acc) == acc + parts
    decreases |parts|
  {
    if parts == [] {
      assert acc + parts == acc;
    } else {
      CollapsePlain(parts[1..], absolute, acc + [parts[0]]);
      assert acc + [parts[0]] + parts[1..] == acc + parts;
    }
  }

  lemma {:induction false} JoinEnds(parts: seq<string>)
    requires PlainParts(parts)
    ensures var s := Join(parts, '/'); s != "" && s[0] == parts[0][0] && s[0] != '/' && s[|s| - 1] != '/'
    ensures var s := Join(parts, '/'); var file := parts[|parts| - 1]; EndsWith(s, file)
  {
    if |parts| > 1 {
      JoinEnds(parts[1..]);
    }
  }

  lemma JoinHead(parts: seq<string>)
    requires |parts| >= 1
    ensures Join(parts, '/') == parts[0] + if |parts| == 1 then "" else ['/'] + Join(parts[1..], '/')
  {
  }

  lemma NormPathPlain(parts: seq<string>)
    requires PlainParts(parts)
    ensures NormPath(Join(parts, '/')) == Join(parts, '/')
  {
    SplitJoin(parts, '/');
    JoinEnds(parts);
    CollapsePlain(parts, false, []);
    assert [] + parts == parts;
    assert !("/" <= Join(parts, '/'));
    assert "" + Join(parts, '/') == Join(parts, '/');
  }

  lemma FlattenHasNoBackslash(path: string)
    ensures NoChar(Flatten(path), '\\')
  {
  }

  lemma AcceptedIsFlat(path: string, allowBackups: bool)
    ensures NormalizeConfigPath(path, allowBackups).Ok? ==>
              NormalizeConfigPath(path, allowBackups) == Ok(Flatten(path))
  {
    hide Flatten, Split, CheckFileName, EnsureSafeName;
  }

  /** What acceptance says about the output: plain segments that pass the name checks, and no backslash. */
  lemma AcceptedParts(path: string, allowBackups: bool, out: string)
    requires NormalizeConfigPath(path, allowBackups) == Ok(out)
    ensures PlainParts(Split(out, '/')) && Join(Split(out, '/'), '/') == out && NoChar(out, '\\')
    ensures var parts := Split(out, '/'); SafeDirs(parts) && CheckFileName(parts[|parts| - 1], allowBackups).Ok?
  {
    hide Split, Flatten, Join, CheckFileName, EnsureSafeName;
    JoinSplit(out, '/');
    FlattenHasNoBackslash(path);
  }

  lemma FlattenFixed(parts: seq<string>)
    requires PlainParts(parts) && NoChar(Join(parts, '/'), '\\')
    requires !IsSpace(parts[0][0]) && var file := parts[|parts| - 1]; !IsSpace(file[|file| - 1])
    ensures Flatten(Join(parts, '/')) == Join(parts, '/')
  {
    hide Join, NormPath, Slashes, Strip;
    var s := Join(parts, '/');
    JoinEnds(parts);
    var file := parts[|parts| - 1];
    assert s[|s| - 1] == s[|s| - |file|..][|file| - 1];
    StripFixed(s);
    assert StripSlashes(s) == s;
    NormPathPlain(parts);
  }

  lemma AcceptParts(parts: seq<string>, allowBackups: bool)
    requires PlainParts(parts) && NoChar(Join(parts, '/'), '\\')
    requires SafeDirs(parts) && CheckFileName(parts[|parts| - 1], allowBackups).Ok?
    requires !IsSpace(parts[0][0]) && var file := parts[|parts| - 1]; !IsSpace(file[|file| - 1])
    ensures NormalizeConfigPath(Join(parts, '/'), allowBackups) == Ok(Join(parts, '/'))
  {
    hide Split, Flatten, Join, CheckFileName, EnsureSafeName;
    FlattenFixed(parts);
    SplitJoin(parts, '/');
    JoinEnds(parts);
    JoinIsNotDot(parts);
  }

  lemma JoinIsNotDot(parts: seq<string>)
    requires PlainParts(parts)
    ensures Join(parts, '/') != "."
  {
    hide Join;
    JoinHead(parts);
    assert PlainPart(parts[0]);
    if |parts| > 1 { assert |Join(parts, '/')| >= 2; }
  }

  lemma IniEnd(path: string, file: string)
    requires EndsWith(path, file) && EndsWith(file, ".ini")
    ensures EndsWith(path, ".ini") && path[|path| - 1] == 'i' && file[|file| - 1] == 'i'
  {
    assert path[|path| - 4..] == path[|path| - |file|..][|file| - 4..];
    assert path[|path| - 1] == path[|path| - 4..][3] && file[|file| - 1] == file[|file| - 4..][3];
  }

  /** Accepted output has no empty, "." or ".." segment, and feeding it back gives it again exactly when
      it does not begin with whitespace. */
  lemma NormalizeIdempotent(path: string, out: string)
    requires NormalizeConfigPath(path, false) == Ok(out)
    ensures PlainParts(Split(out, '/')) && EndsWith(out, ".ini")
    ensures Canonical(out) <==> !IsSpace(out[0])
  {
    hide Split, Join, NormalizeConfigPath, EnsureSafeName, Contains;
    AcceptedParts(path, false, out);
    var parts := Split(out, '/');
    var file := parts[|parts| - 1];
    JoinEnds(parts);
    IniEnd(out, file);
    if !IsSpace(out[0]) {
      AcceptParts(parts, false);
    } else {
      LeadingSpaceMoves(out, parts);
    }
  }

  lemma HeadHasText(parts: seq<string>)
    requires PlainParts(parts) && SafeDirs(parts) && EndsWith(parts[|parts| - 1], ".ini")
    ensures exists i :: 0 <= i < |parts[0]| && !IsSpace(parts[0][i])
  {
    hide Strip, AllSafe;
    var head := parts[0];
    if |parts| == 1 {
      IniEnd(head, head);
      assert !IsSpace(head[|head| - 1]);
    } else {
      assert EnsureSafeName(head).Ok?;
      StripIsEmpty(head);
    }
  }

  /** Normalising a path whose first segment may be "." or ".." does not make it longer. */
  lemma Rewritten(head: string, rest: seq<string>, s: string)
    requires head != "" && NoChar(head, '/') && (PlainPart(head) || rest != [])
    requires rest != [] ==> PlainParts(rest)
    requires s == Join([head] + rest, '/') && NoChar(s, '\\')
    ensures |StripSlashes(Slashes(NormPath(s)))| <= |s|
  {
    hide Split, Collapse, NormPath, Slashes, StripSlashes;
    var parts := [head] + rest;
    assert parts[1..] == rest;
    NotLonger(NormPath(s));
    if PlainPart(head) {
      NormPathPlain(parts);
    } else {
      DotNormPath(head, rest, s);
    }
  }

  lemma NotLonger(x: string)
    ensures |StripSlashes(Slashes(x))| <= |x|
  {
  }

  lemma DotNormPath(head: string, rest: seq<string>, s: string)
    requires (head == "." || head == "..") && PlainParts(rest) && s == Join([head] + rest, '/')
    ensures |NormPath(s)| <= |s|
  {
    hide Split, Collapse, Join;
    var parts := [head] + rest;
    assert parts[1..] == rest;
    var t := Join(rest, '/');
    assert s == head + ['/'] + t by { JoinHead(parts); }
    SplitHead(head, t, '/');
    SplitJoin(rest, '/');
    DotHead(head, rest);
    assert "" + t == t && "" + s == s;
    JoinEnds(rest);
    assert s[0] == head[0] == '.' && !("/" <= s);
  }

  lemma StripLeading(head: string, rest: string) returns (k: nat)
    requires exists i :: 0 <= i < |head| && !IsSpace(head[i])
    requires IsSpace(head[0]) && var s := head + rest; !IsSpace(s[|s| - 1])
    ensures 0 < k < |head| && Strip(head + rest) == head[k..] + rest
  {
    hide IsSpace, SkipSpaces, SkipBack;
    var out := head + rest;
    k := SkipSpaces(out, 0);
    var i :| 0 <= i < |head| && !IsSpace(head[i]);
    assert out[i] == head[i] && out[0] == head[0];
    assert out[k..] == head[k..] + rest;
  }

  lemma LeadingSpaceSplit(head: string, rest: string, out: string) returns (k: nat)
    requires out == head + rest && NoChar(head, '/') && NoChar(out, '\\')
    requires exists i :: 0 <= i < |head| && !IsSpace(head[i])
    requires IsSpace(out[0]) && out[|out| - 1] == 'i'
    ensures 0 < k < |head| && Strip(out) == head[k..] + rest && NoChar(head[k..], '/') && NoChar(head[k..] + rest, '\\')
    ensures var s := head[k..] + rest; 0 < |s| < |out| && s[|s| - 1] == 'i'
  {
    hide Strip, IsSpace;
    SafeIsNotSpace('i');
    assert out[0] == head[0];
    k := StripLeading(head, rest);
    assert head[k..] + rest == out[k..];
  }

  lemma LeadingSpaceMoves(out: string, parts: seq<string>)
    requires PlainParts(parts) && out == Join(parts, '/') && NoChar(out, '\\')
    requires SafeDirs(parts)
    requires EndsWith(parts[|parts| - 1], ".ini") && out != "" && IsSpace(out[0]) && out[|out| - 1] == 'i'
    ensures !Canonical(out)
  {
    hide Split, NormalizeConfigPath, EnsureSafeName, StripSlashes, Slashes, SafeDirs, Strip, IsSpace, Join, EndsWith, NormPath,
      Canonical, AllSafe, CheckFileName, Flatten, NoChar;
    var head, tail := parts[0], parts[1..];
    var rest := if tail == [] then "" else ['/'] + Join(tail, '/');
    assert out == head + rest by { JoinHead(parts); }
    assert PlainPart(head) && (tail != [] ==> PlainParts(tail));
    HeadHasText(parts);
    var k := LeadingSpaceSplit(head, rest, out);
    var s := head[k..] + rest;
    LeadingSpaceRest(head[k..], tail, s);
    NotCanonical(out, s);
  }

  lemma LeadingSpaceRest(head: string, rest: seq<string>, s: string)
    requires head != "" && NoChar(head, '/') && NoChar(s, '\\') && s != "" && s[|s| - 1] == 'i'
    requires rest != [] ==> PlainParts(rest)
    requires s == head + if rest == [] then "" else ['/'] + Join(rest, '/')
    ensures |StripSlashes(Slashes(NormPath(s)))| <= |s| && s[0] != '/'
  {
    hide StripSlashes, Slashes, NormPath;
    assert ([head] + rest)[1..] == rest;
    if rest == [] { assert s == head; }
    Rewritten(head, rest, s);
  }

  lemma NotCanonical(out: string, s: string)
    requires NoChar(out, '\\') && Strip(out) == s && s != "" && s[0] != '/' && s[|s| - 1] != '/' && |s| < |out|
    requires |StripSlashes(Slashes(NormPath(s)))| <= |s|
    ensures !Canonical(out)
  {
    hide Split, NormPath, CheckFileName, Slashes, Strip, SafeDirs, HasDots;
    assert StripSlashes(s) == s;
    assert Flatten(out) == StripSlashes(Slashes(NormPath(s)));
  }

  lemma DotHead(head: string, rest: seq<string>)
    requires head == "." || head == ".."
    requires PlainParts(rest)
    ensures Collapse([head] + rest, false, []) == if head == "." then rest else [".."] + rest
  {
    assert ([head] + rest)[1..] == rest;
    assert [] + [head] == [head];
    CollapsePlain(rest, false, if head == "." then [] else [".."]);
    assert [] + rest == rest;
  }

  /** The output that is not a fixed point: one more pass drops the leading blank. */
  lemma NormalizeTwice()
    ensures NormalizeConfigPath("./ a.ini", false) == Ok(" a.ini")
    ensures !Canonical(" a.ini")
  {
    hide Flatten, Split, CheckFileName;
    var f := " a.ini";
    FlattenExample();
    SplitHead(f, "", '/');
    CheckExample();
    assert !HasDots([f]);
    NormalizeIdempotent("./ a.ini", f);
  }

  lemma FlattenExample()
    ensures Flatten("./ a.ini") == " a.ini"
  {
    hide Split, Collapse, Slashes, Strip, NormPath;
    var p := "./ a.ini";
    SafeIsNotSpace('.');
    SafeIsNotSpace('i');
    StripFixed(p);
    assert StripSlashes(p) == p && StripSlashes(" a.ini") == " a.ini";
    NormPathExample();
  }

  lemma NormPathExample()
    ensures NormPath("./ a.ini") == " a.ini"
  {
    hide Split, Collapse;
    SplitHead(".", " a.ini", '/');
    assert "." + ['/'] + " a.ini" == "./ a.ini";
    SplitHead(" a.ini", "", '/');
    assert Split("./ a.ini", '/') == ["."] + [" a.ini"];
    assert PlainParts([" a.ini"]) by { assert " a.ini"[0] == ' '; }
    DotHead(".", [" a.ini"]);
    assert "./ a.ini"[0] == '.' && !("/" <= "./ a.ini");
    assert Join([" a.ini"], '/') == " a.ini";
    assert "" + " a.ini" == " a.ini";
  }

  lemma CheckExample()
    ensures CheckFileName(" a.ini", false).Ok?
  {
    hide Contains;
    var f := " a.ini";
    assert f[..|f| - 4] == " a";
    NoContains(f, ".bak.", 'k');
    assert SkipSpaces(" a", 0) == 1 && !IsSpace('a');
  }

  // ---------------------------------------------------------------- names the services build

  /** What `normalize_config_name` accepts, without the ".ini". */
  predicate GoodStem(raw: string) {
    && raw != "" && !IsSpace(raw[0]) && NoChar(raw, '/') && NoChar(raw, '\\') && !Contains(raw, "..")
    && !EndsWith(raw, ".bak") && !Contains(raw, ".bak.") && EnsureSafeName(raw).Ok?
  }

  lemma NameHasGoodStem(configName: string, programName: string, name: string) returns (raw: string)
    requires AllSafe(programName) && NormalizeConfigName(configName, programName) == Ok(name)
    ensures GoodStem(raw) && name == raw + ".ini"
  {
    hide Contains, IsSpace, IsSafeChar, SkipSpaces, SkipBack;
    raw := name[..|name| - 4];
    StripIsEmpty(raw);
    var text := Strip(configName);
    var full := if text == "" then programName else text;
    assert raw == full || raw == full[..|full| - 4];
    assert raw[0] == full[0];
    assert IsSafeChar(full[0]) ==> !IsSpace(full[0]) by { SafeIsNotSpace(full[0]); }
  }

  lemma GoodStemName(raw: string, programName: string)
    requires GoodStem(raw)
    ensures NormalizeConfigName(raw + ".ini", programName) == Ok(raw + ".ini")
  {
    hide Contains, EnsureSafeName, Strip;
    var name := raw + ".ini";
    assert name[|name| - 1] == 'i' && name[|name| - 4..] == ".ini" && name[..|name| - 4] == raw;
    SafeIsNotSpace('i');
    StripFixed(name);
  }

  lemma GoodStemFile(raw: string)
    requires GoodStem(raw)
    ensures var name := raw + ".ini"; CheckFileName(name, false).Ok? && PlainPart(name) && NoChar(name, '\\')
  {
    hide Contains, EnsureSafeName;
    var name := raw + ".ini";
    assert name[|name| - 4..] == ".ini" && name[..|name| - 4] == raw;
    NoBackupMark(raw);
    assert name[|name| - 1] == 'i';
  }

  /** `normalize_config_name` yields a name that both normalisers leave alone. */
  lemma ConfigNameIsCanonical(configName: string, programName: string, name: string)
    requires AllSafe(programName) && NormalizeConfigName(configName, programName) == Ok(name)
    ensures Canonical(name) && Basename(name) == name
    ensures forall p :: NormalizeConfigName(name, p) == Ok(name)
    ensures PlainPart(name) && !IsSpace(name[0]) && NoChar(name, '\\') && CheckFileName(name, false).Ok?
  {
    var raw := NameHasGoodStem(configName, programName, name);
    hide NormalizeConfigName, CheckFileName, NormalizeConfigPath, Split, Contains, EnsureSafeName, EndsWith;
    forall p ensures NormalizeConfigName(name, p) == Ok(name) { GoodStemName(raw, p); }
    GoodStemFile(raw);
    SplitHead(name, "", '/');
    SafeIsNotSpace('i');
    assert name[|name| - 1] == 'i' && name[0] == raw[0];
    AcceptParts([name], false);
  }

  lemma NoBackupMark(raw: string)
    requires !EndsWith(raw, ".bak") && !Contains(raw, ".bak.")
    ensures !Contains(raw + ".ini", ".bak.")
  {
    var s := raw + ".ini";
    forall k | 0 <= k <= |s| ensures !At(s, ".bak.", k) {
      if At(s, ".bak.", k) { NoBackupMarkAt(raw, k); }
    }
  }

  lemma NoBackupMarkAt(raw: string, k: nat)
    requires At(raw + ".ini", ".bak.", k)
    ensures At(raw, ".bak.", k) || EndsWith(raw, ".bak")
  {
    var s := raw + ".ini";
    var t := s[k..k + 5];
    assert t == ".bak.";
    assert t[..4] == ".bak" && t[4] == '.' && t[1] == 'b';
    assert forall i :: |raw| <= i < |s| ==> s[i] == ".ini"[i - |raw|];
    assert s[k + 4] == t[4] && s[k + 1] == t[1];
    if k + 5 <= |raw| {
      assert raw[k..k + 5] == t;
    } else if k + 4 == |raw| {
      assert raw[|raw| - 4..] == t[..4];
    } else {
      assert false;
    }
  }

  /** `_render_target` of the update flow: keep the parent directory of the registered path. */
  function TargetPath(basePath: string, name: string): string {
    var parts := Split(basePath, '/');
    (if |parts| == 1 then "" else Join(parts[..|parts| - 1], '/') + "/") + name
  }

  /** The target path of an update is already normal and its last segment is the file name, so the
      path/name cross-check of `_normalize_write_data` cannot fail on it. */
  lemma TargetPathIsCanonical(basePath: string, configName: string, programName: string, name: string)
    requires Canonical(basePath) && AllSafe(programName)
    requires NormalizeConfigName(configName, programName) == Ok(name)
    ensures Canonical(TargetPath(basePath, name)) && Basename(TargetPath(basePath, name)) == name
  {
    hide NormalizeConfigName, NormalizeConfigPath, Split, Join, CheckFileName, EnsureSafeName;
    ConfigNameIsCanonical(configName, programName, name);
    AcceptedParts(basePath, false, basePath);
    NormalizeIdempotent(basePath, basePath);
    var parts := Split(basePath, '/');
    var n := |parts| - 1;
    var target := parts[..n] + [name];
    JoinLast(parts[..n], name);
    JoinLast(parts[..n], parts[n]);
    assert parts[..n] + [parts[n]] == parts;
    var d := if n == 0 then "" else Join(parts[..n], '/') + ['/'];
    assert Join(target, '/') == d + name == TargetPath(basePath, name) && basePath == d + parts[n];
    assert NoChar(d, '\\') by { assert forall i :: 0 <= i < |d| ==> d[i] == basePath[i]; }
    JoinEnds(parts);
    assert name[|name| - 1] == 'i' by { NameEnd(configName, programName, name); }
    SafeIsNotSpace('i');
    assert forall i :: 0 <= i < n ==> target[i] == parts[i];
    AcceptParts(target, false);
    SplitJoin(target, '/');
  }

  lemma NameEnd(configName: string, programName: string, name: string)
    requires NormalizeConfigName(configName, programName) == Ok(name)
    ensures name != "" && name[|name| - 1] == 'i'
  {
    hide Contains, EnsureSafeName, Strip;
  }

  /** `_backup_path` and the rotation names of `config_file_service`. */
  function Bak(path: string): string { path + ".bak" }

  /** `strftime("%Y%m%d-%H%M%S")` */
  predicate IsStamp(t: string) {
    |t| == 15 && t[8] == '-' && forall i :: 0 <= i < 15 && i != 8 ==> IsDigit(t[i])
  }

  datatype Kind = Live | Backup | RotatedBackup(stamp: string) | SetAside(stamp: string)

  predicate ValidKind(kind: Kind) { (kind.RotatedBackup? || kind.SetAside?) ==> IsStamp(kind.stamp) }

  function FileOf(path: string, kind: Kind): string {
    match kind
    case Live => path
    case Backup => path + ".bak"
    case RotatedBackup(t) => path + ".bak." + t
    case SetAside(t) => path + "." + t
  }

  function Tail(s: string, n: nat): string { if n <= |s| then s[|s| - n..] else s }

  lemma FileTail(path: string, kind: Kind)
    requires EndsWith(path, ".ini") && ValidKind(kind)
    ensures kind.Live? ==> Tail(FileOf(path, kind), 4) == ".ini"
    ensures kind.Backup? ==> Tail(FileOf(path, kind), 4) == ".bak"
    ensures kind.RotatedBackup? || kind.SetAside? ==> IsDigit(FileOf(path, kind)[|FileOf(path, kind)| - 1])
    ensures kind.RotatedBackup? || kind.SetAside? ==> Tail(FileOf(path, kind), 15) == kind.stamp
    ensures kind.RotatedBackup? ==> Tail(FileOf(path, kind), 20)[..5] == ".bak."
    ensures kind.SetAside? ==> |FileOf(path, kind)| >= 20 && Tail(FileOf(path, kind), 20)[..5] == ".ini."
  {
    var f := FileOf(path, kind);
    match kind
    case RotatedBackup(t) => assert f[|f| - 20..][..5] == ".bak.";
    case SetAside(t) =>
      assert f[|f| - 20..][..4] == path[|path| - 4..];
      assert f[|f| - 20..][..5] == ".ini.";
    case Live =>
    case Backup =>
  }

  /** Config, backup, rotated backup and set-aside names never collide: the name determines both the
      config path and the role. */
  lemma FileOfInjective(path1: string, kind1: Kind, path2: string, kind2: Kind)
    requires EndsWith(path1, ".ini") && EndsWith(path2, ".ini") && ValidKind(kind1) && ValidKind(kind2)
    requires FileOf(path1, kind1) == FileOf(path2, kind2)
    ensures path1 == path2 && kind1 == kind2
  {
    hide EndsWith;
    var f := FileOf(path1, kind1);
    SameKind(f, path1, kind1, path2, kind2);
    match kind1
    case Live =>
    case Backup => assert path1 == f[..|f| - 4] == path2;
    case RotatedBackup(t) => assert path1 == f[..|f| - 20] == path2;
    case SetAside(t) => assert path1 == f[..|f| - 16] == path2;
  }

  lemma SameKind(f: string, path1: string, kind1: Kind, path2: string, kind2: Kind)
    requires EndsWith(path1, ".ini") && EndsWith(path2, ".ini") && ValidKind(kind1) && ValidKind(kind2)
    requires FileOf(path1, kind1) == f && FileOf(path2, kind2) == f
    ensures kind1 == kind2
  {
    FileTail(path1, kind1);
    FileTail(path2, kind2);
    hide FileOf, EndsWith;
    assert |f| >= 4 ==> f[|f| - 1] == Tail(f, 4)[3];
  }

  // ---------------------------------------------------------------- the .bak name through the normaliser

  lemma StripPosition(s: string) returns (a: nat)
    ensures a + |Strip(s)| <= |s| && Strip(s) == s[a..a + |Strip(s)|]
    ensures forall i :: 0 <= i < a || a + |Strip(s)| <= i < |s| ==> IsSpace(s[i])
  {
    hide IsSpace, SkipSpaces, SkipBack;
    a := SkipSpaces(s, 0);
  }

  /** A prefix of a name that is safe up to surrounding blanks is safe up to surrounding blanks. */
  lemma SafePrefix(s: string, k: nat)
    requires k <= |s| && AllSafe(Strip(s))
    ensures AllSafe(Strip(s[..k]))
  {
    hide IsSpace, Strip, IsSafeChar;
    var p := s[..k];
    var a := StripPosition(s);
    var a' := StripPosition(p);
    var r := Strip(p);
    forall i | 0 <= i < |r| ensures IsSafeChar(r[i]) {
      assert r[0] == s[a'] && r[|r| - 1] == s[a' + |r| - 1];
      assert s[a' + i] == Strip(s)[a' + i - a];
    }
  }

  /** Delete and sync build the backup name through the normaliser, archive does not: the two agree
      exactly when the file name, leading blanks aside, does not itself begin with ".ini". */
  lemma BackupNameAgrees(path: string)
    requires Canonical(path)
    ensures NormalizeConfigPath(Bak(path), true) == Ok(Bak(path)) <==> !(".ini" <= TrimLeft(Basename(path)))
    ensures NormalizeConfigPath(Bak(path), true).Ok? ==> NormalizeConfigPath(Bak(path), true) == Ok(Bak(path))
  {
    hide NormalizeConfigPath, Split, EnsureSafeName, Contains, Find, TrimLeft, Join, IsSpace, Flatten;
    AcceptedParts(path, false, path);
    NormalizeIdempotent(path, path);
    var parts := Split(path, '/');
    var n := |parts| - 1;
    var file := parts[n];
    var parts' := parts[..n] + [file + ".bak"];
    BackupParts(path, parts, parts');
    SplitJoin(parts', '/');
    BackupFileName(file);
    assert SafeDirs(parts') by {
      forall i | 0 <= i < |parts'| - 1 ensures EnsureSafeName(parts'[i]).Ok? { assert parts'[i] == parts[i]; }
    }
    assert parts'[n] == file + ".bak";
    JoinEnds(parts);
    assert parts'[0][0] == parts[0][0];
    assert !IsSpace('k') by { SafeIsNotSpace('k'); }
    FlattenFixed(parts');
    AcceptedIsFlat(Bak(path), true);
    if CheckFileName(file + ".bak", true).Ok? {
      AcceptParts(parts', true);
    } else if NormalizeConfigPath(Bak(path), true) == Ok(Bak(path)) {
      AcceptedParts(Bak(path), true, Bak(path));
    }
  }

  lemma BackupFileName(file: string)
    requires CheckFileName(file, false).Ok?
    ensures CheckFileName(file + ".bak", true).Ok? <==> !(".ini" <= TrimLeft(file))
  {
    hide EnsureSafeName, Contains, Find, TrimLeft;
    var f := Find(file, ".ini", 0);
    FirstIni(file);
    var long := file + ".bak";
    assert long[..f] == file[..f];
    assert long[|long| - 8..] == file[|file| - 4..] + ".bak" == ".ini.bak";
    var stem := file[..|file| - 4];
    assert file[..f] == stem[..f];
    SafeBase(stem, f);
    EmptyBase(file, f);
  }

  lemma FirstIni(file: string)
    requires EndsWith(file, ".ini")
    ensures Find(file + ".bak", ".ini", 0) == Find(file, ".ini", 0) <= |file| - 4
  {
    hide Find;
    assert At(file, ".ini", |file| - 4);
    var long := file + ".bak";
    forall g: nat | g + 4 <= |file| ensures At(long, ".ini", g) <==> At(file, ".ini", g) {
      AtLeft(file, ".bak", ".ini", g);
    }
  }

  lemma SafeBase(stem: string, k: nat)
    requires k <= |stem| && EnsureSafeName(stem).Ok?
    ensures EnsureSafeName(stem[..k]).Ok? <==> Strip(stem[..k]) != ""
  {
    hide Strip;
    SafePrefix(stem, k);
  }

  lemma JoinLast(dirs: seq<string>, file: string)
    ensures Join(dirs + [file], '/') == (if dirs == [] then "" else Join(dirs, '/') + ['/']) + file
  {
    if dirs == [] {
      assert dirs + [file] == [file];
    } else {
      JoinAppend(dirs, [file], '/');
    }
  }

  lemma LongName(file: string)
    requires PlainPart(file)
    ensures PlainPart(file + ".bak")
  {
    var long := file + ".bak";
    assert |long| > 2;
  }

  lemma BackupParts(path: string, parts: seq<string>, parts': seq<string>)
    requires PlainParts(parts) && path == Join(parts, '/') && NoChar(path, '\\')
    requires parts' == parts[..|parts| - 1] + [parts[|parts| - 1] + ".bak"]
    ensures PlainParts(parts') && Join(parts', '/') == Bak(path) && NoChar(Bak(path), '\\')
  {
    hide Join, PlainPart, Bak;
    var n := |parts| - 1;
    var file := parts[n];
    LongName(file);
    forall i | 0 <= i < |parts'| ensures PlainPart(parts'[i]) { if i < n { assert parts'[i] == parts[i]; } }
    assert parts[..n] + [file] == parts;
    LongJoin(parts[..n], file);
    BakHasNoBackslash(path);
  }

  lemma LongJoin(dirs: seq<string>, file: string)
    ensures Join(dirs + [file + ".bak"], '/') == Bak(Join(dirs + [file], '/'))
  {
    hide Join;
    JoinLast(dirs, file);
    JoinLast(dirs, file + ".bak");
    var d := if dirs == [] then "" else Join(dirs, '/') + ['/'];
    assert d + (file + ".bak") == (d + file) + ".bak";
  }

  lemma BakHasNoBackslash(path: string)
    requires NoChar(path, '\\')
    ensures NoChar(Bak(path), '\\')
  {
    assert forall i :: 0 <= i < |path| ==> Bak(path)[i] == path[i];
  }

  lemma EmptyBase(file: string, f: nat)
    requires f < |file| && f == Find(file, ".ini", 0)
    ensures Strip(file[..f]) == "" <==> ".ini" <= TrimLeft(file)
  {
    hide Find, SkipSpaces, Strip, IsSpace;
    var k := SkipSpaces(file, 0);
    assert Strip(file[..f]) == "" <==> forall i :: 0 <= i < f ==> IsSpace(file[i]) by { BlankBefore(file, f); }
    assert file[f] == '.' by { assert At(file, ".ini", f) && file[f] == file[f..f + 4][0]; }
    assert !IsSpace(file[f]) by { SafeIsNotSpace('.'); }
    LeadsWith(file, k);
    assert k <= f;
    assert At(file, ".ini", k) ==> f <= k;
    assert (forall i :: 0 <= i < f ==> IsSpace(file[i])) <==> k == f;
  }

  lemma BlankBefore(file: string, f: nat)
    requires f <= |file|
    ensures Strip(file[..f]) == "" <==> forall i :: 0 <= i < f ==> IsSpace(file[i])
  {
    hide Strip, IsSpace;
    StripIsEmpty(file[..f]);
    assert forall i :: 0 <= i < f ==> file[..f][i] == file[i];
  }

  lemma LeadsWith(file: string, k: nat)
    requires k == SkipSpaces(file, 0)
    ensures ".ini" <= TrimLeft(file) <==> At(file, ".ini", k)
  {
    hide SkipSpaces;
    assert k + 4 <= |file| ==> file[k..k + 4] == TrimLeft(file)[..4];
  }

  /** A file name the services accept for a service and whose backup name the normaliser rejects. */
  lemma UnremovableBackup()
    ensures NormalizeConfigName(".ini.ini", "p") == Ok(".ini.ini") && Canonical(".ini.ini")
    ensures ".ini" <= TrimLeft(Basename(".ini.ini"))
    ensures NormalizeConfigPath(Bak(".ini.ini"), true).Err?
  {
    hide NormalizeConfigName, NormalizeConfigPath, Split, Contains;
    HiddenIsAccepted();
    ConfigNameIsCanonical(".ini.ini", "p", ".ini.ini");
    assert ".ini" <= TrimLeft(".ini.ini") by { HiddenStarts(); }
    BackupNameAgrees(".ini.ini");
  }

  lemma HiddenStarts()
    ensures ".ini" <= TrimLeft(".ini.ini")
  {
    var s := ".ini.ini";
    assert SkipSpaces(s, 0) == 0 && s[0..] == s;
    assert s[..4] == ".ini";
  }

  lemma HiddenIsAccepted()
    ensures NormalizeConfigName(".ini.ini", "p") == Ok(".ini.ini")
  {
    hide Contains, NormalizeConfigName, EnsureSafeName, EndsWith;
    var raw := ".ini";
    assert raw + ".ini" == ".ini.ini";
    NoContains(raw, ".bak.", 'k');
    OneDot(raw);
    SafeIni(raw);
    GoodStemName(raw, "p");
  }

  lemma SafeIni(raw: string)
    requires raw == ".ini"
    ensures EnsureSafeName(raw).Ok? && !IsSpace(raw[0]) && !EndsWith(raw, ".bak")
  {
    hide Strip;
    StripFixed(raw);
    assert raw[|raw| - 4..] == raw && raw[3] == 'i' && ".bak"[3] == 'k';
  }

  lemma OneDot(raw: string)
    requires raw == ".ini"
    ensures !Contains(raw, "..")
  {
    forall k | 0 <= k <= |raw| ensures !At(raw, "..", k) {
      if k + 2 <= |raw| { assert raw[k..k + 2][1] == raw[k + 1] != '.'; }
    }
  }

  // ---------------------------------------------------------------- containment under the config directory

  /** Segments of the absolute configuration directory as `pathlib` keeps them: "." and doubled slashes
      are gone, ".." stays. */
  predicate DirParts(parts: seq<string>) {
    forall i :: 0 <= i < |parts| ==> parts[i] != "" && parts[i] != "." && NoChar(parts[i], '/')
  }

  function AbsText(parts: seq<string>): string { "/" + Join(parts, '/') }

  /** Segments of an absolute path text. */
  function AbsParts(text: string): seq<string>
    requires "/" <= text
  {
    if text == "/" then [] else Split(text[1..], '/')
  }

  /** `ensure_safe_path_under_dir` */
  function EnsureUnderDir(baseDir: string, target: string): Result<string> {
    var b := NormPath(baseDir);
    var t := NormPath(target);
    if !("/" <= b) || !("/" <= t) then Err(InvalidConfigName)
    else if !(AbsParts(b) <= AbsParts(t)) then Err(InvalidConfigName)
    else Ok(t)
  }

  /** `path.relative_to(base).as_posix()`, None where pathlib raises. */
  function RelativeTo(target: string, base: seq<string>): Option<string>
    requires "/" <= target
  {
    var parts := AbsParts(target);
    if base <= parts then Some(Join(parts[|base|..], '/')) else None
  }

  lemma {:induction false} CollapseAppend(a: seq<string>, b: seq<string>, absolute: bool, acc: seq<string>)
    ensures Collapse(a + b, absolute, acc) == Collapse(b, absolute, Collapse(a, absolute, acc))
    decreases |a|
  {
    if a == [] {
      assert a + b == b;
    } else {
      assert (a + b)[1..] == a[1..] + b;
      var comp := a[0];
      var acc' :=
        if comp == "" || comp == "." then acc
        else if comp != ".." || (!absolute && acc == []) || (acc != [] && acc[|acc| - 1] == "..") then acc + [comp]
        else if acc != [] then acc[..|acc| - 1]
        else acc;
      CollapseAppend(a[1..], b, absolute, acc');
    }
  }

  /** An absolute path collapses to plain segments only. */
  lemma {:induction false} CollapseIsPlain(comps: seq<string>, acc: seq<string>)
    requires DirParts(comps) && AllPlain(acc)
    ensures AllPlain(Collapse(comps, true, acc))
    decreases |comps|
  {
    if comps != [] {
      var comp := comps[0];
      if comp == ".." {
        assert acc != [] ==> PlainPart(acc[|acc| - 1]);
        var acc' := if acc == [] then acc else acc[..|acc| - 1];
        CollapseIsPlain(comps[1..], acc');
      } else {
        assert PlainPart(comp);
        CollapseIsPlain(comps[1..], acc + [comp]);
      }
    }
  }

  lemma AbsTextParts(parts: seq<string>)
    requires AllPlain(parts)
    ensures AbsParts(AbsText(parts)) == parts
  {
    hide Split, Join;
    if parts == [] {
      assert AbsText(parts) == "/" by { EmptyJoin(); }
    } else {
      JoinEnds(parts);
      SplitJoin(parts, '/');
      assert AbsText(parts)[1..] == Join(parts, '/');
    }
  }

  lemma EmptyJoin()
    ensures Join([], '/') == ""
  {
  }

  /** Splitting the text of an absolute path gives its segments behind one empty piece. */
  lemma SplitAbs(parts: seq<string>)
    requires DirParts(parts) && parts != []
    ensures Split(AbsText(parts), '/') == [""] + parts && !("//" <= AbsText(parts))
  {
    hide Split;
    var j := Join(parts, '/');
    JoinHead(parts);
    assert j[0] == parts[0][0];
    SplitHead("", j, '/');
    assert "" + ['/'] + j == AbsText(parts);
    SplitJoin(parts, '/');
    assert AbsText(parts)[1] == j[0] && "//"[1] == '/';
  }

  lemma NormAbs(parts: seq<string>)
    requires DirParts(parts)
    ensures NormPath(AbsText(parts)) == AbsText(Collapse(parts, true, []))
    ensures AbsParts(NormPath(AbsText(parts))) == Collapse(parts, true, [])
  {
    hide Split, Join, AbsParts;
    var r := Collapse(parts, true, []);
    CollapseIsPlain(parts, []);
    AbsTextParts(r);
    EmptyJoin();
    if parts == [] {
      SplitHead("", "", '/');
      assert "" + ['/'] + "" == "/" == AbsText(parts);
      assert ["", ""][1..] == [""] && [""][1..] == [];
      assert Collapse(["", ""], true, []) == Collapse([""], true, []) == [];
    } else {
      SplitAbs(parts);
      assert ([""] + parts)[1..] == parts;
    }
  }

  /** Joining an accepted path under any absolute directory passes the containment check, and the result
      maps back to the same relative path exactly when the directory itself holds no ".." segment. */
  lemma ContainedAndMapsBack(base: seq<string>, path: string, allowBackups: bool, out: string)
    requires DirParts(base) && NormalizeConfigPath(path, allowBackups) == Ok(out)
    ensures var r := EnsureUnderDir(AbsText(base), AbsText(base + Split(out, '/')));
            r.Ok? && "/" <= r.value && (RelativeTo(r.value, base) == Some(out) <==> ".." !in base)
  {
    hide NormalizeConfigPath, Split, Join, NormPath, AbsParts, Collapse;
    AcceptedParts(path, allowBackups, out);
    var parts := Split(out, '/');
    var c := Collapse(base, true, []);
    assert DirParts(base + parts) by {
      forall i | 0 <= i < |base + parts|
        ensures (base + parts)[i] != "" && (base + parts)[i] != "." && NoChar((base + parts)[i], '/')
      {
        if i >= |base| { assert PlainPart(parts[i - |base|]); }
      }
    }
    NormAbs(base);
    NormAbs(base + parts);
    CollapseAppend(base, parts, true, []);
    CollapseIsPlain(base, []);
    CollapsePlain(parts, true, c);
    if ".." !in base {
      assert AllPlain(base);
      CollapsePlain(base, true, []);
      assert [] + base == base;
      assert (c + parts)[|base|..] == parts;
    } else {
      assert AllPlain(c + parts);
      if base <= c + parts { PrefixIsPlain(base, c + parts); }
    }
  }

  lemma PrefixIsPlain(base: seq<string>, all: seq<string>)
    requires AllPlain(all) && base <= all
    ensures ".." !in base
  {
    assert forall i :: 0 <= i < |base| ==> base[i] == all[i] && PlainPart(all[i]);
  }
}
