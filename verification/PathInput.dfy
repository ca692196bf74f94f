/** When `normalize_config_path` of app/core/security.py is idempotent, told from its input. */
module PathInput {
  import opened Text
  import opened PathNames

  /** What is left of the input once backslashes are turned and outer blanks, then outer slashes, are gone. */
  function Trimmed(path: string): string { StripSlashes(Strip(Slashes(path))) }

  /** The segments of the input that `os.path.normpath` keeps. */
  function Kept(path: string): seq<string> { Collapse(Split(Trimmed(path), '/'), false, []) }

  /** What is kept was there before and is not empty. */
  lemma {:induction false} CollapseMembers(comps: seq<string>, acc: seq<string>, part: string)
    requires "" !in acc && part in Collapse(comps, false, acc)
    ensures part != "" && (part in comps || part in acc)
    decreases |comps|
  {
    if comps != [] {
      var comp := comps[0];
      var acc' :=
        if comp == "" || comp == "." then acc
        else if comp != ".." || acc == [] || acc[|acc| - 1] == ".." then acc + [comp]
        else acc[..|acc| - 1];
      assert comps == [comp] + comps[1..];
      assert part in acc' ==> part in acc || part == comp;
      CollapseMembers(comps[1..], acc', part);
    }
  }

  /** The characters of a segment are characters of the text. */
  lemma {:induction false} SplitChars(s: string, part: string, c: char)
    requires part in Split(s, '/') && c in part
    ensures c in s
  {
    if s != "" {
      var rest := Split(s[1..], '/');
      assert s == [s[0]] + s[1..];
      if s[0] == '/' {
        assert part in rest;
        SplitChars(s[1..], part, c);
      } else if part in rest[1..] {
        assert part in rest;
        SplitChars(s[1..], part, c);
      } else if c != s[0] {
        assert part == [s[0]] + rest[0];
        SplitChars(s[1..], rest[0], c);
      }
    }
  }

  lemma TrimmedChars(path: string, c: char)
    requires c in Trimmed(path)
    ensures c in Slashes(path)
  {
    hide Slashes, SkipSpaces, SkipBack, SkipSlashes, SkipSlashesBack;
  }

  /** A kept segment consists of characters of the input, has no slash and no backslash, and is not empty. */
  lemma KeptPart(path: string, part: string)
    requires part in Kept(path)
    ensures part != "" && NoChar(part, '/') && NoChar(part, '\\')
    ensures forall c :: c in part ==> c in Slashes(path)
  {
    hide Split, Slashes, Trimmed, Collapse;
    CollapseMembers(Split(Trimmed(path), '/'), [], part);
    forall c | c in part ensures c in Slashes(path) {
      SplitChars(Trimmed(path), part, c);
      TrimmedChars(path, c);
    }
    forall i | 0 <= i < |part| ensures part[i] != '\\' { assert part[i] in part; }
  }

  lemma {:induction false} JoinBounds(parts: seq<string>)
    requires parts != [] && forall i :: 0 <= i < |parts| ==> parts[i] != "" && NoChar(parts[i], '/') && NoChar(parts[i], '\\')
    ensures var s := Join(parts, '/');
            s != "" && s[0] == parts[0][0] && s[0] != '/' && s[|s| - 1] != '/' && NoChar(s, '\\')
  {
    assert parts[0] != "";
    if |parts| > 1 { JoinBounds(parts[1..]); }
  }

  lemma StripSlashesFixed(s: string)
    requires s != "" && s[0] != '/' && s[|s| - 1] != '/'
    ensures StripSlashes(s) == s
  {
  }

  lemma TrimmedStart(path: string)
    ensures Trimmed(path) != "" ==> Trimmed(path)[0] != '/'
  {
    hide Slashes, Strip;
  }

  /** The output is the kept segments, joined. */
  lemma OutputIsKept(path: string, out: string)
    requires NormalizeConfigPath(path, false) == Ok(out)
    ensures Kept(path) != [] && Kept(path)[0] != "" && out == Join(Kept(path), '/') && out[0] == Kept(path)[0][0]
  {
    hide Split, Collapse, Slashes, Strip, StripSlashes, CheckFileName, EnsureSafeName, Join, SafeDirs, HasDots;
    var raw, kept := Trimmed(path), Kept(path);
    TrimmedStart(path);
    assert raw != "" && !("/" <= raw);
    assert "" + Join(kept, '/') == Join(kept, '/');
    NothingKept(path);
    forall i | 0 <= i < |kept| ensures kept[i] != "" && NoChar(kept[i], '/') && NoChar(kept[i], '\\') {
      KeptPart(path, kept[i]);
    }
    JoinBounds(kept);
    StripSlashesFixed(Join(kept, '/'));
  }

  lemma NothingKept(path: string)
    ensures Kept(path) == [] ==> NormalizeConfigPath(path, false).Err?
  {
    hide Split, Collapse, Slashes, Strip, StripSlashes, CheckFileName, EnsureSafeName, SafeDirs, HasDots;
    TrimmedStart(path);
    var raw := Trimmed(path);
    assert raw != "" ==> !("/" <= raw);
    assert "" + Join(Kept(path), '/') == Join(Kept(path), '/');
    StripSlashesFixed(".");
    assert Slashes(".") == ".";
  }

  /** Feeding the output back gives it again exactly when the first kept segment of the input does not begin
      with a blank. */
  lemma IdempotentIff(path: string, out: string)
    requires NormalizeConfigPath(path, false) == Ok(out)
    ensures Kept(path) != [] && Kept(path)[0] != ""
    ensures NormalizeConfigPath(out, false) == Ok(out) <==> !IsSpace(Kept(path)[0][0])
  {
    hide NormalizeConfigPath, Kept, IsSpace, Join, Split, EndsWith;
    OutputIsKept(path, out);
    NormalizeIdempotent(path, out);
  }

  /** The first segment that is neither empty nor "." */
  function FirstReal(parts: seq<string>): Option<string> {
    if parts == [] then None
    else if parts[0] == "" || parts[0] == "." then FirstReal(parts[1..])
    else Some(parts[0])
  }

  lemma {:induction false} CollapseFirst(comps: seq<string>, acc: seq<string>)
    requires ".." !in comps && ".." !in acc
    ensures acc <= Collapse(comps, false, acc)
    ensures acc == [] && Collapse(comps, false, acc) != [] ==> FirstReal(comps) == Some(Collapse(comps, false, acc)[0])
    decreases |comps|
  {
    if comps != [] {
      var comp := comps[0];
      assert comps == [comp] + comps[1..];
      CollapseFirst(comps[1..], if comp == "" || comp == "." then acc else acc + [comp]);
    }
  }

  /** For input without ".." the condition is on its first segment other than "" and ".". */
  lemma IdempotentWithoutUp(path: string, out: string)
    requires NormalizeConfigPath(path, false) == Ok(out) && ".." !in Split(Trimmed(path), '/')
    ensures var first := FirstReal(Split(Trimmed(path), '/'));
            first.Some? && first.value != ""
            && (NormalizeConfigPath(out, false) == Ok(out) <==> !IsSpace(first.value[0]))
  {
    hide NormalizeConfigPath, Trimmed, IsSpace, Split, Collapse;
    IdempotentIff(path, out);
    CollapseFirst(Split(Trimmed(path), '/'), []);
  }

  /** Without white space in the input there is no such blank: the normaliser is idempotent there. */
  lemma IdempotentWithoutSpace(path: string, out: string)
    requires NoSpace(path) && NormalizeConfigPath(path, false) == Ok(out)
    ensures NormalizeConfigPath(out, false) == Ok(out)
  {
    hide NormalizeConfigPath, Kept, IsSpace, Slashes;
    IdempotentIff(path, out);
    var first := Kept(path)[0];
    KeptPart(path, first);
    assert first[0] in first;
    SlashesNoSpace(path, first[0]);
  }

  lemma SlashesNoSpace(path: string, c: char)
    requires NoSpace(path) && c in Slashes(path)
    ensures !IsSpace(c)
  {
    hide IsSpace;
    assert !IsSpace('/') by { SlashIsNotSpace(); }
    var i :| 0 <= i < |Slashes(path)| && Slashes(path)[i] == c;
  }

  lemma SlashIsNotSpace()
    ensures !IsSpace('/')
  {
  }

  /** Two inputs that do not meet the condition: "./" and "/" are dropped after the blanks are. */
  lemma NotIdempotent()
    ensures NormalizeConfigPath("./ a.ini", false) == Ok(" a.ini") && NormalizeConfigPath("/ a.ini", false) == Ok(" a.ini")
    ensures NormalizeConfigPath(" a.ini", false) != Ok(" a.ini")
  {
    hide NormalizeConfigPath;
    NormalizeTwice();
    SlashExample();
  }

  lemma SlashExample()
    ensures NormalizeConfigPath("/ a.ini", false) == Ok(" a.ini")
  {
    hide Split, Strip, Slashes, CheckFileName, NormPath;
    var f, p := " a.ini", "/ a.ini";
    SlashIsNotSpace();
    SafeIsNotSpace('i');
    StripFixed(p);
    assert Slashes(p) == p && Slashes(f) == f;
    SlashesStripped();
    SplitHead(f, "", '/');
    assert PlainParts([f]) by { assert f[0] == ' '; }
    NormPathPlain([f]);
    CheckExample();
    assert !HasDots([f]);
    assert StripSlashes(f) == f by { StripSlashesFixed(f); }
  }

  lemma SlashesStripped()
    ensures StripSlashes("/ a.ini") == " a.ini"
  {
    var p := "/ a.ini";
    assert SkipSlashes(p, 1) == 1 && SkipSlashes(p, 0) == 1;
    assert p[1..] == " a.ini";
  }

  // ---------------------------------------------------------------- exactly what is accepted

  /** A safe name is the stripped text, which is not empty and holds letters, digits, "_", "." and "-" only. */
  lemma SafeNameIff(value: string)
    ensures EnsureSafeName(value).Ok? <==>
            Strip(value) != ""
            && forall c :: c in Strip(value) ==>
                 'a' <= c <= 'z' || 'A' <= c <= 'Z' || '0' <= c <= '9' || c == '_' || c == '.' || c == '-'
    ensures EnsureSafeName(value).Ok? ==> EnsureSafeName(value).value == Strip(value)
  {
    hide Strip;
    var raw := Strip(value);
    if forall c :: c in raw ==> 'a' <= c <= 'z' || 'A' <= c <= 'Z' || '0' <= c <= '9' || c == '_' || c == '.' || c == '-' {
      forall i | 0 <= i < |raw| ensures IsSafeChar(raw[i]) { assert raw[i] in raw; }
    }
  }

  /** The stem of a config file name: what is given, or else the program name, without a final ".ini". */
  function StemOf(configName: string, programName: string): string {
    var text := if Strip(configName) == "" then programName else Strip(configName);
    if EndsWith(text, ".ini") then text[..|text| - 4] else text
  }

  /** A config file name is its stem with ".ini", and it is accepted exactly if the stem holds no path, does not look
      like a backup and is a safe name. */
  lemma ConfigNameIff(configName: string, programName: string)
    ensures var stem := StemOf(configName, programName);
            NormalizeConfigName(configName, programName).Ok? <==>
            (Strip(configName) != "" || programName != "") && '/' !in stem && '\\' !in stem && !Contains(stem, "..")
            && !EndsWith(stem, ".bak") && !Contains(stem, ".bak.") && EnsureSafeName(stem).Ok?
    ensures NormalizeConfigName(configName, programName).Ok? ==>
              NormalizeConfigName(configName, programName).value == StemOf(configName, programName) + ".ini"
  {
    hide Strip, Contains, EnsureSafeName;
  }

  /** A path is accepted exactly if `normpath` keeps segments of it, none of them "..", all but the last are safe names,
      and the last is a good file name. */
  lemma AcceptedIff(path: string, allowBackups: bool)
    ensures var kept := Kept(path);
            NormalizeConfigPath(path, allowBackups).Ok? <==>
            kept != [] && ".." !in kept && (forall i :: 0 <= i < |kept| - 1 ==> EnsureSafeName(kept[i]).Ok?)
            && CheckFileName(kept[|kept| - 1], allowBackups).Ok?
  {
    hide Split, Collapse, Slashes, Strip, StripSlashes, CheckFileName, EnsureSafeName, Join, Kept;
    var kept := Kept(path);
    FlatIsKept(path);
    if kept != [] {
      KeptParts(path);
      SplitJoin(kept, '/');
      OnlyDot(kept);
    }
  }

  lemma FlatIsKept(path: string)
    ensures Kept(path) == [] ==> Flatten(path) == "" || Flatten(path) == "."
    ensures Kept(path) != [] ==> Flatten(path) == Join(Kept(path), '/') && Flatten(path) != ""
  {
    hide Split, Collapse, Slashes, Strip, StripSlashes, Join;
    var raw, kept := Trimmed(path), Kept(path);
    TrimmedStart(path);
    assert raw != "" ==> !("/" <= raw);
    assert "" + Join(kept, '/') == Join(kept, '/');
    StripSlashesFixed(".");
    assert Slashes(".") == ".";
    EmptyJoin();
    EmptyKept();
    if kept != [] {
      forall i | 0 <= i < |kept| ensures kept[i] != "" && NoChar(kept[i], '/') && NoChar(kept[i], '\\') { KeptPart(path, kept[i]); }
      JoinBounds(kept);
      StripSlashesFixed(Join(kept, '/'));
    }
  }

  lemma EmptyKept()
    ensures Collapse(Split("", '/'), false, []) == []
  {
    assert Split("", '/') == [""];
    assert [""][1..] == [];
  }

  lemma KeptParts(path: string)
    ensures forall i :: 0 <= i < |Kept(path)| ==> NoChar(Kept(path)[i], '/') && Kept(path)[i] != ""
    ensures "." !in Kept(path)
  {
    hide Kept;
    forall i | 0 <= i < |Kept(path)| ensures NoChar(Kept(path)[i], '/') && Kept(path)[i] != "" { KeptPart(path, Kept(path)[i]); }
    if "." in Kept(path) { DotDropped(path); }
  }

  lemma DotDropped(path: string)
    ensures "." !in Kept(path)
  {
    hide Split;
    CollapseDrops(Split(Trimmed(path), '/'), []);
  }

  lemma {:induction false} CollapseDrops(comps: seq<string>, acc: seq<string>)
    requires "." !in acc
    ensures "." !in Collapse(comps, false, acc)
    decreases |comps|
  {
    if comps != [] {
      var comp := comps[0];
      var acc' :=
        if comp == "" || comp == "." then acc
        else if comp != ".." || acc == [] || acc[|acc| - 1] == ".." then acc + [comp]
        else acc[..|acc| - 1];
      CollapseDrops(comps[1..], acc');
    }
  }

  lemma OnlyDot(kept: seq<string>)
    requires kept != [] && "." !in kept && forall i :: 0 <= i < |kept| ==> kept[i] != "" && NoChar(kept[i], '/')
    ensures Join(kept, '/') != "."
  {
    hide Join;
    JoinHead(kept);
    assert kept[0] in kept && kept[0] != ".";
    if |kept| > 1 { assert |Join(kept, '/')| >= 2; }
  }

  /** A segment followed by ".." cancels out. */
  lemma UpCancels(part: string, rest: seq<string>, acc: seq<string>)
    requires part != "" && part != "." && part != ".."
    ensures Collapse([part, ".."] + rest, false, acc) == Collapse(rest, false, acc)
  {
    var comps := [part, ".."] + rest;
    assert comps[1..] == [".."] + rest && comps[1..][1..] == rest;
    assert (acc + [part])[..|acc|] == acc;
  }
}
