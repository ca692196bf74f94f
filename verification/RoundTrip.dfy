/** Reading a rendered file back: the port scan always finds its port, and `parse` recovers every field. */
module RoundTrip {
  import opened Text
  import opened PathNames
  import opened Template
  import Ini
  import DuplicateKeys

  // ---------------------------------------------------------------- searching in a concatenation

  lemma AtRight(a: string, b: string, mark: string, k: nat)
    ensures At(a + b, mark, |a| + k) <==> At(b, mark, k)
  {
    if k + |mark| <= |b| {
      assert (a + b)[|a| + k..|a| + k + |mark|] == b[k..k + |mark|];
    }
  }

  /** A mark that starts before a separator character it does not hold ends before it. */
  lemma AtAcross(s: string, mark: string, k: nat, p: nat)
    requires At(s, mark, k) && k <= p < |s|
    requires p < k + |mark| ==> mark[p - k] != s[p]
    ensures k + |mark| <= p
  {
    AtChars(s, mark, k);
  }

  lemma AtChars(s: string, mark: string, k: nat)
    requires At(s, mark, k)
    ensures forall i :: k <= i < k + |mark| ==> s[i] == mark[i - k]
  {
    forall i | k <= i < k + |mark| ensures s[i] == mark[i - k] { assert s[i] == s[k..k + |mark|][i - k]; }
  }

  // ---------------------------------------------------------------- the port is always found

  /** A port match that begins left of "-Dserver.port=" ends left of it. */
  lemma LiteralStaysLeft(s: string, i: nat, k: nat)
    requires i < k < |s| && s[k] == '-' && PortLiteral(s, i) > 0
    ensures i + PortLiteral(s, i) <= k
    ensures DigitsEnd(s, i + PortLiteral(s, i)) <= k
  {
    hide DigitsEnd;
    var n := PortLiteral(s, i);
    var mark := if n == 14 then PORT_MARK else if n == 12 then "server.port=" else "port=";
    AtAcross(s, mark, i, k);
    assert !IsDigit('-');
  }

  lemma {:induction false} ScanReaches(s: string, port: int, i: nat, k: nat)
    requires i <= k < |s| && PortLiteral(s, k) == 14 && s[k] == '-' && PortNumber(s, k + 14) == port
    ensures MentionsPort(s, port, i)
    decreases k - i
  {
    hide PortLiteral, PortNumber, DigitsEnd;
    if i < k {
      if PortLiteral(s, i) > 0 {
        LiteralStaysLeft(s, i, k);
        ScanReaches(s, port, DigitsEnd(s, i + PortLiteral(s, i)), k);
      } else {
        ScanReaches(s, port, i + 1, k);
      }
    }
  }

  lemma PortAt(a: string, port: nat, b: string)
    requires b != "" && !IsDigit(b[0])
    ensures var s := a + PORT_MARK + Decimal(port) + b;
            |a| < |s| && s[|a|] == '-' && PortLiteral(s, |a|) == 14 && PortNumber(s, |a| + 14) == port
  {
    hide Decimal, DigitsEnd, ToInt;
    var d := Decimal(port);
    var s := a + PORT_MARK + d + b;
    assert s[|a|..|a| + 14] == PORT_MARK;
    assert s[|a|] == PORT_MARK[0];
    assert forall k :: 0 <= k < |d| ==> s[|a| + 14 + k] == d[k];
    assert s[|a| + 14 + |d|] == b[0];
    var e := DigitsEnd(s, |a| + 14);
    assert forall k :: |a| + 14 <= k < |a| + 14 + |d| ==> s[k] == d[k - |a| - 14] && IsDigit(s[k]);
    assert e == |a| + 14 + |d|;
    assert s[|a| + 14..e] == d;
    DecimalToInt(port);
  }

  /** Everything before the port option of the rendered text. */
  function BeforePort(f: Fields, name: string, jar: string): string
    requires f.port >= 0
  {
    Header(name) + "\ncommand=" + Join(CommandWords(f, jar)[..5], ' ') + " "
  }

  lemma JoinOne(s: string, sep: char)
    ensures Join([s], sep) == s
  {
  }

  lemma CommandText(f: Fields, jar: string)
    requires f.port >= 0
    ensures var w := CommandWords(f, jar);
            Join(w, ' ') == Join(w[..5], ' ') + " " + (PORT_MARK + Decimal(f.port) + " " + w[6])
  {
    hide Decimal, Join;
    var w := CommandWords(f, jar);
    JoinAppend(w[..5], w[5..], ' ');
    assert w[..5] + w[5..] == w;
    JoinAppend([w[5]], [w[6]], ' ');
    assert [w[5]] + [w[6]] == w[5..];
    JoinOne(w[5], ' ');
    JoinOne(w[6], ' ');
  }

  lemma ContentText(f: Fields, name: string, jar: string) returns (rest: string)
    requires f.port >= 0
    ensures Content(f, name, jar)
         == Header(name) + "\n" + ("command=" + Join(CommandWords(f, jar), ' ')) + "\n" + rest + "\n"
    ensures rest == Join(Ini.OptionLines(TemplatePairs(f, jar)[1..]), '\n')
  {
    hide Header, Join, CommandWords;
    var lines := Ini.OptionLines(TemplatePairs(f, jar));
    assert lines[1..] == Ini.OptionLines(TemplatePairs(f, jar)[1..]);
    rest := Join(lines[1..], '\n');
    JoinAppend([Header(name)], lines, '\n');
    JoinAppend([lines[0]], lines[1..], '\n');
    JoinOne(Header(name), '\n');
    JoinOne(lines[0], '\n');
    assert [lines[0]] + lines[1..] == lines;
    assert lines[0] == "command=" + Join(CommandWords(f, jar), ' ');
  }

  /** The rendered text around its port. */
  lemma ContentAroundPort(f: Fields, name: string, jar: string) returns (b: string)
    requires f.port >= 0
    ensures Content(f, name, jar) == BeforePort(f, name, jar) + PORT_MARK + Decimal(f.port) + b
    ensures b != "" && b[0] == ' '
    ensures b == " " + CommandWords(f, jar)[6] + "\n" + Join(Ini.OptionLines(TemplatePairs(f, jar)[1..]), '\n') + "\n"
  {
    hide TemplatePairs, Decimal, Header, Join, Content, CommandWords;
    var rest := ContentText(f, name, jar);
    CommandText(f, jar);
    var last := CommandWords(f, jar)[6];
    b := " " + last + "\n" + rest + "\n";
    Regroup(Header(name), Join(CommandWords(f, jar)[..5], ' '), PORT_MARK + Decimal(f.port), last, rest);
  }

  lemma Regroup(h: string, words: string, port: string, last: string, rest: string)
    ensures h + "\n" + ("command=" + (words + " " + (port + " " + last))) + "\n" + rest + "\n"
         == (h + "\ncommand=" + words + " ") + port + (" " + last + "\n" + rest + "\n")
  {
  }

  /** Whatever the free-text fields hold, the port scan finds the port of a rendered file. */
  lemma RenderedMentionsPort(f: Fields)
    requires RenderService(f).Ok?
    ensures Mentions(RenderService(f).value.content, f.port)
  {
    hide Content, ValidIni, NormalizeConfigName, EnsureSafeName, JarName, PortLiteral, PortNumber;
    var name := EnsureSafeName(f.name).value;
    var jar := JarName(f).value;
    var a := BeforePort(f, name, jar);
    var b := ContentAroundPort(f, name, jar);
    PortAt(a, f.port, b);
    ScanReaches(Content(f, name, jar), f.port, 0, |a|);
  }

  // ---------------------------------------------------------------- when every field is recovered

  predicate Plain(s: string) { s != "" && NoSpace(s) && NoChar(s, '=') && !Contains(s, ".jar") }

  predicate NoQuoting(s: string) { NoChar(s, '"') && NoChar(s, '\'') && NoChar(s, '\\') }

  /** The free text is free of blanks, "=", ".jar" and of the option markers that come after it; the Java
      path is also free of quoting. The names are what request validation leaves. */
  predicate Readable(f: Fields) {
    && f.job != "" && AllSafe(f.job) && f.moduleName != "" && AllSafe(f.moduleName)
    && Plain(f.javaPath) && Plain(f.xms) && Plain(f.xmx) && Plain(f.active)
    && NoQuoting(f.javaPath)
    && !Contains(f.javaPath, "-Xms") && !Contains(f.javaPath, "-Xmx") && !Contains(f.javaPath, PROFILE_MARK)
    && !Contains(f.xms, "-Xmx") && !Contains(f.xms, PROFILE_MARK)
    && !Contains(f.xmx, PROFILE_MARK)
    && Ini.TrimmedValue(f.user) && NoBreak(f.user)
  }

  predicate NoBreak(s: string) { forall i :: 0 <= i < |s| ==> !DuplicateKeys.IsLineBreak(s[i]) }

  lemma BreakIsSpace(c: char)
    ensures DuplicateKeys.IsLineBreak(c) ==> IsSpace(c)
    ensures IsSafeChar(c) || c == '=' || c == '[' || c == ']' || c == ':' || c == '/' || c == ' ' ==>
              !DuplicateKeys.IsLineBreak(c)
  {
  }

  // ---------------------------------------------------------------- marks and words

  /** Inside the fixed prefix `p` no occurrence of `mark` can begin, whatever follows. */
  predicate Clear(p: string, mark: string, d: nat) {
    d < |mark| && forall k :: 0 <= k < |p| && p[k] == mark[0] ==> k + d < |p| && p[k + d] != mark[d]
  }

  lemma PrefixClear(p: string, x: string, mark: string, d: nat)
    requires Clear(p, mark, d) && !Contains(x, mark)
    ensures !Contains(p + x, mark)
  {
    var s := p + x;
    forall k | 0 <= k <= |s| ensures !At(s, mark, k) {
      if At(s, mark, k) {
        AtChars(s, mark, k);
        assert s[k] == mark[0] && s[k + d] == mark[d];
        if k >= |p| { AtRight(p, x, mark, k - |p|); }
      }
    }
  }

  /** Words joined by blanks hold a blank-free mark only if one of the words does. */
  lemma {:induction false} NoMarkInWords(words: seq<string>, mark: string)
    requires mark != "" && NoChar(mark, ' ')
    requires forall i :: 0 <= i < |words| ==> !Contains(words[i], mark)
    ensures !Contains(Join(words, ' ') + " ", mark)
  {
    var s := Join(words, ' ') + " ";
    var head := if words == [] then "" else words[0];
    forall k | 0 <= k <= |s| ensures !At(s, mark, k) {
      if At(s, mark, k) {
        assert s[|head|] == ' ' && s == head + s[|head|..];
        if k <= |head| {
          AtAcross(s, mark, k, |head|);
          assert k + |mark| <= |head|;
          AtLeft(head, s[|head|..], mark, k);
        } else if |words| > 1 {
          var tail := Join(words[1..], ' ') + " ";
          NoMarkInWords(words[1..], mark);
          assert s == (head + " ") + tail;
          AtRight(head + " ", tail, mark, k - |head| - 1);
        }
      }
    }
  }

  /** In `a + b`, with `a` ending in a blank and free of the mark, the first match is at or after `b`. */
  lemma NoMarkBefore(a: string, b: string, mark: string, k: nat)
    requires mark != "" && NoChar(mark, ' ') && !Contains(a + " ", mark) && k <= |a|
    ensures !At(a + " " + b, mark, k)
  {
    var s := a + " " + b;
    if At(s, mark, k) {
      assert s[|a|] == ' ';
      AtAcross(s, mark, k, |a|);
      assert s == (a + " ") + b;
      AtLeft(a + " ", b, mark, k);
    }
  }

  lemma {:induction false} SkipToMark(s: string, mark: string, i: nat, k: nat)
    requires i <= k <= |s| && forall j :: i <= j < k ==> !At(s, mark, j)
    ensures ExtractMark(s, mark, i) == ExtractMark(s, mark, k)
    decreases k - i
  {
    if i < k {
      SkipToMark(s, mark, i + 1, k);
    }
  }

  lemma WordEndIs(s: string, i: nat, e: nat)
    requires i <= e <= |s| && (forall k :: i <= k < e ==> !IsSpace(s[k])) && (e == |s| || IsSpace(s[e]))
    ensures WordEnd(s, i) == e
  {
    hide WordEnd, IsSpace;
  }

  /** The value of the word `mark + value` that follows words without the mark. */
  lemma ExtractFromWords(before: seq<string>, mark: string, value: string, after: string)
    requires mark != "" && NoChar(mark, ' ') && value != "" && NoSpace(value)
    requires forall i :: 0 <= i < |before| ==> !Contains(before[i], mark)
    ensures ExtractMark(Join(before, ' ') + " " + (mark + value + " " + after), mark, 0) == Some(value)
  {
    hide Contains, ExtractMark, IsSpace, Join, NoSpace, At;
    var a := Join(before, ' ');
    NoMarkInWords(before, mark);
    ExtractAfter(a, mark, value, " " + after);
    assert mark + value + " " + after == mark + value + (" " + after);
  }

  lemma ExtractAfter(a: string, mark: string, value: string, rest: string)
    requires mark != "" && NoChar(mark, ' ') && value != "" && NoSpace(value) && !Contains(a + " ", mark)
    requires rest != "" && rest[0] == ' '
    ensures ExtractMark(a + " " + (mark + value + rest), mark, 0) == Some(value)
  {
    hide Contains, ExtractMark, IsSpace, At, NoSpace, NoChar;
    var b := mark + value + rest;
    var s := a + " " + b;
    var k := |a| + 1;
    forall j | 0 <= j < k ensures !At(s, mark, j) { NoMarkBefore(a, b, mark, j); }
    SkipToMark(s, mark, 0, k);
    BlankIsSpace();
    ExtractHere(s, mark, k, a + " ", value, rest);
  }

  lemma ExtractHere(s: string, mark: string, k: nat, a: string, value: string, rest: string)
    requires mark != "" && value != "" && NoSpace(value) && rest != "" && IsSpace(rest[0])
    requires k == |a| && s == a + (mark + value + rest)
    ensures ExtractMark(s, mark, k) == Some(value)
  {
    hide IsSpace, WordEnd;
    assert s[k..k + |mark|] == mark;
    var i := k + |mark|;
    assert forall j :: 0 <= j < |value| ==> s[i + j] == value[j];
    assert s[i + |value|] == rest[0];
    assert forall j :: i <= j < i + |value| ==> !IsSpace(s[j]) by {
      forall j | i <= j < i + |value| ensures !IsSpace(s[j]) { assert s[j] == value[j - i]; }
    }
    WordEndIs(s, i, i + |value|);
    assert s[i..i + |value|] == value;
  }

  // ---------------------------------------------------------------- the jar path

  lemma {:induction false} SkipToJar(s: string, i: nat, k: nat)
    requires i <= k <= |s| && k > 0 && s[k - 1] == ' ' && !Contains(s[..k], ".jar")
    ensures ExtractJar(s, i) == ExtractJar(s, k)
    decreases k - i
  {
    hide WordEnd, LastJar, IsSpace;
    if i < k {
      var e := WordEnd(s, i);
      assert e < k by { assert IsSpace(' ') by { BlankIsSpace(); } }
      if i + 2 <= e {
        var r := LastJar(s, i + 2, e, e);
        if r < e { JarInPrefix(s, k, r); }
      }
      SkipToJar(s, i + 1, k);
    }
  }

  lemma JarInPrefix(s: string, k: nat, r: nat)
    requires k <= |s| && r + 4 <= k && At(s, ".jar", r)
    ensures Contains(s[..k], ".jar")
  {
    assert s[..k][r..r + 4] == s[r..r + 4];
    assert At(s[..k], ".jar", r);
  }

  lemma BlankIsSpace()
    ensures IsSpace(' ')
  {
  }

  /** The jar path is the last word, from its leading slash to its end. */
  lemma ExtractJarAtEnd(a: string, path: string)
    requires !Contains(a + " ", ".jar")
    requires |path| >= 6 && path[0] == '/' && NoSpace(path) && EndsWith(path, ".jar")
    ensures ExtractJar(a + " " + path, 0) == Some(path)
  {
    hide Contains, ExtractJar, IsSpace;
    var s := a + " " + path;
    var k := |a| + 1;
    assert s[..k] == a + " ";
    SkipToJar(s, 0, k);
    assert s[k..] == path;
    ExtractJarHere(s, k);
  }

  lemma ExtractJarHere(s: string, k: nat)
    requires k <= |s| && var path := s[k..]; |path| >= 6 && path[0] == '/' && NoSpace(path) && EndsWith(path, ".jar")
    ensures ExtractJar(s, k) == Some(s[k..])
  {
    hide WordEnd, IsSpace, LastJar;
    var e := |s|;
    assert forall j :: k <= j < e ==> s[j] == s[k..][j - k];
    WordEndIs(s, k, e);
    assert s[e - 4..e] == s[k..][e - k - 4..];
    assert At(s, ".jar", e - 4);
    assert LastJar(s, k + 2, e, e) == e - 4;
    assert s[k] == '/' && s[k..e] == s[k..];
  }
}
