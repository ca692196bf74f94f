/** The port scan of app/services/port_check_service.py on a rendered text: it finds the port of the request and,
    when the free text holds no "=", no other. */
module OnlyPort {
  import opened Text
  import opened Template
  import opened RoundTrip
  import opened ParseBack
  import Ini

  /** No "=" of the text, looking back within the text, ends "port=". */
  predicate Portless(a: string) {
    forall k :: 0 <= k < |a| && a[k] == '=' ==> k >= 3 && (a[k - 1] != 't' || a[k - 3] != 'o')
  }

  lemma PortlessAppend(a: string, b: string)
    requires Portless(a) && Portless(b)
    ensures Portless(a + b)
  {
    forall k | 0 <= k < |a + b| && (a + b)[k] == '='
      ensures k >= 3 && ((a + b)[k - 1] != 't' || (a + b)[k - 3] != 'o')
    {
      if k >= |a| { assert b[k - |a|] == '='; } else { assert a[k] == '='; }
    }
  }

  lemma {:induction false} PortlessJoin(lines: seq<string>)
    requires forall i :: 0 <= i < |lines| ==> Portless(lines[i])
    ensures Portless(Join(lines, '\n'))
  {
    hide Portless;
    if |lines| > 1 {
      PortlessJoin(lines[1..]);
      assert Portless(['\n']) by { Newline(); }
      PortlessAppend(lines[0], ['\n']);
      PortlessAppend(lines[0] + ['\n'], Join(lines[1..], '\n'));
    } else if |lines| == 0 {
      Newline();
    }
  }

  lemma Newline()
    ensures Portless(['\n']) && Portless("") && Portless(" ") && Portless("\n")
  {
  }

  /** An option line whose key does not end "ort" and whose value has no "=". */
  lemma PortlessLine(key: string, value: string)
    requires |key| >= 3 && NoChar(key, '=') && NoChar(value, '=') && (key[|key| - 1] != 't' || key[|key| - 3] != 'o')
    ensures Portless(key + "=" + value)
  {
    var line := key + "=" + value;
    assert forall k :: 0 <= k < |line| && line[k] == '=' ==> k == |key|;
  }

  lemma NoEquals(a: string)
    requires NoChar(a, '=')
    ensures Portless(a)
  {
  }

  predicate PortlessPair(p: (string, string)) {
    |p.0| >= 3 && NoChar(p.0, '=') && NoChar(p.1, '=') && (p.0[|p.0| - 1] != 't' || p.0[|p.0| - 3] != 'o')
  }

  lemma FixedPairs()
    ensures PortlessPair(("autostart", "true")) && PortlessPair(("startsecs", "10")) && PortlessPair(("autorestart", "true"))
    ensures PortlessPair(("startretries", "3")) && PortlessPair(("priority", "999")) && PortlessPair(("redirect_stderr", "true"))
  {
  }

  lemma MoreFixedPairs()
    ensures PortlessPair(("stdout_logfile_maxbytes", "1GB")) && PortlessPair(("stdout_logfile_backups", "1"))
    ensures PortlessPair(("stopasgroup", "false")) && PortlessPair(("killasgroup", "false"))
  {
  }

  lemma FreePairs(f: Fields)
    requires NoChar(f.job, '=') && NoChar(f.moduleName, '=') && NoChar(f.user, '=')
    ensures PortlessPair(("directory", DirectoryValue(f))) && PortlessPair(("user", f.user)) && PortlessPair(("stdout_logfile", LogFile(f)))
  {
  }

  lemma PortlessPairs(f: Fields, jar: string)
    requires f.port >= 0 && NoChar(f.job, '=') && NoChar(f.moduleName, '=') && NoChar(f.user, '=')
    ensures forall i :: 1 <= i < 14 ==> PortlessPair(TemplatePairs(f, jar)[i])
  {
    hide PortlessPair, CommandWords, Join;
    FixedPairs();
    MoreFixedPairs();
    FreePairs(f);
  }

  /** Everything after the port option. */
  lemma PortlessTail(f: Fields, jar: string)
    requires f.port >= 0 && Readable(f) && SafeJar(jar) && NoChar(f.user, '=')
    ensures Portless(" " + CommandWords(f, jar)[6] + "\n" + Join(Ini.OptionLines(TemplatePairs(f, jar)[1..]), '\n') + "\n")
  {
    hide Portless, PortlessPair, Contains, AllSafe, TemplatePairs, Join, Plain, Decimal;
    SafeText(f.job);
    SafeText(f.moduleName);
    SafeText(jar);
    var pairs := TemplatePairs(f, jar);
    assert |pairs| == 14 by { FourPairs(f, jar); }
    var lines := Ini.OptionLines(pairs[1..]);
    PortlessPairs(f, jar);
    forall i | 0 <= i < |lines| ensures Portless(lines[i]) {
      assert PortlessPair(pairs[i + 1]) && lines[i] == Ini.OptionLine(pairs[1..][i]);
      LineOfPair(pairs[i + 1]);
    }
    PortlessJoin(lines);
    Newline();
    LastWord(f, jar);
    PortlessAppend(" ", CommandWords(f, jar)[6]);
    PortlessAppend(" " + CommandWords(f, jar)[6], "\n");
    PortlessAppend(" " + CommandWords(f, jar)[6] + "\n", Join(lines, '\n'));
    PortlessAppend(" " + CommandWords(f, jar)[6] + "\n" + Join(lines, '\n'), "\n");
  }

  lemma LineOfPair(p: (string, string))
    requires PortlessPair(p)
    ensures Portless(Ini.OptionLine(p))
  {
    hide Portless;
    PortlessLine(p.0, p.1);
  }

  lemma LastWord(f: Fields, jar: string)
    requires f.port >= 0 && NoChar(f.job, '=') && NoChar(f.moduleName, '=') && NoChar(jar, '=')
    ensures Portless(CommandWords(f, jar)[6])
  {
    hide Decimal, Portless;
    NoEquals(CommandWords(f, jar)[6]);
  }

  /** No port match begins in a portless rest of a text. */
  lemma NoLatePort(s: string, e: nat, i: nat)
    requires e <= i < |s| && Portless(s[e..])
    ensures PortLiteral(s, i) == 0
  {
    hide PortLiteral, Portless;
    LiteralShape(s, i);
    if PortLiteral(s, i) > 0 { NotPortless(s, e, i + PortLiteral(s, i) - 1); }
  }

  lemma LiteralShape(s: string, i: nat)
    requires i <= |s|
    ensures var n := PortLiteral(s, i);
            n > 0 ==> n >= 5 && i + n < |s| && s[i + n - 1] == '=' && s[i + n - 2] == 't' && s[i + n - 4] == 'o'
  {
    hide DigitsEnd;
    var n := PortLiteral(s, i);
    if n > 0 {
      var mark := if n == 14 then PORT_MARK else if n == 12 then "server.port=" else "port=";
      AtChars(s, mark, i);
    }
  }

  lemma NotPortless(s: string, e: nat, k: nat)
    requires e + 3 <= k < |s| && s[k] == '=' && s[k - 1] == 't' && s[k - 3] == 'o'
    ensures !Portless(s[e..])
  {
    var a := s[e..];
    assert a[k - e] == '=' && a[k - e - 1] == 't' && a[k - e - 3] == 'o';
  }

  lemma {:induction false} NothingAfter(s: string, port: int, i: nat)
    requires i <= |s| && forall j :: i <= j < |s| ==> PortLiteral(s, j) == 0
    ensures !MentionsPort(s, port, i)
    decreases |s| - i
  {
    hide PortLiteral, PortNumber;
    if i < |s| { NothingAfter(s, port, i + 1); }
  }

  lemma {:induction false} SkipMentions(s: string, port: int, i: nat, k: nat)
    requires i <= k < |s| && forall j :: i <= j < k ==> PortLiteral(s, j) == 0
    ensures MentionsPort(s, port, i) == MentionsPort(s, port, k)
    decreases k - i
  {
    hide PortLiteral, PortNumber;
    if i < k { SkipMentions(s, port, i + 1, k); }
  }

  /** A text with one port option between a part without port match and a portless rest. */
  lemma OneMention(a: string, n: nat, b: string, port: int)
    requires b != "" && b[0] == ' ' && Portless(b)
    requires var s := a + PORT_MARK + Decimal(n) + b; forall i :: 0 <= i < |a| ==> PortLiteral(s, i) == 0
    ensures Mentions(a + PORT_MARK + Decimal(n) + b, port) <==> port == n
  {
    hide PortLiteral, PortNumber, Decimal, Portless, MentionsPort;
    var d := Decimal(n);
    var s := a + PORT_MARK + d + b;
    PortAt(a, n, b);
    SkipMentions(s, port, 0, |a|);
    var e := |a| + 14 + |d|;
    assert s[e..] == b;
    assert DigitsEnd(s, |a| + 14) == e by { DigitsUpTo(s, |a| + 14, e, d); }
    forall j | e <= j < |s| ensures PortLiteral(s, j) == 0 { NoLatePort(s, e, j); }
    NothingAfter(s, port, e);
    MentionHere(s, port, |a|);
  }

  lemma DigitsUpTo(s: string, i: nat, e: nat, d: string)
    requires i <= e < |s| && s[i..e] == d && !IsDigit(s[e]) && forall k :: 0 <= k < |d| ==> IsDigit(d[k])
    ensures DigitsEnd(s, i) == e
  {
    hide DigitsEnd;
    assert forall k :: i <= k < e ==> s[k] == d[k - i];
  }

  lemma MentionHere(s: string, port: int, i: nat)
    requires i < |s| && PortLiteral(s, i) > 0
    ensures var start := i + PortLiteral(s, i);
            MentionsPort(s, port, i) == (PortNumber(s, start) == port || MentionsPort(s, port, DigitsEnd(s, start)))
  {
    hide PortLiteral, PortNumber, DigitsEnd;
  }

  /** The scan finds exactly the rendered port. */
  lemma OnlyRenderedPort(f: Fields, name: string, jar: string, port: int)
    requires f.port >= 0 && Readable(f) && SafeJar(jar) && AllSafe(name) && NoChar(f.user, '=')
    ensures Mentions(Content(f, name, jar), port) <==> port == f.port
  {
    hide Content, Decimal, PortLiteral, Contains, Readable, Mentions, CommandWords, TemplatePairs, Join, Portless, SafeJar;
    var a := BeforePort(f, name, jar);
    var b := ContentAroundPort(f, name, jar);
    var s := Content(f, name, jar);
    NoPortMark(f, name, jar);
    PortlessTail(f, jar);
    assert s[|a|] == '-' && a == s[..|a|];
    forall i | 0 <= i < |a| ensures PortLiteral(s, i) == 0 { NoEarlyPort(a, s, i); }
    OneMention(a, f.port, b, port);
  }
}
