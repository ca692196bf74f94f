/** What the two port searches find, told on the text: a port is a number that stands right after "port=". */
module PortText {
  import opened Text
  import opened Template
  import RoundTrip

  /** A number follows "port=" at this position. */
  predicate PortHere(s: string, k: nat) { k + 5 < |s| && s[k..k + 5] == "port=" && IsDigit(s[k + 5]) }

  lemma MarkEnds(s: string, mark: string, i: nat)
    requires |mark| >= 5 && mark[|mark| - 5..] == "port=" && NoChar(mark[..|mark| - 1], '=')
    requires At(s, mark, i) && i + |mark| < |s| && IsDigit(s[i + |mark|])
    ensures PortHere(s, i + |mark| - 5) && forall j :: i <= j < i + |mark| - 1 ==> s[j] != '='
  {
    RoundTrip.AtChars(s, mark, i);
    assert s[i + |mark| - 5..i + |mark|] == mark[|mark| - 5..];
    assert forall j :: i <= j < i + |mark| - 1 ==> s[j] == mark[j - i] == mark[..|mark| - 1][j - i];
  }

  /** Every literal of the pattern ends in "port=", and nothing before that holds a "=". */
  lemma LiteralEnds(s: string, i: nat)
    requires i <= |s|
    ensures var n := PortLiteral(s, i);
            n > 0 ==> n >= 5 && i + n < |s| && IsDigit(s[i + n]) && PortHere(s, i + n - 5)
                      && forall j :: i <= j < i + n - 1 ==> s[j] != '='
  {
    hide PortHere, IsDigit, At, NoChar;
    var n := PortLiteral(s, i);
    if n > 0 {
      var mark := if n == |PORT_MARK| then PORT_MARK else if n == 12 then "server.port=" else "port=";
      assert mark[|mark| - 5..] == "port=" && NoChar(mark[..|mark| - 1], '=') by { LiteralShapes(); }
      MarkEnds(s, mark, i);
    }
  }

  lemma LiteralShapes()
    ensures PORT_MARK[|PORT_MARK| - 5..] == "server.port="[7..] == "port="[0..] == "port="
    ensures NoChar(PORT_MARK[..|PORT_MARK| - 1], '=') && NoChar("server.port="[..11], '=') && NoChar("port="[..4], '=')
  {
    assert PORT_MARK[..|PORT_MARK| - 1] == "-Dserver.port" && "server.port="[..11] == "server.port" && "port="[..4] == "port";
    assert NoChar("-Dserver.port", '=') && NoChar("server.port", '=') && NoChar("port", '=');
  }

  lemma HereChars(s: string, k: nat)
    requires PortHere(s, k)
    ensures s[k] == 'p' && s[k + 1] == 'o' && s[k + 2] == 'r' && s[k + 3] == 't' && s[k + 4] == '=' && PortLiteral(s, k) > 0
  {
    var w := s[k..k + 5];
    assert w[0] == s[k] && w[1] == s[k + 1] && w[2] == s[k + 2] && w[3] == s[k + 3] && w[4] == s[k + 4];
    assert PortLiteral(s, k) > 0 by { HereMatches(s, k); }
  }

  lemma HereMatches(s: string, k: nat)
    requires PortHere(s, k)
    ensures PortLiteral(s, k) > 0
  {
    hide IsDigit;
    assert |"port="| == 5;
    assert At(s, "port=", k);
  }

  /** A match that begins at or before a port text ends with it or before it. */
  lemma EndsBeforeOrWith(s: string, i: nat, k: nat)
    requires i <= k && PortHere(s, k) && PortLiteral(s, i) > 0
    ensures var n := PortLiteral(s, i); i + n == k + 5 || (i + n <= k && DigitsEnd(s, i + n) <= k)
  {
    hide DigitsEnd, PortLiteral;
    LiteralEnds(s, i);
    HereChars(s, k);
    var n := PortLiteral(s, i);
    HereChars(s, i + n - 5);
    assert s[i + n - 1] == '=';
    assert !IsDigit('p');
  }

  lemma {:induction false} ScanFinds(s: string, port: int, i: nat, k: nat)
    requires i <= k && PortHere(s, k) && PortNumber(s, k + 5) == port
    ensures MentionsPort(s, port, i)
    decreases k - i
  {
    hide PortLiteral, PortNumber, DigitsEnd, PortHere;
    HereChars(s, k);
    assert k + 5 < |s| by { InRange(s, k); }
    if PortLiteral(s, i) > 0 {
      EndsBeforeOrWith(s, i, k);
      var start := i + PortLiteral(s, i);
      if start != k + 5 { ScanFinds(s, port, DigitsEnd(s, start), k); }
    } else {
      assert i < k;
      ScanFinds(s, port, i + 1, k);
    }
  }

  lemma InRange(s: string, k: nat)
    requires PortHere(s, k)
    ensures k + 5 < |s|
  {
  }

  lemma {:induction false} FoundIsThere(s: string, port: int, i: nat) returns (k: nat)
    requires i <= |s| && MentionsPort(s, port, i)
    ensures PortHere(s, k) && PortNumber(s, k + 5) == port
    decreases |s| - i
  {
    hide PortLiteral, PortNumber, DigitsEnd, PortHere;
    LiteralEnds(s, i);
    if PortLiteral(s, i) > 0 {
      var start := i + PortLiteral(s, i);
      if PortNumber(s, start) == port { k := start - 5; } else { k := FoundIsThere(s, port, DigitsEnd(s, start)); }
    } else {
      k := FoundIsThere(s, port, i + 1);
    }
  }

  predicate NumberAt(s: string, k: nat, port: int) { PortHere(s, k) && PortNumber(s, k + 5) == port }

  /** The scan test: a file mentions a port exactly if somewhere the port's number follows "port=". */
  lemma MentionsIff(s: string, port: int)
    ensures Mentions(s, port) <==> exists k: nat :: NumberAt(s, k, port)
  {
    hide PortNumber, PortHere, MentionsPort;
    if Mentions(s, port) {
      var k := FoundIsThere(s, port, 0);
      InRange(s, k);
      assert NumberAt(s, k, port);
    }
    if exists k: nat :: NumberAt(s, k, port) {
      var k: nat :| NumberAt(s, k, port);
      ScanFinds(s, port, 0, k);
    }
  }

  /** The parser takes the first of them. */
  lemma {:induction false} ExtractIsFirst(s: string, i: nat, k: nat)
    requires i <= k && PortHere(s, k) && forall j :: i <= j < k ==> !PortHere(s, j)
    ensures ExtractPort(s, i) == Some(PortNumber(s, k + 5))
    decreases k - i
  {
    hide PortLiteral, PortNumber, PortHere, DigitsEnd;
    HereChars(s, k);
    InRange(s, k);
    LiteralEnds(s, i);
    if PortLiteral(s, i) > 0 {
      EndsBeforeOrWith(s, i, k);
    } else {
      ExtractIsFirst(s, i + 1, k);
    }
  }

  /** And finds none when there is none. */
  lemma {:induction false} ExtractNothing(s: string, i: nat)
    requires i <= |s| && forall j :: i <= j ==> !PortHere(s, j)
    ensures ExtractPort(s, i) == None
    decreases |s| - i
  {
    hide PortLiteral, PortNumber, PortHere;
    LiteralEnds(s, i);
    if i < |s| { ExtractNothing(s, i + 1); }
  }

  lemma DigitsSpelled(s: string, k: nat, d: string)
    requires k + |d| <= |s| && s[k..k + |d|] == d && forall i :: 0 <= i < |d| ==> IsDigit(d[i])
    requires k + |d| == |s| || !IsDigit(s[k + |d|])
    ensures PortNumber(s, k) == ToInt(d)
  {
    hide DigitsEnd, ToInt, IsDigit;
    var e := DigitsEnd(s, k);
    assert forall i :: k <= i < k + |d| ==> s[i] == d[i - k] && IsDigit(s[i]);
    assert e == k + |d|;
  }

  /** The number after "port=" is the one its digits spell. */
  lemma NumberSpelled(a: string, port: nat, b: string)
    requires b == "" || !IsDigit(b[0])
    ensures PortNumber(a + "port=" + Decimal(port) + b, |a| + 5) == port && PortHere(a + "port=" + Decimal(port) + b, |a|)
  {
    hide Decimal, PortNumber, ToInt, IsDigit;
    var d := Decimal(port);
    var head := a + "port=";
    var s := head + d + b;
    assert s[|a|..|a| + 5] == head[|a|..] == "port=";
    assert s[|head|..|head| + |d|] == d && s[|head|] == d[0];
    assert b != "" ==> s[|head| + |d|] == b[0];
    DigitsSpelled(s, |head|, d);
    DecimalToInt(port);
  }
}
