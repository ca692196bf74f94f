/** Python string operations the services rely on, and the laws about them that the other modules use. */
module Text {

  datatype Option<+T> = None | Some(value: T)

  /** The exception classes of app/core/exceptions.py that the modelled code raises. */
  datatype Error =
    | ParamError
    | InvalidConfigName
    | InvalidHost
    | ConfigNotFound
    | ConfigAlreadyExists
    | PortConflict
    | ArchiveState
    | FileOperation
    | RemoteCommand
    | SupervisorCommand
    | Database
    | Unexpected

  /** The error comes from a call that failed, not from a check. */
  predicate Fault(e: Error) { e.FileOperation? || e.Database? || e.RemoteCommand? || e.SupervisorCommand? }

  datatype Result<+T> = Ok(value: T) | Err(error: Error) {
    predicate IsFailure() { Err? }
    function PropagateFailure<U>(): Result<U>
      requires Err?
    {
      Err(error)
    }
    function Extract(): T
      requires Ok?
    {
      value
    }
  }

  /** `str.isspace` of one character; `\s` of the `re` module is the same set. */
  predicate IsSpace(c: char) {
    var n := c as int;
    9 <= n <= 13 || 28 <= n <= 32 || n == 0x85 || n == 0xA0 || n == 0x1680 || 0x2000 <= n <= 0x200A
    || n == 0x2028 || n == 0x2029 || n == 0x202F || n == 0x205F || n == 0x3000
  }

  /** `[a-zA-Z0-9_.-]` */
  predicate IsSafeChar(c: char) {
    'a' <= c <= 'z' || 'A' <= c <= 'Z' || '0' <= c <= '9' || c == '_' || c == '.' || c == '-'
  }

  lemma SafeIsNotSpace(c: char)
    ensures IsSafeChar(c) ==> !IsSpace(c)
  {
  }

  predicate IsDigit(c: char) { '0' <= c <= '9' }

  predicate AllSafe(s: string) { forall i :: 0 <= i < |s| ==> IsSafeChar(s[i]) }

  predicate NoSpace(s: string) { forall i :: 0 <= i < |s| ==> !IsSpace(s[i]) }

  predicate NoChar(s: string, c: char) { forall i :: 0 <= i < |s| ==> s[i] != c }

  predicate EndsWith(s: string, tail: string) { |tail| <= |s| && s[|s| - |tail|..] == tail }

  /** `mark` occurs in `s` at position `k`. */
  predicate At(s: string, mark: string, k: nat) { k + |mark| <= |s| && s[k..k + |mark|] == mark }

  lemma AtLeft(a: string, b: string, mark: string, k: nat)
    requires k + |mark| <= |a|
    ensures At(a + b, mark, k) <==> At(a, mark, k)
  {
    assert (a + b)[k..k + |mark|] == a[k..k + |mark|];
  }

  /** `mark in s` for strings */
  predicate Contains(s: string, mark: string) { exists k :: 0 <= k <= |s| && At(s, mark, k) }

  /** First position from `i` on where `mark` occurs, |s| when there is none. */
  function Find(s: string, mark: string, i: nat): (r: nat)
    requires i <= |s| && mark != ""
    ensures i <= r <= |s|
    ensures r < |s| ==> At(s, mark, r)
    ensures forall k :: i <= k < r ==> !At(s, mark, k)
    decreases |s| - i
  {
    if i == |s| || At(s, mark, i) then i else Find(s, mark, i + 1)
  }

  /** First position from `i` on that does not hold whitespace. */
  function SkipSpaces(s: string, i: nat): (r: nat)
    requires i <= |s|
    ensures i <= r <= |s|
    ensures forall k :: i <= k < r ==> IsSpace(s[k])
    ensures r < |s| ==> !IsSpace(s[r])
    decreases |s| - i
  {
    if i < |s| && IsSpace(s[i]) then SkipSpaces(s, i + 1) else i
  }

  /** End of `s[lo..hi]` once its trailing whitespace is dropped. */
  function SkipBack(s: string, lo: nat, hi: nat): (r: nat)
    requires lo <= hi <= |s|
    ensures lo <= r <= hi
    ensures forall k :: r <= k < hi ==> IsSpace(s[k])
    ensures lo < r ==> !IsSpace(s[r - 1])
    decreases hi
  {
    if lo < hi && IsSpace(s[hi - 1]) then SkipBack(s, lo, hi - 1) else hi
  }

  function TrimLeft(s: string): string { s[SkipSpaces(s, 0)..] }

  function TrimRight(s: string): string { s[..SkipBack(s, 0, |s|)] }

  /** `str.strip()` */
  function Strip(s: string): (r: string)
    ensures r != "" ==> !IsSpace(r[0]) && !IsSpace(r[|r| - 1])
    ensures |r| <= |s|
  {
    var a := SkipSpaces(s, 0);
    s[a..SkipBack(s, a, |s|)]
  }

  lemma StripFixed(s: string)
    requires s != "" ==> !IsSpace(s[0]) && !IsSpace(s[|s| - 1])
    ensures Strip(s) == s
  {
    hide SkipSpaces, SkipBack, IsSpace;
  }

  lemma StripIsEmpty(s: string)
    ensures Strip(s) == "" <==> forall i :: 0 <= i < |s| ==> IsSpace(s[i])
  {
    hide SkipSpaces, SkipBack, IsSpace;
  }

  /** Joins with a one-character separator: `sep.join(parts)`. */
  function Join(parts: seq<string>, sep: char): string {
    if |parts| == 0 then ""
    else if |parts| == 1 then parts[0]
    else parts[0] + [sep] + Join(parts[1..], sep)
  }

  /** `s.split(sep)` for a one-character separator. */
  function Split(s: string, sep: char): (r: seq<string>)
    ensures |r| >= 1
    ensures forall i :: 0 <= i < |r| ==> NoChar(r[i], sep)
  {
    if s == "" then [""]
    else if s[0] == sep then [""] + Split(s[1..], sep)
    else
      var rest := Split(s[1..], sep);
      [[s[0]] + rest[0]] + rest[1..]
  }

  lemma {:induction false} SplitHead(a: string, b: string, sep: char)
    requires NoChar(a, sep)
    ensures Split(a, sep) == [a]
    ensures Split(a + [sep] + b, sep) == [a] + Split(b, sep)
  {
    if a == "" {
      assert "" + [sep] + b == [sep] + b;
      assert ([sep] + b)[1..] == b;
    } else {
      SplitHead(a[1..], b, sep);
      var s := a + [sep] + b;
      assert s[1..] == a[1..] + [sep] + b;
      assert [a[0]] + a[1..] == a;
    }
  }

  /** Splitting undoes joining when no part holds the separator. */
  lemma {:induction false} SplitJoin(parts: seq<string>, sep: char)
    requires |parts| >= 1
    requires forall i :: 0 <= i < |parts| ==> NoChar(parts[i], sep)
    ensures Split(Join(parts, sep), sep) == parts
  {
    if |parts| == 1 {
      SplitHead(parts[0], "", sep);
    } else {
      SplitHead(parts[0], Join(parts[1..], sep), sep);
      SplitJoin(parts[1..], sep);
    }
  }

  /** Joining undoes splitting. */
  lemma {:induction false} JoinSplit(s: string, sep: char)
    ensures Join(Split(s, sep), sep) == s
  {
    if s == "" {
    } else {
      JoinSplit(s[1..], sep);
      var rest := Split(s[1..], sep);
      if s[0] == sep {
        assert ([""] + rest)[1..] == rest;
        assert s == "" + [sep] + s[1..];
      } else if |rest| == 1 {
        assert s == [s[0]] + s[1..];
      } else {
        var whole := [[s[0]] + rest[0]] + rest[1..];
        assert whole[1..] == rest[1..];
        assert s == [s[0]] + s[1..];
      }
    }
  }

  /** Joining two lists is joining their joins. */
  lemma {:induction false} JoinAppend(a: seq<string>, b: seq<string>, sep: char)
    requires |a| >= 1 && |b| >= 1
    ensures Join(a + b, sep) == Join(a, sep) + [sep] + Join(b, sep)
  {
    assert (a + b)[1..] == a[1..] + b;
    if |a| > 1 {
      JoinAppend(a[1..], b, sep);
    } else {
      assert (a + b)[1..] == b;
    }
  }

  lemma NoContains(s: string, mark: string, c: char)
    requires c in mark && NoChar(s, c)
    ensures !Contains(s, mark)
  {
  }

  /** `str(n)` */
  function Decimal(n: nat): (s: string)
    ensures s != ""
    ensures forall i :: 0 <= i < |s| ==> IsDigit(s[i])
  {
    if n < 10 then [('0' as int + n) as char] else Decimal(n / 10) + [('0' as int + n % 10) as char]
  }

  /** `int(s)` of a string of digits. */
  function ToInt(s: string): nat
    requires forall i :: 0 <= i < |s| ==> IsDigit(s[i])
  {
    if s == "" then 0
    else
      var d := s[|s| - 1];
      assert IsDigit(d);
      10 * ToInt(s[..|s| - 1]) + (d as int - '0' as int)
  }

  lemma {:induction false} DecimalToInt(n: nat)
    ensures ToInt(Decimal(n)) == n
  {
    if n < 10 {
      assert Decimal(n)[..0] == "";
    } else {
      DecimalToInt(n / 10);
      var s := Decimal(n);
      assert s[..|s| - 1] == Decimal(n / 10);
    }
  }
}
