/** The string operations the gateway's message code is built from: the ones of
    Go's `strings` and `strconv` packages, on ASCII text. */
module Text {

  datatype Option<+T> = None | Some(value: T)

  const CRLF: string := "\r\n"

  predicate IsSpace(c: char) {
    c == ' ' || c == '\t' || c == '\n' || c == '\r' || c == '\U{0B}' || c == '\U{0C}'
  }

  ghost predicate NoSpace(s: string) {
    forall i :: 0 <= i < |s| ==> !IsSpace(s[i])
  }

  function Lower(c: char): char {
    if 'A' <= c <= 'Z' then ((c as int) + 32) as char else c
  }

  const UPPER: string := "ABCDEFGHIJKLMNOPQRSTUVWXYZ"
  const LOWER: string := "abcdefghijklmnopqrstuvwxyz"

  /** Capital letters have their small one, every other character is its own. */
  lemma LowerPairs(c: char)
    ensures forall i :: 0 <= i < 26 ==> Lower(UPPER[i]) == LOWER[i] && Lower(LOWER[i]) == LOWER[i]
    ensures !('A' <= c <= 'Z') ==> Lower(c) == c
  {
  }

  function ToLower(s: string): (r: string)
    ensures |r| == |s|
    ensures forall i :: 0 <= i < |s| ==> r[i] == Lower(s[i])
  {
    seq(|s|, i requires 0 <= i < |s| => Lower(s[i]))
  }

  // ---------------------------------------------------------------- searching

  /** sub occurs in s at position i. */
  predicate At(s: string, sub: string, i: int) {
    0 <= i && i + |sub| <= |s| && s[i..i + |sub|] == sub
  }

  lemma SliceOfTail(s: string, i: nat, j: nat)
    requires i <= j < |s|
    ensures s[1..][i..j] == s[i + 1..j + 1]
  {
  }

  lemma AtTail(s: string, sub: string)
    requires s != ""
    ensures forall i {:trigger At(s, sub, i)} :: i >= 1 ==> (At(s, sub, i) <==> At(s[1..], sub, i - 1))
    ensures forall i {:trigger At(s[1..], sub, i)} :: i >= 0 ==> (At(s, sub, i + 1) <==> At(s[1..], sub, i))
  {
    forall i: int | i >= 0
      ensures At(s, sub, i + 1) <==> At(s[1..], sub, i)
    {
      if i + 1 + |sub| <= |s| {
        SliceOfTail(s, i, i + |sub|);
      }
    }
  }

  lemma AtChar(s: string, sub: string, i: int, k: nat)
    requires At(s, sub, i) && k < |sub|
    ensures s[i + k] == sub[k]
  {
    assert s[i..i + |sub|][k] == s[i + k];
  }

  /** First position of sub in s, or -1. */
  function IndexOf(s: string, sub: string): (r: int)
    ensures r < 0 ==> r == -1 && forall i :: !At(s, sub, i)
    ensures r >= 0 ==> At(s, sub, r) && forall i :: i < r ==> !At(s, sub, i)
  {
    if |s| < |sub| then -1
    else if s[..|sub|] == sub then assert At(s, sub, 0); 0
    else if s == [] then -1
    else
      var k := IndexOf(s[1..], sub);
      AtTail(s, sub);
      if k < 0 then -1 else k + 1
  }

  predicate Contains(s: string, sub: string) {
    IndexOf(s, sub) >= 0
  }

  lemma IndexIs(s: string, sub: string, k: int)
    requires At(s, sub, k)
    requires forall i :: i < k ==> !At(s, sub, i)
    ensures IndexOf(s, sub) == k
  {
  }

  /** A character of sub that s lacks rules the whole of sub out. */
  lemma NotContained(s: string, sub: string, k: nat)
    requires k < |sub| && sub[k] !in s
    ensures !Contains(s, sub)
  {
    forall i
      ensures !At(s, sub, i)
    {
      if 0 <= i && i + |sub| <= |s| {
        assert s[i..i + |sub|][k] == s[i + k];
      }
    }
  }

  /** First position of a character that stop accepts, or -1. */
  function IndexAny(s: string, stop: set<char>): (r: int)
    ensures r < 0 ==> r == -1 && forall i :: 0 <= i < |s| ==> s[i] !in stop
    ensures r >= 0 ==> r < |s| && s[r] in stop && forall i :: 0 <= i < r ==> s[i] !in stop
  {
    if s == [] then -1
    else if s[0] in stop then 0
    else var k := IndexAny(s[1..], stop); if k < 0 then -1 else k + 1
  }

  lemma IndexAnyIs(s: string, stop: set<char>, k: nat)
    requires k < |s| && s[k] in stop
    requires forall i :: 0 <= i < k ==> s[i] !in stop
    ensures IndexAny(s, stop) == k
  {
  }

  // ---------------------------------------------------------------- trimming

  function TrimLeft(s: string): (r: string)
    ensures |r| <= |s| && r == s[|s| - |r|..]
    ensures r != "" ==> !IsSpace(r[0])
  {
    if s != "" && IsSpace(s[0]) then TrimLeft(s[1..]) else s
  }

  function TrimRight(s: string): (r: string)
    ensures |r| <= |s| && r == s[..|r|]
    ensures r != "" ==> !IsSpace(r[|r| - 1])
  {
    if s != "" && IsSpace(s[|s| - 1]) then TrimRight(s[..|s| - 1]) else s
  }

  function TrimSpace(s: string): (r: string)
    ensures Trimmed(r) && |r| <= |s|
    ensures Trimmed(s) ==> r == s
  {
    TrimRight(TrimLeft(s))
  }

  /** No blank at either end. */
  predicate Trimmed(s: string) {
    s == "" || (!IsSpace(s[0]) && !IsSpace(s[|s| - 1]))
  }

  lemma TrimSpaceIsSlice(s: string) returns (i: nat)
    ensures i + |TrimSpace(s)| <= |s|
    ensures TrimSpace(s) == s[i..i + |TrimSpace(s)|]
  {
    i := |s| - |TrimLeft(s)|;
  }

  lemma TrimLeadingBlank(s: string)
    ensures TrimSpace(" " + s) == TrimSpace(s)
  {
    assert (" " + s)[1..] == s;
  }

  ghost predicate Blank(s: string) {
    forall i :: 0 <= i < |s| ==> IsSpace(s[i])
  }

  lemma {:induction false} TrimLeftOf(a: string, t: string)
    requires Blank(a) && (t == "" || !IsSpace(t[0]))
    ensures TrimLeft(a + t) == t
  {
    if a == "" {
      assert a + t == t;
    } else {
      assert (a + t)[1..] == a[1..] + t;
      TrimLeftOf(a[1..], t);
    }
  }

  lemma {:induction false} TrimRightOf(t: string, b: string)
    requires Blank(b) && (t == "" || !IsSpace(t[|t| - 1]))
    ensures TrimRight(t + b) == t
  {
    if b == "" {
      assert t + b == t;
    } else {
      assert (t + b)[..|t + b| - 1] == t + b[..|b| - 1];
      TrimRightOf(t, b[..|b| - 1]);
    }
  }

  /** Trimming takes the blanks around a text away and nothing else. */
  lemma TrimSpaceOf(a: string, t: string, b: string)
    requires Blank(a) && Blank(b) && Trimmed(t)
    ensures TrimSpace(a + t + b) == t
  {
    if t == "" {
      assert a + t + b == (a + b) + "";
      TrimLeftOf(a + b, "");
    } else {
      assert a + t + b == a + (t + b);
      TrimLeftOf(a, t + b);
      TrimRightOf(t, b);
    }
  }

  // ---------------------------------------------------------------- lines

  ghost predicate NoCrlf(s: string) {
    forall i :: !At(s, CRLF, i)
  }

  lemma CrlfAt(s: string, k: int)
    ensures At(s, CRLF, k) <==> 0 <= k && k + 1 < |s| && s[k] == '\r' && s[k + 1] == '\n'
  {
    if 0 <= k && k + 2 <= |s| {
      assert s[k..k + 2] == [s[k], s[k + 1]];
    }
  }

  lemma NoCrlfSlice(s: string, i: nat, j: nat)
    requires NoCrlf(s) && i <= j <= |s|
    ensures NoCrlf(s[i..j])
  {
    forall k
      ensures !At(s[i..j], CRLF, k)
    {
      CrlfAt(s[i..j], k);
      CrlfAt(s, i + k);
    }
  }

  lemma NoCrlfDrop(s: string, i: nat)
    requires NoCrlf(s) && i <= |s|
    ensures NoCrlf(s[i..])
  {
    NoCrlfSlice(s, i, |s|);
    assert s[i..|s|] == s[i..];
  }

  lemma NoCrlfTake(s: string, i: nat)
    requires NoCrlf(s) && i <= |s|
    ensures NoCrlf(s[..i])
  {
    NoCrlfSlice(s, 0, i);
    assert s[0..i] == s[..i];
  }

  lemma NoCrlfTrim(s: string)
    requires NoCrlf(s)
    ensures NoCrlf(TrimSpace(s))
  {
    var i := TrimSpaceIsSlice(s);
    NoCrlfSlice(s, i, i + |TrimSpace(s)|);
  }

  lemma NoCrlfConcat(a: string, b: string)
    requires NoCrlf(a) && NoCrlf(b)
    requires a == "" || b == "" || a[|a| - 1] != '\r' || b[0] != '\n'
    ensures NoCrlf(a + b)
  {
    forall k
      ensures !At(a + b, CRLF, k)
    {
      CrlfAt(a + b, k);
      CrlfAt(a, k);
      CrlfAt(b, k - |a|);
    }
  }

  /** Text without a line feed has no line break. */
  lemma NoLfNoCrlf(s: string)
    requires '\n' !in s
    ensures NoCrlf(s)
  {
    forall k
      ensures !At(s, CRLF, k)
    {
      CrlfAt(s, k);
    }
  }

  /** strings.Split(s, "\r\n"). */
  function Split(s: string): (r: seq<string>)
    ensures |r| > 0
    ensures forall i :: 0 <= i < |r| ==> NoCrlf(r[i])
  {
    var i := IndexOf(s, CRLF);
    if i < 0 then [s]
    else
      assert NoCrlf(s[..i]) by {
        forall k
          ensures !At(s[..i], CRLF, k)
        {
          CrlfAt(s[..i], k);
          CrlfAt(s, k);
        }
      }
      [s[..i]] + Split(s[i + 2..])
  }

  /** One rendered line followed by the rest of the message. */
  function Line(line: string, rest: string): string {
    line + CRLF + rest
  }

  lemma IndexOfLineEnd(line: string, rest: string)
    requires NoCrlf(line)
    ensures IndexOf(Line(line, rest), CRLF) == |line|
  {
    var s := Line(line, rest);
    CrlfAt(s, |line|);
    forall i | i < |line|
      ensures !At(s, CRLF, i)
    {
      CrlfAt(s, i);
      CrlfAt(line, i);
    }
    IndexIs(s, CRLF, |line|);
  }

  lemma SplitLine(line: string, rest: string)
    requires NoCrlf(line)
    ensures Split(Line(line, rest)) == [line] + Split(rest)
  {
    IndexOfLineEnd(line, rest);
    assert Line(line, rest)[..|line|] == line;
    assert Line(line, rest)[|line| + 2..] == rest;
  }

  // ---------------------------------------------------------------- words

  /** Length of the run of non-blank characters s starts with. */
  function WordLen(s: string): (n: nat)
    ensures n <= |s|
    ensures forall i :: 0 <= i < n ==> !IsSpace(s[i])
    ensures n < |s| ==> IsSpace(s[n])
  {
    if s == "" || IsSpace(s[0]) then 0 else 1 + WordLen(s[1..])
  }

  lemma FirstWord(t: string)
    requires t != "" && !IsSpace(t[0])
    ensures 0 < WordLen(t) <= |t| && t[..WordLen(t)] != "" && NoSpace(t[..WordLen(t)])
  {
  }

  ghost predicate AllWords(words: seq<string>) {
    forall i :: 0 <= i < |words| ==> words[i] != "" && NoSpace(words[i])
  }

  lemma OneMoreWord(w: string, words: seq<string>)
    requires w != "" && NoSpace(w) && AllWords(words)
    ensures AllWords([w] + words)
  {
  }

  /** strings.Fields(s). */
  function Fields(s: string): (r: seq<string>)
    ensures AllWords(r)
    decreases |s|
  {
    var t := TrimLeft(s);
    if t == "" then []
    else
      var n := WordLen(t);
      FirstWord(t);
      var rest := Fields(t[n..]);
      OneMoreWord(t[..n], rest);
      [t[..n]] + rest
  }

  lemma FieldsOfWord(w: string, c: char, rest: string)
    requires w != "" && NoSpace(w) && IsSpace(c)
    ensures Fields(w + [c] + rest) == [w] + Fields(rest)
  {
    var s := w + [c] + rest;
    assert TrimLeft(s) == s;
    var n := WordLen(s);
    assert forall i :: 0 <= i < |w| ==> s[i] == w[i];
    assert s[|w|] == c;
    assert n == |w|;
    assert s[..n] == w;
    assert s[n..] == [c] + rest;
    assert ([c] + rest)[1..] == rest;
    assert TrimLeft([c] + rest) == TrimLeft(rest);
  }

  // ---------------------------------------------------------------- numbers

  const INT64_MAX: int := 0x7fff_ffff_ffff_ffff
  const INT64_MIN: int := -0x8000_0000_0000_0000

  ghost predicate IsInt64(n: int) {
    INT64_MIN <= n <= INT64_MAX
  }

  /** Two's complement reduction of a mathematical integer to 64 bits. */
  function Wrap64(n: int): (r: int)
    ensures IsInt64(r)
    ensures IsInt64(n) ==> r == n
  {
    (n - INT64_MIN) % 0x1_0000_0000_0000_0000 + INT64_MIN
  }

  predicate IsDigit(c: char) {
    '0' <= c <= '9'
  }

  predicate AllDigits(s: string) {
    forall i :: 0 <= i < |s| ==> IsDigit(s[i])
  }

  function Digits(n: nat): (s: string)
    ensures s != "" && AllDigits(s)
  {
    var d := ((n % 10) + ('0' as int)) as char;
    if n < 10 then [d] else Digits(n / 10) + [d]
  }

  function DigitsValue(s: string): nat
    requires AllDigits(s)
  {
    if s == "" then 0
    else DigitsValue(s[..|s| - 1]) * 10 + ((s[|s| - 1] as int) - ('0' as int))
  }

  lemma {:induction false} DigitsRoundTrip(n: nat)
    ensures DigitsValue(Digits(n)) == n
  {
    if n < 10 {
    } else {
      DigitsRoundTrip(n / 10);
      assert Digits(n)[..|Digits(n)| - 1] == Digits(n / 10);
    }
  }

  function Itoa(n: int): string {
    if n < 0 then "-" + Digits(-n) else Digits(n)
  }

  /** strconv.Atoi: an optional sign and at least one digit, in 64-bit range. */
  function Atoi(s: string): (r: Option<int>)
    ensures r.Some? ==> IsInt64(r.value)
  {
    var signed := s != "" && (s[0] == '-' || s[0] == '+');
    var body := if signed then s[1..] else s;
    if body == "" || !AllDigits(body) then None
    else
      var v: int := if s[0] == '-' then 0 - DigitsValue(body) else DigitsValue(body);
      if INT64_MIN <= v <= INT64_MAX then Some(v) else None
  }

  lemma ItoaShape(n: int)
    ensures Itoa(n) != "" && NoSpace(Itoa(n)) && '\n' !in Itoa(n)
    ensures forall i :: 0 <= i < |Itoa(n)| ==> IsDigit(Itoa(n)[i]) || Itoa(n)[i] == '-'
  {
  }

  lemma AtoiItoa(n: int)
    requires IsInt64(n)
    ensures Atoi(Itoa(n)) == Some(n)
  {
    if n < 0 {
      DigitsRoundTrip(-n);
      assert Itoa(n)[1..] == Digits(-n);
    } else {
      DigitsRoundTrip(n);
      assert IsDigit(Itoa(n)[0]);
    }
  }
}
