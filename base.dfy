/** Values shared by the scripts: optional values, decoded JSON documents,
    the decimal rendering of row ids and counters, and SMS bodies seen as lines. */
module Base {

  datatype Option<+T> = None | Some(value: T) {
    predicate IsFailure() { None? }

    function PropagateFailure<U>(): Option<U>
      requires None?
    {
      None
    }

    function Extract(): T
      requires Some?
    {
      value
    }

    function GetOr(default: T): T {
      if Some? then value else default
    }

    /** The value as a list of zero or one element. */
    function ToSeq(): seq<T> {
      if Some? then [value] else []
    }
  }

  /** An optional setting counts as present when it is set and not empty
      (Python truthiness of an environment variable). */
  predicate Present(v: Option<string>) {
    v.Some? && v.value != ""
  }

  /** A decoded JSON document, as an HTTP client hands it to a script. */
  datatype Json =
    | JNull
    | JBool(b: bool)
    | JNum(n: real)
    | JStr(s: string)
    | JArr(items: seq<Json>)
    | JObj(fields: map<string, Json>)

  /** `j[key]`; None where Python would raise KeyError. */
  function Member(j: Json, key: string): Option<Json> {
    if j.JObj? && key in j.fields then Some(j.fields[key]) else None
  }

  /** `j[0]`; None where Python would raise IndexError. */
  function First(j: Json): Option<Json> {
    if j.JArr? && |j.items| > 0 then Some(j.items[0]) else None
  }

  /** `j[-1]`; None where Python would raise IndexError. */
  function Last(j: Json): Option<Json> {
    if j.JArr? && |j.items| > 0 then Some(j.items[|j.items| - 1]) else None
  }

  /** The text of a JSON string node. */
  function Text(j: Json): Option<string> {
    if j.JStr? then Some(j.s) else None
  }

  // ---------------------------------------------------------------------
  // Decimal rendering of non-negative integers (Python's str(int))

  predicate IsDigit(c: char) { '0' <= c <= '9' }

  predicate AllDigits(s: string) {
    forall i :: 0 <= i < |s| ==> IsDigit(s[i])
  }

  function DigitChar(d: nat): (c: char)
    requires d < 10
    ensures IsDigit(c) && c as int - '0' as int == d
  {
    (d + '0' as int) as char
  }

  /** The decimal digits of `n`, most significant first, without leading zeros. */
  function Digits(n: nat): (s: string)
    ensures |s| > 0 && AllDigits(s) && '\n' !in s
    ensures n < 10 <==> |s| == 1
    decreases n
  {
    if n < 10 then [DigitChar(n)] else Digits(n / 10) + [DigitChar(n % 10)]
  }

  /** The number a string of decimal digits denotes. */
  function DigitsValue(s: string): nat
    requires AllDigits(s)
    decreases |s|
  {
    if s == [] then 0
    else DigitsValue(s[..|s| - 1]) * 10 + (s[|s| - 1] as int - '0' as int)
  }

  /** Reading back the digits gives the number: the rendering loses nothing. */
  lemma {:induction false} DigitsRoundTrip(n: nat)
    ensures DigitsValue(Digits(n)) == n
    decreases n
  {
    if n >= 10 {
      var s := Digits(n);
      assert s[..|s| - 1] == Digits(n / 10);
      DigitsRoundTrip(n / 10);
    }
  }

  /** Distinct numbers render as distinct strings. */
  lemma DigitsInjective(m: nat, n: nat)
    requires Digits(m) == Digits(n)
    ensures m == n
  {
    DigitsRoundTrip(m);
    DigitsRoundTrip(n);
  }

  /** The length of the run of digits a string starts with. */
  function DigitRun(t: string): nat
    decreases |t|
  {
    if t != [] && IsDigit(t[0]) then 1 + DigitRun(t[1..]) else 0
  }

  /** A rendered number followed by a non-digit is read off as exactly its digits. */
  lemma {:induction false} DigitRunOf(a: string, rest: string)
    requires AllDigits(a) && rest != [] && !IsDigit(rest[0])
    ensures DigitRun(a + rest) == |a|
    decreases |a|
  {
    if a != [] {
      assert (a + rest)[1..] == a[1..] + rest;
      DigitRunOf(a[1..], rest);
    } else {
      assert a + rest == rest;
    }
  }

  // ---------------------------------------------------------------------
  // Strings

  predicate StartsWith(s: string, prefix: string) {
    |prefix| <= |s| && s[..|prefix|] == prefix
  }

  /** Python's `s.split(sep)[0]`: the text before the first `sep`, or all of `s`. */
  function BeforeFirst(s: string, sep: char): (r: string)
    ensures |r| <= |s| && r == s[..|r|]
    ensures sep !in r
    ensures r == s || s[|r|] == sep
    decreases |s|
  {
    if s == [] || s[0] == sep then [] else [s[0]] + BeforeFirst(s[1..], sep)
  }

  predicate NoNewline(s: string) { '\n' !in s }

  lemma NoNewlineConcat(a: string, b: string)
    requires NoNewline(a) && NoNewline(b)
    ensures NoNewline(a + b)
  {}

  /** Python's `s.split("\n")`: the lines of a message, at least one. */
  function SplitLines(s: string): (ls: seq<string>)
    ensures |ls| >= 1
    decreases |s|
  {
    if s == [] then [""]
    else
      var rest := SplitLines(s[1..]);
      if s[0] == '\n' then [""] + rest else [[s[0]] + rest[0]] + rest[1..]
  }

  lemma {:induction false} SplitLinesOfLine(a: string, rest: string)
    requires NoNewline(a)
    ensures SplitLines(a + rest) == [a + SplitLines(rest)[0]] + SplitLines(rest)[1..]
    decreases |a|
  {
    if a != [] {
      assert (a + rest)[1..] == a[1..] + rest;
      assert (a + rest)[0] == a[0];
      SplitLinesOfLine(a[1..], rest);
      var r := SplitLines(rest);
      var inner := SplitLines(a[1..] + rest);
      assert inner[0] == a[1..] + r[0] && inner[1..] == r[1..];
      assert SplitLines(a + rest) == [[a[0]] + inner[0]] + inner[1..];
      assert [a[0]] + (a[1..] + r[0]) == a + r[0];
    } else {
      var r := SplitLines(rest);
      assert a + rest == rest && a + r[0] == r[0];
      assert [r[0]] + r[1..] == r;
    }
  }

  /** Concatenation is associative: appending in two steps is appending the joined pieces. */
  lemma Assoc<T>(a: seq<T>, b: seq<T>, c: seq<T>)
    ensures a + (b + c) == (a + b) + c
  {}

  /** A message as its text is appended: every listed line followed by a newline. */
  function Terminated(ls: seq<string>): string
    decreases |ls|
  {
    if ls == [] then "" else (ls[0] + "\n") + Terminated(ls[1..])
  }

  /** Appending one more line and its newline. */
  lemma {:induction false} TerminatedSnoc(ls: seq<string>, x: string)
    ensures Terminated(ls + [x]) == Terminated(ls) + (x + "\n")
    decreases |ls|
  {
    if ls == [] {
      assert [x][1..] == [];
      assert Terminated([x]) == (x + "\n") + "";
    } else {
      assert (ls + [x])[1..] == ls[1..] + [x];
      TerminatedSnoc(ls[1..], x);
      Assoc(ls[0] + "\n", Terminated(ls[1..]), x + "\n");
    }
  }

  /** Appending a line followed by a blank line, as a piece ending in two newlines. */
  lemma TerminatedSnocBlank(ls: seq<string>, x: string)
    ensures Terminated(ls + [x, ""]) == Terminated(ls) + (x + "\n\n")
  {
    TerminatedSnoc(ls, x);
    TerminatedSnoc(ls + [x], "");
    assert ls + [x] + [""] == ls + [x, ""];
    assert x + "\n\n" == (x + "\n") + ("" + "\n");
    Assoc(Terminated(ls), x + "\n", "" + "\n");
  }

  /** A message that starts with a line and a blank line. */
  lemma TerminatedBlank(x: string)
    ensures Terminated([x, ""]) == x + "\n\n"
  {
    TerminatedSnocBlank([], x);
    assert [] + [x, ""] == [x, ""];
    assert "" + (x + "\n\n") == x + "\n\n";
  }

  /** Splitting a message at its newlines gives back its lines, when no line
      holds a newline itself. */
  lemma {:induction false} SplitTerminated(ls: seq<string>, last: string)
    requires forall i :: 0 <= i < |ls| ==> NoNewline(ls[i])
    requires NoNewline(last)
    ensures SplitLines(Terminated(ls) + last) == ls + [last]
    decreases |ls|
  {
    if ls == [] {
      SplitLinesOfLine(last, "");
      assert last + "" == last;
      assert Terminated(ls) + last == last;
    } else {
      var rest := Terminated(ls[1..]) + last;
      SplitTerminated(ls[1..], last);
      assert SplitLines("\n" + rest) == [""] + (ls[1..] + [last]) by {
        assert ("\n" + rest)[1..] == rest;
      }
      Assoc(ls[0] + "\n", Terminated(ls[1..]), last);
      Assoc(ls[0], "\n", rest);
      SplitLinesOfLine(ls[0], "\n" + rest);
      assert ls[0] + "" == ls[0];
      assert [ls[0]] + (ls[1..] + [last]) == ls + [last];
    }
  }
}
