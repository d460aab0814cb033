/** Characters, lines and trimming as the scripts' string operations define them. */
module Text {

  datatype Option<+T> = None | Some(value: T)

  /** The characters matched by `\s` and removed by `trim()`. */
  predicate IsSpace(c: char) {
    || c == ' ' || '\t' <= c <= '\r' || c == '\U{00A0}' || c == '\U{1680}'
    || '\U{2000}' <= c <= '\U{200A}' || c == '\U{2028}' || c == '\U{2029}'
    || c == '\U{202F}' || c == '\U{205F}' || c == '\U{3000}' || c == '\U{FEFF}'
  }

  /** The characters `.` does not match and `^`/`$` recognise under the `m` flag. */
  predicate IsLineTerminator(c: char) {
    c == '\n' || c == '\r' || c == '\U{2028}' || c == '\U{2029}'
  }

  predicate IsLetter(c: char) { 'A' <= c <= 'Z' || 'a' <= c <= 'z' }

  predicate IsDigit(c: char) { '0' <= c <= '9' }

  predicate IsIdentStart(c: char) { IsLetter(c) || c == '_' }

  predicate IsIdentPart(c: char) { IsIdentStart(c) || IsDigit(c) }

  predicate IsIdent(s: string) {
    s != "" && IsIdentStart(s[0]) && forall i | 0 <= i < |s| :: IsIdentPart(s[i])
  }

  predicate StartsWith(s: string, prefix: string) { prefix <= s }

  /** Index of the first occurrence of `c` at or after `from`, or -1. */
  function IndexOf(s: string, c: char, from: nat := 0): (r: int)
    ensures r == -1 || from <= r < |s|
    ensures r >= 0 ==> s[r] == c && forall i | from <= i < r :: s[i] != c
    ensures r < 0 ==> forall i | from <= i < |s| :: s[i] != c
    decreases |s| - from
  {
    if from >= |s| then -1 else if s[from] == c then from else IndexOf(s, c, from + 1)
  }

  /** Index of the last occurrence of `c` in `s`, or -1. */
  function LastIndexOf(s: string, c: char): (r: int)
    ensures -1 <= r < |s|
    ensures r >= 0 ==> s[r] == c
    ensures forall i | r < i < |s| :: s[i] != c
  {
    if s == "" then -1 else if s[|s| - 1] == c then |s| - 1 else LastIndexOf(s[..|s| - 1], c)
  }

  /** Index of the first occurrence of `needle` at or after `from`, or -1. */
  function IndexOfText(s: string, needle: string, from: nat := 0): (r: int)
    ensures r == -1 || from <= r <= |s|
    ensures r >= 0 ==> needle <= s[r..]
    decreases |s| - from
  {
    if from > |s| then -1
    else if needle <= s[from..] then from
    else if from == |s| then -1
    else IndexOfText(s, needle, from + 1)
  }

  /** The elements that are kept, in order. */
  function Only<T>(xs: seq<T>, keep: T -> bool): seq<T> {
    if xs == [] then [] else (if keep(xs[0]) then [xs[0]] else []) + Only(xs[1..], keep)
  }

  predicate Contains(s: string, needle: string) { IndexOfText(s, needle) >= 0 }

  function TrimStart(s: string): string {
    if s != "" && IsSpace(s[0]) then TrimStart(s[1..]) else s
  }

  function TrimEnd(s: string): string {
    if s != "" && IsSpace(s[|s| - 1]) then TrimEnd(s[..|s| - 1]) else s
  }

  function Trim(s: string): string { TrimEnd(TrimStart(s)) }

  lemma {:induction false} TrimStartSkips(spaces: string, l: string)
    requires forall k | 0 <= k < |spaces| :: IsSpace(spaces[k])
    ensures TrimStart(spaces + l) == TrimStart(l)
  {
    if spaces == "" {
      assert spaces + l == l;
    } else {
      TrimStartSkips(spaces[1..], l);
      assert (spaces + l)[1..] == spaces[1..] + l;
    }
  }

  /** `split('\n')`: the lines of a text, never an empty list. */
  function SplitLines(s: string): (r: seq<string>)
    ensures |r| > 0
    ensures forall l | l in r :: '\n' !in l
  {
    if s == "" then [""]
    else
      var rest := SplitLines(s[1..]);
      if s[0] == '\n' then [""] + rest else [[s[0]] + rest[0]] + rest[1..]
  }

  function JoinLines(lines: seq<string>): string { Join(lines, "\n") }

  function Join(parts: seq<string>, sep: string): string {
    if |parts| == 0 then ""
    else if |parts| == 1 then parts[0]
    else parts[0] + sep + Join(parts[1..], sep)
  }

  lemma Regroup<T>(a: seq<T>, b: seq<T>, c: seq<T>)
    ensures a + b + c == a + (b + c)
  {
  }

  lemma JoinPrepend(c: char, lines: seq<string>)
    requires |lines| > 0
    ensures JoinLines([[c] + lines[0]] + lines[1..]) == [c] + JoinLines(lines)
  {
    var longer := [[c] + lines[0]] + lines[1..];
    assert longer[1..] == lines[1..];
  }

  lemma JoinCons(line: string, rest: seq<string>)
    requires |rest| > 0
    ensures JoinLines([line] + rest) == line + "\n" + JoinLines(rest)
  {
    assert ([line] + rest)[1..] == rest;
  }

  /** A text is its list of lines: nothing is lost by working on lines. */
  lemma {:induction false} JoinSplit(s: string)
    ensures JoinLines(SplitLines(s)) == s
  {
    if s != "" {
      JoinSplit(s[1..]);
      var rest := SplitLines(s[1..]);
      if s[0] == '\n' { JoinCons("", rest); } else { JoinPrepend(s[0], rest); }
    }
  }

  /** Splitting a newline-free line followed by a newline and more text. */
  lemma {:induction false} SplitCons(line: string, rest: string)
    requires '\n' !in line
    ensures SplitLines(line + "\n" + rest) == [line] + SplitLines(rest)
  {
    var s := line + "\n" + rest;
    if line == "" {
      assert s[1..] == rest;
    } else {
      SplitCons(line[1..], rest);
      assert s[1..] == line[1..] + "\n" + rest;
      assert line == [line[0]] + line[1..];
    }
  }

  lemma {:induction false} SplitSingle(line: string)
    requires '\n' !in line
    ensures SplitLines(line) == [line]
  {
    if line != "" { SplitSingle(line[1..]); assert line == [line[0]] + line[1..]; }
  }

  /** A non-empty list of newline-free lines survives being joined and split. */
  lemma {:induction false} SplitJoin(lines: seq<string>)
    requires |lines| > 0
    requires forall l | l in lines :: '\n' !in l
    ensures SplitLines(JoinLines(lines)) == lines
  {
    if |lines| == 1 {
      SplitSingle(lines[0]);
    } else {
      assert lines == [lines[0]] + lines[1..];
      SplitJoin(lines[1..]);
      SplitCons(lines[0], JoinLines(lines[1..]));
    }
  }
}
