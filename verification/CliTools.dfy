/** Locating the entries of a JSON array of tools by line: the span scanner against the grammar. */
module CliTools {
  import opened Text
  import opened Vars
  import Lint

  // ---------------------------------------------------------------------------
  // JSON text
  // ---------------------------------------------------------------------------

  /** A JSON value with its spelling: `raw` strings keep their escapes, `pad` and the gaps their spaces. */
  datatype Value =
    | Atom(text: string)
    | Quoted(raw: string)
    | List(pad: string, elems: seq<Elem>)
    | Object(pad: string, members: seq<Member>)

  datatype Elem = Elem(before: string, value: Value, after: string)

  datatype Member = Member(lead: string, key: string, gap: string, elem: Elem)

  predicate Blank(s: string) {
    forall k | 0 <= k < |s| :: s[k] == ' ' || s[k] == '\t' || s[k] == '\n' || s[k] == '\r'
  }

  predicate IsQuiet(c: char) { c != '"' && c != '{' && c != '}' && c != '[' && c != ']' && c != '\n' }

  predicate GoodAtom(s: string) { forall k | 0 <= k < |s| :: IsQuiet(s[k]) }

  /** String contents: no bare quote or newline, escapes in pairs. */
  predicate GoodRaw(s: string) {
    if s == "" then true
    else if s[0] == '\\' then |s| > 1 && s[1] != '\n' && GoodRaw(s[2..])
    else s[0] != '"' && s[0] != '\n' && GoodRaw(s[1..])
  }

  predicate Good(v: Value)
    decreases v, 0
  {
    match v
    case Atom(text) => GoodAtom(text)
    case Quoted(raw) => GoodRaw(raw)
    case List(pad, elems) => Blank(pad) && GoodElems(elems)
    case Object(pad, members) => Blank(pad) && GoodMembers(members)
  }

  predicate GoodElem(e: Elem)
    decreases e, 1
  {
    Blank(e.before) && Blank(e.after) && Good(e.value)
  }

  predicate GoodElems(es: seq<Elem>)
    decreases es, 2
  {
    es != [] ==> GoodElem(es[0]) && GoodElems(es[1..])
  }

  predicate GoodMembers(ms: seq<Member>)
    decreases ms, 2
  {
    ms != [] ==> Blank(ms[0].lead) && GoodRaw(ms[0].key) && Blank(ms[0].gap) && GoodElem(ms[0].elem) && GoodMembers(ms[1..])
  }

  function Print(v: Value): string
    decreases v, 0
  {
    match v
    case Atom(text) => text
    case Quoted(raw) => "\"" + raw + "\""
    case List(pad, elems) => "[" + (pad + PrintElems(elems)) + "]"
    case Object(pad, members) => "{" + (pad + PrintMembers(members)) + "}"
  }

  function PrintElem(e: Elem): string
    decreases e, 1
  {
    e.before + Print(e.value) + e.after
  }

  function PrintElems(es: seq<Elem>): string
    decreases es, 2
  {
    if es == [] then ""
    else PrintElem(es[0]) + ((if |es| == 1 then "" else ",") + PrintElems(es[1..]))
  }

  function PrintMember(m: Member): string
    decreases m, 2
  {
    m.lead + ("\"" + m.key + "\"") + m.gap + ":" + PrintElem(m.elem)
  }

  function PrintMembers(ms: seq<Member>): string
    decreases ms, 3
  {
    if ms == [] then ""
    else PrintMember(ms[0]) + ((if |ms| == 1 then "" else ",") + PrintMembers(ms[1..]))
  }

  // ---------------------------------------------------------------------------
  // The span scanner
  // ---------------------------------------------------------------------------

  datatype Span = Span(start: nat, end: nat)

  /** `escaped`: the next character of a string follows a backslash. */
  datatype Scanner = Scanner(depth: int, line: nat, start: nat, inString: bool, escaped: bool)

  datatype Scanned = Scanned(at: Scanner, spans: seq<Span>)

  function Step(c: char, s: Scanner): Scanned {
    if s.escaped then Scanned(s.(escaped := false), [])
    else
      var n := if c == '\n' then s.(line := s.line + 1) else s;
      if s.inString then Scanned(n.(escaped := c == '\\', inString := c != '"'), [])
      else if c == '"' then Scanned(n.(inString := true), [])
      else if c == '{' || c == '[' then
        Scanned(n.(start := if c == '{' && s.depth == 1 then n.line else n.start, depth := s.depth + 1), [])
      else if c == '}' || c == ']' then
        Scanned(n.(depth := s.depth - 1), if c == '}' && s.depth == 2 then [Span(n.start, n.line)] else [])
      else Scanned(n, [])
  }

  function Run(text: string, s: Scanner): Scanned {
    if text == "" then Scanned(s, [])
    else
      var first := Step(text[0], s);
      var rest := Run(text[1..], first.at);
      Scanned(rest.at, first.spans + rest.spans)
  }

  const FRESH := Scanner(0, 1, 0, false, false)

  function SpansOf(json: string): seq<Span> { Run(json, FRESH).spans }

  function Rest(json: string, i: nat): string { if i < |json| then json[i..] else "" }

  lemma RunUnfolds(json: string, i: nat, s: Scanner)
    requires i < |json|
    ensures Run(Rest(json, i), s).spans == Step(json[i], s).spans + Run(Rest(json, i + 1), Step(json[i], s).at).spans
  {
    hide Step;
    assert json[i..][0] == json[i] && json[i..][1..] == json[i + 1..];
    if i + 1 == |json| { assert json[i + 1..] == ""; }
  }

  lemma RunsOut(json: string, i: nat, s: Scanner)
    requires i >= |json|
    ensures Run(Rest(json, i), s).spans == []
  {
  }

  /** The scanner's loop; a backslash in a string skips the next character. */
  method FindSpans(json: string) returns (spans: seq<Span>)
    ensures spans == SpansOf(json)
  {
    hide Run, Rest;
    spans := [];
    var depth: int := 0;
    var line: nat, start: nat := 1, 0;
    var inString := false;
    var i := 0;
    AllRest(json);
    while i < |json|
      invariant spans + Run(Rest(json, i), Scanner(depth, line, start, inString, i > |json|)).spans == SpansOf(json)
    {
      ghost var s := Scanner(depth, line, start, inString, false);
      var c := json[i];
      RunUnfolds(json, i, s);
      i := i + 1;
      if c == '\n' { line := line + 1; }
      if inString {
        if c == '\\' {
          if i < |json| { RunUnfolds(json, i, Step(c, s).at); } else { RunsOut(json, i, Step(c, s).at); }
          i := i + 1;
          if i > |json| { RunsOut(json, i, Step(c, s).at); }
        } else if c == '"' {
          inString := false;
        }
        assert spans + [] == spans;
        continue;
      }
      if c == '"' {
        inString := true;
      } else if c == '{' || c == '[' {
        if c == '{' && depth == 1 { start := line; }
        depth := depth + 1;
      } else if c == '}' || c == ']' {
        depth := depth - 1;
        if c == '}' && depth == 1 {
          Regroup(spans, [Span(start, line)], Run(Rest(json, i), Step(c, s).at).spans);
          spans := spans + [Span(start, line)];
        }
      }
    }
    RunsOut(json, i, Scanner(depth, line, start, inString, i > |json|));
    assert spans + [] == spans;
  }

  lemma AllRest(json: string)
    ensures [] + Run(Rest(json, 0), FRESH).spans == SpansOf(json)
  {
    assert json[0..] == json;
  }

  // ---------------------------------------------------------------------------
  // The scanner follows the grammar
  // ---------------------------------------------------------------------------

  function Newlines(s: string): nat {
    if s == "" then 0 else (if s[0] == '\n' then 1 else 0) + Newlines(s[1..])
  }

  lemma NewlinesFirst(c: char, rest: string)
    ensures Newlines([c] + rest) == (if c == '\n' then 1 else 0) + Newlines(rest)
  {
    assert ([c] + rest)[1..] == rest;
  }

  lemma {:induction false} NewlinesSplit(a: string, b: string)
    ensures Newlines(a + b) == Newlines(a) + Newlines(b)
  {
    hide Newlines;
    if a == "" {
      assert a + b == b;
      NoNewlines("");
    } else {
      assert a == [a[0]] + a[1..];
      Regroup([a[0]], a[1..], b);
      NewlinesFirst(a[0], a[1..] + b);
      NewlinesFirst(a[0], a[1..]);
      NewlinesSplit(a[1..], b);
    }
  }

  lemma {:induction false} NoNewlines(s: string)
    requires '\n' !in s
    ensures Newlines(s) == 0
  {
    if s != "" { NoNewlines(s[1..]); }
  }

  lemma RunFirst(c: char, rest: string, s: Scanner)
    ensures Run([c] + rest, s) ==
            (var r := Run(rest, Step(c, s).at); Scanned(r.at, Step(c, s).spans + r.spans))
  {
    hide Step;
    assert ([c] + rest)[1..] == rest;
  }

  lemma RunNothing(s: Scanner)
    ensures Run("", s) == Scanned(s, [])
  {
  }

  lemma RunOne(c: char, s: Scanner)
    ensures Run([c], s) == Step(c, s)
  {
    hide Step, Run;
    RunFirst(c, "", s);
    RunNothing(Step(c, s).at);
    assert [c] + "" == [c];
    assert Step(c, s).spans + [] == Step(c, s).spans;
  }

  lemma {:induction false} RunSplits(a: string, b: string, s: Scanner)
    ensures var first := Run(a, s);
            var rest := Run(b, first.at);
            Run(a + b, s) == Scanned(rest.at, first.spans + rest.spans)
  {
    hide Run, Step;
    if a == "" {
      RunNothing(s);
      assert a + b == b;
      assert [] + Run(b, s).spans == Run(b, s).spans;
    } else {
      var next := Step(a[0], s);
      assert a == [a[0]] + a[1..];
      Regroup([a[0]], a[1..], b);
      RunFirst(a[0], a[1..] + b, s);
      RunFirst(a[0], a[1..], s);
      RunSplits(a[1..], b, next.at);
      Regroup(next.spans, Run(a[1..], next.at).spans, Run(b, Run(a[1..], next.at).at).spans);
    }
  }

  lemma NoSpans()
    ensures var none: seq<Span> := []; none + none == none
  {
  }

  predicate Outside(s: Scanner) { !s.inString && !s.escaped }

  /** The text leaves the scanner where it was, but for the line. */
  predicate Quiet(text: string, s: Scanner) { Run(text, s) == Scanned(s.(line := s.line + Newlines(text)), []) }

  lemma QuietNothing(s: Scanner)
    ensures Quiet("", s)
  {
  }

  lemma QuietSplit(a: string, b: string, s: Scanner)
    requires Quiet(a, s) && Quiet(b, s.(line := s.line + Newlines(a)))
    ensures Quiet(a + b, s)
  {
    hide Run, Newlines;
    RunSplits(a, b, s);
    NewlinesSplit(a, b);
    NoSpans();
  }

  lemma {:induction false} PlainIsQuiet(text: string, s: Scanner)
    requires Outside(s) && forall k | 0 <= k < |text| :: IsQuiet(text[k]) || text[k] == '\n'
    ensures Quiet(text, s)
  {
    if text != "" { PlainIsQuiet(text[1..], Step(text[0], s).at); }
  }

  lemma BlankIsQuiet(text: string, s: Scanner)
    requires Outside(s) && Blank(text)
    ensures Quiet(text, s)
  {
    hide Quiet;
    PlainIsQuiet(text, s);
  }

  lemma EscapeIsQuiet(c: char, rest: string, s: Scanner)
    requires s.inString && !s.escaped && c != '\n' && Quiet(rest, s)
    ensures Quiet("\\" + [c] + rest, s)
  {
    hide Run, Newlines;
    Regroup("\\", [c], rest);
    RunFirst('\\', [c] + rest, s);
    RunFirst(c, rest, Step('\\', s).at);
    NewlinesFirst('\\', [c] + rest);
    NewlinesFirst(c, rest);
    NoSpans();
  }

  lemma StringCharIsQuiet(c: char, rest: string, s: Scanner)
    requires s.inString && !s.escaped && c != '\n' && c != '"' && c != '\\' && Quiet(rest, s)
    ensures Quiet([c] + rest, s)
  {
    hide Run, Newlines;
    RunFirst(c, rest, s);
    NewlinesFirst(c, rest);
    NoSpans();
  }

  lemma {:induction false} RawIsQuiet(raw: string, s: Scanner)
    requires s.inString && !s.escaped && GoodRaw(raw)
    ensures Quiet(raw, s)
    decreases |raw|
  {
    hide Quiet;
    if raw == "" {
      QuietNothing(s);
    } else if raw[0] == '\\' {
      RawIsQuiet(raw[2..], s);
      EscapeIsQuiet(raw[1], raw[2..], s);
      assert raw == "\\" + [raw[1]] + raw[2..];
    } else {
      RawIsQuiet(raw[1..], s);
      StringCharIsQuiet(raw[0], raw[1..], s);
      assert raw == [raw[0]] + raw[1..];
    }
  }

  lemma {:induction false} RawNoNewlines(raw: string)
    requires GoodRaw(raw)
    ensures '\n' !in raw
    decreases |raw|
  {
    if raw != "" {
      if raw[0] == '\\' {
        RawNoNewlines(raw[2..]);
        assert raw == [raw[0], raw[1]] + raw[2..];
      } else {
        RawNoNewlines(raw[1..]);
        assert raw == [raw[0]] + raw[1..];
      }
    }
  }

  lemma QuotedIsQuiet(raw: string, s: Scanner)
    requires Outside(s) && GoodRaw(raw)
    ensures Quiet("\"" + raw + "\"", s)
  {
    hide Run, Newlines;
    var inside := s.(inString := true);
    RunOne('"', s);
    RawIsQuiet(raw, inside);
    RawNoNewlines(raw);
    NoNewlines(raw);
    RunOne('"', inside);
    RunSplits("\"", raw, s);
    RunSplits("\"" + raw, "\"", s);
    NoNewlines("\"" + raw + "\"");
    NoSpans();
  }

  lemma CommaIsQuiet(last: bool, s: Scanner)
    requires Outside(s)
    ensures Quiet(if last then "" else ",", s) && Quiet(":", s)
  {
    PlainIsQuiet(if last then "" else ",", s);
    PlainIsQuiet(":", s);
  }

  /** Braces or brackets around a text that is quiet one level deeper. */
  lemma EnclosedIsQuiet(open: char, close: char, text: string, s: Scanner)
    requires Outside(s) && ((open == '[' && close == ']' && s.depth >= 1) || (open == '{' && close == '}' && s.depth >= 2))
    requires Quiet(text, s.(depth := s.depth + 1))
    ensures Quiet([open] + text + [close], s)
  {
    hide Run, Newlines;
    var inside := s.(depth := s.depth + 1);
    RunOne(open, s);
    RunSplits([open], text, s);
    RunOne(close, inside.(line := s.line + Newlines(text)));
    RunSplits([open] + text, [close], s);
    NewlinesFirst(open, text);
    NewlinesSplit([open] + text, [close]);
    NoNewlines([close]);
    NoSpans();
  }

  /** Below the array's elements nothing is recorded, whatever strings and braces occur. */
  lemma {:induction false} NestedIsQuiet(v: Value, s: Scanner)
    requires Outside(s) && Good(v) && (s.depth >= 2 || (s.depth == 1 && !v.Object?))
    ensures Quiet(Print(v), s)
    decreases v, 0
  {
    hide Quiet;
    match v
    case Atom(text) => PlainIsQuiet(text, s);
    case Quoted(raw) => QuotedIsQuiet(raw, s);
    case List(pad, elems) =>
      var inside := s.(depth := s.depth + 1);
      BlankIsQuiet(pad, inside);
      ElemsAreQuiet(elems, inside.(line := inside.line + Newlines(pad)));
      QuietSplit(pad, PrintElems(elems), inside);
      EnclosedIsQuiet('[', ']', pad + PrintElems(elems), s);
    case Object(pad, members) =>
      var inside := s.(depth := s.depth + 1);
      BlankIsQuiet(pad, inside);
      MembersAreQuiet(members, inside.(line := inside.line + Newlines(pad)));
      QuietSplit(pad, PrintMembers(members), inside);
      EnclosedIsQuiet('{', '}', pad + PrintMembers(members), s);
  }

  lemma {:induction false} ElemIsQuiet(e: Elem, s: Scanner)
    requires Outside(s) && GoodElem(e) && s.depth >= 2
    ensures Quiet(PrintElem(e), s)
    decreases e, 1
  {
    hide Quiet;
    BlankIsQuiet(e.before, s);
    var s1 := s.(line := s.line + Newlines(e.before));
    NestedIsQuiet(e.value, s1);
    QuietSplit(e.before, Print(e.value), s);
    NewlinesSplit(e.before, Print(e.value));
    BlankIsQuiet(e.after, s1.(line := s1.line + Newlines(Print(e.value))));
    QuietSplit(e.before + Print(e.value), e.after, s);
  }

  lemma {:induction false} ElemsAreQuiet(es: seq<Elem>, s: Scanner)
    requires Outside(s) && GoodElems(es) && s.depth >= 2
    ensures Quiet(PrintElems(es), s)
    decreases es, 2
  {
    hide Quiet;
    if es == [] {
      QuietNothing(s);
    } else {
      ElemIsQuiet(es[0], s);
      var s1 := s.(line := s.line + Newlines(PrintElem(es[0])));
      var comma := if |es| == 1 then "" else ",";
      CommaIsQuiet(|es| == 1, s1);
      ElemsAreQuiet(es[1..], s1.(line := s1.line + Newlines(comma)));
      QuietSplit(comma, PrintElems(es[1..]), s1);
      QuietSplit(PrintElem(es[0]), comma + PrintElems(es[1..]), s);
    }
  }

  lemma {:induction false} MemberIsQuiet(m: Member, s: Scanner)
    requires Outside(s) && Blank(m.lead) && GoodRaw(m.key) && Blank(m.gap) && GoodElem(m.elem) && s.depth >= 2
    ensures Quiet(PrintMember(m), s)
    decreases m, 2
  {
    hide Quiet, Newlines;
    var key := "\"" + m.key + "\"";
    BlankIsQuiet(m.lead, s);
    QuotedIsQuiet(m.key, s.(line := s.line + Newlines(m.lead)));
    QuietSplit(m.lead, key, s);
    BlankIsQuiet(m.gap, s.(line := s.line + Newlines(m.lead + key)));
    QuietSplit(m.lead + key, m.gap, s);
    CommaIsQuiet(true, s.(line := s.line + Newlines(m.lead + key + m.gap)));
    QuietSplit(m.lead + key + m.gap, ":", s);
    ElemIsQuiet(m.elem, s.(line := s.line + Newlines(m.lead + key + m.gap + ":")));
    QuietSplit(m.lead + key + m.gap + ":", PrintElem(m.elem), s);
  }

  lemma {:induction false} MembersAreQuiet(ms: seq<Member>, s: Scanner)
    requires Outside(s) && GoodMembers(ms) && s.depth >= 2
    ensures Quiet(PrintMembers(ms), s)
    decreases ms, 3
  {
    hide Quiet;
    if ms == [] {
      QuietNothing(s);
    } else {
      MemberIsQuiet(ms[0], s);
      var s1 := s.(line := s.line + Newlines(PrintMember(ms[0])));
      var comma := if |ms| == 1 then "" else ",";
      CommaIsQuiet(|ms| == 1, s1);
      MembersAreQuiet(ms[1..], s1.(line := s1.line + Newlines(comma)));
      QuietSplit(comma, PrintMembers(ms[1..]), s1);
      QuietSplit(PrintMember(ms[0]), comma + PrintMembers(ms[1..]), s);
    }
  }

  // ---------------------------------------------------------------------------
  // The top-level objects
  // ---------------------------------------------------------------------------

  /** The spans of the elements that are objects, from `line` on. */
  function TopSpans(es: seq<Elem>, line: nat): seq<Span> {
    if es == [] then []
    else
      var at := line + Newlines(es[0].before);
      var next := line + Newlines(PrintElem(es[0]) + if |es| == 1 then "" else ",");
      (if es[0].value.Object? then [Span(at, at + Newlines(Print(es[0].value)))] else []) + TopSpans(es[1..], next)
  }

  lemma ObjectSpan(v: Value, s: Scanner)
    requires Outside(s) && s.depth == 1 && v.Object? && Good(v)
    ensures Run(Print(v), s) ==
            Scanned(s.(line := s.line + Newlines(Print(v)), start := s.line), [Span(s.line, s.line + Newlines(Print(v)))])
  {
    hide Run, Newlines;
    var inside := s.(depth := 2, start := s.line);
    var text := v.pad + PrintMembers(v.members);
    RunOne('{', s);
    BlankIsQuiet(v.pad, inside);
    MembersAreQuiet(v.members, inside.(line := inside.line + Newlines(v.pad)));
    QuietSplit(v.pad, PrintMembers(v.members), inside);
    RunSplits("{", text, s);
    RunOne('}', inside.(line := inside.line + Newlines(text)));
    RunSplits("{" + text, "}", s);
    NewlinesFirst('{', text);
    NewlinesSplit("{" + text, "}");
    NoNewlines("}");
    NoSpans();
  }

  /** Only the line and the start may have moved. */
  predicate Same(s: Scanner, r: Scanner, text: string) {
    r == s.(line := s.line + Newlines(text), start := r.start)
  }

  lemma TopElem(e: Elem, s: Scanner)
    requires Outside(s) && s.depth == 1 && GoodElem(e)
    ensures Same(s, Run(PrintElem(e), s).at, PrintElem(e))
    ensures Run(PrintElem(e), s).spans ==
            (var at := s.line + Newlines(e.before);
             if e.value.Object? then [Span(at, at + Newlines(Print(e.value)))] else [])
  {
    hide Run, Newlines, Good, Print;
    var text := Print(e.value);
    BlankIsQuiet(e.before, s);
    var s1 := s.(line := s.line + Newlines(e.before));
    if e.value.Object? { ObjectSpan(e.value, s1); } else { NestedIsQuiet(e.value, s1); }
    RunSplits(e.before, text, s);
    var s2 := Run(text, s1).at;
    BlankIsQuiet(e.after, s2);
    RunSplits(e.before + text, e.after, s);
    NewlinesSplit(e.before, text);
    NewlinesSplit(e.before + text, e.after);
    var spans := Run(text, s1).spans;
    assert [] + spans == spans && spans + [] == spans;
  }

  lemma TopSpansUnfold(es: seq<Elem>, line: nat)
    requires es != []
    ensures TopSpans(es, line) ==
            (var at := line + Newlines(es[0].before);
             if es[0].value.Object? then [Span(at, at + Newlines(Print(es[0].value)))] else [])
            + TopSpans(es[1..], line + Newlines(PrintElem(es[0])) + Newlines(if |es| == 1 then "" else ","))
  {
    hide Newlines, PrintElem, Print;
    NewlinesSplit(PrintElem(es[0]), if |es| == 1 then "" else ",");
  }

  /** Two parts of the elements' text, one after the other. */
  lemma TopJoin(a: string, b: string, s: Scanner)
    requires Same(s, Run(a, s).at, a) && Same(Run(a, s).at, Run(b, Run(a, s).at).at, b)
    ensures Same(s, Run(a + b, s).at, a + b)
    ensures Run(a + b, s).spans == Run(a, s).spans + Run(b, Run(a, s).at).spans
  {
    hide Run, Newlines;
    RunSplits(a, b, s);
    NewlinesSplit(a, b);
  }

  lemma QuietIsSame(text: string, s: Scanner)
    requires Quiet(text, s)
    ensures Same(s, Run(text, s).at, text) && Run(text, s).spans == []
  {
  }

  lemma NoElems(s: Scanner)
    ensures Same(s, Run("", s).at, "") && Run("", s).spans == TopSpans([], s.line)
  {
  }

  lemma {:induction false} TopElems(es: seq<Elem>, s: Scanner)
    requires Outside(s) && s.depth == 1 && GoodElems(es)
    ensures Same(s, Run(PrintElems(es), s).at, PrintElems(es))
    ensures Run(PrintElems(es), s).spans == TopSpans(es, s.line)
  {
    hide Run, Newlines, PrintElem, GoodElem, TopSpans, Quiet, Print;
    if es == [] {
      NoElems(s);
    } else {
      var comma := if |es| == 1 then "" else ",";
      TopElem(es[0], s);
      var s1 := Run(PrintElem(es[0]), s).at;
      CommaIsQuiet(|es| == 1, s1);
      QuietIsSame(comma, s1);
      var s2 := Run(comma, s1).at;
      TopElems(es[1..], s2);
      TopJoin(comma, PrintElems(es[1..]), s1);
      TopJoin(PrintElem(es[0]), comma + PrintElems(es[1..]), s);
      TopSpansUnfold(es, s.line);
      var rest := TopSpans(es[1..], s2.line);
      assert [] + rest == rest;
    }
  }

  /** A JSON document whose top level is an array. */
  datatype Doc = Doc(before: string, pad: string, elems: seq<Elem>, after: string)

  predicate GoodDoc(d: Doc) { Blank(d.before) && Blank(d.pad) && Blank(d.after) && GoodElems(d.elems) }

  function Head(d: Doc): string { d.before + "[" + d.pad }

  function Json(d: Doc): string { Head(d) + PrintElems(d.elems) + ("]" + d.after) }

  lemma HeadIsQuiet(d: Doc)
    requires GoodDoc(d)
    ensures Run(Head(d), FRESH) == Scanned(FRESH.(depth := 1, line := 1 + Newlines(Head(d))), [])
  {
    hide Run, Newlines;
    BlankIsQuiet(d.before, FRESH);
    var s1 := FRESH.(line := 1 + Newlines(d.before));
    RunOne('[', s1);
    RunSplits(d.before, "[", FRESH);
    BlankIsQuiet(d.pad, s1.(depth := 1));
    RunSplits(d.before + "[", d.pad, FRESH);
    NewlinesSplit(d.before, "[");
    NoNewlines("[");
    NewlinesSplit(d.before + "[", d.pad);
    NoSpans();
  }

  /** The scanner finds exactly the spans of the top-level objects, in order. */
  lemma SpansAreTopObjects(d: Doc)
    requires GoodDoc(d)
    ensures SpansOf(Json(d)) == TopSpans(d.elems, 1 + Newlines(Head(d)))
  {
    hide Run, Newlines, PrintElems, TopSpans, Head;
    HeadIsQuiet(d);
    var s := FRESH.(depth := 1, line := 1 + Newlines(Head(d)));
    TopElems(d.elems, s);
    RunSplits(Head(d), PrintElems(d.elems), FRESH);
    var s2 := Run(PrintElems(d.elems), s).at;
    RunOne(']', s2);
    var s3 := s2.(depth := 0);
    BlankIsQuiet(d.after, s3);
    RunSplits("]", d.after, s2);
    RunSplits(Head(d) + PrintElems(d.elems), "]" + d.after, FRESH);
    NoSpans();
    var spans := TopSpans(d.elems, s.line);
    assert [] + spans == spans && spans + ([] + []) == spans;
  }

  // ---------------------------------------------------------------------------
  // Where an element is
  // ---------------------------------------------------------------------------

  /** What is printed before the value of element `k`. */
  function Before(es: seq<Elem>, k: nat): string
    requires k < |es|
  {
    if k == 0 then es[0].before
    else PrintElem(es[0]) + (if |es| == 1 then "" else ",") + Before(es[1..], k - 1)
  }

  /** The text up to the value of element `k`. */
  function Prefix(d: Doc, k: nat): string
    requires k < |d.elems|
  {
    Head(d) + Before(d.elems, k)
  }

  /** The lines of the first and last character of element `k`. */
  function ElemSpan(d: Doc, k: nat): Span
    requires k < |d.elems|
  {
    Span(1 + Newlines(Prefix(d, k)), 1 + Newlines(Prefix(d, k) + Print(d.elems[k].value)))
  }

  predicate AllObjects(es: seq<Elem>) { forall k | 0 <= k < |es| :: es[k].value.Object? }

  lemma {:induction false} TopSpanAt(es: seq<Elem>, line: nat, k: nat)
    requires AllObjects(es) && k < |es|
    ensures |TopSpans(es, line)| == |es|
    ensures TopSpans(es, line)[k] == Span(line + Newlines(Before(es, k)), line + Newlines(Before(es, k)) + Newlines(Print(es[k].value)))
    decreases |es|
  {
    hide Newlines, PrintElem, Print;
    var next := line + Newlines(PrintElem(es[0]) + if |es| == 1 then "" else ",");
    if |es| == 1 {
      assert es[1..] == [];
    } else {
      TopSpanAt(es[1..], next, if k == 0 then 0 else k - 1);
      if k > 0 { NewlinesSplit(PrintElem(es[0]) + ",", Before(es[1..], k - 1)); }
    }
  }

  /** `Prefix` is where the element's text really starts, and its text is in braces. */
  lemma {:induction false} ElementIsThere(es: seq<Elem>, k: nat)
    requires k < |es|
    ensures Before(es, k) + Print(es[k].value) <= PrintElems(es)
    decreases |es|
  {
    hide Print;
    if k > 0 {
      ElementIsThere(es[1..], k - 1);
      var comma := if |es| == 1 then "" else ",";
      var lead := PrintElem(es[0]) + comma;
      Regroup(PrintElem(es[0]), comma, PrintElems(es[1..]));
      Regroup(lead, Before(es[1..], k - 1), Print(es[k].value));
    }
  }

  lemma ElementInText(d: Doc, k: nat)
    requires k < |d.elems|
    ensures Prefix(d, k) + Print(d.elems[k].value) <= Json(d)
  {
    hide Print, PrintElems, Before, Head;
    ElementIsThere(d.elems, k);
    Regroup(Head(d), Before(d.elems, k), Print(d.elems[k].value));
  }

  /** When every element is an object, span `k` is the lines of element `k`'s own braces in the text. */
  lemma SpanOfElement(d: Doc, k: nat)
    requires GoodDoc(d) && AllObjects(d.elems) && k < |d.elems|
    ensures |SpansOf(Json(d))| == |d.elems| && SpansOf(Json(d))[k] == ElemSpan(d, k)
    ensures Prefix(d, k) + Print(d.elems[k].value) <= Json(d)
  {
    hide Newlines, Print, TopSpans, Before, SpansOf, Head;
    ElementInText(d, k);
    SpansAreTopObjects(d);
    TopSpanAt(d.elems, 1 + Newlines(Head(d)), k);
    NewlinesSplit(Head(d), Before(d.elems, k));
    NewlinesSplit(Prefix(d, k), Print(d.elems[k].value));
  }

  // ---------------------------------------------------------------------------
  // The pins
  // ---------------------------------------------------------------------------

  predicate NameStart(c: char) { 'a' <= c <= 'z' || IsDigit(c) }

  predicate NamePart(s: string) { s != "" && NameStart(s[0]) && forall k | 0 <= k < |s| :: NameStart(s[k]) || s[k] in "._~-" }

  /** A package name, with or without a scope. */
  predicate NpmName(s: string) {
    if StartsWith(s, "@") then
      var slash := IndexOf(s, '/');
      slash >= 1 && NamePart(s[1..slash]) && NamePart(s[slash + 1..])
    else NamePart(s)
  }

  /** A name is one part, or a scope and a part. */
  lemma NpmNameIff(s: string)
    ensures NpmName(s) <==> NamePart(s) || exists scope, name | NamePart(scope) && NamePart(name) :: s == Scoped(scope, name)
  {
    hide NamePart;
    if StartsWith(s, "@") {
      PartHasNoAt(s);
      if NpmName(s) { ScopedSplits(s, IndexOf(s, '/')); }
    }
    if scope, name :| NamePart(scope) && NamePart(name) && s == Scoped(scope, name) { ScopedIsName(scope, name); }
  }

  function Scoped(scope: string, name: string): string { "@" + scope + "/" + name }

  lemma PartHasNoAt(s: string)
    requires StartsWith(s, "@")
    ensures !NamePart(s)
  {
  }

  lemma ScopedSplits(s: string, slash: nat)
    requires StartsWith(s, "@") && 1 <= slash < |s| && s[slash] == '/'
    ensures s == Scoped(s[1..slash], s[slash + 1..])
  {
    assert s == s[..1] + s[1..slash] + [s[slash]] + s[slash + 1..];
  }

  lemma ScopedIsName(scope: string, name: string)
    requires NamePart(scope) && NamePart(name)
    ensures NpmName(Scoped(scope, name))
  {
    var s, slash := Scoped(scope, name), |scope| + 1;
    assert s[slash] == '/' && s[1..slash] == scope && s[slash + 1..] == name && s[0] == '@';
    PartHasNoSlash(scope);
    assert forall k | 1 <= k < slash :: s[k] == s[1..slash][k - 1];
    FirstSlash(s, slash);
  }

  lemma PartHasNoSlash(part: string)
    requires NamePart(part)
    ensures forall k | 0 <= k < |part| :: part[k] != '/'
  {
  }

  lemma FirstSlash(s: string, slash: nat)
    requires slash < |s| && s[slash] == '/' && forall k | 0 <= k < slash :: s[k] != '/'
    ensures IndexOf(s, '/') == slash
  {
  }

  /** `"version"`, spaces and a colon somewhere in the line. */
  predicate HasVersion(line: string) {
    exists i | 0 <= i < |line| :: VersionAt(line, i)
  }

  predicate VersionAt(line: string, i: nat)
    requires i < |line|
  {
    var word := "\"version\"";
    StartsWith(line[i..], word)
    && (var k := SkipSpaces(line[i..], |word|); k < |line[i..]| && line[i..][k] == ':')
  }

  /** The numbers of the lines with a version field, from line `n` to line `end`. */
  function VersionLines(lines: seq<string>, n: nat, end: nat): seq<nat>
    requires n >= 1
    decreases end + 1 - n
  {
    if n > end || n > |lines| then []
    else (if HasVersion(lines[n - 1]) then [n] else []) + VersionLines(lines, n + 1, end)
  }

  datatype Named = Named(name: string, version: string)

  /** The last member with the given key. */
  function FieldOf(decode: string -> string, ms: seq<Member>, key: string): Option<Value> {
    if ms == [] then None
    else if decode(ms[|ms| - 1].key) == key then Some(ms[|ms| - 1].elem.value)
    else FieldOf(decode, ms[..|ms| - 1], key)
  }

  function EntryOf(decode: string -> string, v: Value): Option<Named> {
    if !v.Object? then None
    else
      match (FieldOf(decode, v.members, "name"), FieldOf(decode, v.members, "version"))
      case (Some(Quoted(name)), Some(Quoted(version))) => Some(Named(decode(name), decode(version)))
      case _ => None
  }

  datatype ToolPin = ToolPin(name: string, version: string, line: nat)

  datatype Problem = BadJson | BadArray | SharedLines | BadEntry(index: nat)

  datatype ToolScan = ToolScan(npm: seq<ToolPin>, problems: seq<Problem>)

  datatype Parsed = NotJson | NotArray | ArrayOf(doc: Doc)

  predicate Overlapping(spans: seq<Span>) { exists k | 0 < k < |spans| :: spans[k].start <= spans[k - 1].end }

  function LinesOfSpan(lines: seq<string>, spans: seq<Span>, k: nat): seq<nat> {
    if k < |spans| && spans[k].start >= 1 then VersionLines(lines, spans[k].start, spans[k].end) else []
  }

  /** Element `k`'s pin, if it is an exact `{"name","version"}` with one version line in its span. */
  function PinOf(decode: string -> string, lines: seq<string>, spans: seq<Span>, v: Value, k: nat): Option<ToolPin> {
    match EntryOf(decode, v)
    case None => None
    case Some(entry) =>
      var hits := LinesOfSpan(lines, spans, k);
      if |hits| == 1 && NpmName(entry.name) && Lint.ExactSemver(entry.version) then Some(ToolPin(entry.name, entry.version, hits[0]))
      else None
  }

  function Entries(decode: string -> string, lines: seq<string>, spans: seq<Span>, es: seq<Elem>, k: nat): ToolScan
    requires k <= |es|
    decreases |es| - k
  {
    if k == |es| then ToolScan([], [])
    else
      var rest := Entries(decode, lines, spans, es, k + 1);
      match PinOf(decode, lines, spans, es[k].value, k)
      case Some(pin) => ToolScan([pin] + rest.npm, rest.problems)
      case None => ToolScan(rest.npm, [BadEntry(k)] + rest.problems)
  }

  function Scan(decode: string -> string, json: string, parsed: Parsed): ToolScan {
    match parsed
    case NotJson => ToolScan([], [BadJson])
    case NotArray => ToolScan([], [BadArray])
    case ArrayOf(doc) =>
      if Overlapping(SpansOf(json)) then ToolScan([], [SharedLines])
      else Entries(decode, SplitLines(json), SpansOf(json), doc.elems, 0)
  }

  method ScanCliTools(decode: string -> string, json: string, parsed: Parsed) returns (scan: ToolScan)
    ensures scan == Scan(decode, json, parsed)
  {
    hide SpansOf, PinOf, SplitLines, Overlapping;
    if parsed.NotJson? { return ToolScan([], [BadJson]); }
    if parsed.NotArray? { return ToolScan([], [BadArray]); }
    var elems := parsed.doc.elems;
    var spans := FindSpans(json);
    var lines := SplitLines(json);
    if Overlapping(spans) { return ToolScan([], [SharedLines]); }
    scan := ToolScan([], []);
    for k := 0 to |elems|
      invariant var rest := Entries(decode, lines, spans, elems, k);
                ToolScan(scan.npm + rest.npm, scan.problems + rest.problems) == Entries(decode, lines, spans, elems, 0)
    {
      match PinOf(decode, lines, spans, elems[k].value, k)
      case Some(pin) => scan := ToolScan(scan.npm + [pin], scan.problems);
      case None => scan := ToolScan(scan.npm, scan.problems + [BadEntry(k)]);
    }
  }

  lemma VersionLinesUnfold(lines: seq<string>, n: nat, end: nat, m: nat)
    requires 1 <= n <= end && n <= |lines|
    ensures m in VersionLines(lines, n, end) <==> (m == n && HasVersion(lines[n - 1])) || m in VersionLines(lines, n + 1, end)
  {
    hide HasVersion;
    var rest := VersionLines(lines, n + 1, end);
    assert m in [n] + rest <==> m == n || m in rest;
  }

  lemma {:induction false} VersionLinesAre(lines: seq<string>, n: nat, end: nat, m: nat)
    requires n >= 1
    ensures m in VersionLines(lines, n, end) <==> n <= m <= end && m <= |lines| && HasVersion(lines[m - 1])
    decreases end + 1 - n
  {
    hide HasVersion, VersionLines;
    if n <= end && n <= |lines| {
      VersionLinesUnfold(lines, n, end, m);
      VersionLinesAre(lines, n + 1, end, m);
    } else {
      NoVersionLines(lines, n, end);
    }
  }

  lemma NoVersionLines(lines: seq<string>, n: nat, end: nat)
    requires n >= 1 && (n > end || n > |lines|)
    ensures VersionLines(lines, n, end) == []
  {
  }

  lemma {:induction false} CleanEntries(decode: string -> string, lines: seq<string>, spans: seq<Span>, es: seq<Elem>, k: nat, j: nat)
    requires k <= j < |es| && Entries(decode, lines, spans, es, k).problems == []
    ensures |Entries(decode, lines, spans, es, k).npm| == |es| - k
    ensures PinOf(decode, lines, spans, es[j].value, j) == Some(Entries(decode, lines, spans, es, k).npm[j - k])
    decreases |es| - k
  {
    hide PinOf;
    if k + 1 < |es| { CleanEntries(decode, lines, spans, es, k + 1, if j == k then k + 1 else j); }
  }

  lemma PinMeans(decode: string -> string, lines: seq<string>, spans: seq<Span>, v: Value, k: nat, pin: ToolPin)
    requires PinOf(decode, lines, spans, v, k) == Some(pin)
    ensures v.Object? && EntryOf(decode, v) == Some(Named(pin.name, pin.version)) && Lint.ExactSemver(pin.version) && NpmName(pin.name)
    ensures LinesOfSpan(lines, spans, k) == [pin.line]
  {
    hide LinesOfSpan, FieldOf, Lint.ExactSemver;
  }

  /** Line `m` of the text is one of element `k`'s lines and has a version field. */
  predicate VersionLineOf(d: Doc, k: nat, m: nat)
    requires k < |d.elems|
  {
    var lines, span := SplitLines(Json(d)), ElemSpan(d, k);
    span.start <= m <= span.end && 1 <= m <= |lines| && HasVersion(lines[m - 1])
  }

  lemma CleanIsObjects(decode: string -> string, lines: seq<string>, spans: seq<Span>, es: seq<Elem>)
    requires Entries(decode, lines, spans, es, 0).problems == []
    ensures AllObjects(es)
  {
    hide Entries, PinOf;
    forall k | 0 <= k < |es| ensures es[k].value.Object? {
      CleanEntries(decode, lines, spans, es, 0, k);
      PinMeans(decode, lines, spans, es[k].value, k, Entries(decode, lines, spans, es, 0).npm[k]);
    }
  }

  /** Member `j` is the last one whose key reads `key`, and its value is a string that reads `text`. */
  predicate LastReads(decode: string -> string, ms: seq<Member>, key: string, text: string, j: nat) {
    && j < |ms| && decode(ms[j].key) == key && ms[j].elem.value.Quoted? && decode(ms[j].elem.value.raw) == text
    && forall i | j < i < |ms| :: decode(ms[i].key) != key
  }

  /** The parsed element is an object in which `key` holds the string `text`. */
  ghost predicate Holds(decode: string -> string, v: Value, key: string, text: string) {
    v.Object? && exists j :: LastReads(decode, v.members, key, text, j)
  }

  lemma {:induction false} FieldIsLast(decode: string -> string, ms: seq<Member>, key: string, text: string) returns (j: nat)
    requires FieldOf(decode, ms, key).Some? && FieldOf(decode, ms, key).value.Quoted?
    requires decode(FieldOf(decode, ms, key).value.raw) == text
    ensures LastReads(decode, ms, key, text, j)
    decreases |ms|
  {
    j := |ms| - 1;
    if decode(ms[j].key) != key { j := FieldIsLast(decode, ms[..j], key, text); }
  }

  lemma {:induction false} LastIsField(decode: string -> string, ms: seq<Member>, key: string, text: string, j: nat)
    requires LastReads(decode, ms, key, text, j)
    ensures FieldOf(decode, ms, key) == Some(ms[j].elem.value)
    decreases |ms|
  {
    if j < |ms| - 1 {
      assert decode(ms[|ms| - 1].key) != key;
      LastIsField(decode, ms[..|ms| - 1], key, text, j);
    }
  }

  lemma EntryHolds(decode: string -> string, v: Value, name: string, version: string)
    ensures EntryOf(decode, v) == Some(Named(name, version)) <==> Holds(decode, v, "name", name) && Holds(decode, v, "version", version)
  {
    hide FieldOf, LastReads;
    if EntryOf(decode, v) == Some(Named(name, version)) {
      var n := FieldIsLast(decode, v.members, "name", name);
      var m := FieldIsLast(decode, v.members, "version", version);
    }
    if Holds(decode, v, "name", name) && Holds(decode, v, "version", version) {
      var n :| LastReads(decode, v.members, "name", name, n);
      var m :| LastReads(decode, v.members, "version", version, m);
      LastIsField(decode, v.members, "name", name, n);
      LastIsField(decode, v.members, "version", version, m);
      LastReadsQuoted(decode, v.members, "name", name, n);
      LastReadsQuoted(decode, v.members, "version", version, m);
    }
  }

  lemma LastReadsQuoted(decode: string -> string, ms: seq<Member>, key: string, text: string, j: nat)
    requires LastReads(decode, ms, key, text, j)
    ensures j < |ms| && ms[j].elem.value.Quoted? && decode(ms[j].elem.value.raw) == text
  {
  }

  /** An entry's pin has the name and the version the element holds, and the line of its one version field. */
  lemma PinIsHeld(decode: string -> string, d: Doc, k: nat, pin: ToolPin)
    requires GoodDoc(d) && AllObjects(d.elems) && k < |d.elems|
    requires PinOf(decode, SplitLines(Json(d)), SpansOf(Json(d)), d.elems[k].value, k) == Some(pin)
    ensures Holds(decode, d.elems[k].value, "name", pin.name) && Holds(decode, d.elems[k].value, "version", pin.version)
    ensures NpmName(pin.name) && Lint.ExactSemver(pin.version)
    ensures forall m: nat :: VersionLineOf(d, k, m) <==> m == pin.line
  {
    hide PinOf, SpansOf, ElemSpan, EntryOf, SplitLines, Json, HasVersion, VersionLines, Lint.ExactSemver, Holds, NpmName;
    var lines, spans := SplitLines(Json(d)), SpansOf(Json(d));
    SpanOfElement(d, k);
    SpanStarts(d, k);
    PinMeans(decode, lines, spans, d.elems[k].value, k, pin);
    EntryHolds(decode, d.elems[k].value, pin.name, pin.version);
    var span := ElemSpan(d, k);
    forall m: nat ensures VersionLineOf(d, k, m) <==> m == pin.line {
      VersionLinesAre(lines, span.start, span.end, m);
      assert m in [pin.line] <==> m == pin.line;
    }
  }

  /**
   * When no problem is reported, pin `k` has the name and the version that element `k` of
   * the parsed array holds, and its line is the one line between that element's own braces
   * with a version field.
   */
  lemma PinsAlign(decode: string -> string, d: Doc, k: nat)
    requires GoodDoc(d) && k < |d.elems| && Scan(decode, Json(d), ArrayOf(d)).problems == []
    ensures var npm := Scan(decode, Json(d), ArrayOf(d)).npm;
            && |npm| == |d.elems|
            && Holds(decode, d.elems[k].value, "name", npm[k].name) && Holds(decode, d.elems[k].value, "version", npm[k].version)
            && NpmName(npm[k].name) && Lint.ExactSemver(npm[k].version)
            && forall m: nat :: VersionLineOf(d, k, m) <==> m == npm[k].line
  {
    hide Entries, PinOf, SpansOf, ElemSpan, EntryOf, SplitLines, Json, HasVersion, VersionLines, Overlapping, Lint.ExactSemver, Holds;
    var lines, spans := SplitLines(Json(d)), SpansOf(Json(d));
    CleanIsObjects(decode, lines, spans, d.elems);
    CleanEntries(decode, lines, spans, d.elems, 0, k);
    PinIsHeld(decode, d, k, Entries(decode, lines, spans, d.elems, 0).npm[k]);
  }

  lemma SpanStarts(d: Doc, k: nat)
    requires k < |d.elems|
    ensures ElemSpan(d, k).start >= 1
  {
  }

  /** Different entries' pins are on different lines, in array order. */
  lemma PinsAscend(decode: string -> string, d: Doc, k: nat)
    requires GoodDoc(d) && k + 1 < |d.elems| && Scan(decode, Json(d), ArrayOf(d)).problems == []
    ensures var npm := Scan(decode, Json(d), ArrayOf(d)).npm;
            |npm| == |d.elems| && npm[k].line < npm[k + 1].line
  {
    hide Entries, PinOf, SpansOf, ElemSpan, EntryOf, SplitLines, Json, HasVersion, Lint.ExactSemver, Holds;
    PinsAlign(decode, d, k);
    PinsAlign(decode, d, k + 1);
    var lines, spans := SplitLines(Json(d)), SpansOf(Json(d));
    CleanIsObjects(decode, lines, spans, d.elems);
    SpanOfElement(d, k);
    SpanOfElement(d, k + 1);
    var npm := Scan(decode, Json(d), ArrayOf(d)).npm;
    assert VersionLineOf(d, k, npm[k].line) && VersionLineOf(d, k + 1, npm[k + 1].line);
  }

  // ---------------------------------------------------------------------------
  // Which files scan without a problem
  // ---------------------------------------------------------------------------

  /** Element `k` is an accepted entry: a name and an exact version as strings, on one version line of its own. */
  ghost predicate GoodEntry(decode: string -> string, d: Doc, k: nat)
    requires k < |d.elems|
  {
    && (exists name :: Holds(decode, d.elems[k].value, "name", name) && NpmName(name))
    && (exists version :: Holds(decode, d.elems[k].value, "version", version) && Lint.ExactSemver(version))
    && (exists m: nat :: VersionLineOf(d, k, m) && forall n: nat :: VersionLineOf(d, k, n) ==> n == m)
  }

  /** Every entry starts on a line after the one its predecessor ends on. */
  predicate OwnLines(d: Doc) {
    forall k | 0 < k < |d.elems| :: ElemSpan(d, k).start > ElemSpan(d, k - 1).end
  }

  lemma {:induction false} VersionLinesAscend(lines: seq<string>, n: nat, end: nat)
    requires n >= 1
    ensures var ms := VersionLines(lines, n, end);
            (forall i | 0 <= i < |ms| :: n <= ms[i]) && (forall i, j | 0 <= i < j < |ms| :: ms[i] < ms[j])
    decreases end + 1 - n
  {
    hide HasVersion, VersionLines;
    if n <= end && n <= |lines| {
      VersionLinesAscend(lines, n + 1, end);
      VersionLinesStep(lines, n, end);
    } else {
      NoVersionLines(lines, n, end);
    }
  }

  lemma VersionLinesStep(lines: seq<string>, n: nat, end: nat)
    requires 1 <= n <= end && n <= |lines|
    ensures VersionLines(lines, n, end) == (if HasVersion(lines[n - 1]) then [n] else []) + VersionLines(lines, n + 1, end)
  {
    hide HasVersion;
  }

  lemma OneVersionLine(d: Doc, k: nat, m: nat)
    requires k < |d.elems| && VersionLineOf(d, k, m) && forall n: nat :: VersionLineOf(d, k, n) ==> n == m
    ensures VersionLines(SplitLines(Json(d)), ElemSpan(d, k).start, ElemSpan(d, k).end) == [m]
  {
    hide HasVersion, VersionLines, ElemSpan, SplitLines, Json;
    var lines, span := SplitLines(Json(d)), ElemSpan(d, k);
    SpanStarts(d, k);
    var ms := VersionLines(lines, span.start, span.end);
    VersionLinesAre(lines, span.start, span.end, m);
    VersionLinesAscend(lines, span.start, span.end);
    forall i | 0 <= i < |ms| ensures ms[i] == m {
      VersionLinesAre(lines, span.start, span.end, ms[i]);
      assert VersionLineOf(d, k, ms[i]);
    }
    VersionLinesAre(lines, span.start, span.end, m);
    assert ms[0] == ms[|ms| - 1];
  }

  lemma GoodEntryPin(decode: string -> string, d: Doc, k: nat)
    requires GoodDoc(d) && AllObjects(d.elems) && k < |d.elems| && GoodEntry(decode, d, k)
    ensures PinOf(decode, SplitLines(Json(d)), SpansOf(Json(d)), d.elems[k].value, k).Some?
  {
    hide Holds, VersionLineOf, SpansOf, ElemSpan, EntryOf, SplitLines, Json, VersionLines, Lint.ExactSemver;
    var name :| Holds(decode, d.elems[k].value, "name", name) && NpmName(name);
    var version :| Holds(decode, d.elems[k].value, "version", version) && Lint.ExactSemver(version);
    var m: nat :| VersionLineOf(d, k, m) && forall n: nat :: VersionLineOf(d, k, n) ==> n == m;
    EntryHolds(decode, d.elems[k].value, name, version);
    SpanOfElement(d, k);
    SpanStarts(d, k);
    OneVersionLine(d, k, m);
  }

  lemma {:induction false} EntriesClean(decode: string -> string, lines: seq<string>, spans: seq<Span>, es: seq<Elem>, k: nat)
    requires k <= |es| && forall j | k <= j < |es| :: PinOf(decode, lines, spans, es[j].value, j).Some?
    ensures Entries(decode, lines, spans, es, k).problems == []
    decreases |es| - k
  {
    hide PinOf;
    if k < |es| { EntriesClean(decode, lines, spans, es, k + 1); }
  }

  lemma OverlappingIs(d: Doc)
    requires GoodDoc(d) && AllObjects(d.elems)
    ensures Overlapping(SpansOf(Json(d))) <==> !OwnLines(d)
  {
    hide SpansOf, Json, ElemSpan;
    var spans := SpansOf(Json(d));
    if d.elems == [] { NoObjects(d); } else { SpanOfElement(d, 0); }
    assert |spans| == |d.elems|;
    forall k | 0 <= k < |d.elems| ensures spans[k] == ElemSpan(d, k) { SpanOfElement(d, k); }
    if Overlapping(spans) {
      var k :| 0 < k < |spans| && spans[k].start <= spans[k - 1].end;
      assert !(ElemSpan(d, k).start > ElemSpan(d, k - 1).end);
    }
    if !OwnLines(d) {
      var k :| 0 < k < |d.elems| && !(ElemSpan(d, k).start > ElemSpan(d, k - 1).end);
      assert spans[k].start <= spans[k - 1].end;
    }
  }

  lemma NoObjects(d: Doc)
    requires GoodDoc(d) && d.elems == []
    ensures SpansOf(Json(d)) == []
  {
    hide SpansOf, Json;
    SpansAreTopObjects(d);
  }

  lemma GoodIsObject(decode: string -> string, d: Doc, k: nat)
    requires k < |d.elems| && GoodEntry(decode, d, k)
    ensures d.elems[k].value.Object?
  {
    hide VersionLineOf, Lint.ExactSemver, LastReads;
  }

  /** A well-formed array scans without a problem exactly when its entries are good ones, each on its own lines. */
  lemma ScansCleanlyIff(decode: string -> string, d: Doc)
    requires GoodDoc(d)
    ensures Scan(decode, Json(d), ArrayOf(d)).problems == []
            <==> OwnLines(d) && forall k | 0 <= k < |d.elems| :: GoodEntry(decode, d, k)
  {
    hide Entries, PinOf, SpansOf, ElemSpan, SplitLines, Json, Overlapping, OwnLines, GoodEntry;
    var lines, spans := SplitLines(Json(d)), SpansOf(Json(d));
    if Scan(decode, Json(d), ArrayOf(d)).problems == [] {
      CleanIsObjects(decode, lines, spans, d.elems);
      OverlappingIs(d);
      forall k | 0 <= k < |d.elems| ensures GoodEntry(decode, d, k) { CleanIsGood(decode, d, k); }
    }
    if OwnLines(d) && forall k | 0 <= k < |d.elems| :: GoodEntry(decode, d, k) {
      forall k | 0 <= k < |d.elems| ensures d.elems[k].value.Object? { GoodIsObject(decode, d, k); }
      OverlappingIs(d);
      forall k | 0 <= k < |d.elems| ensures PinOf(decode, lines, spans, d.elems[k].value, k).Some? {
        GoodEntryPin(decode, d, k);
      }
      EntriesClean(decode, lines, spans, d.elems, 0);
    }
  }

  lemma CleanIsGood(decode: string -> string, d: Doc, k: nat)
    requires GoodDoc(d) && k < |d.elems| && Scan(decode, Json(d), ArrayOf(d)).problems == []
    ensures GoodEntry(decode, d, k)
  {
    hide Scan, Holds, VersionLineOf, Lint.ExactSemver, Json;
    PinsAlign(decode, d, k);
    var pin := Scan(decode, Json(d), ArrayOf(d)).npm[k];
    assert VersionLineOf(d, k, pin.line);
  }

  // ---------------------------------------------------------------------------
  // A version field in a line
  // ---------------------------------------------------------------------------

  function Versioned(before: string, gap: string, after: string): string { before + "\"version\"" + gap + ":" + after }

  lemma VersionedIs(before: string, gap: string, after: string)
    requires forall k | 0 <= k < |gap| :: IsSpace(gap[k])
    ensures HasVersion(Versioned(before, gap, after))
  {
    var word, line := "\"version\"", Versioned(before, gap, after);
    var tail := line[|before|..];
    assert tail == word + gap + ":" + after;
    forall j | |word| <= j < |word| + |gap| ensures IsSpace(tail[j]) { assert tail[j] == gap[j - |word|]; }
    assert tail[|word| + |gap|] == ':';
    SkipGap(tail, |word|, |word| + |gap|);
    assert word <= tail;
    assert VersionAt(line, |before|);
  }

  lemma VersionSpelled(line: string) returns (before: string, gap: string, after: string)
    requires HasVersion(line)
    ensures line == Versioned(before, gap, after) && forall k | 0 <= k < |gap| :: IsSpace(gap[k])
  {
    hide SkipSpaces;
    var word := "\"version\"";
    var i :| 0 <= i < |line| && VersionAt(line, i);
    var tail := line[i..];
    var k := SkipSpaces(tail, |word|);
    before, gap, after := line[..i], tail[|word|..k], tail[k + 1..];
    assert tail[..|word|] == word;
    FourParts(tail, |word|, k);
    Reassociate(before, word, gap, [tail[k]], after);
    assert line == before + tail;
  }

  lemma FourParts(s: string, n: nat, k: nat)
    requires n <= k < |s|
    ensures s == s[..n] + s[n..k] + [s[k]] + s[k + 1..]
  {
  }

  lemma Reassociate(a: string, b: string, c: string, d: string, e: string)
    ensures a + (b + c + d + e) == a + b + c + d + e
  {
  }

  /** A line has a version field exactly when it reads: anything, `"version"`, spaces, a colon, anything. */
  lemma HasVersionIff(line: string)
    ensures HasVersion(line) <==>
      exists before, gap, after :: line == Versioned(before, gap, after) && forall k | 0 <= k < |gap| :: IsSpace(gap[k])
  {
    hide HasVersion, Versioned;
    if HasVersion(line) { var before, gap, after := VersionSpelled(line); }
    if before, gap, after :| line == Versioned(before, gap, after) && forall k | 0 <= k < |gap| :: IsSpace(gap[k]) {
      VersionedIs(before, gap, after);
    }
  }

  lemma {:induction false} SkipGap(s: string, i: nat, k: nat)
    requires i <= k < |s| && (forall j | i <= j < k :: IsSpace(s[j])) && !IsSpace(s[k])
    ensures SkipSpaces(s, i) == k
    decreases k - i
  {
    if i < k { SkipGap(s, i + 1, k); }
  }

  // ---------------------------------------------------------------------------
  // What is reported, entry by entry
  // ---------------------------------------------------------------------------

  lemma {:induction false} EntriesAre(decode: string -> string, lines: seq<string>, spans: seq<Span>, es: seq<Elem>, k: nat, p: Problem)
    requires k <= |es|
    ensures p in Entries(decode, lines, spans, es, k).problems <==>
            p.BadEntry? && k <= p.index < |es| && PinOf(decode, lines, spans, es[p.index].value, p.index).None?
    decreases |es| - k
  {
    hide PinOf;
    if k < |es| { EntriesAre(decode, lines, spans, es, k + 1, p); }
  }

  lemma {:induction false} EntryPins(decode: string -> string, lines: seq<string>, spans: seq<Span>, es: seq<Elem>, k: nat, pin: ToolPin)
    requires k <= |es|
    ensures pin in Entries(decode, lines, spans, es, k).npm <==>
            exists j | k <= j < |es| :: PinOf(decode, lines, spans, es[j].value, j) == Some(pin)
    decreases |es| - k
  {
    hide PinOf;
    if k < |es| { EntryPins(decode, lines, spans, es, k + 1, pin); }
  }

  lemma {:induction false} EntryCount(decode: string -> string, lines: seq<string>, spans: seq<Span>, es: seq<Elem>, k: nat)
    requires k <= |es|
    ensures var scan := Entries(decode, lines, spans, es, k); |scan.npm| + |scan.problems| == |es| - k
    decreases |es| - k
  {
    hide PinOf;
    if k < |es| { EntryCount(decode, lines, spans, es, k + 1); }
  }

  /** The pin is what the entry holds. */
  ghost predicate PinsEntry(decode: string -> string, d: Doc, k: nat, pin: ToolPin)
    requires k < |d.elems|
  {
    && GoodEntry(decode, d, k) && VersionLineOf(d, k, pin.line)
    && Holds(decode, d.elems[k].value, "name", pin.name) && Holds(decode, d.elems[k].value, "version", pin.version)
  }

  lemma PinOfIs(decode: string -> string, d: Doc, k: nat)
    requires GoodDoc(d) && AllObjects(d.elems) && k < |d.elems|
    ensures var r := PinOf(decode, SplitLines(Json(d)), SpansOf(Json(d)), d.elems[k].value, k);
      && (r.Some? <==> GoodEntry(decode, d, k))
      && forall pin :: r == Some(pin) <==> PinsEntry(decode, d, k, pin)
  {
    hide PinOf, Holds, VersionLineOf, SpansOf, SplitLines, Json, Lint.ExactSemver, NpmName;
    var r := PinOf(decode, SplitLines(Json(d)), SpansOf(Json(d)), d.elems[k].value, k);
    if GoodEntry(decode, d, k) { GoodEntryPin(decode, d, k); }
    if r.Some? {
      PinIsHeld(decode, d, k, r.value);
      assert VersionLineOf(d, k, r.value.line);
      forall pin | PinsEntry(decode, d, k, pin) ensures r == Some(pin) {
        HoldsOne(decode, d.elems[k].value, "name", pin.name, r.value.name);
        HoldsOne(decode, d.elems[k].value, "version", pin.version, r.value.version);
      }
    }
  }

  lemma HoldsOne(decode: string -> string, v: Value, key: string, a: string, b: string)
    requires Holds(decode, v, key, a) && Holds(decode, v, key, b)
    ensures a == b
  {
    var i :| LastReads(decode, v.members, key, a, i);
    var j :| LastReads(decode, v.members, key, b, j);
    assert i == j;
  }

  lemma PinnedIff(decode: string -> string, d: Doc, pin: ToolPin)
    requires GoodDoc(d) && AllObjects(d.elems)
    ensures pin in Entries(decode, SplitLines(Json(d)), SpansOf(Json(d)), d.elems, 0).npm <==>
            exists k | 0 <= k < |d.elems| :: PinsEntry(decode, d, k, pin)
  {
    hide *;
    var lines, spans := SplitLines(Json(d)), SpansOf(Json(d));
    EntryPins(decode, lines, spans, d.elems, 0, pin);
    if k :| 0 <= k < |d.elems| && PinOf(decode, lines, spans, d.elems[k].value, k) == Some(pin) { PinOfIs(decode, d, k); }
    if k :| 0 <= k < |d.elems| && PinsEntry(decode, d, k, pin) {
      PinOfIs(decode, d, k);
      assert PinOf(decode, lines, spans, d.elems[k].value, k) == Some(pin);
    }
  }

  lemma BadIff(decode: string -> string, d: Doc, p: Problem)
    requires GoodDoc(d) && AllObjects(d.elems)
    ensures p in Entries(decode, SplitLines(Json(d)), SpansOf(Json(d)), d.elems, 0).problems <==>
            p.BadEntry? && p.index < |d.elems| && !GoodEntry(decode, d, p.index)
  {
    hide *;
    EntriesAre(decode, SplitLines(Json(d)), SpansOf(Json(d)), d.elems, 0, p);
    if p.BadEntry? && p.index < |d.elems| { PinOfIs(decode, d, p.index); }
  }

  /** In an array of objects on their own lines, exactly the bad entries are reported and exactly the good ones pinned. */
  lemma ReportsAre(decode: string -> string, d: Doc)
    requires GoodDoc(d) && AllObjects(d.elems) && OwnLines(d)
    ensures var scan := Scan(decode, Json(d), ArrayOf(d));
      && (forall p :: p in scan.problems <==> p.BadEntry? && p.index < |d.elems| && !GoodEntry(decode, d, p.index))
      && (forall pin :: pin in scan.npm <==> exists k | 0 <= k < |d.elems| :: PinsEntry(decode, d, k, pin))
      && |scan.npm| + |scan.problems| == |d.elems|
  {
    hide PinOf, Entries, GoodEntry, PinsEntry, SpansOf, SplitLines, Json, OwnLines, Overlapping, AllObjects;
    OverlappingIs(d);
    forall p { BadIff(decode, d, p); }
    forall pin { PinnedIff(decode, d, pin); }
    EntryCount(decode, SplitLines(Json(d)), SpansOf(Json(d)), d.elems, 0);
  }
}
