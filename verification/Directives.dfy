/** Fenced `nc:` directives: the two readers of a SKILL.md and the printer they invert. */
module Directives {
  import opened Text
  import Trimming

  datatype Directive = Directive(
    kind: string,
    args: seq<string>,
    attrs: map<string, string>,
    body: seq<string>,
    line: nat)

  function Attr(d: Directive, key: string): Option<string> {
    if key in d.attrs then Some(d.attrs[key]) else None
  }

  /** A fenced block as the pin scanner sees it: raw body lines with their line numbers. */
  datatype Fence = Fence(info: string, line: nat, body: seq<(string, nat)>)

  // ---------------------------------------------------------------------------
  // Fence lines and info strings
  // ---------------------------------------------------------------------------

  predicate IsFence(line: string) {
    && StartsWith(line, "```")
    && (|line| == 3 || !IsSpace(line[3]))
    && forall i | 3 <= i < |line| :: !IsLineTerminator(line[i])
  }

  /** The info string of an opening fence; a bare fence opens nothing. */
  function Info(line: string): Option<string> {
    if IsFence(line) && |line| > 3 then Some(Trim(line[3..])) else None
  }

  /** Index of the fence that closes a body starting at `j`, or the end. */
  function BodyEnd(lines: seq<string>, j: nat): (e: nat)
    requires j <= |lines|
    ensures j <= e <= |lines|
    ensures forall k | j <= k < e :: !IsFence(lines[k])
    ensures e < |lines| ==> IsFence(lines[e])
    decreases |lines| - j
  {
    if j < |lines| && !IsFence(lines[j]) then BodyEnd(lines, j + 1) else j
  }

  function Numbered(lines: seq<string>, from: nat, to: nat): (r: seq<(string, nat)>)
    requires from <= to <= |lines|
  {
    seq(to - from, k requires 0 <= k < to - from => (lines[from + k], from + k + 1))
  }

  function Fences(lines: seq<string>, i: nat): seq<Fence>
    decreases |lines| - i
  {
    if i >= |lines| then []
    else
      match Info(lines[i])
      case None => Fences(lines, i + 1)
      case Some(info) =>
        var j := BodyEnd(lines, i + 1);
        [Fence(info, i + 1, Numbered(lines, i + 1, j))] + Fences(lines, j + 1)
  }

  // ---------------------------------------------------------------------------
  // Directives
  // ---------------------------------------------------------------------------

  /** `split(/\s+/)` on text without leading or trailing spaces; `word` is the word begun. */
  function Tokens(s: string, word: string := ""): seq<string> {
    if s == "" then if word == "" then [] else [word]
    else if IsSpace(s[0]) then (if word == "" then [] else [word]) + Tokens(s[1..])
    else Tokens(s[1..], word + [s[0]])
  }

  predicate IsAttr(token: string) { IndexOf(token, ':') > 0 }

  function ArgsOf(tokens: seq<string>): seq<string> {
    if tokens == [] then []
    else (if IsAttr(tokens[0]) then [] else [tokens[0]]) + ArgsOf(tokens[1..])
  }

  /** The last token of a key wins. */
  function AttrsOf(tokens: seq<string>): map<string, string> {
    if tokens == [] then map[]
    else
      var last := tokens[|tokens| - 1];
      var before := AttrsOf(tokens[..|tokens| - 1]);
      if IsAttr(last) then before[last[..IndexOf(last, ':')] := last[IndexOf(last, ':') + 1..]] else before
  }

  function TrimmedBody(body: seq<string>): seq<string> {
    if body == [] then []
    else (if Trim(body[0]) == "" then [] else [Trim(body[0])]) + TrimmedBody(body[1..])
  }

  function FromBlock(info: string, body: seq<string>, line: nat): Directive {
    var tokens := Tokens(info);
    var tag := if tokens == [] then "" else tokens[0];
    var rest := if tokens == [] then [] else tokens[1..];
    Directive(if |tag| >= 3 then tag[3..] else "", ArgsOf(rest), AttrsOf(rest), TrimmedBody(body), line)
  }

  predicate IsDirective(f: Fence) { StartsWith(f.info, "nc:") }

  function Texts(body: seq<(string, nat)>): seq<string> {
    seq(|body|, k requires 0 <= k < |body| => body[k].0)
  }

  function FromFence(f: Fence): Directive { FromBlock(f.info, Texts(f.body), f.line) }

  /** The directives of a fence list: its `nc:` fences, in order. */
  function FromFences(fs: seq<Fence>): seq<Directive> {
    if fs == [] then []
    else (if IsDirective(fs[0]) then [FromFence(fs[0])] else []) + FromFences(fs[1..])
  }

  function Parse(markdown: string): seq<Directive> { Read(SplitLines(markdown), 0) }

  // ---------------------------------------------------------------------------
  // The two readers
  // ---------------------------------------------------------------------------

  /** The pin scanner's reader. */
  method ReadFences(markdown: string) returns (out: seq<Fence>)
    ensures out == Fences(SplitLines(markdown), 0)
  {
    hide Fences, SplitLines, Info, Numbered, BodyEnd;
    var lines := SplitLines(markdown);
    out := [];
    var i := 0;
    while i < |lines|
      invariant out + Fences(lines, i) == Fences(lines, 0)
      decreases |lines| - i
    {
      FencesAfter(out, lines, i);
      var info := Info(lines[i]);
      if info.None? {
        i := i + 1;
        continue;
      }
      var j, body := ReadNumbered(lines, i + 1);
      out := out + [Fence(info.value, i + 1, body)];
      i := j + 1;
    }
    NoFences(lines, i);
  }

  lemma NoFences(lines: seq<string>, i: nat)
    requires i >= |lines|
    ensures Fences(lines, i) == []
  {
  }

  lemma FencesAfter(out: seq<Fence>, lines: seq<string>, i: nat)
    requires i < |lines|
    ensures Info(lines[i]).None? ==> Fences(lines, i) == Fences(lines, i + 1)
    ensures
      Info(lines[i]).Some? ==>
        var j := BodyEnd(lines, i + 1);
        out + Fences(lines, i) == out + [Fence(Info(lines[i]).value, i + 1, Numbered(lines, i + 1, j))] + Fences(lines, j + 1)
  {
  }

  method ReadNumbered(lines: seq<string>, from: nat) returns (j: nat, body: seq<(string, nat)>)
    requires from <= |lines|
    ensures j == BodyEnd(lines, from) && body == Numbered(lines, from, j)
  {
    body := [];
    j := from;
    while j < |lines| && !IsFence(lines[j])
      invariant from <= j <= |lines|
      invariant body == Numbered(lines, from, j)
      invariant BodyEnd(lines, j) == BodyEnd(lines, from)
    {
      body := body + [(lines[j], j + 1)];
      j := j + 1;
    }
  }

  /** The directives from line `i` on. */
  function Read(lines: seq<string>, i: nat): seq<Directive> { FromFences(Fences(lines, i)) }

  /** The line after what opens at `i`, and the directive it holds, if any. */
  function Next(lines: seq<string>, i: nat): (n: nat)
    requires i < |lines|
    ensures n > i
  {
    if Info(lines[i]).None? then i + 1 else BodyEnd(lines, i + 1) + 1
  }

  function Piece(lines: seq<string>, i: nat): seq<Directive>
    requires i < |lines|
  {
    match Info(lines[i])
    case None => []
    case Some(info) =>
      if StartsWith(info, "nc:") then [FromBlock(info, lines[i + 1..BodyEnd(lines, i + 1)], i + 1)] else []
  }

  lemma ReadStep(lines: seq<string>, i: nat)
    requires i < |lines|
    ensures Read(lines, i) == Piece(lines, i) + Read(lines, Next(lines, i))
  {
    if Info(lines[i]).Some? {
      var j := BodyEnd(lines, i + 1);
      var fence, rest := Fence(Info(lines[i]).value, i + 1, Numbered(lines, i + 1, j)), Fences(lines, j + 1);
      assert Texts(fence.body) == lines[i + 1..j];
      assert ([fence] + rest)[1..] == rest;
    }
  }

  lemma ReadAfter(out: seq<Directive>, lines: seq<string>, i: nat)
    requires i < |lines|
    ensures out + Read(lines, i) == (out + Piece(lines, i)) + Read(lines, Next(lines, i))
  {
    ReadStep(lines, i);
  }

  /** The directive parser reads exactly the `nc:` fences of the other reader. */
  method ParseDirectives(markdown: string) returns (out: seq<Directive>)
    ensures out == FromFences(Fences(SplitLines(markdown), 0))
  {
    var lines := SplitLines(markdown);
    out := [];
    var i := 0;
    while i < |lines|
      invariant out + Read(lines, i) == Read(lines, 0)
      decreases |lines| - i
    {
      ReadAfter(out, lines, i);
      var piece, next := ReadBlock(lines, i);
      out, i := out + piece, next;
    }
  }

  method ReadBlock(lines: seq<string>, i: nat) returns (piece: seq<Directive>, next: nat)
    requires i < |lines|
    ensures piece == Piece(lines, i) && next == Next(lines, i)
  {
    var info := Info(lines[i]);
    if info.None? { return [], i + 1; }
    var j, body := ReadBody(lines, i + 1);
    piece := if StartsWith(info.value, "nc:") then [FromBlock(info.value, body, i + 1)] else [];
    next := j + 1;
  }

  method ReadBody(lines: seq<string>, from: nat) returns (j: nat, body: seq<string>)
    requires from <= |lines|
    ensures j == BodyEnd(lines, from) && body == lines[from..j]
  {
    body := [];
    j := from;
    while j < |lines| && !IsFence(lines[j])
      invariant from <= j <= |lines|
      invariant body == lines[from..j]
      invariant BodyEnd(lines, j) == BodyEnd(lines, from)
    {
      body := body + [lines[j]];
      j := j + 1;
    }
  }

  // ---------------------------------------------------------------------------
  // Printing and parsing back
  // ---------------------------------------------------------------------------

  /** A document: prose lines and printed directives. `tokens` is one spelling of args and attrs. */
  datatype Item = Prose(text: string) | Block(directive: Directive, tokens: seq<string>)

  predicate IsToken(t: string) { t != "" && forall i | 0 <= i < |t| :: !IsSpace(t[i]) }

  predicate AllTokens(tokens: seq<string>) { forall i | 0 <= i < |tokens| :: IsToken(tokens[i]) }

  /** `tokens` spells the arguments and attributes of `d`. */
  predicate Spells(tokens: seq<string>, d: Directive) {
    AllTokens(tokens) && ArgsOf(tokens) == d.args && AttrsOf(tokens) == d.attrs
  }

  predicate WellFormed(item: Item) {
    match item
    case Prose(text) => Info(text).None?
    case Block(d, tokens) =>
      && (forall i | 0 <= i < |d.kind| :: !IsSpace(d.kind[i]))
      && Spells(tokens, d)
      && (forall k | 0 <= k < |d.body| :: d.body[k] != "" && Trim(d.body[k]) == d.body[k] && !IsFence(d.body[k]))
  }

  predicate AllWellFormed(items: seq<Item>) { forall k | 0 <= k < |items| :: WellFormed(items[k]) }

  function OpeningLine(d: Directive, tokens: seq<string>): string {
    "```" + Join(["nc:" + d.kind] + tokens, " ")
  }

  function PrintItem(item: Item): seq<string> {
    match item
    case Prose(text) => [text]
    case Block(d, tokens) => [OpeningLine(d, tokens)] + d.body + ["```"]
  }

  function PrintItems(items: seq<Item>): seq<string> {
    if items == [] then [] else PrintItem(items[0]) + PrintItems(items[1..])
  }

  /** The directives of a document, each at the line its fence lands on. */
  function Expected(items: seq<Item>, before: nat): seq<Directive> {
    if items == [] then []
    else ItemDirectives(items[0], before) + Expected(items[1..], before + |PrintItem(items[0])|)
  }

  lemma {:induction false} TokensOfWord(t: string, word: string, rest: string)
    requires forall i | 0 <= i < |t| :: !IsSpace(t[i])
    ensures Tokens(t + rest, word) == Tokens(rest, word + t)
  {
    if t == "" {
      assert t + rest == rest && word + t == word;
    } else {
      assert (t + rest)[1..] == t[1..] + rest;
      TokensOfWord(t[1..], word + [t[0]], rest);
      assert word + [t[0]] + t[1..] == word + t;
    }
  }

  /** Joining tokens with single spaces and splitting gives them back. */
  lemma {:induction false} TokensOfJoin(tokens: seq<string>)
    requires AllTokens(tokens)
    ensures Tokens(Join(tokens, " ")) == tokens
  {
    if |tokens| == 1 {
      TokensOfWord(tokens[0], "", "");
      assert tokens[0] + "" == tokens[0] && "" + tokens[0] == tokens[0];
      assert tokens == [tokens[0]] == Tokens("", tokens[0]);
    } else if |tokens| > 1 {
      TokensOfJoin(tokens[1..]);
      var rest := " " + Join(tokens[1..], " ");
      TokensOfWord(tokens[0], "", rest);
      assert "" + tokens[0] == tokens[0];
      assert rest[1..] == Join(tokens[1..], " ");
      assert Join(tokens, " ") == tokens[0] + rest;
    }
  }

  lemma {:induction false} JoinEnds(tokens: seq<string>)
    requires tokens != [] && AllTokens(tokens)
    ensures
      var s := Join(tokens, " ");
      s != "" && s[0] == tokens[0][0] && !IsSpace(s[|s| - 1])
  {
    if |tokens| > 1 { JoinEnds(tokens[1..]); }
  }

  predicate OneLine(s: string) { forall i | 0 <= i < |s| :: !IsLineTerminator(s[i]) }

  lemma {:induction false} JoinOneLine(tokens: seq<string>)
    requires AllTokens(tokens)
    ensures OneLine(Join(tokens, " "))
  {
    if |tokens| > 1 { JoinOneLine(tokens[1..]); }
  }

  lemma OpeningIsRead(d: Directive, tokens: seq<string>)
    requires WellFormed(Block(d, tokens))
    ensures Info(OpeningLine(d, tokens)) == Some(Join(["nc:" + d.kind] + tokens, " "))
    ensures StartsWith(Join(["nc:" + d.kind] + tokens, " "), "nc:")
  {
    var all := ["nc:" + d.kind] + tokens;
    JoinEnds(all);
    JoinOneLine(all);
    var line, info := OpeningLine(d, tokens), Join(all, " ");
    assert line[3..] == info;
    forall i | 3 <= i < |line| ensures !IsLineTerminator(line[i]) { assert line[i] == info[i - 3]; }
    Trimming.TightTrims(info);
  }

  lemma {:induction false} BodyUnchanged(body: seq<string>)
    requires forall k | 0 <= k < |body| :: body[k] != "" && Trim(body[k]) == body[k]
    ensures TrimmedBody(body) == body
  {
    if body != [] { BodyUnchanged(body[1..]); }
  }

  /** A printed block is read back as its directive, at its own line. */
  lemma BlockIsRead(d: Directive, tokens: seq<string>, line: nat)
    requires WellFormed(Block(d, tokens))
    ensures FromBlock(Join(["nc:" + d.kind] + tokens, " "), d.body, line) == d.(line := line)
  {
    var all := ["nc:" + d.kind] + tokens;
    TokensOfJoin(all);
    BodyUnchanged(d.body);
    assert all[1..] == tokens;
    assert ("nc:" + d.kind)[3..] == d.kind;
  }

  lemma {:induction false} BodyEndAt(lines: seq<string>, j: nat, e: nat)
    requires j <= e < |lines| && IsFence(lines[e])
    requires forall k | j <= k < e :: !IsFence(lines[k])
    ensures BodyEnd(lines, j) == e
    decreases e - j
  {
    if j < e { BodyEndAt(lines, j + 1, e); }
  }

  /** Reading one printed block. */
  lemma PieceOfBlock(lines: seq<string>, i: nat, d: Directive, tokens: seq<string>)
    requires WellFormed(Block(d, tokens))
    requires i + |d.body| + 2 <= |lines|
    requires lines[i] == OpeningLine(d, tokens)
    requires lines[i + 1..i + 1 + |d.body|] == d.body
    requires lines[i + 1 + |d.body|] == "```"
    ensures Piece(lines, i) == [d.(line := i + 1)] && Next(lines, i) == i + |d.body| + 2
  {
    var end := i + 1 + |d.body|;
    forall k | i + 1 <= k < end ensures !IsFence(lines[k]) {
      assert lines[k] == lines[i + 1..end][k - i - 1] == d.body[k - i - 1];
    }
    OpeningIsRead(d, tokens);
    BodyEndAt(lines, i + 1, end);
    BlockIsRead(d, tokens, i + 1);
  }

  function ItemDirectives(item: Item, i: nat): seq<Directive> {
    if item.Prose? then [] else [item.directive.(line := i + 1)]
  }

  lemma ItemIsRead(lines: seq<string>, i: nat, item: Item)
    requires WellFormed(item) && i + |PrintItem(item)| <= |lines|
    requires forall k | 0 <= k < |PrintItem(item)| :: lines[i + k] == PrintItem(item)[k]
    ensures i < |lines| && Next(lines, i) == i + |PrintItem(item)|
    ensures Piece(lines, i) == ItemDirectives(item, i)
  {
    var printed := PrintItem(item);
    assert lines[i] == printed[0];
    if item.Block? {
      var d := item.directive;
      forall k | 0 <= k < |d.body| ensures lines[i + 1 + k] == d.body[k] { assert lines[i + (k + 1)] == printed[k + 1]; }
      assert lines[i + (1 + |d.body|)] == printed[|d.body| + 1];
      PieceOfBlock(lines, i, d, item.tokens);
    }
  }

  lemma ReadHead(before: seq<string>, item: Item, rest: seq<string>)
    requires WellFormed(item)
    ensures
      var lines, next := before + PrintItem(item) + rest, |before| + |PrintItem(item)|;
      Read(lines, |before|) == ItemDirectives(item, |before|) + Read(lines, next)
  {
    hide *;
    var lines := before + PrintItem(item) + rest;
    ItemIsRead(lines, |before|, item);
    ReadStep(lines, |before|);
  }

  lemma ReadNothing(before: seq<string>)
    ensures Read(before + PrintItems([]), |before|) == Expected([], |before|)
  {
    assert before + PrintItems([]) == before;
  }

  lemma {:induction false} ReadItems(before: seq<string>, items: seq<Item>)
    requires AllWellFormed(items)
    ensures Read(before + PrintItems(items), |before|) == Expected(items, |before|)
    decreases |items|
  {
    hide *;
    if items == [] {
      ReadNothing(before);
    } else {
      var printed, rest := PrintItem(items[0]), PrintItems(items[1..]);
      ExpectedStep(items, |before|);
      Regroup(before, printed, rest);
      ReadHead(before, items[0], rest);
      ReadItems(before + printed, items[1..]);
    }
  }

  lemma ExpectedStep(items: seq<Item>, i: nat)
    requires items != [] && AllWellFormed(items)
    ensures WellFormed(items[0]) && AllWellFormed(items[1..])
    ensures PrintItems(items) == PrintItem(items[0]) + PrintItems(items[1..])
    ensures Expected(items, i)
         == ItemDirectives(items[0], i) + Expected(items[1..], i + |PrintItem(items[0])|)
  {
  }

  /** A printed document parses back to its directives, with only line numbers following the prose. */
  lemma PrintThenParse(items: seq<Item>)
    requires items != [] && AllWellFormed(items)
    requires forall l | l in PrintItems(items) :: '\n' !in l
    ensures Parse(JoinLines(PrintItems(items))) == Expected(items, 0)
  {
    SplitJoin(PrintItems(items));
    ReadItems([], items);
    assert [] + PrintItems(items) == PrintItems(items);
  }

  predicate IsArg(a: string) { IsToken(a) && !IsAttr(a) }

  predicate IsKey(k: string) { IsToken(k) && IndexOf(k, ':') < 0 }

  predicate IsValue(v: string) { forall i | 0 <= i < |v| :: !IsSpace(v[i]) }

  lemma {:induction false} ArgsOnly(args: seq<string>)
    requires forall k | 0 <= k < |args| :: IsArg(args[k])
    ensures ArgsOf(args) == args && AttrsOf(args) == map[]
  {
    if args != [] {
      ArgsOnly(args[1..]);
      NoAttrs(args);
    }
  }

  lemma {:induction false} NoAttrs(args: seq<string>)
    requires forall k | 0 <= k < |args| :: IsArg(args[k])
    ensures AttrsOf(args) == map[]
  {
    if args != [] { NoAttrs(args[..|args| - 1]); }
  }

  lemma {:induction false} ArgsOfAppend(tokens: seq<string>, t: string)
    requires IsAttr(t)
    ensures ArgsOf(tokens + [t]) == ArgsOf(tokens)
  {
    if tokens != [] {
      assert (tokens + [t])[1..] == tokens[1..] + [t];
      ArgsOfAppend(tokens[1..], t);
    }
  }

  lemma {:induction false} ColonAt(key: string, value: string, from: nat)
    requires IndexOf(key, ':') < 0 && from <= |key|
    ensures IndexOf(key + ":" + value, ':', from) == |key|
    decreases |key| - from
  {
    if from < |key| { ColonAt(key, value, from + 1); }
  }

  lemma SpellOneMore(before: seq<string>, k: string, v: string, d: Directive, fewer: map<string, string>)
    requires IsKey(k) && IsValue(v) && Spells(before, d.(attrs := fewer)) && d.attrs == fewer[k := v]
    ensures Spells(before + [k + ":" + v], d)
  {
    hide ArgsOf, IndexOf;
    var token := k + ":" + v;
    ColonAt(k, v, 0);
    assert token[..|k|] == k && token[|k| + 1..] == v;
    ArgsOfAppend(before, token);
    assert (before + [token])[..|before|] == before;
    assert IsToken(token);
  }

  /** Every directive without awkward characters has a spelling, so the round trip covers it. */
  lemma {:induction false} HasSpelling(d: Directive) returns (tokens: seq<string>)
    requires forall k | 0 <= k < |d.args| :: IsArg(d.args[k])
    requires forall k | k in d.attrs :: IsKey(k) && IsValue(d.attrs[k])
    ensures Spells(tokens, d)
    decreases |d.attrs|
  {
    hide Spells, IsArg, IsKey, IsValue;
    if d.attrs == map[] {
      tokens := d.args;
      SpellsArgs(d);
    } else {
      var k :| k in d.attrs;
      var fewer := d.attrs - {k};
      assert fewer.Keys == d.attrs.Keys - {k};
      assert |fewer.Keys| < |d.attrs.Keys|;
      var before := HasSpelling(d.(attrs := fewer));
      SpellOneMore(before, k, d.attrs[k], d, fewer);
      tokens := before + [k + ":" + d.attrs[k]];
    }
  }

  lemma SpellsArgs(d: Directive)
    requires d.attrs == map[] && forall k | 0 <= k < |d.args| :: IsArg(d.args[k])
    ensures Spells(d.args, d)
  {
    ArgsOnly(d.args);
  }
}
