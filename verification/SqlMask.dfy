/** The query wrapper's lexer: quoted text and comments become blanks of the same shape. */
module SqlMask {
  import opened Text
  import Trimming
  import Vars

  predicate IsQuote(c: char) { c == '\'' || c == '"' || c == '`' }

  // ---------------------------------------------------------------------------
  // One lexical step: how far the span opening at the head of `s` reaches
  // ---------------------------------------------------------------------------

  /** Length of the `$tag$` or `$$` at the head of `s`, or 0. */
  function DollarTag(s: string): (n: nat)
    ensures n <= |s|
    ensures n > 0 ==> n >= 2 && s[0] == '$' && s[n - 1] == '$' && forall i | 0 < i < n - 1 :: IsIdentPart(s[i])
  {
    if |s| < 2 || s[0] != '$' then 0
    else if s[1] == '$' then 2
    else if !IsIdentStart(s[1]) then 0
    else
      var k := Vars.SkipIdent(s, 2);
      if k < |s| && s[k] == '$' then k + 1 else 0
  }

  /** End of the quoted text whose interior starts at `i`; a doubled quote stays inside. */
  function QuoteEnd(s: string, q: char, i: nat): (k: nat)
    requires i <= |s|
    ensures i <= k <= |s|
    decreases |s| - i
  {
    if i == |s| then i
    else if s[i] != q then QuoteEnd(s, q, i + 1)
    else if i + 1 < |s| && s[i + 1] == q then QuoteEnd(s, q, i + 2)
    else i + 1
  }

  function Past(s: string, close: string, from: nat): (k: nat)
    ensures from <= |s| ==> from <= k <= |s|
  {
    var end := IndexOfText(s, close, from);
    if end == -1 || end + |close| > |s| then |s| else end + |close|
  }

  predicate Opens(s: string) {
    || StartsWith(s, "--") || StartsWith(s, "/*") || DollarTag(s) > 0
    || (s != "" && (IsQuote(s[0]) || s[0] == '['))
  }

  /** Length of the span `s` opens with. */
  function SpanLength(s: string): (n: nat)
    requires Opens(s)
    ensures 0 < n <= |s|
  {
    if StartsWith(s, "--") then Past(s, "\n", 2)
    else if StartsWith(s, "/*") then Past(s, "*/", 2)
    else
      var tag := DollarTag(s);
      if tag > 0 then Past(s, s[..tag], tag)
      else if IsQuote(s[0]) then QuoteEnd(s, s[0], 1)
      else Past(s, "]", 1)
  }

  function Blank(s: string): (r: string)
    ensures |r| == |s|
    ensures forall i | 0 <= i < |s| :: r[i] == (if s[i] == '\n' then '\n' else ' ')
  {
    seq(|s|, i requires 0 <= i < |s| => if s[i] == '\n' then '\n' else ' ')
  }

  function Mask(s: string): string {
    if s == "" then ""
    else if Opens(s) then Blank(s[..SpanLength(s)]) + Mask(s[SpanLength(s)..])
    else [s[0]] + Mask(s[1..])
  }

  /** How far the span at the head of `rest` reaches, or 0 for a character of code. */
  method ScanSpan(rest: string) returns (length: nat)
    requires rest != ""
    ensures length == if Opens(rest) then SpanLength(rest) else 0
  {
    if StartsWith(rest, "--") { return Past(rest, "\n", 2); }
    if StartsWith(rest, "/*") { return Past(rest, "*/", 2); }
    var tag := DollarTag(rest);
    if tag > 0 { return Past(rest, rest[..tag], tag); }
    if IsQuote(rest[0]) {
      length := ScanQuoted(rest);
      return;
    }
    if rest[0] == '[' { return Past(rest, "]", 1); }
    return 0;
  }

  /** The masking loop. */
  method MaskSqlNonCode(statement: string) returns (masked: string)
    ensures masked == Mask(statement)
  {
    masked := "";
    var i := 0;
    while i < |statement|
      invariant 0 <= i <= |statement|
      invariant masked + Mask(statement[i..]) == Mask(statement)
    {
      ghost var before := masked;
      var length := ScanSpan(statement[i..]);
      var next := if length > 0 then i + length else i + 1;
      var piece := if length > 0 then Blank(statement[i..next]) else [statement[i]];
      MaskStep(statement, i, next);
      masked := masked + piece;
      i := next;
      assert before + (piece + Mask(statement[i..])) == masked + Mask(statement[i..]);
    }
  }

  lemma MaskStep(s: string, i: nat, next: nat)
    requires i < |s|
    requires next == i + if Opens(s[i..]) then SpanLength(s[i..]) else 1
    ensures Mask(s[i..]) == (if Opens(s[i..]) then Blank(s[i..next]) else [s[i]]) + Mask(s[next..])
  {
    var rest := s[i..];
    assert rest[..next - i] == s[i..next] && rest[next - i..] == s[next..];
  }

  /** The inner loop over a quoted span. */
  method ScanQuoted(rest: string) returns (next: nat)
    requires rest != ""
    ensures next == QuoteEnd(rest, rest[0], 1)
  {
    next := 1;
    while next < |rest|
      invariant 1 <= next <= |rest|
      invariant QuoteEnd(rest, rest[0], next) == QuoteEnd(rest, rest[0], 1)
    {
      if rest[next] != rest[0] { next := next + 1; continue; }
      if next + 1 < |rest| && rest[next + 1] == rest[0] { next := next + 2; continue; }
      next := next + 1;
      break;
    }
  }

  // ---------------------------------------------------------------------------
  // What the mask keeps
  // ---------------------------------------------------------------------------

  /** Same length, newlines kept, nothing changed except to a space. */
  ghost predicate SameShape(s: string, m: string) {
    |m| == |s| && forall i | 0 <= i < |s| :: m[i] == s[i] || (m[i] == ' ' && s[i] != '\n')
  }

  lemma SameShapeConcat(s: string, m: string, s': string, m': string)
    requires SameShape(s, m) && SameShape(s', m')
    ensures SameShape(s + s', m + m')
  {
  }

  lemma MaskUnfolds(s: string) returns (piece: string)
    requires s != ""
    ensures 0 < |piece| <= |s| && SameShape(s[..|piece|], piece) && Mask(s) == piece + Mask(s[|piece|..])
  {
    piece := if Opens(s) then Blank(s[..SpanLength(s)]) else [s[0]];
  }

  /** The mask keeps the length and every newline, and changes a character only to a space. */
  lemma {:induction false} MaskKeepsShape(s: string)
    ensures SameShape(s, Mask(s))
  {
    if s != "" {
      hide *;
      var piece := MaskUnfolds(s);
      var n := |piece|;
      MaskKeepsShape(s[n..]);
      SameShapeConcat(s[..n], piece, s[n..], Mask(s[n..]));
      assert s[..n] + s[n..] == s;
    }
  }

  /** No comment, quote, bracket or dollar tag opens anywhere in `s`. */
  ghost predicate NothingOpens(s: string) {
    forall i | 0 <= i < |s| :: !Opens(s[i..])
  }

  /** `m` differs from `s` only by blanks. */
  ghost predicate Blanked(s: string, m: string) {
    |m| == |s| && forall i | 0 <= i < |s| :: m[i] == s[i] || m[i] == ' '
  }

  /** An identifier run in blanked text was one before blanking. */
  lemma {:induction false} IdentEndBlanked(s: string, m: string, i: nat)
    requires Blanked(s, m) && i <= |s|
    requires Vars.SkipIdent(m, i) < |m| && m[Vars.SkipIdent(m, i)] == '$'
    ensures Vars.SkipIdent(s, i) == Vars.SkipIdent(m, i)
    decreases |s| - i
  {
    if i < |m| && IsIdentPart(m[i]) { IdentEndBlanked(s, m, i + 1); }
  }

  lemma DollarTagBlanked(s: string, m: string)
    requires Blanked(s, m) && DollarTag(m) > 0
    ensures DollarTag(s) > 0
  {
    if m[1] != '$' { IdentEndBlanked(s, m, 2); }
  }

  /** Blanking never creates an opener at a character it left alone. */
  lemma BlankingOpensNothing(s: string, m: string)
    requires Blanked(s, m) && s != ""
    requires !Opens(s)
    ensures !Opens(m)
  {
    if DollarTag(m) > 0 { DollarTagBlanked(s, m); }
  }

  lemma SpaceOpensNothing(s: string)
    requires s != "" && (s[0] == ' ' || s[0] == '\n')
    ensures !Opens(s)
  {
  }

  lemma NothingOpensAfter(prefix: string, rest: string)
    requires NothingOpens(rest)
    requires forall i | 0 <= i < |prefix| :: !Opens((prefix + rest)[i..])
    ensures NothingOpens(prefix + rest)
  {
    var all := prefix + rest;
    forall i | |prefix| <= i < |all| ensures !Opens(all[i..]) {
      assert all[i..] == rest[i - |prefix|..];
    }
  }

  /** The mask leaves no opener behind. */
  lemma {:induction false} MaskOpensNothing(s: string)
    ensures NothingOpens(Mask(s))
  {
    if s != "" {
      if Opens(s) {
        var n := SpanLength(s);
        var blank, rest := Blank(s[..n]), Mask(s[n..]);
        MaskOpensNothing(s[n..]);
        forall i | 0 <= i < |blank| ensures !Opens((blank + rest)[i..]) {
          SpaceOpensNothing((blank + rest)[i..]);
        }
        NothingOpensAfter(blank, rest);
      } else {
        MaskOpensNothing(s[1..]);
        MaskKeepsShape(s);
        BlankingOpensNothing(s, Mask(s));
        assert Mask(s)[0..] == Mask(s);
        NothingOpensAfter([s[0]], Mask(s[1..]));
      }
    }
  }

  /** Text in which nothing opens is its own mask. */
  lemma {:induction false} MaskOfCode(s: string)
    requires NothingOpens(s)
    ensures Mask(s) == s
  {
    if s != "" {
      assert s[0..] == s;
      forall i | 0 <= i < |s[1..]| ensures !Opens(s[1..][i..]) {
        assert s[1..][i..] == s[i + 1..];
      }
      MaskOfCode(s[1..]);
    }
  }

  lemma MaskIdempotent(s: string)
    ensures Mask(Mask(s)) == Mask(s)
  {
    MaskOpensNothing(s);
    MaskOfCode(Mask(s));
  }

  // ---------------------------------------------------------------------------
  // The mask against a grammar of statements
  // ---------------------------------------------------------------------------

  /** What can be opened and never closed before the statement ends. */
  datatype Opening = Dashes | Slash | Tag(name: string) | Mark(quote: char) | Square

  datatype Token =
    | Code(c: char)
    | LineComment(text: string)
    | BlockComment(text: string)
    | Dollar(tag: string, text: string)
    | Quoted(quote: char, text: string)
    | Bracketed(text: string)
    | Unclosed(opening: Opening, text: string)

  function Doubled(q: char, s: string): string {
    if s == "" then "" else (if s[0] == q then [q, q] else [s[0]]) + Doubled(q, s[1..])
  }

  function Print(t: Token): string {
    match t
    case Code(c) => [c]
    case LineComment(text) => "--" + text + "\n"
    case BlockComment(text) => "/*" + text + "*/"
    case Dollar(tag, text) => "$" + tag + "$" + text + ("$" + tag + "$")
    case Quoted(q, text) => [q] + Doubled(q, text) + [q]
    case Bracketed(text) => "[" + text + "]"
    case Unclosed(opening, text) => OpeningText(opening) + (if opening.Mark? then Doubled(opening.quote, text) else text)
  }

  function OpeningText(o: Opening): string {
    match o
    case Dashes => "--"
    case Slash => "/*"
    case Tag(name) => "$" + name + "$"
    case Mark(q) => [q]
    case Square => "["
  }

  function ClosingText(o: Opening): string {
    match o
    case Dashes => "\n"
    case Slash => "*/"
    case Tag(name) => "$" + name + "$"
    case Mark(q) => [q]
    case Square => "]"
  }

  function PrintAll(ts: seq<Token>): string {
    if ts == [] then "" else Print(ts[0]) + PrintAll(ts[1..])
  }

  /** `close` does not occur in `text + close` before its end. */
  ghost predicate ClosesAtEnd(text: string, close: string) {
    forall i | 0 <= i < |text| :: !(close <= (text + close)[i..])
  }

  predicate GoodOpening(o: Opening) {
    match o
    case Tag(name) => name == "" || IsIdent(name)
    case _ => true
  }

  function TagText(name: string): string { "$" + name + "$" }

  /** A comment, a quoted name or literal, or a dollar tag starts here. */
  ghost predicate StartsToken(s: string) {
    || "--" <= s || "/*" <= s || (s != "" && s[0] in "'\"`[")
    || exists name | name == "" || IsIdent(name) :: TagText(name) <= s
  }

  lemma TagStarts(s: string)
    ensures DollarTag(s) > 0 <==> exists name | name == "" || IsIdent(name) :: TagText(name) <= s
  {
    var n := DollarTag(s);
    if n > 0 {
      var name := s[1..n - 1];
      assert TagText(name) == s[..n];
      assert name == "" || IsIdent(name);
    }
    if name :| (name == "" || IsIdent(name)) && TagText(name) <= s {
      assert s == TagText(name) + s[|TagText(name)|..];
      DollarTagOf(name, s[|TagText(name)|..]);
    }
  }

  lemma OpensIff(s: string)
    ensures Opens(s) <==> StartsToken(s)
  {
    hide DollarTag, IsIdent;
    TagStarts(s);
  }

  /** A token as the lexer understands it when `rest` follows. */
  ghost predicate Lexical(t: Token, rest: string) {
    match t
    case Code(c) => !StartsToken([c] + rest)
    case LineComment(text) => '\n' !in text
    case BlockComment(text) => ClosesAtEnd(text, "*/")
    case Dollar(tag, text) => (tag == "" || IsIdent(tag)) && ClosesAtEnd(text, "$" + tag + "$")
    case Quoted(q, text) => q in "'\"`" && (rest == "" || rest[0] != q)
    case Bracketed(text) => ']' !in text
    case Unclosed(Mark(q), text) => rest == "" && q in "'\"`"
    case Unclosed(opening, text) =>
      && rest == "" && GoodOpening(opening)
      && forall i | 0 <= i <= |text| :: !(ClosingText(opening) <= text[i..])
  }

  ghost predicate WellLexed(ts: seq<Token>) {
    ts == [] || (Lexical(ts[0], PrintAll(ts[1..])) && WellLexed(ts[1..]))
  }

  /** A statement with its code kept and every other token blanked. */
  function CodeOnly(ts: seq<Token>): string {
    if ts == [] then ""
    else (if ts[0].Code? then Print(ts[0]) else Blank(Print(ts[0]))) + CodeOnly(ts[1..])
  }

  lemma {:induction false} FindClose(s: string, close: string, from: nat, at: nat)
    requires from <= at <= |s| && close <= s[at..]
    requires forall i | from <= i < at :: !(close <= s[i..])
    ensures IndexOfText(s, close, from) == at
    decreases at - from
  {
    if from < at { FindClose(s, close, from + 1, at); }
  }

  /** A span delimited by `open` and the first `close` ends right after that `close`. */
  lemma PastClose(open: string, text: string, close: string, rest: string)
    requires close != "" && ClosesAtEnd(text, close)
    ensures Past(open + text + close + rest, close, |open|) == |open| + |text| + |close|
  {
    var s := open + text + close + rest;
    var at := |open| + |text|;
    assert s[at..] == close + rest;
    forall i | |open| <= i < at ensures !(close <= s[i..]) {
      var short := (text + close)[i - |open|..];
      assert s[i..] == short + rest;
      assert s[i..][..|close|] == short[..|close|];
    }
    FindClose(s, close, |open|, at);
  }

  lemma {:induction false} QuoteEndOfDoubled(q: char, prefix: string, text: string, rest: string)
    requires rest == "" || rest[0] != q
    ensures QuoteEnd(prefix + Doubled(q, text) + [q] + rest, q, |prefix|) == |prefix| + |Doubled(q, text)| + 1
    decreases |text|
  {
    var s := prefix + Doubled(q, text) + [q] + rest;
    if text != "" {
      var head := if text[0] == q then [q, q] else [text[0]];
      QuoteEndOfDoubled(q, prefix + head, text[1..], rest);
      assert s == prefix + head + Doubled(q, text[1..]) + [q] + rest;
    }
  }

  lemma SingleCharCloses(text: string, c: char)
    requires c !in text
    ensures ClosesAtEnd(text, [c])
  {
    forall i | 0 <= i < |text| ensures !([c] <= (text + [c])[i..]) {
      assert (text + [c])[i..][0] == text[i];
    }
  }

  lemma {:induction false} IdentEndOf(s: string, i: nat, k: nat)
    requires i <= k < |s| && !IsIdentPart(s[k])
    requires forall j | i <= j < k :: IsIdentPart(s[j])
    ensures Vars.SkipIdent(s, i) == k
    decreases k - i
  {
    if i < k { IdentEndOf(s, i + 1, k); }
  }

  lemma DollarTagOf(tag: string, rest: string)
    requires tag == "" || IsIdent(tag)
    ensures DollarTag("$" + tag + "$" + rest) == |tag| + 2
  {
    var s := "$" + tag + "$" + rest;
    if tag != "" {
      assert s[1] == tag[0];
      forall j | 2 <= j < |tag| + 1 ensures IsIdentPart(s[j]) { assert s[j] == tag[j - 1]; }
      IdentEndOf(s, 2, |tag| + 1);
    }
  }

  lemma DollarSpan(tag: string, text: string, rest: string)
    requires Lexical(Dollar(tag, text), rest)
    ensures
      var t := Print(Dollar(tag, text));
      Opens(t + rest) && SpanLength(t + rest) == |t|
  {
    var close := "$" + tag + "$";
    var s := Print(Dollar(tag, text)) + rest;
    assert s == close + (text + close + rest);
    DollarTagOf(tag, text + close + rest);
    assert s[..|close|] == close;
    PastClose(close, text, close, rest);
    assert s == close + text + close + rest;
    assert s[0] == '$';
  }

  lemma QuotedSpan(q: char, text: string, rest: string)
    requires Lexical(Quoted(q, text), rest)
    ensures
      var t := Print(Quoted(q, text));
      Opens(t + rest) && SpanLength(t + rest) == |t|
  {
    var s := Print(Quoted(q, text)) + rest;
    QuoteEndOfDoubled(q, [q], text, rest);
    assert s[0] == q && DollarTag(s) == 0;
  }

  lemma BracketSpan(text: string, rest: string)
    requires Lexical(Bracketed(text), rest)
    ensures
      var t := Print(Bracketed(text));
      Opens(t + rest) && SpanLength(t + rest) == |t|
  {
    var s := Print(Bracketed(text)) + rest;
    SingleCharCloses(text, ']');
    PastClose("[", text, "]", rest);
    assert s[0] == '[' && DollarTag(s) == 0;
  }

  lemma {:induction false} FindNone(s: string, close: string, from: nat)
    requires from <= |s| && forall i | from <= i <= |s| :: !(close <= s[i..])
    ensures IndexOfText(s, close, from) < 0
    decreases |s| - from
  {
    if from < |s| { FindNone(s, close, from + 1); }
  }

  lemma {:induction false} QuoteNeverEnds(q: char, prefix: string, text: string)
    ensures QuoteEnd(prefix + Doubled(q, text), q, |prefix|) == |prefix + Doubled(q, text)|
    decreases |text|
  {
    if text == "" {
      assert prefix + Doubled(q, text) == prefix;
    } else {
      var head := if text[0] == q then [q, q] else [text[0]];
      Regroup(prefix, head, Doubled(q, text[1..]));
      QuoteNeverEnds(q, prefix + head, text[1..]);
      QuotePasses(prefix + (head + Doubled(q, text[1..])), q, |prefix|, head);
    }
  }

  /** A doubled quote, or any other character, does not end the quoted text. */
  lemma QuotePasses(s: string, q: char, i: nat, head: string)
    requires i + |head| <= |s| && s[i..i + |head|] == head && (head == [q, q] || (|head| == 1 && head[0] != q))
    ensures QuoteEnd(s, q, i) == QuoteEnd(s, q, i + |head|)
  {
    assert s[i] == s[i..i + |head|][0];
    if |head| == 2 { assert s[i + 1] == s[i..i + |head|][1]; }
  }

  /** An opening that is never closed reaches the end of the statement. */
  lemma UnclosedSpan(t: Token)
    requires t.Unclosed? && Lexical(t, "")
    ensures Opens(Print(t)) && SpanLength(Print(t)) == |Print(t)|
  {
    var s, open := Print(t), OpeningText(t.opening);
    if t.opening.Mark? {
      QuoteNeverEnds(t.opening.quote, open, t.text);
      assert s[0] == t.opening.quote && DollarTag(s) == 0;
    } else {
      forall i | |open| <= i <= |s| ensures !(ClosingText(t.opening) <= s[i..]) { assert s[i..] == t.text[i - |open|..]; }
      FindNone(s, ClosingText(t.opening), |open|);
      if t.opening.Tag? {
        DollarTagOf(t.opening.name, t.text);
        assert s[..|open|] == open && s[0] == '$';
      } else {
        assert s[0] == open[0] && (|open| > 1 ==> s[1] == open[1]) && s[..|open|] == open;
      }
    }
  }

  /** The lexer reads a token that is not code as one span. */
  lemma SpanOfToken(t: Token, rest: string)
    requires !t.Code? && Lexical(t, rest)
    ensures Opens(Print(t) + rest) && SpanLength(Print(t) + rest) == |Print(t)|
  {
    match t
    case Code(_) =>
    case LineComment(text) =>
      SingleCharCloses(text, '\n');
      PastClose("--", text, "\n", rest);
    case BlockComment(text) =>
      PastClose("/*", text, "*/", rest);
      var s := Print(t) + rest;
      assert s[0] == '/' && s[1] == '*' && s[..2] == "/*";
    case Dollar(tag, text) => DollarSpan(tag, text, rest);
    case Quoted(q, text) => QuotedSpan(q, text, rest);
    case Bracketed(text) => BracketSpan(text, rest);
    case Unclosed(_, _) =>
      UnclosedSpan(t);
      assert Print(t) + rest == Print(t);
  }

  /** On every statement of the grammar the mask keeps exactly the code. */
  lemma {:induction false} MaskIsCodeOnly(ts: seq<Token>)
    requires WellLexed(ts)
    ensures Mask(PrintAll(ts)) == CodeOnly(ts)
  {
    if ts != [] {
      MaskIsCodeOnly(ts[1..]);
      var head, rest := Print(ts[0]), PrintAll(ts[1..]);
      var s := head + rest;
      assert s[|head|..] == rest;
      OpensIff(s);
      if !ts[0].Code? {
        SpanOfToken(ts[0], rest);
        assert s[..|head|] == head;
      }
    }
  }

  // ---------------------------------------------------------------------------
  // Does a statement return rows?
  // ---------------------------------------------------------------------------

  predicate WordChar(c: char) { IsIdentPart(c) }

  /** `word` occurs at `i` with a word boundary after it. */
  predicate WordEndsAt(s: string, word: string, i: nat)
    requires i <= |s|
  {
    word <= s[i..] && (i + |word| == |s| || !WordChar(s[i + |word|]))
  }

  predicate HasWord(s: string, word: string) {
    exists i | 0 <= i <= |s| :: WordEndsAt(s, word, i) && (i == 0 || !WordChar(s[i - 1]))
  }

  /** Case mapping is the platform's, so it is a parameter. */
  predicate IsQuery(upper: string -> string, statement: string) {
    var normalized := upper(Trim(Mask(statement)));
    || WordEndsAt(normalized, "SELECT", 0) || WordEndsAt(normalized, "PRAGMA", 0)
    || WordEndsAt(normalized, "EXPLAIN", 0) || WordEndsAt(normalized, "VALUES", 0)
    || (StartsWith(normalized, "WITH")
        && !HasWord(normalized, "INSERT") && !HasWord(normalized, "UPDATE") && !HasWord(normalized, "DELETE"))
  }

  // ---------------------------------------------------------------------------
  // Routing looks at the code alone
  // ---------------------------------------------------------------------------

  /** A piece of a mask: a character of code, or the blanks of one other token. */
  datatype Piece = Char(c: char) | Gap(blanks: string)

  predicate IsBlank(s: string) { s != "" && forall i | 0 <= i < |s| :: s[i] == ' ' || s[i] == '\n' }

  predicate GoodPieces(u: seq<Piece>) { forall k | 0 <= k < |u| :: u[k].Gap? ==> IsBlank(u[k].blanks) }

  /** The same characters of code, and gaps of any size between the same ones. */
  predicate Alike(u: seq<Piece>, v: seq<Piece>) {
    |u| == |v| && forall k | 0 <= k < |u| :: u[k].Gap? == v[k].Gap? && (u[k].Char? ==> u[k] == v[k])
  }

  function Shown(p: Piece): string { match p case Char(c) => [c] case Gap(blanks) => blanks }

  function TextOf(u: seq<Piece>): string { if u == [] then "" else Shown(u[0]) + TextOf(u[1..]) }

  predicate Skipped(p: Piece) { p.Gap? || IsSpace(p.c) }

  function DropStart(u: seq<Piece>): seq<Piece> { if u != [] && Skipped(u[0]) then DropStart(u[1..]) else u }

  function DropEnd(u: seq<Piece>): seq<Piece> {
    if u != [] && Skipped(u[|u| - 1]) then DropEnd(u[..|u| - 1]) else u
  }

  lemma {:induction false} TrimStartPieces(u: seq<Piece>)
    requires GoodPieces(u)
    ensures TrimStart(TextOf(u)) == TextOf(DropStart(u)) && GoodPieces(DropStart(u))
  {
    if u != [] && Skipped(u[0]) {
      TrimStartSkips(Shown(u[0]), TextOf(u[1..]));
      TrimStartPieces(u[1..]);
    } else if u != [] {
      assert TextOf(u)[0] == u[0].c;
    }
  }

  lemma {:induction false} TextOfLast(u: seq<Piece>, p: Piece)
    ensures TextOf(u + [p]) == TextOf(u) + Shown(p)
  {
    hide Shown;
    if u == [] {
      assert u + [p] == [p] && [p][1..] == [];
      assert Shown(p) + "" == Shown(p);
    } else {
      TextOfLast(u[1..], p);
      assert (u + [p])[1..] == u[1..] + [p];
      Regroup(Shown(u[0]), TextOf(u[1..]), Shown(p));
    }
  }

  lemma {:induction false} TrimEndPieces(u: seq<Piece>)
    requires GoodPieces(u)
    ensures TrimEnd(TextOf(u)) == TextOf(DropEnd(u)) && GoodPieces(DropEnd(u))
  {
    hide Shown;
    if u != [] {
      var n := |u| - 1;
      assert u == u[..n] + [u[n]];
      TextOfLast(u[..n], u[n]);
      ShownEnds(u[n]);
      if Skipped(u[n]) {
        Trimming.TrimEndIgnores(TextOf(u[..n]), Shown(u[n]));
        TrimEndPieces(u[..n]);
      } else {
        Trimming.TrimEndDone(TextOf(u));
      }
    }
  }

  lemma ShownEnds(p: Piece)
    requires p.Gap? ==> IsBlank(p.blanks)
    ensures Shown(p) != ""
    ensures Skipped(p) ==> Trimming.AllSpaces(Shown(p))
    ensures !Skipped(p) ==> !IsSpace(Shown(p)[|Shown(p)| - 1])
  {
  }

  lemma {:induction false} AlikeDropStart(u: seq<Piece>, v: seq<Piece>)
    requires Alike(u, v)
    ensures Alike(DropStart(u), DropStart(v))
  {
    if u != [] {
      assert Skipped(u[0]) == Skipped(v[0]);
      if Skipped(u[0]) { AlikeDropStart(u[1..], v[1..]); }
    }
  }

  lemma {:induction false} AlikeDropEnd(u: seq<Piece>, v: seq<Piece>)
    requires Alike(u, v)
    ensures Alike(DropEnd(u), DropEnd(v))
  {
    if u != [] {
      var n := |u| - 1;
      assert Skipped(u[n]) == Skipped(v[n]);
      if Skipped(u[n]) { AlikeDropEnd(u[..n], v[..n]); }
    }
  }

  /** Case mapping of each character to any text, which leaves blanks alone. */
  ghost predicate MapsEach(upper: string -> string, up: char -> string) {
    && up(' ') == " " && up('\n') == "\n" && upper("") == ""
    && forall c, s :: upper([c] + s) == up(c) + upper(s)
  }

  function Chars(s: string): seq<Piece> { seq(|s|, i requires 0 <= i < |s| => Char(s[i])) }

  function Mapped(up: char -> string, u: seq<Piece>): seq<Piece> {
    if u == [] then []
    else (match u[0] case Char(c) => Chars(up(c)) case Gap(b) => [Gap(b)]) + Mapped(up, u[1..])
  }

  lemma {:induction false} TextOfChars(s: string, rest: seq<Piece>)
    ensures TextOf(Chars(s) + rest) == s + TextOf(rest)
  {
    if s == "" {
      assert Chars(s) + rest == rest && s + TextOf(rest) == TextOf(rest);
    } else {
      TextOfChars(s[1..], rest);
      assert (Chars(s) + rest)[1..] == Chars(s[1..]) + rest;
      assert [s[0]] + (s[1..] + TextOf(rest)) == s + TextOf(rest);
    }
  }

  lemma TextOfGap(b: string, rest: seq<Piece>)
    ensures TextOf([Gap(b)] + rest) == b + TextOf(rest)
  {
    assert ([Gap(b)] + rest)[1..] == rest;
  }

  lemma UpperFirst(upper: string -> string, up: char -> string, c: char, s: string)
    requires MapsEach(upper, up)
    ensures upper([c] + s) == up(c) + upper(s)
    ensures c == ' ' || c == '\n' ==> up(c) == [c]
  {
  }

  lemma {:induction false} UpperBlanks(upper: string -> string, up: char -> string, blanks: string, s: string)
    requires MapsEach(upper, up) && forall i | 0 <= i < |blanks| :: blanks[i] == ' ' || blanks[i] == '\n'
    ensures upper(blanks + s) == blanks + upper(s)
    decreases |blanks|
  {
    hide MapsEach;
    if blanks == "" {
      assert blanks + s == s && blanks + upper(s) == upper(s);
    } else {
      UpperBlanks(upper, up, blanks[1..], s);
      UpperFirst(upper, up, blanks[0], blanks[1..] + s);
      assert blanks + s == [blanks[0]] + (blanks[1..] + s);
      assert blanks + upper(s) == [blanks[0]] + (blanks[1..] + upper(s));
    }
  }

  lemma UpperOfNothing(upper: string -> string, up: char -> string)
    requires MapsEach(upper, up)
    ensures upper("") == ""
  {
  }

  lemma {:induction false} UpperPieces(upper: string -> string, up: char -> string, u: seq<Piece>)
    requires MapsEach(upper, up) && GoodPieces(u)
    ensures upper(TextOf(u)) == TextOf(Mapped(up, u)) && GoodPieces(Mapped(up, u))
  {
    hide MapsEach;
    if u == [] {
      UpperOfNothing(upper, up);
    } else {
      UpperPieces(upper, up, u[1..]);
      var rest := Mapped(up, u[1..]);
      match u[0]
      case Char(c) =>
        UpperFirst(upper, up, c, TextOf(u[1..]));
        TextOfChars(up(c), rest);
      case Gap(b) =>
        UpperBlanks(upper, up, b, TextOf(u[1..]));
        TextOfGap(b, rest);
    }
  }

  lemma {:induction false} AlikeMapped(up: char -> string, u: seq<Piece>, v: seq<Piece>)
    requires Alike(u, v)
    ensures Alike(Mapped(up, u), Mapped(up, v))
  {
    if u != [] {
      hide Chars;
      AlikeMapped(up, u[1..], v[1..]);
      var first := match u[0] case Char(c) => Chars(up(c)) case Gap(b) => [Gap(b)];
      var other := match v[0] case Char(c) => Chars(up(c)) case Gap(b) => [Gap(b)];
      assert u[0].Gap? == v[0].Gap? && (u[0].Char? ==> u[0] == v[0]);
      AlikeAfter(first, other, Mapped(up, u[1..]), Mapped(up, v[1..]));
    }
  }

  lemma AlikeAfter(a: seq<Piece>, b: seq<Piece>, u: seq<Piece>, v: seq<Piece>)
    requires Alike(a, b) && Alike(u, v)
    ensures Alike(a + u, b + v)
  {
    forall k | 0 <= k < |a + u|
      ensures (a + u)[k].Gap? == (b + v)[k].Gap? && ((a + u)[k].Char? ==> (a + u)[k] == (b + v)[k])
    {
      if k < |a| { assert (a + u)[k] == a[k] && (b + v)[k] == b[k]; }
      else { assert (a + u)[k] == u[k - |a|] && (b + v)[k] == v[k - |a|]; }
    }
  }

  // Words, piece by piece

  predicate IsWord(w: string) { w != "" && forall i | 0 <= i < |w| :: w[i] != ' ' && w[i] != '\n' }

  predicate PieceStarts(u: seq<Piece>, w: string) {
    w == "" || (u != [] && u[0].Char? && u[0].c == w[0] && PieceStarts(u[1..], w[1..]))
  }

  predicate PieceWord(u: seq<Piece>, w: string) {
    if w == "" then u == [] || u[0].Gap? || !WordChar(u[0].c)
    else u != [] && u[0].Char? && u[0].c == w[0] && PieceWord(u[1..], w[1..])
  }

  predicate PieceHas(u: seq<Piece>, w: string, inWord: bool) {
    (!inWord && PieceWord(u, w)) || (u != [] && PieceHas(u[1..], w, u[0].Char? && WordChar(u[0].c)))
  }

  lemma {:induction false} AlikeWords(u: seq<Piece>, v: seq<Piece>, w: string)
    requires Alike(u, v)
    ensures PieceStarts(u, w) == PieceStarts(v, w) && PieceWord(u, w) == PieceWord(v, w)
  {
    hide WordChar;
    if w != "" && u != [] { AlikeWords(u[1..], v[1..], w[1..]); }
  }

  lemma {:induction false} AlikeHas(u: seq<Piece>, v: seq<Piece>, w: string, inWord: bool)
    requires Alike(u, v)
    ensures PieceHas(u, w, inWord) == PieceHas(v, w, inWord)
  {
    hide WordChar, PieceWord;
    AlikeWords(u, v, w);
    if u != [] { AlikeHas(u[1..], v[1..], w, u[0].Char? && WordChar(u[0].c)); }
  }

  lemma FirstShown(u: seq<Piece>)
    requires GoodPieces(u) && u != []
    ensures TextOf(u) != "" && (u[0].Char? ==> TextOf(u)[0] == u[0].c && TextOf(u)[1..] == TextOf(u[1..]))
    ensures u[0].Gap? ==> TextOf(u)[0] == ' ' || TextOf(u)[0] == '\n'
  {
  }

  lemma {:induction false} StartsInPieces(u: seq<Piece>, w: string)
    requires GoodPieces(u) && forall i | 0 <= i < |w| :: w[i] != ' ' && w[i] != '\n'
    ensures StartsWith(TextOf(u), w) == PieceStarts(u, w)
    ensures WordEndsAt(TextOf(u), w, 0) == PieceWord(u, w)
  {
    hide WordChar, TextOf;
    TextOfNothing();
    if u != [] { FirstShown(u); BlanksEndWords(); }
    assert TextOf(u)[0..] == TextOf(u);
    if w != "" && u != [] {
      StartsInPieces(u[1..], w[1..]);
      assert TextOf(u[1..])[0..] == TextOf(u[1..]);
      if u[0].Char? && u[0].c == w[0] { StartsFirst(TextOf(u), w); }
    }
  }

  lemma StartsFirst(s: string, w: string)
    requires s != "" && w != "" && s[0] == w[0]
    ensures StartsWith(s, w) == StartsWith(s[1..], w[1..])
    ensures WordEndsAt(s, w, 0) == WordEndsAt(s[1..], w[1..], 0)
  {
    hide WordChar;
    assert s == [s[0]] + s[1..] && w == [w[0]] + w[1..];
    assert s[0..] == s && s[1..][0..] == s[1..];
  }

  lemma TextOfNothing()
    ensures TextOf([]) == ""
  {
  }

  lemma BlanksEndWords()
    ensures !WordChar(' ') && !WordChar('\n')
  {
  }

  predicate HasFrom(s: string, w: string, inWord: bool) {
    (!inWord && WordEndsAt(s, w, 0)) || (s != "" && HasFrom(s[1..], w, WordChar(s[0])))
  }

  predicate HasAt(s: string, w: string, i: nat, inWord: bool)
    requires i <= |s|
  {
    WordEndsAt(s, w, i) && !(if i == 0 then inWord else WordChar(s[i - 1]))
  }

  lemma HasShift(s: string, w: string, i: nat, inWord: bool)
    requires 0 < i <= |s|
    ensures HasAt(s, w, i, inWord) == HasAt(s[1..], w, i - 1, WordChar(s[0]))
  {
    assert s[1..][i - 1..] == s[i..];
  }

  lemma {:induction false} HasIsFrom(s: string, w: string, inWord: bool)
    ensures HasFrom(s, w, inWord) == exists i | 0 <= i <= |s| :: HasAt(s, w, i, inWord)
    decreases |s|
  {
    hide WordEndsAt, WordChar;
    if s != "" {
      HasIsFrom(s[1..], w, WordChar(s[0]));
      forall i | 0 < i <= |s| ensures HasAt(s, w, i, inWord) == HasAt(s[1..], w, i - 1, WordChar(s[0])) { HasShift(s, w, i, inWord); }
      if HasFrom(s[1..], w, WordChar(s[0])) {
        var j :| 0 <= j <= |s[1..]| && HasAt(s[1..], w, j, WordChar(s[0]));
        assert HasAt(s, w, j + 1, inWord);
      }
    }
    if !inWord && WordEndsAt(s, w, 0) { assert HasAt(s, w, 0, inWord); }
  }

  lemma HasWordIsFrom(s: string, w: string)
    ensures HasWord(s, w) == HasFrom(s, w, false)
  {
    hide WordEndsAt, WordChar, HasFrom;
    HasIsFrom(s, w, false);
    if HasWord(s, w) {
      var i :| 0 <= i <= |s| && WordEndsAt(s, w, i) && (i == 0 || !WordChar(s[i - 1]));
      assert HasAt(s, w, i, false);
    }
    if HasFrom(s, w, false) {
      var i :| 0 <= i <= |s| && HasAt(s, w, i, false);
      assert WordEndsAt(s, w, i);
    }
  }

  lemma {:induction false} HasPastBlanks(blanks: string, s: string, w: string, inWord: bool)
    requires IsWord(w) && IsBlank(blanks)
    ensures HasFrom(blanks + s, w, inWord) == HasFrom(s, w, false)
    decreases |blanks|
  {
    var all := blanks + s;
    BlanksEndWords();
    assert all[0..] == all && all[0] == blanks[0];
    assert !WordEndsAt(all, w, 0);
    if |blanks| > 1 {
      assert all[1..] == blanks[1..] + s;
      HasPastBlanks(blanks[1..], s, w, false);
    } else {
      assert all[1..] == s;
    }
  }

  lemma {:induction false} HasInPieces(u: seq<Piece>, w: string, inWord: bool)
    requires GoodPieces(u) && IsWord(w)
    ensures HasFrom(TextOf(u), w, inWord) == PieceHas(u, w, inWord)
  {
    hide WordChar, PieceWord, WordEndsAt, IsBlank;
    StartsInPieces(u, w);
    if u != [] {
      HasInPieces(u[1..], w, u[0].Char? && WordChar(u[0].c));
      if u[0].Char? {
        FirstShown(u);
      } else {
        HasPastBlanks(u[0].blanks, TextOf(u[1..]), w, inWord);
        GapIsNoWord(u, w);
      }
    }
  }

  lemma GapIsNoWord(u: seq<Piece>, w: string)
    requires u != [] && u[0].Gap? && w != ""
    ensures !PieceWord(u, w)
  {
  }

  function Normal(upper: string -> string, s: string): string { upper(Trim(s)) }

  /** The routing test on a normalized mask. */
  predicate Routes(n: string) {
    || WordEndsAt(n, "SELECT", 0) || WordEndsAt(n, "PRAGMA", 0) || WordEndsAt(n, "EXPLAIN", 0) || WordEndsAt(n, "VALUES", 0)
    || (StartsWith(n, "WITH") && !HasWord(n, "INSERT") && !HasWord(n, "UPDATE") && !HasWord(n, "DELETE"))
  }

  lemma AlikeTexts(u: seq<Piece>, v: seq<Piece>, w: string)
    requires Alike(u, v) && GoodPieces(u) && GoodPieces(v) && IsWord(w)
    ensures StartsWith(TextOf(u), w) == StartsWith(TextOf(v), w)
    ensures WordEndsAt(TextOf(u), w, 0) == WordEndsAt(TextOf(v), w, 0)
    ensures HasWord(TextOf(u), w) == HasWord(TextOf(v), w)
  {
    hide WordEndsAt, HasWord, TextOf, PieceStarts, PieceWord, PieceHas, StartsWith;
    StartsInPieces(u, w);
    StartsInPieces(v, w);
    AlikeWords(u, v, w);
    HasWordIsFrom(TextOf(u), w);
    HasWordIsFrom(TextOf(v), w);
    HasInPieces(u, w, false);
    HasInPieces(v, w, false);
    AlikeHas(u, v, w, false);
  }

  lemma AlikeRoutes(u: seq<Piece>, v: seq<Piece>)
    requires Alike(u, v) && GoodPieces(u) && GoodPieces(v)
    ensures Routes(TextOf(u)) == Routes(TextOf(v))
  {
    hide WordEndsAt, HasWord, TextOf, Alike, GoodPieces, StartsWith;
    AlikeTexts(u, v, "SELECT");
    AlikeTexts(u, v, "PRAGMA");
    AlikeTexts(u, v, "EXPLAIN");
    AlikeTexts(u, v, "VALUES");
    AlikeTexts(u, v, "WITH");
    AlikeTexts(u, v, "INSERT");
    AlikeTexts(u, v, "UPDATE");
    AlikeTexts(u, v, "DELETE");
  }

  lemma AlikeNormal(upper: string -> string, up: char -> string, u: seq<Piece>, v: seq<Piece>)
    requires MapsEach(upper, up) && Alike(u, v) && GoodPieces(u) && GoodPieces(v)
    ensures Routes(Normal(upper, TextOf(u))) == Routes(Normal(upper, TextOf(v)))
  {
    hide Routes, TextOf, MapsEach, TrimStart, TrimEnd, DropStart, DropEnd, Alike, GoodPieces, Mapped;
    TrimStartPieces(u);
    TrimStartPieces(v);
    AlikeDropStart(u, v);
    var u1, v1 := DropStart(u), DropStart(v);
    TrimEndPieces(u1);
    TrimEndPieces(v1);
    AlikeDropEnd(u1, v1);
    var u2, v2 := DropEnd(u1), DropEnd(v1);
    UpperPieces(upper, up, u2);
    UpperPieces(upper, up, v2);
    AlikeMapped(up, u2, v2);
    AlikeRoutes(Mapped(up, u2), Mapped(up, v2));
  }

  /** The pieces of a statement's mask. */
  function PiecesOf(ts: seq<Token>): (u: seq<Piece>)
    ensures |u| == |ts|
    ensures forall k | 0 <= k < |ts| :: u[k] == if ts[k].Code? then Char(ts[k].c) else Gap(Blank(Print(ts[k])))
  {
    if ts == [] then []
    else [if ts[0].Code? then Char(ts[0].c) else Gap(Blank(Print(ts[0])))] + PiecesOf(ts[1..])
  }

  lemma {:induction false} CodeOnlyPieces(ts: seq<Token>)
    ensures CodeOnly(ts) == TextOf(PiecesOf(ts)) && GoodPieces(PiecesOf(ts))
  {
    hide Blank, Print;
    if ts != [] { CodeOnlyPieces(ts[1..]); }
    forall k | 0 <= k < |ts| ensures PiecesOf(ts)[k].Gap? ==> IsBlank(PiecesOf(ts)[k].blanks) {
      if !ts[k].Code? { TokenIsBlanked(ts[k]); }
    }
    if ts != [] && ts[0].Code? { CodePrints(ts[0]); }
  }

  lemma CodePrints(t: Token)
    requires t.Code?
    ensures Print(t) == [t.c]
  {
  }

  lemma TokenIsBlanked(t: Token)
    requires !t.Code?
    ensures IsBlank(Blank(Print(t)))
  {
    assert |Print(t)| > 0;
  }

  lemma QueryIsRoute(upper: string -> string, s: string)
    ensures IsQuery(upper, s) == Routes(Normal(upper, Mask(s)))
  {
    hide WordEndsAt, HasWord, Mask, Trim, StartsWith;
  }

  /** The same code, with comments, literals and quoted names at the same places. */
  predicate SameCode(a: seq<Token>, b: seq<Token>) {
    |a| == |b| && forall k | 0 <= k < |a| :: a[k].Code? == b[k].Code? && (a[k].Code? ==> a[k] == b[k])
  }

  /** Two statements with the same code are routed the same way, whatever their comments and literals say and however long they are. */
  lemma RoutedByCode(upper: string -> string, up: char -> string, a: seq<Token>, b: seq<Token>)
    requires MapsEach(upper, up) && WellLexed(a) && WellLexed(b) && SameCode(a, b)
    ensures IsQuery(upper, PrintAll(a)) == IsQuery(upper, PrintAll(b))
  {
    hide Routes, TextOf, MapsEach, IsQuery, Mask, CodeOnly, Normal, WellLexed, Print, Blank;
    MaskIsCodeOnly(a);
    MaskIsCodeOnly(b);
    CodeOnlyPieces(a);
    CodeOnlyPieces(b);
    AlikeNormal(upper, up, PiecesOf(a), PiecesOf(b));
    QueryIsRoute(upper, PrintAll(a));
    QueryIsRoute(upper, PrintAll(b));
  }

  lemma IsQueryOfMask(upper: string -> string, s: string)
    ensures IsQuery(upper, s) == IsQuery(upper, Mask(s))
  {
    MaskIdempotent(s);
  }
}
