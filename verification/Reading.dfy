/** What a SKILL.md says, line by line: its blocks, and what each directive declares. */
module Reading {
  import opened Text
  import opened Trimming
  import opened Directives

  // ---------------------------------------------------------------------------
  // Words and attributes
  // ---------------------------------------------------------------------------

  function Woven(gaps: seq<string>, words: seq<string>): string
    requires |gaps| == |words| + 1
  {
    gaps[0] + if words == [] then "" else words[0] + Woven(gaps[1..], words[1..])
  }

  /** `words` are the maximal runs of other characters than space: `gaps` stands between them. */
  predicate Separates(gaps: seq<string>, words: seq<string>) {
    && |gaps| == |words| + 1 && AllTokens(words)
    && (forall k | 0 <= k < |gaps| :: AllSpaces(gaps[k]))
    && forall k | 0 < k < |words| :: gaps[k] != ""
  }

  lemma {:induction false} WordsAre(s: string) returns (gaps: seq<string>)
    ensures Separates(gaps, Tokens(s)) && Woven(gaps, Tokens(s)) == s
    decreases |s|
  {
    if s == "" {
      gaps := [""];
    } else if IsSpace(s[0]) {
      gaps := WordsAre(s[1..]);
      SpaceFirst(s, gaps);
      gaps := [[s[0]] + gaps[0]] + gaps[1..];
    } else {
      var n := WordEnd(s, 1);
      var more := WordsAre(s[n..]);
      gaps := [""] + more;
      WordFirst(s, n, more);
    }
  }

  /** A text that starts with a space has the words of the rest. */
  lemma SpaceFirst(s: string, gaps: seq<string>)
    requires s != "" && IsSpace(s[0]) && Separates(gaps, Tokens(s[1..])) && Woven(gaps, Tokens(s[1..])) == s[1..]
    ensures var more := [[s[0]] + gaps[0]] + gaps[1..]; Separates(more, Tokens(s)) && Woven(more, Tokens(s)) == s
  {
    hide IsSpace, AllTokens, Woven;
    var words := Tokens(s[1..]);
    assert Tokens(s) == words by { assert [] + words == words; }
    WovenHead(gaps, words, s[0]);
    assert s == [s[0]] + s[1..];
  }

  /** A text that starts with a word: the word, and what the rest is made of. */
  lemma WordFirst(s: string, n: nat, more: seq<string>)
    requires 0 < n <= |s| && (forall k | 0 <= k < n :: !IsSpace(s[k])) && (n < |s| ==> IsSpace(s[n]))
    requires Separates(more, Tokens(s[n..])) && Woven(more, Tokens(s[n..])) == s[n..]
    ensures Separates([""] + more, Tokens(s)) && Woven([""] + more, Tokens(s)) == s
  {
    hide Tokens, IsSpace, AllSpaces;
    var word, rest := s[..n], s[n..];
    TokensOfWord(word, "", rest);
    WordThenRest(word, rest);
    assert word + rest == s && "" + word == word;
    assert Tokens(s) == [word] + Tokens(rest);
    assert ([""] + more)[1..] == more && ([word] + Tokens(rest))[1..] == Tokens(rest);
    assert "" + (word + Woven(more, Tokens(rest))) == s;
    NothingIsSpace();
    if rest != "" { GapFirst(more, Tokens(rest), rest); } else { NoTokens(); }
  }

  /** One more character in front of the first gap. */
  lemma WovenHead(gaps: seq<string>, words: seq<string>, c: char)
    requires |gaps| == |words| + 1
    ensures Woven([[c] + gaps[0]] + gaps[1..], words) == [c] + Woven(gaps, words)
  {
    assert ([[c] + gaps[0]] + gaps[1..])[1..] == gaps[1..];
  }

  /** A text that starts with a space has a gap before its first word. */
  lemma GapBefore(gaps: seq<string>, words: seq<string>, s: string)
    requires words != [] && Separates(gaps, words) && Woven(gaps, words) == s && s != "" && IsSpace(s[0])
    ensures gaps[0] != ""
  {
    assert s == gaps[0] + (words[0] + Woven(gaps[1..], words[1..]));
  }

  lemma NothingIsSpace()
    ensures AllSpaces("")
  {
  }

  lemma NoTokens()
    ensures Tokens("") == []
  {
  }

  lemma GapFirst(gaps: seq<string>, words: seq<string>, s: string)
    requires Separates(gaps, words) && Woven(gaps, words) == s && s != "" && IsSpace(s[0])
    ensures words != [] ==> gaps[0] != ""
  {
    hide Woven, Separates;
    if words != [] { GapBefore(gaps, words, s); }
  }

  lemma WordThenRest(word: string, rest: string)
    requires word != "" && (rest == "" || IsSpace(rest[0]))
    ensures Tokens(rest, word) == [word] + Tokens(rest)
  {
  }

  function WordEnd(s: string, n: nat): (e: nat)
    requires 0 < n <= |s| && forall k | 0 <= k < n :: !IsSpace(s[k])
    ensures n <= e <= |s| && (forall k | 0 <= k < e :: !IsSpace(s[k])) && (e < |s| ==> IsSpace(s[e]))
    decreases |s| - n
  {
    if n < |s| && !IsSpace(s[n]) then WordEnd(s, n + 1) else n
  }

  /** The word declares an attribute: `key:value`, split at its first colon, the key not empty. */
  predicate Declares(word: string, key: string, value: string) { key != "" && ':' !in key && word == key + ":" + value }

  lemma DeclaresIff(word: string, key: string, value: string)
    ensures Declares(word, key, value) <==>
            IsAttr(word) && key == word[..IndexOf(word, ':')] && value == word[IndexOf(word, ':') + 1..]
  {
    if Declares(word, key, value) {
      assert word[|key|] == ':';
      assert forall k | 0 <= k < |key| :: word[k] == key[k];
      assert IndexOf(word, ':') == |key|;
    }
  }

  lemma AttrDeclares(word: string)
    requires IsAttr(word)
    ensures Declares(word, word[..IndexOf(word, ':')], word[IndexOf(word, ':') + 1..])
  {
    DeclaresIff(word, word[..IndexOf(word, ':')], word[IndexOf(word, ':') + 1..]);
  }

  /** Each key has the value of the last word that declares it, and no other key is there. */
  ghost predicate AttributesAre(words: seq<string>, attrs: map<string, string>) {
    forall key, value :: (key in attrs && attrs[key] == value) <==> LastDeclared(words, key, value)
  }

  ghost predicate LastDeclared(words: seq<string>, key: string, value: string) {
    exists k | 0 <= k < |words| ::
      Declares(words[k], key, value) && forall j, other | k < j < |words| :: !Declares(words[j], key, other)
  }

  lemma LastDeclaredStep(words: seq<string>, key: string, value: string)
    requires words != []
    ensures var n := |words| - 1;
      LastDeclared(words, key, value) <==>
        Declares(words[n], key, value)
        || (LastDeclared(words[..n], key, value) && forall other :: !Declares(words[n], key, other))
  {
    hide Declares;
    var n := |words| - 1;
    if k :| 0 <= k < |words| && Declares(words[k], key, value)
            && forall j, other | k < j < |words| :: !Declares(words[j], key, other) {
      if k < n { assert words[..n][k] == words[k]; }
    }
    if LastDeclared(words[..n], key, value) && forall other :: !Declares(words[n], key, other) {
      var k :| 0 <= k < n && Declares(words[..n][k], key, value)
               && forall j, other | k < j < n :: !Declares(words[..n][j], key, other);
      forall j, other | k < j < |words| ensures !Declares(words[j], key, other) {
        if j < n { assert words[..n][j] == words[j]; }
      }
      assert Declares(words[k], key, value);
    }
  }

  lemma {:induction false} AttrsAre(words: seq<string>)
    ensures AttributesAre(words, AttrsOf(words))
  {
    hide Declares, IsAttr, LastDeclared;
    forall key, value
      ensures (key in AttrsOf(words) && AttrsOf(words)[key] == value) <==> LastDeclared(words, key, value)
    {
      if words == [] {
        assert !LastDeclared(words, key, value) by { NothingDeclared(key, value); }
      } else {
        var n := |words| - 1;
        AttrsAre(words[..n]);
        LastDeclaredStep(words, key, value);
        var last := words[n];
        forall other { DeclaresIff(last, key, other); }
        if IsAttr(last) { AttrDeclares(last); }
      }
    }
  }

  lemma NothingDeclared(key: string, value: string)
    ensures !LastDeclared([], key, value)
  {
  }

  /** The word declares no attribute. */
  ghost predicate Plain(word: string) { forall key, value :: !Declares(word, key, value) }

  lemma PlainIff(word: string)
    ensures Plain(word) <==> !IsAttr(word)
  {
    hide Declares, IsAttr;
    forall key, value { DeclaresIff(word, key, value); }
    if IsAttr(word) { AttrDeclares(word); }
  }

  lemma {:induction false} ArgsAre(words: seq<string>)
    ensures ArgsOf(words) == Only(words, Plain)
  {
    hide Plain, IsAttr;
    if words != [] {
      ArgsAre(words[1..]);
      PlainIff(words[0]);
    }
  }

  // ---------------------------------------------------------------------------
  // Bodies
  // ---------------------------------------------------------------------------

  predicate Filled(line: string) { !AllSpaces(line) }

  /** The body is the block's lines that hold more than space, trimmed, in order. */
  predicate BodyIs(lines: seq<string>, body: seq<string>) {
    |body| == |Only(lines, Filled)| && forall k | 0 <= k < |body| :: body[k] == Trim(Only(lines, Filled)[k])
  }

  lemma BlankTrims(s: string)
    ensures Trim(s) == "" <==> AllSpaces(s)
  {
    if AllSpaces(s) { TrimOfSpaces(s); }
    if Trim(s) == "" {
      var spaces := TrimEndSplits(TrimStart(s));
      OnlySpaces(s);
    }
  }

  lemma {:induction false} OnlySpaces(s: string)
    requires AllSpaces(TrimStart(s))
    ensures AllSpaces(s)
  {
    if s != "" && IsSpace(s[0]) {
      OnlySpaces(s[1..]);
      assert s == [s[0]] + s[1..];
    }
  }

  lemma {:induction false} TrimmedBodyIs(lines: seq<string>)
    ensures BodyIs(lines, TrimmedBody(lines))
  {
    hide Trim, AllSpaces;
    if lines != [] {
      TrimmedBodyIs(lines[1..]);
      BlankTrims(lines[0]);
    }
  }

  // ---------------------------------------------------------------------------
  // Blocks
  // ---------------------------------------------------------------------------

  /** Three backticks, alone or before a character that is not a space, on one line. */
  predicate Fencing(line: string) {
    && |line| >= 3 && line[0] == '`' && line[1] == '`' && line[2] == '`'
    && (|line| > 3 ==> !IsSpace(line[3])) && '\n' !in line && '\r' !in line && '\U{2028}' !in line && '\U{2029}' !in line
  }

  lemma FencingIff(line: string)
    ensures IsFence(line) <==> Fencing(line)
  {
    assert |line| >= 3 ==> line == line[..3] + line[3..];
  }

  /** The lines of one block: where it opens and where it closes, or the end. */
  datatype Span = Span(open: nat, close: nat)

  /** It opens with a fence that has an info string, and the next fence closes it. */
  predicate IsBlock(lines: seq<string>, b: Span) {
    && b.open < b.close <= |lines| && Fencing(lines[b.open]) && |lines[b.open]| > 3
    && (forall m | b.open < m < b.close :: !Fencing(lines[m]))
    && (b.close < |lines| ==> Fencing(lines[b.close]))
  }

  /** The blocks from line `i` on: one after the other, and every fence with an info string opens or closes one. */
  predicate BlocksFrom(lines: seq<string>, i: nat, bs: seq<Span>) {
    && (forall k | 0 <= k < |bs| :: IsBlock(lines, bs[k]) && i <= bs[k].open)
    && (forall j, k | 0 <= j < k < |bs| :: bs[j].close < bs[k].open)
    && forall m | i <= m < |lines| && Fencing(lines[m]) && |lines[m]| > 3 :: exists k | 0 <= k < |bs| :: bs[k].open == m || bs[k].close == m
  }

  function FenceOf(lines: seq<string>, b: Span): Fence
    requires IsBlock(lines, b)
  {
    Fence(Trim(lines[b.open][3..]), b.open + 1, Numbered(lines, b.open + 1, b.close))
  }

  lemma FencesStep(lines: seq<string>, i: nat)
    requires i < |lines|
    ensures Info(lines[i]).None? ==> !(Fencing(lines[i]) && |lines[i]| > 3) && Fences(lines, i) == Fences(lines, i + 1)
    ensures Info(lines[i]).Some? ==>
      var b := Span(i, BodyEnd(lines, i + 1)); IsBlock(lines, b) && Fences(lines, i) == [FenceOf(lines, b)] + Fences(lines, b.close + 1)
  {
    hide Numbered, Trim, Fencing, Fences;
    forall m | 0 <= m < |lines| ensures IsFence(lines[m]) <==> Fencing(lines[m]) { FencingIff(lines[m]); }
    FencesAfter([], lines, i);
    if Info(lines[i]).Some? {
      var b := Span(i, BodyEnd(lines, i + 1));
      assert [] + Fences(lines, i) == Fences(lines, i);
      assert [] + [FenceOf(lines, b)] == [FenceOf(lines, b)];
    } else {
      assert [] + Fences(lines, i) == Fences(lines, i);
    }
  }

  lemma BlockRuns(lines: seq<string>, b: Span)
    requires IsBlock(lines, b)
    ensures b.open < b.close <= |lines| && forall m | b.open < m < b.close :: !Fencing(lines[m])
  {
    hide Fencing;
  }

  lemma BlocksStep(lines: seq<string>, i: nat, b: Span, rest: seq<Span>)
    requires IsBlock(lines, b) && b.open == i && BlocksFrom(lines, b.close + 1, rest)
    ensures BlocksFrom(lines, i, [b] + rest)
  {
    hide Fencing, IsBlock;
    var bs := [b] + rest;
    assert b.open < b.close && forall k | 0 < k < |bs| :: bs[k] == rest[k - 1] by { BlockRuns(lines, b); }
    assert forall m | b.open < m < b.close && m < |lines| :: !Fencing(lines[m]) by { BlockRuns(lines, b); }
    forall m | i <= m < |lines| && Fencing(lines[m]) && |lines[m]| > 3
      ensures exists k | 0 <= k < |bs| :: bs[k].open == m || bs[k].close == m
    {
      if m > b.close {
        var k :| 0 <= k < |rest| && (rest[k].open == m || rest[k].close == m);
        assert bs[k + 1] == rest[k];
      } else {
        assert bs[0] == b;
      }
    }
  }

  lemma {:induction false} FencesAre(lines: seq<string>, i: nat) returns (bs: seq<Span>)
    ensures BlocksFrom(lines, i, bs)
    ensures |Fences(lines, i)| == |bs| && forall k | 0 <= k < |bs| :: IsBlock(lines, bs[k]) && Fences(lines, i)[k] == FenceOf(lines, bs[k])
    decreases |lines| - i
  {
    hide Fencing, IsBlock, FenceOf, BodyEnd, Info;
    bs := [];
    if i < |lines| {
      FencesStep(lines, i);
      if Info(lines[i]).None? {
        bs := FencesAre(lines, i + 1);
      } else {
        var b := Span(i, BodyEnd(lines, i + 1));
        var rest := FencesAre(lines, b.close + 1);
        BlocksStep(lines, i, b, rest);
        bs := [b] + rest;
      }
    } else {
      NoFences(lines, i);
    }
  }

  // ---------------------------------------------------------------------------
  // Directives
  // ---------------------------------------------------------------------------

  /** The block's info string. */
  function InfoOf(lines: seq<string>, b: Span): string
    requires IsBlock(lines, b)
  {
    Trim(lines[b.open][3..])
  }

  /** The directive is what the block declares: the first word is its kind, the others its arguments and attributes. */
  ghost predicate Describes(d: Directive, lines: seq<string>, b: Span) {
    && IsBlock(lines, b) && d.line == b.open + 1
    && BodyIs(lines[b.open + 1..b.close], d.body)
    && exists gaps: seq<string>, words: seq<string> ::
         && Separates(gaps, words) && Woven(gaps, words) == InfoOf(lines, b)
         && words != [] && words[0] == "nc:" + d.kind
         && d.args == Only(words[1..], Plain) && AttributesAre(words[1..], d.attrs)
  }

  lemma TagIs(gaps: seq<string>, words: seq<string>, s: string)
    requires Separates(gaps, words) && Woven(gaps, words) == s && "nc:" <= s
    ensures words != [] && "nc:" <= words[0]
  {
    assert s[0] == 'n' && s[1] == 'c' && s[2] == ':';
    assert gaps[0] == "";
    var w := words[0];
    assert s == w + Woven(gaps[1..], words[1..]);
    var rest := Woven(gaps[1..], words[1..]);
    assert |words| > 1 ==> gaps[1..][0] == gaps[1] != "";
    assert rest != "" ==> IsSpace(rest[0]);
    assert rest != "" ==> s[|w|] == rest[0];
  }

  lemma BlockDescribed(lines: seq<string>, b: Span)
    requires IsBlock(lines, b) && "nc:" <= InfoOf(lines, b)
    ensures Describes(FromFence(FenceOf(lines, b)), lines, b)
  {
    hide Trim, Fencing, Separates, Woven, Only, Tokens, AttributesAre, BodyIs, ArgsOf, AttrsOf, TrimmedBody;
    var info := InfoOf(lines, b);
    var gaps := WordsAre(info);
    var words := Tokens(info);
    TagIs(gaps, words, info);
    assert words[0] == "nc:" + words[0][3..];
    AttrsAre(words[1..]);
    ArgsAre(words[1..]);
    TrimmedBodyIs(lines[b.open + 1..b.close]);
    assert Texts(Numbered(lines, b.open + 1, b.close)) == lines[b.open + 1..b.close];
  }

  /** The block declares a directive. */
  predicate DeclaresDirective(lines: seq<string>, b: Span) { IsBlock(lines, b) && "nc:" <= InfoOf(lines, b) }

  /** The parser reads every `nc:` block of the text, in order, as what it declares, and nothing else. */
  lemma ParseReads(markdown: string) returns (bs: seq<Span>)
    ensures var lines, ds := SplitLines(markdown), Parse(markdown); var read := Only(bs, b => DeclaresDirective(lines, b));
      && BlocksFrom(lines, 0, bs)
      && |ds| == |read| && forall k | 0 <= k < |ds| :: Describes(ds[k], lines, read[k])
  {
    hide SplitLines, Fences, FromFences, Describes, BlocksFrom, IsBlock, FenceOf, InfoOf, Only;
    var lines := SplitLines(markdown);
    bs := FencesAre(lines, 0);
    BlocksAre(lines, 0, bs);
    DirectivesAre(lines, Fences(lines, 0), bs);
  }

  lemma BlocksAre(lines: seq<string>, i: nat, bs: seq<Span>)
    requires BlocksFrom(lines, i, bs)
    ensures forall k | 0 <= k < |bs| :: IsBlock(lines, bs[k])
  {
  }

  lemma {:induction false} DirectivesAre(lines: seq<string>, fs: seq<Fence>, bs: seq<Span>)
    requires |fs| == |bs| && forall k | 0 <= k < |bs| :: IsBlock(lines, bs[k]) && fs[k] == FenceOf(lines, bs[k])
    ensures var read := Only(bs, b => DeclaresDirective(lines, b));
      |FromFences(fs)| == |read| && forall k | 0 <= k < |read| :: Describes(FromFences(fs)[k], lines, read[k])
  {
    hide Describes, IsBlock, FromFence, InfoOf;
    if bs != [] {
      DirectivesAre(lines, fs[1..], bs[1..]);
      IsRead(lines, bs[0]);
    }
  }

  lemma IsRead(lines: seq<string>, b: Span)
    requires IsBlock(lines, b)
    ensures IsDirective(FenceOf(lines, b)) <==> DeclaresDirective(lines, b)
    ensures DeclaresDirective(lines, b) ==> Describes(FromFence(FenceOf(lines, b)), lines, b)
  {
    hide Describes, IsBlock, FromFence;
    if DeclaresDirective(lines, b) { BlockDescribed(lines, b); }
  }
}
