/** The shell words the scanner reads: every spelling of every word, and where the line ends for it. */
module ShellGrammar {
  import opened Text
  import opened ShellWords

  /** A character inside double quotes, as itself or after a backslash. */
  datatype Item = Item(escaped: bool, c: char)

  /** A part of a word: a plain character, one after a backslash, or text in quotes. */
  datatype Part = Bare(c: char) | Escaped(c: char) | Single(text: string) | Double(items: seq<Item>)

  predicate GoodItem(i: Item) { i.escaped || (i.c != '"' && i.c != '\\') }

  predicate GoodPart(p: Part) {
    match p
    case Bare(c) => c !in "\"'\\;&|)" && !IsSpace(c)
    case Escaped(_) => true
    case Single(text) => '\'' !in text
    case Double(items) => forall k | 0 <= k < |items| :: GoodItem(items[k])
  }

  function PrintItems(items: seq<Item>): string {
    if items == [] then "" else (if items[0].escaped then ['\\', items[0].c] else [items[0].c]) + PrintItems(items[1..])
  }

  function PrintPart(p: Part): string {
    match p
    case Bare(c) => [c]
    case Escaped(c) => ['\\', c]
    case Single(text) => "'" + text + "'"
    case Double(items) => "\"" + PrintItems(items) + "\""
  }

  function ItemsText(items: seq<Item>): string { if items == [] then "" else [items[0].c] + ItemsText(items[1..]) }

  /** The characters a part stands for. */
  function Meaning(p: Part): string {
    match p
    case Bare(c) => [c]
    case Escaped(c) => [c]
    case Single(text) => text
    case Double(items) => ItemsText(items)
  }

  function PrintWord(ps: seq<Part>): string { if ps == [] then "" else PrintPart(ps[0]) + PrintWord(ps[1..]) }

  function WordMeaning(ps: seq<Part>): string { if ps == [] then "" else Meaning(ps[0]) + WordMeaning(ps[1..]) }

  predicate GoodWord(ps: seq<Part>) { ps != [] && forall k | 0 <= k < |ps| :: GoodPart(ps[k]) }

  predicate Blanks(s: string) { forall k | 0 <= k < |s| :: IsSpace(s[k]) }

  /** A word and the space before it. */
  datatype Spaced = Spaced(gap: string, parts: seq<Part>)

  predicate GoodLine(words: seq<Spaced>) {
    forall k | 0 <= k < |words| :: GoodWord(words[k].parts) && Blanks(words[k].gap) && (k > 0 ==> words[k].gap != "")
  }

  function PrintLine(words: seq<Spaced>): string {
    if words == [] then "" else words[0].gap + PrintWord(words[0].parts) + PrintLine(words[1..])
  }

  function Meanings(words: seq<Spaced>): seq<string> {
    if words == [] then [] else [WordMeaning(words[0].parts)] + Meanings(words[1..])
  }

  function Cut(gap: string, c: char, more: string): string { gap + [c] + more }

  /** What may follow the words: space and the end, or a separator and anything. */
  ghost predicate Ends(tail: string) {
    Blanks(tail) || exists gap, c, more | Blanks(gap) && c in ";&|)" :: tail == Cut(gap, c, more)
  }

  function Held(word: Option<string>): string { match word case None => "" case Some(w) => w }

  // ---------------------------------------------------------------------------
  // Reading
  // ---------------------------------------------------------------------------

  lemma {:induction false} SingleReads(text: string, w: string, rest: string)
    requires '\'' !in text
    ensures Words(text + "'" + rest, Some(w), Some('\'')) == Words(rest, Some(w + text), None)
  {
    var s := text + "'" + rest;
    if text == "" {
      assert s[1..] == rest && w + text == w;
    } else {
      assert s[0] == text[0] && s[1..] == text[1..] + "'" + rest;
      SingleReads(text[1..], w + [text[0]], rest);
      assert w + [text[0]] + text[1..] == w + text;
    }
  }

  lemma EscapedItem(c: char, w: string, tail: string)
    ensures Words(['\\', c] + tail, Some(w), Some('"')) == Words(tail, Some(w + [c]), Some('"'))
  {
    var s := ['\\', c] + tail;
    assert s[0] == '\\' && s[1] == c && s[2..] == tail;
  }

  lemma PlainItem(c: char, w: string, tail: string)
    requires c != '"' && c != '\\'
    ensures Words([c] + tail, Some(w), Some('"')) == Words(tail, Some(w + [c]), Some('"'))
  {
    var s := [c] + tail;
    assert s[0] == c && s[1..] == tail;
  }

  lemma DoubleCloses(w: string, rest: string)
    ensures Words("\"" + rest, Some(w), Some('"')) == Words(rest, Some(w), None)
  {
    assert ("\"" + rest)[1..] == rest;
  }

  lemma {:induction false} DoubleReads(items: seq<Item>, w: string, rest: string)
    requires forall k | 0 <= k < |items| :: GoodItem(items[k])
    ensures Words(PrintItems(items) + "\"" + rest, Some(w), Some('"')) == Words(rest, Some(w + ItemsText(items)), None)
  {
    var s := PrintItems(items) + "\"" + rest;
    hide Words;
    if items == [] {
      DoubleCloses(w, rest);
      assert s == "\"" + rest && w + "" == w;
    } else {
      var tail := PrintItems(items[1..]) + "\"" + rest;
      var c := items[0].c;
      DoubleReads(items[1..], w + [c], rest);
      assert w + [c] + ItemsText(items[1..]) == w + ItemsText(items);
      if items[0].escaped {
        assert s == ['\\', c] + tail;
        EscapedItem(c, w, tail);
      } else {
        assert s == [c] + tail;
        PlainItem(c, w, tail);
      }
    }
  }

  lemma BareReads(c: char, word: Option<string>, rest: string)
    requires GoodPart(Bare(c))
    ensures Words([c] + rest, word, None) == Words(rest, Some(Held(word) + [c]), None)
  {
    hide IsSpace;
    var s := [c] + rest;
    assert s[0] == c && s[1..] == rest && "" + [c] == [c];
  }

  lemma EscapedReads(c: char, word: Option<string>, rest: string)
    ensures Words(['\\', c] + rest, word, None) == Words(rest, Some(Held(word) + [c]), None)
  {
    var s := ['\\', c] + rest;
    assert s[0] == '\\' && s[1] == c && s[2..] == rest && "" + [c] == [c];
  }

  lemma OpensReads(q: char, word: Option<string>, rest: string)
    requires IsQuote(q)
    ensures Words([q] + rest, word, None) == Words(rest, Some(Held(word)), Some(q))
  {
    var s := [q] + rest;
    assert s[0] == q && s[1..] == rest;
  }

  lemma SinglePartReads(text: string, word: Option<string>, rest: string)
    requires '\'' !in text
    ensures Words(PrintPart(Single(text)) + rest, word, None) == Words(rest, Some(Held(word) + text), None)
  {
    hide Words, Held;
    assert PrintPart(Single(text)) + rest == "'" + (text + "'" + rest);
    OpensReads('\'', word, text + "'" + rest);
    SingleReads(text, Held(word), rest);
  }

  lemma DoublePartReads(items: seq<Item>, word: Option<string>, rest: string)
    requires forall k | 0 <= k < |items| :: GoodItem(items[k])
    ensures Words(PrintPart(Double(items)) + rest, word, None) == Words(rest, Some(Held(word) + ItemsText(items)), None)
  {
    hide Words, Held, GoodItem, PrintItems, ItemsText;
    assert PrintPart(Double(items)) + rest == "\"" + (PrintItems(items) + "\"" + rest);
    OpensReads('"', word, PrintItems(items) + "\"" + rest);
    DoubleReads(items, Held(word), rest);
  }

  lemma PartReads(p: Part, word: Option<string>, rest: string)
    requires GoodPart(p)
    ensures Words(PrintPart(p) + rest, word, None) == Words(rest, Some(Held(word) + Meaning(p)), None)
  {
    hide Words, IsSpace;
    match p
    case Bare(c) => BareReads(c, word, rest);
    case Escaped(c) => EscapedReads(c, word, rest);
    case Single(text) => SinglePartReads(text, word, rest);
    case Double(items) => DoublePartReads(items, word, rest);
  }

  lemma {:induction false} WordReads(ps: seq<Part>, word: Option<string>, rest: string)
    requires ps != [] && forall k | 0 <= k < |ps| :: GoodPart(ps[k])
    ensures Words(PrintWord(ps) + rest, word, None) == Words(rest, Some(Held(word) + WordMeaning(ps)), None)
  {
    hide Words, PrintPart, Meaning, GoodPart;
    Regroup(PrintPart(ps[0]), PrintWord(ps[1..]), rest);
    PartReads(ps[0], word, PrintWord(ps[1..]) + rest);
    Regroup(Held(word), Meaning(ps[0]), WordMeaning(ps[1..]));
    if |ps| == 1 {
      assert ps[1..] == [] && "" + rest == rest;
      assert Meaning(ps[0]) + "" == Meaning(ps[0]);
    } else {
      WordReads(ps[1..], Some(Held(word) + Meaning(ps[0])), rest);
    }
  }

  lemma {:induction false} GapReads(gap: string, word: Option<string>, rest: string)
    requires Blanks(gap)
    ensures Words(gap + rest, word, None) == if gap == "" then Words(rest, word, None) else Finish(word) + Words(rest, None, None)
  {
    if gap == "" {
      assert gap + rest == rest;
    } else {
      var s := gap + rest;
      assert s[0] == gap[0] && IsSpace(s[0]) && s[1..] == gap[1..] + rest;
      SpaceIsPlain(s[0]);
      GapReads(gap[1..], None, rest);
      assert Words(s, word, None) == Finish(word) + Words(s[1..], None, None);
      assert [] + Words(rest, None, None) == Words(rest, None, None);
    }
  }

  lemma SpaceIsPlain(c: char)
    requires IsSpace(c)
    ensures !IsQuote(c) && !EndsSegment(c) && c != '\\'
  {
  }

  lemma BlankReads(tail: string, word: Option<string>)
    requires Blanks(tail)
    ensures Words(tail, word, None) == Finish(word)
  {
    hide Blanks;
    GapReads(tail, word, "");
    assert tail + "" == tail && Finish(word) + [] == Finish(word);
  }

  lemma TailReads(tail: string, word: Option<string>)
    requires Ends(tail)
    ensures Words(tail, word, None) == Finish(word)
  {
    hide Words, Blanks;
    if Blanks(tail) {
      BlankReads(tail, word);
    } else {
      var gap, c, more :| Blanks(gap) && c in ";&|)" && tail == Cut(gap, c, more);
      var rest := [c] + more;
      GapReads(gap, word, rest);
      assert tail == gap + rest;
      CutReads(c, more, word);
      CutReads(c, more, None);
      assert Finish(word) + [] == Finish(word);
    }
  }

  lemma CutReads(c: char, more: string, word: Option<string>)
    requires c in ";&|)"
    ensures Words([c] + more, word, None) == Finish(word)
  {
    assert ([c] + more)[0] == c;
  }

  lemma {:induction false} LineReads(words: seq<Spaced>, word: Option<string>, tail: string)
    requires GoodLine(words) && Ends(tail) && (words != [] ==> word.None? || words[0].gap != "")
    ensures Words(PrintLine(words) + tail, word, None) == Finish(word) + Meanings(words)
  {
    hide Words, WordMeaning, GoodWord, Ends, PrintWord, Blanks;
    if words == [] {
      assert "" + tail == tail && Finish(word) + [] == Finish(word);
      TailReads(tail, word);
    } else {
      var first, rest := words[0], words[1..];
      var more := PrintLine(rest) + tail;
      LineStep(words, word, tail);
      LineReads(rest, Some(WordMeaning(first.parts)), tail);
      Regroup(Finish(word), [WordMeaning(first.parts)], Meanings(rest));
    }
  }

  lemma LineStep(words: seq<Spaced>, word: Option<string>, tail: string)
    requires words != [] && GoodLine(words) && (word.None? || words[0].gap != "")
    ensures Words(PrintLine(words) + tail, word, None)
         == Finish(word) + Words(PrintLine(words[1..]) + tail, Some(WordMeaning(words[0].parts)), None)
  {
    hide Words, WordMeaning, PrintWord, Blanks;
    var first := words[0];
    var more := PrintLine(words[1..]) + tail;
    assert PrintLine(words) + tail == first.gap + (PrintWord(first.parts) + more);
    GapReads(first.gap, word, PrintWord(first.parts) + more);
    WordReads(first.parts, None, more);
    assert "" + WordMeaning(first.parts) == WordMeaning(first.parts);
    if first.gap == "" { assert [] + Words(more, Some(WordMeaning(first.parts)), None) == Words(more, Some(WordMeaning(first.parts)), None); }
  }

  /** Every spelling of a list of words reads as the words, up to the first unquoted separator. */
  lemma WordsAreMeanings(words: seq<Spaced>, tail: string)
    requires GoodLine(words) && Ends(tail)
    ensures Words(PrintLine(words) + tail, None, None) == Meanings(words)
  {
    LineReads(words, None, tail);
    assert [] + Meanings(words) == Meanings(words);
  }

  // ---------------------------------------------------------------------------
  // What counts as quoted
  // ---------------------------------------------------------------------------

  predicate InQuotes(p: Part) { p.Single? || p.Double? }

  function Repeat(flag: bool, n: nat): seq<bool> { seq(n, _ => flag) }

  lemma {:induction false} SingleMask(text: string, rest: string)
    requires '\'' !in text
    ensures Mask(text + "'" + rest, Some('\'')) == Repeat(true, |text| + 1) + Mask(rest, None)
  {
    var s := text + "'" + rest;
    if text == "" {
      assert s[1..] == rest && Repeat(true, 1) == [true];
    } else {
      assert s[0] == text[0] && s[1..] == text[1..] + "'" + rest;
      SingleMask(text[1..], rest);
      assert [true] + Repeat(true, |text|) == Repeat(true, |text| + 1);
      Regroup([true], Repeat(true, |text|), Mask(rest, None));
    }
  }

  lemma ItemMask(item: Item, tail: string)
    requires GoodItem(item)
    ensures var first := if item.escaped then ['\\', item.c] else [item.c];
      Mask(first + tail, Some('"')) == Repeat(true, |first|) + Mask(tail, Some('"'))
  {
    var first := if item.escaped then ['\\', item.c] else [item.c];
    var s := first + tail;
    assert s[0] == first[0] && s[|first|..] == tail;
    assert Repeat(true, |first|) == if item.escaped then [true, true] else [true];
  }

  lemma RepeatJoin(m: nat, n: nat, rest: seq<bool>)
    ensures Repeat(true, m) + (Repeat(true, n) + rest) == Repeat(true, m + n) + rest
  {
  }

  lemma DoubleClosesMask(rest: string)
    ensures Mask("\"" + rest, Some('"')) == Repeat(true, 1) + Mask(rest, None)
  {
    assert ("\"" + rest)[1..] == rest && Repeat(true, 1) == [true];
  }

  lemma {:induction false} DoubleMask(items: seq<Item>, rest: string)
    requires forall k | 0 <= k < |items| :: GoodItem(items[k])
    ensures Mask(PrintItems(items) + "\"" + rest, Some('"')) == Repeat(true, |PrintItems(items)| + 1) + Mask(rest, None)
  {
    var s := PrintItems(items) + "\"" + rest;
    hide Mask, Repeat;
    if items == [] {
      DoubleClosesMask(rest);
      assert s == "\"" + rest;
    } else {
      var tail := PrintItems(items[1..]) + "\"" + rest;
      var first := if items[0].escaped then ['\\', items[0].c] else [items[0].c];
      DoubleMask(items[1..], rest);
      ItemMask(items[0], tail);
      assert s == first + tail;
      RepeatJoin(|first|, |PrintItems(items[1..])| + 1, Mask(rest, None));
    }
  }

  lemma BareMask(c: char, rest: string)
    requires !IsQuote(c) && c != '\\'
    ensures Mask([c] + rest, None) == Repeat(false, 1) + Mask(rest, None)
  {
    var s := [c] + rest;
    assert s[0] == c && s[1..] == rest && Repeat(false, 1) == [false];
  }

  lemma EscapedMask(c: char, rest: string)
    ensures Mask(['\\', c] + rest, None) == Repeat(false, 2) + Mask(rest, None)
  {
    var s := ['\\', c] + rest;
    assert s[0] == '\\' && s[2..] == rest && Repeat(false, 2) == [false, false];
  }

  lemma OpensMask(q: char, rest: string)
    requires IsQuote(q)
    ensures Mask([q] + rest, None) == [true] + Mask(rest, Some(q))
  {
    var s := [q] + rest;
    assert s[0] == q && s[1..] == rest;
  }

  lemma RepeatMore(n: nat, rest: seq<bool>)
    ensures [true] + (Repeat(true, n) + rest) == Repeat(true, n + 1) + rest
  {
  }

  lemma SinglePartMask(text: string, rest: string)
    requires '\'' !in text
    ensures Mask(PrintPart(Single(text)) + rest, None) == Repeat(true, |text| + 2) + Mask(rest, None)
  {
    hide Mask, Repeat;
    assert PrintPart(Single(text)) + rest == "'" + (text + "'" + rest);
    OpensMask('\'', text + "'" + rest);
    SingleMask(text, rest);
    RepeatMore(|text| + 1, Mask(rest, None));
  }

  lemma DoublePartMask(items: seq<Item>, rest: string)
    requires forall k | 0 <= k < |items| :: GoodItem(items[k])
    ensures Mask(PrintPart(Double(items)) + rest, None) == Repeat(true, |PrintItems(items)| + 2) + Mask(rest, None)
  {
    hide Mask, Repeat, GoodItem, PrintItems;
    assert PrintPart(Double(items)) + rest == "\"" + (PrintItems(items) + "\"" + rest);
    OpensMask('"', PrintItems(items) + "\"" + rest);
    DoubleMask(items, rest);
    RepeatMore(|PrintItems(items)| + 1, Mask(rest, None));
  }

  /** Text in quotes is quoted with its quotes; plain and escaped characters are not. */
  lemma PartMask(p: Part, rest: string)
    requires GoodPart(p)
    ensures Mask(PrintPart(p) + rest, None) == Repeat(InQuotes(p), |PrintPart(p)|) + Mask(rest, None)
  {
    hide Mask, IsSpace, Repeat, PrintItems;
    match p
    case Bare(c) => BareMask(c, rest);
    case Escaped(c) => EscapedMask(c, rest);
    case Single(text) =>
      SinglePartMask(text, rest);
    case Double(items) =>
      DoublePartMask(items, rest);
  }
}
