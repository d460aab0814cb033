/** The pin scanner's shell-line reader and the two shell quoters that write for it. */
module ShellWords {
  import opened Text

  // ---------------------------------------------------------------------------
  // Which characters sit inside quotes, and where a comment starts
  // ---------------------------------------------------------------------------

  predicate IsQuote(c: char) { c == '"' || c == '\'' }

  /** One flag per character of `s`, reading on with `quote` as the open quote. */
  function Mask(s: string, quote: Option<char>): (mask: seq<bool>)
    ensures |mask| == |s|
  {
    if s == "" then []
    else
      var c := s[0];
      match quote
      case Some(q) =>
        if c == '\\' && q == '"' then
          if |s| == 1 then [true] else [true, true] + Mask(s[2..], quote)
        else [true] + Mask(s[1..], if c == q then None else quote)
      case None =>
        if IsQuote(c) then [true] + Mask(s[1..], Some(c))
        else if c == '\\' then if |s| == 1 then [false] else [false, false] + Mask(s[2..], None)
        else [false] + Mask(s[1..], None)
  }

  /** The flags of the character at `i` and of one it escapes, and the quote after them. */
  function MaskTurn(line: string, i: nat, quote: Option<char>): (r: (seq<bool>, Option<char>))
    requires i < |line|
    ensures 0 < |r.0| <= |line| - i
  {
    var c := line[i];
    var escapes := c == '\\' && (quote.None? || quote.value == '"');
    var flag := quote.Some? || IsQuote(c);
    if escapes then (if i + 1 < |line| then [flag, flag] else [flag], quote)
    else ([flag], if quote.Some? then if c == quote.value then None else quote else if IsQuote(c) then Some(c) else None)
  }

  lemma MaskUnfolds(line: string, i: nat, quote: Option<char>)
    requires i < |line|
    ensures
      var (flags, next) := MaskTurn(line, i, quote);
      Mask(line[i..], quote) == flags + Mask(line[i + |flags|..], next)
  {
    var s := line[i..];
    assert s[1..] == line[i + 1..];
    if |s| > 1 { assert s[2..] == line[i + 2..]; }
  }

  method Quoted(line: string) returns (mask: seq<bool>)
    ensures mask == Mask(line, None)
  {
    hide Mask;
    assert line[0..] == line;
    mask := [];
    var quote: Option<char> := None;
    var i := 0;
    while i < |line|
      invariant 0 <= i <= |line|
      invariant mask + Mask(line[i..], quote) == Mask(line, None)
    {
      var c := line[i];
      ghost var (flags, next) := MaskTurn(line, i, quote);
      MaskUnfolds(line, i, quote);
      Regroup(mask, flags, Mask(line[i + |flags|..], next));
      ghost var before := mask;
      mask := mask + [quote.Some? || IsQuote(c)];
      if quote.Some? {
        if c == '\\' && quote.value == '"' {
          i := i + 1;
          if i < |line| { mask := mask + [true]; }
        } else if c == quote.value {
          quote := None;
        }
      } else if IsQuote(c) {
        quote := Some(c);
      } else if c == '\\' {
        i := i + 1;
        if i < |line| { mask := mask + [false]; }
      }
      i := if i < |line| then i + 1 else i;
      assert mask == before + flags;
    }
    MaskOfNothing(line, quote);
  }

  lemma MaskOfNothing(line: string, quote: Option<char>)
    ensures Mask(line[|line|..], quote) == []
  {
  }

  /** An unquoted `#` at the start of the line or after a space. */
  predicate StartsComment(line: string, i: nat)
    requires i < |line|
  {
    line[i] == '#' && !Mask(line, None)[i] && (i == 0 || IsSpace(line[i - 1]))
  }

  /** The line up to its first comment. */
  method StripComment(line: string) returns (code: string)
    ensures code <= line
    ensures forall i | 0 <= i < |code| :: !StartsComment(line, i)
    ensures code == line || StartsComment(line, |code|)
  {
    var mask := Quoted(line);
    for i := 0 to |line|
      invariant forall k | 0 <= k < i :: !StartsComment(line, k)
    {
      if line[i] == '#' && !mask[i] && (i == 0 || IsSpace(line[i - 1])) {
        return line[..i];
      }
    }
    return line;
  }

  // ---------------------------------------------------------------------------
  // Shell words
  // ---------------------------------------------------------------------------

  predicate EndsSegment(c: char) { c == ';' || c == '&' || c == '|' || c == ')' }

  function Finish(word: Option<string>): seq<string> {
    match word case None => [] case Some(w) => [w]
  }

  function Grow(word: Option<string>, c: char): Option<string> {
    match word case None => Some([c]) case Some(w) => Some(w + [c])
  }

  function Begin(word: Option<string>): Option<string> {
    if word.None? then Some("") else word
  }

  /** The words of `s` up to the next unquoted separator, continuing `word` inside `quote`. */
  function Words(s: string, word: Option<string>, quote: Option<char>): seq<string>
    requires quote.Some? ==> word.Some?
  {
    if s == "" then Finish(word)
    else
      var c := s[0];
      match quote
      case Some(q) =>
        if c == q then Words(s[1..], word, None)
        else if c == '\\' && q == '"' && |s| > 1 then Words(s[2..], Grow(word, s[1]), quote)
        else Words(s[1..], Grow(word, c), quote)
      case None =>
        if IsQuote(c) then Words(s[1..], Begin(word), Some(c))
        else if EndsSegment(c) then Finish(word)
        else if IsSpace(c) then Finish(word) + Words(s[1..], None, None)
        else if c == '\\' && |s| > 1 then Words(s[2..], Grow(word, s[1]), None)
        else Words(s[1..], Grow(word, c), None)
  }

  method ReadWords(text: string, start: nat) returns (out: seq<string>)
    requires start <= |text|
    ensures out == Words(text[start..], None, None)
  {
    out := [];
    var word: Option<string> := None;
    var quote: Option<char> := None;
    var i := start;
    while i < |text|
      invariant start <= i <= |text|
      invariant quote.Some? ==> word.Some?
      invariant out + Words(text[i..], word, quote) == Words(text[start..], None, None)
    {
      var c := text[i];
      if quote.Some? {
        if c == quote.value {
          quote := None;
        } else if c == '\\' && quote.value == '"' && i + 1 < |text| {
          i := i + 1;
          word := Grow(word, text[i]);
        } else {
          word := Grow(word, c);
        }
      } else if IsQuote(c) {
        quote := Some(c);
        word := Begin(word);
      } else if EndsSegment(c) {
        break;
      } else if IsSpace(c) {
        out := out + Finish(word);
        word := None;
      } else if c == '\\' && i + 1 < |text| {
        i := i + 1;
        word := Grow(word, text[i]);
      } else {
        word := Grow(word, c);
      }
      i := i + 1;
    }
    out := out + Finish(word);
  }

  // ---------------------------------------------------------------------------
  // Quoting and reading back
  // ---------------------------------------------------------------------------

  /** How a quoter leaves and re-enters its single quotes around a `'`. */
  datatype Style = InDoubleQuotes | AfterBackslash

  function Escape(style: Style): string {
    match style
    case InDoubleQuotes => "'\"'\"'"
    case AfterBackslash => "'\\''"
  }

  /** Every `'` of `s` replaced by the style's escape. */
  function QuoteBody(style: Style, s: string): string {
    if s == "" then ""
    else (if s[0] == '\'' then Escape(style) else [s[0]]) + QuoteBody(style, s[1..])
  }

  function ShellQuote(style: Style, s: string): string { "'" + QuoteBody(style, s) + "'" }

  /** Arguments, each quoted in its own style, joined with single spaces. */
  function CommandLine(args: seq<(Style, string)>): string {
    if |args| == 0 then ""
    else if |args| == 1 then ShellQuote(args[0].0, args[0].1)
    else ShellQuote(args[0].0, args[0].1) + " " + CommandLine(args[1..])
  }

  function Values(args: seq<(Style, string)>): seq<string> {
    if |args| == 0 then [] else [args[0].1] + Values(args[1..])
  }

  function FetchBranch(remote: string, branch: string): string {
    var refspec := "+refs/heads/" + branch + ":refs/remotes/" + remote + "/" + branch;
    "git fetch " + ShellQuote(AfterBackslash, remote) + " " + ShellQuote(AfterBackslash, refspec)
  }

  lemma EscapeInDoubleQuotesReads(w: string, rest: string)
    ensures Words("'\"'\"'" + rest, Some(w), Some('\'')) == Words(rest, Some(w + "'"), Some('\''))
  {
    var s0, s1, s2, s3, s4 := "'\"'\"'" + rest, "\"'\"'" + rest, "'\"'" + rest, "\"'" + rest, "'" + rest;
    assert s0[1..] == s1 && s1[1..] == s2 && s2[1..] == s3 && s3[1..] == s4 && s4[1..] == rest;
    assert Words(s1, Some(w), None) == Words(s2, Some(w), Some('"'));
    assert Words(s3, Some(w + "'"), Some('"')) == Words(s4, Some(w + "'"), None);
  }

  lemma EscapeAfterBackslashReads(w: string, rest: string)
    ensures Words("'\\''" + rest, Some(w), Some('\'')) == Words(rest, Some(w + "'"), Some('\''))
  {
    var s, escaped, reopened := "'\\''" + rest, "\\''" + rest, "'" + rest;
    assert s[1..] == escaped && escaped[2..] == reopened && reopened[1..] == rest;
    assert Words(escaped, Some(w), None) == Words(reopened, Some(w + "'"), None);
  }

  lemma EscapeReads(style: Style, w: string, rest: string)
    ensures Words(Escape(style) + rest, Some(w), Some('\'')) == Words(rest, Some(w + "'"), Some('\''))
  {
    match style
    case InDoubleQuotes => EscapeInDoubleQuotesReads(w, rest);
    case AfterBackslash => EscapeAfterBackslashReads(w, rest);
  }

  lemma {:induction false} BodyReads(style: Style, s: string, w: string, rest: string)
    ensures Words(QuoteBody(style, s) + rest, Some(w), Some('\'')) == Words(rest, Some(w + s), Some('\''))
  {
    if s == "" {
      assert "" + rest == rest && w + "" == w;
    } else {
      var tail := QuoteBody(style, s[1..]) + rest;
      BodyReads(style, s[1..], w + [s[0]], rest);
      assert w + [s[0]] + s[1..] == w + s;
      if s[0] == '\'' {
        EscapeReads(style, w, tail);
        assert QuoteBody(style, s) + rest == Escape(style) + tail;
      } else {
        var all := QuoteBody(style, s) + rest;
        assert all == [s[0]] + tail;
        assert all[1..] == tail;
      }
    }
  }

  /** A quoted argument reads as exactly one word being built. */
  lemma QuoteReads(style: Style, s: string, rest: string)
    ensures Words(ShellQuote(style, s) + rest, None, None) == Words(rest, Some(s), None)
  {
    var all := ShellQuote(style, s) + rest;
    var inner := QuoteBody(style, s) + ("'" + rest);
    assert all == "'" + inner;
    assert all[1..] == inner;
    BodyReads(style, s, "", "'" + rest);
    assert "" + s == s;
    assert ("'" + rest)[1..] == rest;
  }

  lemma SpaceEndsWord(w: string, rest: string)
    ensures Words(" " + rest, Some(w), None) == [w] + Words(rest, None, None)
  {
    assert (" " + rest)[1..] == rest;
  }

  lemma CommandLineUnfolds(args: seq<(Style, string)>)
    requires |args| > 1
    ensures CommandLine(args) == ShellQuote(args[0].0, args[0].1) + (" " + CommandLine(args[1..]))
    ensures Values(args) == [args[0].1] + Values(args[1..])
  {
  }

  lemma SingleArgument(style: Style, s: string)
    ensures Words(CommandLine([(style, s)]), None, None) == Values([(style, s)])
    ensures CommandLine([(style, s)]) == ShellQuote(style, s) + ""
  {
    QuoteReads(style, s, "");
    assert ShellQuote(style, s) + "" == ShellQuote(style, s);
  }

  /** Quoting every argument, joining with spaces and reading words gives the arguments back. */
  lemma {:induction false} WordsOfCommandLine(args: seq<(Style, string)>)
    ensures Words(CommandLine(args), None, None) == Values(args)
  {
    if |args| == 1 {
      SingleArgument(args[0].0, args[0].1);
      assert args == [(args[0].0, args[0].1)];
    } else if |args| > 1 {
      hide *;
      WordsOfCommandLine(args[1..]);
      CommandLineUnfolds(args);
      QuoteReads(args[0].0, args[0].1, " " + CommandLine(args[1..]));
      SpaceEndsWord(args[0].1, CommandLine(args[1..]));
    }
  }

  lemma {:induction false} PlainWord(w: string, prefix: string, rest: string)
    requires forall i | 0 <= i < |w| :: !IsQuote(w[i]) && !EndsSegment(w[i]) && !IsSpace(w[i]) && w[i] != '\\'
    requires |prefix| > 0
    ensures Words(w + " " + rest, Some(prefix), None) == [prefix + w] + Words(rest, None, None)
  {
    var s := w + " " + rest;
    if w == "" {
      assert s[1..] == rest && prefix + w == prefix;
    } else {
      assert s[1..] == w[1..] + " " + rest;
      PlainWord(w[1..], prefix + [w[0]], rest);
      assert prefix + [w[0]] + w[1..] == prefix + w;
    }
  }

  lemma FirstWord(w: string, rest: string)
    requires w != ""
    requires forall i | 0 <= i < |w| :: !IsQuote(w[i]) && !EndsSegment(w[i]) && !IsSpace(w[i]) && w[i] != '\\'
    ensures Words(w + " " + rest, None, None) == [w] + Words(rest, None, None)
  {
    var s := w + " " + rest;
    assert s[1..] == w[1..] + " " + rest;
    PlainWord(w[1..], [w[0]], rest);
    assert [w[0]] + w[1..] == w;
  }

  /** The fetch command is four words whatever the remote and branch contain. */
  lemma WordsOfFetchBranch(remote: string, branch: string)
    ensures Words(FetchBranch(remote, branch), None, None)
         == ["git", "fetch", remote, "+refs/heads/" + branch + ":refs/remotes/" + remote + "/" + branch]
  {
    var refspec := "+refs/heads/" + branch + ":refs/remotes/" + remote + "/" + branch;
    var args := [(AfterBackslash, remote), (AfterBackslash, refspec)];
    var quoted := CommandLine(args);
    WordsOfCommandLine(args);
    ValuesOfTwo(args);
    FirstWord("fetch", quoted);
    FirstWord("git", "fetch" + " " + quoted);
    FetchBranchUnfolds(remote, branch);
  }

  lemma ValuesOfTwo(args: seq<(Style, string)>)
    requires |args| == 2
    ensures Values(args) == [args[0].1, args[1].1]
  {
    assert Values(args[1..]) == [args[1].1] + Values(args[1..][1..]);
  }

  lemma FetchBranchUnfolds(remote: string, branch: string)
    ensures
      var refspec := "+refs/heads/" + branch + ":refs/remotes/" + remote + "/" + branch;
      FetchBranch(remote, branch)
      == "git" + " " + ("fetch" + " " + CommandLine([(AfterBackslash, remote), (AfterBackslash, refspec)]))
  {
    var refspec := "+refs/heads/" + branch + ":refs/remotes/" + remote + "/" + branch;
    var args := [(AfterBackslash, remote), (AfterBackslash, refspec)];
    assert args[1..] == [(AfterBackslash, refspec)];
  }

  // ---------------------------------------------------------------------------
  // A quoted command line has no comment
  // ---------------------------------------------------------------------------

  /** No unquoted `#` among the characters of `s`. */
  ghost predicate HashesQuoted(s: string, quote: Option<char>) {
    forall i | 0 <= i < |s| :: s[i] == '#' ==> Mask(s, quote)[i]
  }

  lemma HashesStep(s: string, quote: Option<char>, n: nat, next: Option<char>)
    requires 0 < n <= |s|
    requires Mask(s, quote)[n..] == Mask(s[n..], next)
    requires forall i | 0 <= i < n :: s[i] == '#' ==> Mask(s, quote)[i]
    requires HashesQuoted(s[n..], next)
    ensures HashesQuoted(s, quote)
  {
    forall i | n <= i < |s| && s[i] == '#' ensures Mask(s, quote)[i] {
      assert s[n..][i - n] == '#';
      assert Mask(s, quote)[n..][i - n] == Mask(s, quote)[i];
    }
  }

  lemma EscapeHashes(style: Style, rest: string)
    requires HashesQuoted(rest, Some('\''))
    ensures HashesQuoted(Escape(style) + rest, Some('\''))
  {
    var s := Escape(style) + rest;
    match style
    case InDoubleQuotes =>
      assert s[1..] == "\"'\"'" + rest;
      assert s[1..][1..] == "'\"'" + rest;
      assert s[1..][1..][1..] == "\"'" + rest;
      assert s[1..][1..][1..][1..] == "'" + rest;
      assert s[1..][1..][1..][1..][1..] == rest;
      HashesStep("'" + rest, None, 1, Some('\''));
      HashesStep("\"'" + rest, Some('"'), 1, None);
      HashesStep("'\"'" + rest, Some('"'), 1, Some('"'));
      HashesStep("\"'\"'" + rest, None, 1, Some('"'));
      HashesStep(s, Some('\''), 1, None);
    case AfterBackslash =>
      assert s[1..] == "\\''" + rest;
      assert s[1..][2..] == "'" + rest;
      assert s[1..][2..][1..] == rest;
      HashesStep("'" + rest, None, 1, Some('\''));
      HashesStep("\\''" + rest, None, 2, None);
      HashesStep(s, Some('\''), 1, None);
  }

  lemma BodyUnfolds(style: Style, s: string, rest: string)
    requires s != ""
    ensures QuoteBody(style, s) + rest
         == (if s[0] == '\'' then Escape(style) else [s[0]]) + (QuoteBody(style, s[1..]) + rest)
  {
  }

  lemma {:induction false} BodyHashes(style: Style, s: string, rest: string)
    requires HashesQuoted(rest, Some('\''))
    ensures HashesQuoted(QuoteBody(style, s) + rest, Some('\''))
  {
    if s == "" {
      assert "" + rest == rest;
    } else {
      hide *;
      var tail := QuoteBody(style, s[1..]) + rest;
      BodyHashes(style, s[1..], rest);
      BodyUnfolds(style, s, rest);
      if s[0] == '\'' { EscapeHashes(style, tail); } else { LiteralHashes(s[0], tail); }
    }
  }

  lemma LiteralHashes(c: char, rest: string)
    requires c != '\'' && HashesQuoted(rest, Some('\''))
    ensures HashesQuoted([c] + rest, Some('\''))
  {
    assert ([c] + rest)[1..] == rest;
    HashesStep([c] + rest, Some('\''), 1, Some('\''));
  }

  lemma QuoteHashes(style: Style, s: string, rest: string)
    requires HashesQuoted(rest, None)
    ensures HashesQuoted(ShellQuote(style, s) + rest, None)
  {
    var close := "'" + rest;
    assert close[1..] == rest;
    HashesStep(close, Some('\''), 1, None);
    BodyHashes(style, s, close);
    var all := ShellQuote(style, s) + rest;
    assert all == "'" + (QuoteBody(style, s) + close);
    assert all[1..] == QuoteBody(style, s) + close;
    HashesStep(all, None, 1, Some('\''));
  }

  lemma {:induction false} CommandLineHashes(args: seq<(Style, string)>)
    ensures HashesQuoted(CommandLine(args), None)
  {
    if |args| == 1 {
      SingleArgument(args[0].0, args[0].1);
      assert args == [(args[0].0, args[0].1)];
      QuoteHashes(args[0].0, args[0].1, "");
    } else if |args| > 1 {
      CommandLineHashes(args[1..]);
      var rest := " " + CommandLine(args[1..]);
      assert rest[1..] == CommandLine(args[1..]);
      HashesStep(rest, None, 1, None);
      QuoteHashes(args[0].0, args[0].1, rest);
      CommandLineUnfolds(args);
    }
  }

  /** Comment stripping leaves a quoted command line whole. */
  lemma CommandLineHasNoComment(args: seq<(Style, string)>)
    ensures forall i | 0 <= i < |CommandLine(args)| :: !StartsComment(CommandLine(args), i)
  {
    CommandLineHashes(args);
  }
}
