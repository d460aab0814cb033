/** What every parsed directive list satisfies. */
module Parsed {
  import opened Text
  import opened Trimming
  import opened Directives

  /** Opening lines increase, from past line `n`. */
  predicate Ascending(ds: seq<Directive>, n: nat) {
    (forall k | 0 <= k < |ds| :: ds[k].line > n) && forall i, j | 0 <= i < j < |ds| :: ds[i].line < ds[j].line
  }

  predicate FullLines(body: seq<string>) { forall k | 0 <= k < |body| :: Trim(body[k]) != "" }

  predicate FullBodies(ds: seq<Directive>) { forall k | 0 <= k < |ds| :: FullLines(ds[k].body) }

  lemma TrimTwice(s: string)
    ensures Trim(Trim(s)) == Trim(s)
  {
    hide TrimEnd;
    var t := TrimStart(s);
    TrimStartHead(s);
    var spaces := TrimEndSplits(t);
    if Trim(s) == "" { TrimStartDone(""); TrimEndDone(""); } else { TightTrims(Trim(s)); }
  }

  lemma {:induction false} TrimStartHead(s: string)
    ensures TrimStart(s) == "" || !IsSpace(TrimStart(s)[0])
  {
    if s != "" { TrimStartHead(s[1..]); }
  }

  lemma {:induction false} TrimmedIsFull(body: seq<string>)
    ensures FullLines(TrimmedBody(body))
  {
    hide Trim;
    if body != [] {
      TrimTwice(body[0]);
      TrimmedIsFull(body[1..]);
    }
  }

  lemma PieceParsed(lines: seq<string>, i: nat)
    requires i < |lines|
    ensures forall k | 0 <= k < |Piece(lines, i)| :: Piece(lines, i)[k].line == i + 1
    ensures |Piece(lines, i)| <= 1 && FullBodies(Piece(lines, i))
  {
    hide TrimmedBody, Tokens, ArgsOf, AttrsOf, FullLines;
    if Info(lines[i]).Some? { TrimmedIsFull(lines[i + 1..BodyEnd(lines, i + 1)]); }
  }

  lemma {:induction false} ReadParsed(lines: seq<string>, i: nat)
    ensures Ascending(Read(lines, i), i) && FullBodies(Read(lines, i))
    decreases |lines| - i
  {
    hide Read, Piece, FullLines, Next;
    if i < |lines| {
      ReadStep(lines, i);
      PieceParsed(lines, i);
      NextIsLater(lines, i);
      ReadParsed(lines, Next(lines, i));
    } else {
      NothingRead(lines, i);
    }
  }

  lemma NextIsLater(lines: seq<string>, i: nat)
    requires i < |lines|
    ensures Next(lines, i) > i
  {
  }

  lemma NothingRead(lines: seq<string>, i: nat)
    requires i >= |lines|
    ensures Read(lines, i) == []
  {
  }

  /** A parsed list opens its directives on increasing lines, and no body line is blank. */
  lemma ParsedIsOrdered(markdown: string)
    ensures Ascending(Parse(markdown), 0) && FullBodies(Parse(markdown))
  {
    hide Read, SplitLines;
    ReadParsed(SplitLines(markdown), 0);
  }
}
