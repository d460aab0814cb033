/** How trimming meets concatenation. */
module Trimming {
  import opened Text

  /** The 25 white space characters of the language, one by one. */
  const SPACES := "\t\n\U{000B}\U{000C}\r \U{00A0}\U{1680}\U{2000}\U{2001}\U{2002}\U{2003}\U{2004}\U{2005}\U{2006}\U{2007}\U{2008}\U{2009}\U{200A}\U{2028}\U{2029}\U{202F}\U{205F}\U{3000}\U{FEFF}"

  lemma SpaceIff(c: char)
    ensures IsSpace(c) <==> c in SPACES
    ensures IsLineTerminator(c) <==> c in "\n\r\U{2028}\U{2029}"
  {
    if IsSpace(c) { SpaceListed(c); }
  }

  lemma SpaceListed(c: char)
    requires IsSpace(c)
    ensures c in SPACES
  {
    if '\t' <= c <= '\r' {
      assert SPACES[c as int - '\t' as int] == c;
    } else if '\U{2000}' <= c <= '\U{200A}' {
      assert SPACES[8 + (c as int - 0x2000)] == c;
    } else {
      assert c == SPACES[5] || c == SPACES[6] || c == SPACES[7] || c == SPACES[19] || c == SPACES[20]
             || c == SPACES[21] || c == SPACES[22] || c == SPACES[23] || c == SPACES[24];
    }
  }

  predicate AllSpaces(s: string) { forall k | 0 <= k < |s| :: IsSpace(s[k]) }

  lemma {:induction false} TrimEndSplits(s: string) returns (spaces: string)
    ensures s == TrimEnd(s) + spaces && AllSpaces(spaces)
    ensures TrimEnd(s) != "" ==> !IsSpace(TrimEnd(s)[|TrimEnd(s)| - 1])
  {
    spaces := "";
    if s != "" && IsSpace(s[|s| - 1]) {
      var last := s[|s| - 1];
      spaces := TrimEndSplits(s[..|s| - 1]);
      spaces := spaces + [last];
    }
  }

  lemma TrimEndStep(s: string, c: char)
    requires IsSpace(c)
    ensures TrimEnd(s + [c]) == TrimEnd(s)
  {
    hide IsSpace;
    assert (s + [c])[..|s|] == s;
  }

  lemma {:induction false} TrimEndIgnores(s: string, spaces: string)
    requires AllSpaces(spaces)
    ensures TrimEnd(s + spaces) == TrimEnd(s)
    decreases |spaces|
  {
    hide TrimEnd, IsSpace;
    if spaces == "" {
      assert s + spaces == s;
    } else {
      var n := |spaces| - 1;
      TrimEndIgnores(s, spaces[..n]);
      TrimEndStep(s + spaces[..n], spaces[n]);
      assert spaces == spaces[..n] + [spaces[n]];
      Regroup(s, spaces[..n], [spaces[n]]);
    }
  }

  lemma TrimEndDone(s: string)
    requires s == "" || !IsSpace(s[|s| - 1])
    ensures TrimEnd(s) == s
  {
  }

  lemma TrimStartDone(s: string)
    requires s == "" || !IsSpace(s[0])
    ensures TrimStart(s) == s
  {
  }

  /** Dropping spaces at the end of a longer text, whose own end is not a space. */
  lemma TrimEndAfter(a: string, b: string)
    requires TrimEnd(b) != ""
    ensures TrimEnd(a + b) == a + TrimEnd(b)
  {
    var spaces := TrimEndSplits(b);
    TrimEndIgnores(a + TrimEnd(b), spaces);
    assert a + b == a + TrimEnd(b) + spaces;
    TrimEndDone(a + TrimEnd(b));
  }

  lemma TrimmedTail(s: string, from: nat)
    requires from <= |TrimEnd(s)|
    ensures from <= |s| && Trim(TrimEnd(s)[from..]) == Trim(s[from..])
  {
    var spaces := TrimEndSplits(s);
    var part := TrimEnd(s)[from..];
    assert s[from..] == part + spaces;
    if AllSpaces(part) {
      TrimOfSpaces(part);
      TrimOfSpaces(part + spaces);
    } else {
      StartThenEnd(part, spaces);
    }
  }

  lemma {:induction false} TrimOfSpaces(s: string)
    requires AllSpaces(s)
    ensures Trim(s) == ""
  {
    if s != "" { TrimOfSpaces(s[1..]); }
  }

  lemma {:induction false} StartThenEnd(part: string, spaces: string)
    requires !AllSpaces(part) && AllSpaces(spaces)
    ensures Trim(part + spaces) == Trim(part)
  {
    if IsSpace(part[0]) {
      assert (part + spaces)[1..] == part[1..] + spaces;
      StartThenEnd(part[1..], spaces);
    } else {
      TrimStartDone(part);
      TrimStartDone(part + spaces);
      TrimEndIgnores(part, spaces);
    }
  }

  predicate Tight(s: string) { s != "" && !IsSpace(s[0]) && !IsSpace(s[|s| - 1]) }

  lemma TightTrims(s: string)
    requires Tight(s)
    ensures Trim(s) == s
  {
    TrimStartDone(s);
    TrimEndDone(s);
  }

  lemma TightTrimsMore(s: string, spaces: string)
    requires Tight(s) && AllSpaces(spaces)
    ensures Trim(s + spaces) == s
  {
    hide Trim;
    TightTrims(s);
    StartThenEnd(s, spaces);
  }
}
