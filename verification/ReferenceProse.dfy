/** Slicing a skill's reference sections out of its markdown. */
module ReferenceProse {
  import opened Text
  import opened Trimming
  import opened Vars

  // ---------------------------------------------------------------------------
  // Lines
  // ---------------------------------------------------------------------------

  predicate IsTicks(line: string) { StartsWith(line, "```") }

  function TicksInfo(line: string): string
    requires IsTicks(line)
  {
    Trim(line[3..])
  }

  predicate IsDirectiveInfo(info: string) { StartsWith(info, "nc:") }

  function Hashes(line: string, i: nat := 0): (n: nat)
    requires i <= |line|
    ensures i <= n <= |line|
    ensures forall k | i <= k < n :: line[k] == '#'
    ensures n < |line| ==> line[n] != '#'
    decreases |line| - i
  {
    if i < |line| && line[i] == '#' then Hashes(line, i + 1) else i
  }

  /** The level of a markdown heading; 0 for any other line. */
  function Level(line: string): nat {
    var n := Hashes(line);
    if 1 <= n <= 6 && n < |line| && IsSpace(line[n]) && NoTerminator(line[SkipSpaces(line, n)..]) then n else 0
  }

  predicate NoTerminator(s: string) { forall k | 0 <= k < |s| :: !IsLineTerminator(s[k]) }

  function Caption(line: string): string { Trim(line[Hashes(line)..]) }

  const NAMES := {"alternatives", "optional configuration", "troubleshooting"}

  predicate Opens(lower: string -> string, line: string) { Level(line) == 2 && lower(Caption(line)) in NAMES }

  predicate Divides(line: string) { 1 <= Level(line) <= 2 }

  // ---------------------------------------------------------------------------
  // The slicer
  // ---------------------------------------------------------------------------

  function Keep(cur: Option<seq<string>>, fence: Option<string>, line: string): Option<seq<string>> {
    if cur.Some? && !(fence.Some? && IsDirectiveInfo(fence.value)) then Some(cur.value + [line]) else cur
  }

  function Close(cur: Option<seq<string>>): seq<seq<string>> { if cur.Some? then [cur.value] else [] }

  /** The sections of the remaining lines, with the one being collected and the open fence. */
  function Sections(lower: string -> string, lines: seq<string>, cur: Option<seq<string>>, fence: Option<string>): seq<seq<string>>
    decreases |lines|
  {
    if lines == [] then Close(cur)
    else
      var line, rest := lines[0], lines[1..];
      if IsTicks(line) then
        var inside := if fence.None? then Some(TicksInfo(line)) else fence;
        Sections(lower, rest, Keep(cur, inside, line), if fence.None? then inside else None)
      else if fence.Some? then Sections(lower, rest, Keep(cur, fence, line), fence)
      else if Opens(lower, line) then Close(cur) + Sections(lower, rest, Some([line]), None)
      else if Divides(line) then Close(cur) + Sections(lower, rest, None, None)
      else Sections(lower, rest, Keep(cur, None, line), None)
  }

  /** Each section's text, without surrounding space; empty ones are dropped. */
  function Texts(sections: seq<seq<string>>): seq<string> {
    if sections == [] then []
    else (if Trim(JoinLines(sections[0])) == "" then [] else [Trim(JoinLines(sections[0]))]) + Texts(sections[1..])
  }

  function Prose(lower: string -> string, md: string): string {
    Trim(Join(Texts(Sections(lower, SplitLines(md), None, None)), "\n\n"))
  }

  method Slice(lower: string -> string, md: string) returns (prose: string)
    ensures prose == Prose(lower, md)
  {
    hide IsTicks, TicksInfo, Opens, Divides, SplitLines;
    var lines := SplitLines(md);
    var sections: seq<seq<string>> := [];
    var cur: Option<seq<string>> := None;
    var fence: Option<string> := None;
    var all := Sections(lower, lines, None, None);
    for i := 0 to |lines|
      invariant sections + Sections(lower, lines[i..], cur, fence) == all
    {
      var line := lines[i];
      assert lines[i..][0] == line && lines[i..][1..] == lines[i + 1..];
      if IsTicks(line) {
        if fence.None? {
          fence := Some(TicksInfo(line));
          cur := Keep(cur, fence, line);
        } else {
          cur := Keep(cur, fence, line);
          fence := None;
        }
        continue;
      }
      if fence.Some? { cur := Keep(cur, fence, line); continue; }
      if Opens(lower, line) {
        sections := sections + Close(cur);
        cur := Some([line]);
      } else if Divides(line) {
        sections := sections + Close(cur);
        cur := None;
      } else {
        cur := Keep(cur, None, line);
      }
    }
    assert lines[|lines|..] == [];
    sections := sections + Close(cur);
    prose := Trim(Join(Texts(sections), "\n\n"));
  }

  // ---------------------------------------------------------------------------
  // Which lines are kept, by position
  // ---------------------------------------------------------------------------

  /** The fence open before line `i`. */
  function FenceBefore(lines: seq<string>, i: nat): Option<string>
    requires i <= |lines|
  {
    if i == 0 then None
    else
      var fence := FenceBefore(lines, i - 1);
      if !IsTicks(lines[i - 1]) then fence
      else if fence.None? then Some(TicksInfo(lines[i - 1])) else None
  }

  /** Line `i` belongs to an `nc:` fence: opening, body or closing line. */
  predicate InDirective(lines: seq<string>, i: nat)
    requires i < |lines|
  {
    match FenceBefore(lines, i)
    case Some(info) => IsDirectiveInfo(info)
    case None => IsTicks(lines[i]) && IsDirectiveInfo(TicksInfo(lines[i]))
  }

  /** A level 1 or 2 heading outside every fence. */
  predicate IsDivider(lines: seq<string>, i: nat)
    requires i < |lines|
  {
    FenceBefore(lines, i).None? && !IsTicks(lines[i]) && (Divides(lines[i]))
  }

  /** The nearest divider at or above line `i` is a reference heading. */
  predicate InReference(lower: string -> string, lines: seq<string>, i: nat)
    requires i < |lines|
  {
    if IsDivider(lines, i) then Opens(lower, lines[i])
    else i > 0 && InReference(lower, lines, i - 1)
  }

  predicate Kept(lower: string -> string, lines: seq<string>, i: nat)
    requires i < |lines|
  {
    InReference(lower, lines, i) && !InDirective(lines, i)
  }

  function KeptFrom(lower: string -> string, lines: seq<string>, i: nat): (r: seq<string>)
    requires i <= |lines|
    ensures |r| <= |lines| - i
    decreases |lines| - i
  {
    if i == |lines| then [] else (if Kept(lower, lines, i) then [lines[i]] else []) + KeptFrom(lower, lines, i + 1)
  }

  function Flatten(sections: seq<seq<string>>): seq<string> {
    if sections == [] then [] else sections[0] + Flatten(sections[1..])
  }

  function Collected(cur: Option<seq<string>>): seq<string> { if cur.Some? then cur.value else [] }

  lemma FlattenClose(cur: Option<seq<string>>, rest: seq<seq<string>>)
    ensures Flatten(Close(cur) + rest) == Collected(cur) + Flatten(rest)
  {
    if cur.Some? {
      assert (Close(cur) + rest)[1..] == rest;
    } else {
      assert Close(cur) + rest == rest;
      assert [] + Flatten(rest) == Flatten(rest);
    }
  }

  lemma OpensDivides(lower: string -> string, line: string)
    ensures Opens(lower, line) ==> Divides(line)
  {
  }

  /** One line of the slicer, by position. */
  lemma SlicedStep(lower: string -> string, lines: seq<string>, i: nat, cur: Option<seq<string>>)
    requires i < |lines| && (cur.Some? <==> (i > 0 && InReference(lower, lines, i - 1)))
    ensures var fence := FenceBefore(lines, i);
            var next := if IsTicks(lines[i]) || fence.Some? || !Divides(lines[i])
                        then Keep(cur, if IsTicks(lines[i]) && fence.None? then Some(TicksInfo(lines[i])) else fence, lines[i])
                        else if Opens(lower, lines[i]) then Some([lines[i]]) else None;
            var closed := if IsTicks(lines[i]) || fence.Some? || !Divides(lines[i]) then [] else Close(cur);
            && Sections(lower, lines[i..], cur, fence) == closed + Sections(lower, lines[i + 1..], next, FenceBefore(lines, i + 1))
            && (next.Some? <==> InReference(lower, lines, i))
            && Flatten(closed) + Collected(next) == Collected(cur) + (if Kept(lower, lines, i) then [lines[i]] else [])
  {
    hide Opens, Divides, IsTicks, TicksInfo, IsDirectiveInfo;
    OpensDivides(lower, lines[i]);
    assert lines[i..][0] == lines[i] && lines[i..][1..] == lines[i + 1..];
    FlattenClose(cur, []);
    assert Close(cur) + [] == Close(cur);
  }

  lemma FlattenFirst(first: seq<string>, rest: seq<seq<string>>)
    ensures Flatten([first] + rest) == first + Flatten(rest)
  {
    assert ([first] + rest)[1..] == rest;
  }

  lemma {:induction false} FlattenSplits(a: seq<seq<string>>, b: seq<seq<string>>)
    ensures Flatten(a + b) == Flatten(a) + Flatten(b)
  {
    hide *;
    if a == [] {
      FlattenClose(None, b);
      FlattenNone();
      assert a + b == b;
    } else {
      assert a == [a[0]] + a[1..];
      Regroup([a[0]], a[1..], b);
      FlattenFirst(a[0], a[1..] + b);
      FlattenFirst(a[0], a[1..]);
      FlattenSplits(a[1..], b);
      Regroup(a[0], Flatten(a[1..]), Flatten(b));
    }
  }

  lemma FlattenNone()
    ensures Flatten([]) == []
  {
  }

  lemma {:induction false} SlicedFrom(lower: string -> string, lines: seq<string>, i: nat, cur: Option<seq<string>>)
    requires i <= |lines| && (cur.Some? <==> (i > 0 && InReference(lower, lines, i - 1)))
    ensures Flatten(Sections(lower, lines[i..], cur, FenceBefore(lines, i))) == Collected(cur) + KeptFrom(lower, lines, i)
    decreases |lines| - i
  {
    hide Sections, InReference, Kept, FenceBefore, Opens, Divides, IsTicks, TicksInfo, Keep, Flatten;
    if i == |lines| {
      SlicedEnd(lower, lines[i..], cur, FenceBefore(lines, i));
    } else {
      SlicedStep(lower, lines, i, cur);
      var fence := FenceBefore(lines, i);
      var plain := IsTicks(lines[i]) || fence.Some? || !Divides(lines[i]);
      var next := if plain
                  then Keep(cur, if IsTicks(lines[i]) && fence.None? then Some(TicksInfo(lines[i])) else fence, lines[i])
                  else if Opens(lower, lines[i]) then Some([lines[i]]) else None;
      var closed := if plain then [] else Close(cur);
      SlicedFrom(lower, lines, i + 1, next);
      var rest := Sections(lower, lines[i + 1..], next, FenceBefore(lines, i + 1));
      FlattenSplits(closed, rest);
      var kept := if Kept(lower, lines, i) then [lines[i]] else [];
      Regroup(Flatten(closed), Collected(next), KeptFrom(lower, lines, i + 1));
      Regroup(Collected(cur), kept, KeptFrom(lower, lines, i + 1));
    }
  }

  lemma SlicedEnd(lower: string -> string, lines: seq<string>, cur: Option<seq<string>>, fence: Option<string>)
    requires lines == []
    ensures Flatten(Sections(lower, lines, cur, fence)) == Collected(cur) + []
  {
    FlattenClose(cur, []);
    assert Close(cur) + [] == Close(cur);
  }

  /**
   * The slice is exactly the lines under a reference heading that are in no `nc:`
   * fence, in order, whatever the nesting of fences and headings.
   */
  lemma SlicedLines(lower: string -> string, lines: seq<string>)
    ensures Flatten(Sections(lower, lines, None, None)) == KeptFrom(lower, lines, 0)
  {
    hide Sections, KeptFrom, Flatten;
    assert lines[0..] == lines;
    SlicedFrom(lower, lines, 0, None);
    assert [] + KeptFrom(lower, lines, 0) == KeptFrom(lower, lines, 0);
  }

  // ---------------------------------------------------------------------------
  // Sections the slicer would keep as they are
  // ---------------------------------------------------------------------------

  function NextFence(fence: Option<string>, line: string): Option<string> {
    if !IsTicks(line) then fence else if fence.None? then Some(TicksInfo(line)) else None
  }

  function EndFence(lines: seq<string>, fence: Option<string>): Option<string> {
    if lines == [] then fence else NextFence(EndFence(lines[..|lines| - 1], fence), lines[|lines| - 1])
  }

  predicate OneLine(line: string) { '\n' !in line }

  /** A line that is kept where `fence` is open, and neither opens an `nc:` fence nor divides. */
  predicate PlainLine(line: string, fence: Option<string>) {
    && OneLine(line)
    && (if IsTicks(line) then fence.None? ==> !IsDirectiveInfo(TicksInfo(line)) else fence.Some? || !Divides(line))
  }

  predicate Plain(lines: seq<string>) {
    lines != [] ==>
      Plain(lines[..|lines| - 1]) && PlainLine(lines[|lines| - 1], EndFence(lines[..|lines| - 1], None))
  }

  predicate IsSection(lower: string -> string, k: seq<string>) {
    k != [] && OneLine(k[0]) && Opens(lower, k[0]) && Plain(k[1..])
  }

  function FenceAfter(k: seq<string>): Option<string>
    requires k != []
  {
    EndFence(k[1..], None)
  }

  /** Sections, of which only the last may leave a fence open. */
  predicate AreSections(lower: string -> string, ks: seq<seq<string>>) {
    ks != [] ==>
      && IsSection(lower, ks[0]) && (|ks| > 1 ==> FenceAfter(ks[0]).None?) && AreSections(lower, ks[1..])
  }

  lemma PlainPush(lower: string -> string, k: seq<string>, line: string)
    requires IsSection(lower, k) && PlainLine(line, FenceAfter(k))
    ensures IsSection(lower, k + [line]) && FenceAfter(k + [line]) == NextFence(FenceAfter(k), line)
  {
    hide PlainLine, NextFence, Opens;
    assert (k + [line])[1..] == k[1..] + [line];
    assert (k[1..] + [line])[..|k| - 1] == k[1..];
  }

  lemma SectionHead(lower: string -> string, line: string)
    requires Opens(lower, line) && OneLine(line)
    ensures IsSection(lower, [line]) && FenceAfter([line]).None? && !IsTicks(line)
  {
    assert [line][1..] == [];
    assert Plain([]);
    assert line[0] == '#';
  }

  /** The collected section while a fence may be open; lines of an `nc:` fence are not in it. */
  predicate Collecting(lower: string -> string, cur: Option<seq<string>>, fence: Option<string>) {
    cur.Some? ==>
      && IsSection(lower, cur.value)
      && FenceAfter(cur.value) == if fence.Some? && IsDirectiveInfo(fence.value) then None else fence
  }

  lemma AddSection(lower: string -> string, cur: Option<seq<string>>, rest: seq<seq<string>>)
    requires Collecting(lower, cur, None) && AreSections(lower, rest)
    ensures AreSections(lower, Close(cur) + rest)
  {
    hide IsSection, FenceAfter;
    if cur.Some? { assert (Close(cur) + rest)[1..] == rest; } else { assert Close(cur) + rest == rest; }
  }

  lemma KeepCollecting(lower: string -> string, line: string, cur: Option<seq<string>>, fence: Option<string>)
    requires Collecting(lower, cur, fence) && OneLine(line) && (fence.Some? || IsTicks(line) || !Divides(line))
    ensures var inside := if IsTicks(line) && fence.None? then Some(TicksInfo(line)) else fence;
            Collecting(lower, Keep(cur, inside, line), NextFence(fence, line))
  {
    hide IsSection, FenceAfter, IsDirectiveInfo, TicksInfo, Divides, IsTicks, OneLine;
    var inside := if IsTicks(line) && fence.None? then Some(TicksInfo(line)) else fence;
    if cur.Some? && !(inside.Some? && IsDirectiveInfo(inside.value)) {
      PlainPush(lower, cur.value, line);
    }
  }

  /** What the slicer returns are sections it would keep as they are. */
  lemma {:induction false} SlicesAreSections(lower: string -> string, lines: seq<string>, cur: Option<seq<string>>, fence: Option<string>)
    requires Collecting(lower, cur, fence) && forall k | 0 <= k < |lines| :: OneLine(lines[k])
    ensures AreSections(lower, Sections(lower, lines, cur, fence))
    decreases |lines|
  {
    hide Collecting, AreSections, IsTicks, TicksInfo, Opens, Divides, Keep, IsDirectiveInfo, OneLine, Close;
    if lines == [] {
      LastSection(lower, cur, fence);
    } else {
      var line, rest := lines[0], lines[1..];
      if IsTicks(line) || fence.Some? || !(Opens(lower, line) || Divides(line)) {
        OpensDivides(lower, line);
        KeepCollecting(lower, line, cur, fence);
        var inside := if IsTicks(line) && fence.None? then Some(TicksInfo(line)) else fence;
        SlicesAreSections(lower, rest, Keep(cur, inside, line), NextFence(fence, line));
      } else {
        var next := if Opens(lower, line) then Some([line]) else None;
        NewCollecting(lower, line);
        SlicesAreSections(lower, rest, next, None);
        AddSection(lower, cur, Sections(lower, rest, next, None));
      }
    }
  }

  lemma LastSection(lower: string -> string, cur: Option<seq<string>>, fence: Option<string>)
    requires Collecting(lower, cur, fence)
    ensures AreSections(lower, Close(cur))
  {
    hide IsSection, FenceAfter;
    assert AreSections(lower, []);
  }

  lemma NewCollecting(lower: string -> string, line: string)
    requires OneLine(line)
    ensures Opens(lower, line) ==> Collecting(lower, Some([line]), None)
    ensures Collecting(lower, None, None)
  {
    hide IsSection, FenceAfter, Opens;
    if Opens(lower, line) { SectionHead(lower, line); }
  }

  // ---------------------------------------------------------------------------
  // Trimming a section
  // ---------------------------------------------------------------------------

  /** Without trailing blank lines and the spaces of the last line. */
  function TrimTail(k: seq<string>): (r: seq<string>)
    ensures |r| <= |k| && (k != [] ==> r != [])
  {
    var n := |k| - 1;
    if k == [] then []
    else if n > 0 && TrimEnd(k[n]) == "" then TrimTail(k[..n])
    else k[..n] + [TrimEnd(k[n])]
  }

  /** `r` is `k` up to some line, with that line's trailing space cut; what is dropped after it is blank. */
  predicate IsCut(k: seq<string>, r: seq<string>) {
    && 0 < |r| <= |k| && r == k[..|r| - 1] + [TrimEnd(k[|r| - 1])]
    && (|r| > 1 ==> TrimEnd(k[|r| - 1]) != "") && forall j | |r| <= j < |k| :: TrimEnd(k[j]) == ""
  }

  lemma {:induction false} TrimTailIsCut(k: seq<string>)
    requires k != []
    ensures IsCut(k, TrimTail(k))
  {
    hide TrimEnd;
    var n := |k| - 1;
    if n > 0 && TrimEnd(k[n]) == "" {
      TrimTailIsCut(k[..n]);
      var r := TrimTail(k[..n]);
      assert k[..n][..|r| - 1] == k[..|r| - 1];
    }
  }

  lemma {:induction false} JoinLast(a: seq<string>, line: string)
    requires a != []
    ensures JoinLines(a + [line]) == JoinLines(a) + "\n" + line
  {
    if |a| > 1 {
      JoinLast(a[1..], line);
      assert a == [a[0]] + a[1..];
      assert a + [line] == [a[0]] + (a[1..] + [line]);
      JoinCons(a[0], a[1..] + [line]);
      JoinCons(a[0], a[1..]);
      assert a[0] + "\n" + (JoinLines(a[1..]) + "\n" + line) == a[0] + "\n" + JoinLines(a[1..]) + "\n" + line;
    } else {
      JoinCons(a[0], [line]);
      assert a + [line] == [a[0]] + [line];
    }
  }

  lemma {:induction false} TrimTailIsTrim(k: seq<string>)
    requires k != [] && TrimEnd(k[0]) != ""
    ensures TrimEnd(JoinLines(k)) == JoinLines(TrimTail(k))
    decreases |k|
  {
    hide TrimEnd, Join;
    var n := |k| - 1;
    assert k == k[..n] + [k[n]];
    if n == 0 {
      assert k[..n] + [TrimEnd(k[n])] == [TrimEnd(k[n])];
      JoinOne(k[n]);
      JoinOne(TrimEnd(k[n]));
      assert k == [k[n]];
    } else {
      JoinLast(k[..n], k[n]);
      if TrimEnd(k[n]) == "" {
        var spaces := TrimEndSplits(k[n]);
        TrimEndIgnores(JoinLines(k[..n]), "\n" + k[n]);
        assert JoinLines(k[..n]) + "\n" + k[n] == JoinLines(k[..n]) + ("\n" + k[n]);
        TrimTailIsTrim(k[..n]);
      } else {
        TrimEndAfter(JoinLines(k[..n]) + "\n", k[n]);
        JoinLast(k[..n], TrimEnd(k[n]));
      }
    }
  }

  lemma JoinOne(line: string)
    ensures JoinLines([line]) == line
  {
  }

  lemma SpacesOnly(line: string)
    requires TrimEnd(line) == ""
    ensures !IsTicks(line)
  {
    var spaces := TrimEndSplits(line);
    assert line == spaces;
  }

  lemma TrimEndIsPrefix(line: string)
    ensures TrimEnd(line) <= line
  {
    var spaces := TrimEndSplits(line);
  }

  lemma TrimmedTicks(line: string)
    requires TrimEnd(line) != ""
    ensures IsTicks(TrimEnd(line)) == IsTicks(line)
    ensures IsTicks(line) ==> TicksInfo(TrimEnd(line)) == TicksInfo(line)
  {
    hide TrimEnd;
    TrimEndIsPrefix(line);
    if IsTicks(line) {
      TicksSurvive(line);
      TrimmedTail(line, 3);
    }
  }

  lemma TicksSurvive(line: string)
    requires IsTicks(line)
    ensures IsTicks(TrimEnd(line))
  {
    hide TrimEnd;
    var spaces := TrimEndSplits(line);
    var kept := TrimEnd(line);
    assert line[0] == '`' && line[1] == '`' && line[2] == '`';
    assert forall k | |kept| <= k < |line| :: line[k] == spaces[k - |kept|];
  }

  lemma {:induction false} HashesOfPrefix(s: string, more: string, i: nat)
    requires i <= |s| && Hashes(s, i) < |s|
    ensures Hashes(s + more, i) == Hashes(s, i)
    decreases |s| - i
  {
    if s[i] == '#' { HashesOfPrefix(s, more, i + 1); }
  }

  /** Trimming the end of a line makes no heading of it when no terminator ends the line. */
  lemma TrimmedLevel(line: string)
    requires NoTerminator(line)
    ensures Level(TrimEnd(line)) > 0 ==> Level(line) == Level(TrimEnd(line))
  {
    hide TrimEnd, Trim, SkipSpaces;
    TrimEndIsPrefix(line);
    var spaces := TrimEndSplits(line);
    var kept := TrimEnd(line);
    if Level(kept) > 0 { HashesOfPrefix(kept, spaces, 0); }
  }

  /** A heading with a caption is the same heading once trimmed. */
  lemma HeadingSurvives(line: string)
    requires Level(line) > 0 && Caption(line) != ""
    ensures Level(TrimEnd(line)) == Level(line) && Caption(TrimEnd(line)) == Caption(line)
  {
    hide TrimEnd, SkipSpaces, Trim;
    var spaces := TrimEndSplits(line);
    var kept := TrimEnd(line);
    var n := Hashes(line);
    CaptionReaches(line, kept, spaces, n);
    assert forall k | 0 <= k < |kept| :: kept[k] == line[k];
    HashesBounded(kept, n);
    SkipSpacesExtends(kept, spaces, n);
    var j := SkipSpaces(kept, n);
    assert kept[j..] <= line[j..];
    TrimmedTail(line, n);
  }

  lemma CaptionReaches(line: string, kept: string, spaces: string, n: nat)
    requires line == kept + spaces && AllSpaces(spaces) && n < |line| && IsSpace(line[n]) && Trim(line[n..]) != ""
    requires kept == "" || !IsSpace(kept[|kept| - 1])
    ensures n + 1 < |kept| && SkipSpaces(kept, n) < |kept|
  {
    hide SkipSpaces, TrimEnd, TrimStart, IsSpace;
    if |kept| <= n + 1 {
      forall k | n <= k < |line| ensures IsSpace(line[k]) { if k >= |kept| { assert line[k] == spaces[k - |kept|]; } }
      AllSpacesFrom(line, n);
      TrimOfSpaces(line[n..]);
    }
  }

  lemma AllSpacesFrom(line: string, n: nat)
    requires n <= |line| && forall k | n <= k < |line| :: IsSpace(line[k])
    ensures AllSpaces(line[n..])
  {
  }

  lemma {:induction false} HashesFrom(s: string, i: nat, n: nat)
    requires i <= n < |s| && s[n] != '#' && forall k | i <= k < n :: s[k] == '#'
    ensures Hashes(s, i) == n
    decreases n - i
  {
    if i < n { HashesFrom(s, i + 1, n); }
  }

  lemma HashesBounded(s: string, n: nat)
    requires n < |s| && s[n] != '#' && forall k | 0 <= k < n :: s[k] == '#'
    ensures Hashes(s) == n
  {
    HashesFrom(s, 0, n);
  }

  // ---------------------------------------------------------------------------
  // Trimmed sections
  // ---------------------------------------------------------------------------

  lemma OpensSurvives(lower: string -> string, line: string)
    requires lower("") == "" && Opens(lower, line)
    ensures Opens(lower, TrimEnd(line)) && TrimEnd(line) != ""
  {
    hide TrimEnd, Level, Caption;
    assert "" !in NAMES;
    assert Caption(line) != "";
    HeadingSurvives(line);
    NoLevel();
  }

  lemma NoLevel()
    ensures Level("") == 0
  {
  }

  lemma DropLast(lower: string -> string, k: seq<string>)
    requires |k| > 1 && IsSection(lower, k)
    ensures IsSection(lower, k[..|k| - 1]) && PlainLine(k[|k| - 1], FenceAfter(k[..|k| - 1]))
    ensures FenceAfter(k) == NextFence(FenceAfter(k[..|k| - 1]), k[|k| - 1])
  {
    hide Opens, PlainLine, NextFence, OneLine;
    var n := |k| - 1;
    assert k[1..][..n - 1] == k[..n][1..];
    assert k[1..][n - 1] == k[n];
  }

  lemma FencePush(k: seq<string>, line: string)
    requires k != []
    ensures FenceAfter(k + [line]) == NextFence(FenceAfter(k), line)
  {
    hide NextFence;
    assert (k + [line])[1..] == k[1..] + [line];
    assert (k[1..] + [line])[..|k| - 1] == k[1..];
  }

  predicate Ends(line: string) { line != "" && !IsSpace(line[|line| - 1]) }

  /** The last line of a trimmed section; it may have become a heading. */
  predicate TailLine(line: string, fence: Option<string>) {
    OneLine(line) && Ends(line) && (IsTicks(line) && fence.None? ==> !IsDirectiveInfo(TicksInfo(line)))
  }

  predicate IsTrimmed(lower: string -> string, t: seq<string>): (trimmed: bool)
    ensures trimmed ==> t != []
  {
    t != []
    && if |t| == 1 then IsSection(lower, t) && Ends(t[0])
       else IsSection(lower, t[..|t| - 1]) && TailLine(t[|t| - 1], FenceAfter(t[..|t| - 1]))
  }

  lemma TailTrimmed(line: string, fence: Option<string>)
    requires PlainLine(line, fence) && TrimEnd(line) != ""
    ensures TailLine(TrimEnd(line), fence) && NextFence(fence, TrimEnd(line)) == NextFence(fence, line)
  {
    hide TrimEnd, IsTicks, TicksInfo, Level, IsDirectiveInfo;
    TrimmedTicks(line);
    TrimEndIsPrefix(line);
    var spaces := TrimEndSplits(line);
  }

  /** Trimming a section leaves a trimmed one that ends in the same fence. */
  lemma {:induction false} TrimmedSection(lower: string -> string, k: seq<string>)
    requires lower("") == "" && IsSection(lower, k)
    ensures k != [] && TrimEnd(k[0]) != "" && TrimTail(k) != []
    ensures IsTrimmed(lower, TrimTail(k)) && FenceAfter(TrimTail(k)) == FenceAfter(k)
    decreases |k|
  {
    hide Opens, PlainLine, TailLine, NextFence, OneLine, TrimEnd, FenceAfter, IsSection, Ends;
    var n := |k| - 1;
    SectionOpens(lower, k);
    OpensSurvives(lower, k[0]);
    if n == 0 {
      assert k[..0] + [TrimEnd(k[0])] == [TrimEnd(k[0])];
      assert k == [k[0]];
      TrimmedOne(k[0]);
      SectionHead(lower, k[0]);
      SectionHead(lower, TrimEnd(k[0]));
    } else {
      DropLast(lower, k);
      if TrimEnd(k[n]) == "" {
        SpacesOnly(k[n]);
        BlankKeepsFence(FenceAfter(k[..n]), k[n]);
        TrimmedSection(lower, k[..n]);
      } else {
        TailTrimmed(k[n], FenceAfter(k[..n]));
        FencePush(k[..n], TrimEnd(k[n]));
        assert (k[..n] + [TrimEnd(k[n])])[..n] == k[..n];
      }
    }
  }

  lemma TrimmedOne(line: string)
    requires OneLine(line) && TrimEnd(line) != ""
    ensures OneLine(TrimEnd(line)) && Ends(TrimEnd(line))
  {
    hide TrimEnd;
    TrimEndIsPrefix(line);
    var spaces := TrimEndSplits(line);
  }

  lemma SectionOpens(lower: string -> string, k: seq<string>)
    requires IsSection(lower, k)
    ensures k != [] && Opens(lower, k[0]) && OneLine(k[0])
  {
  }

  lemma BlankKeepsFence(fence: Option<string>, line: string)
    requires !IsTicks(line)
    ensures NextFence(fence, line) == fence
  {
  }

  /** Trimmed sections, of which only the last may leave a fence open. */
  predicate AreTrimmed(lower: string -> string, ts: seq<seq<string>>) {
    ts != [] ==>
      && IsTrimmed(lower, ts[0]) && (|ts| > 1 ==> FenceAfter(ts[0]).None?) && AreTrimmed(lower, ts[1..])
  }

  function Trimmed(ks: seq<seq<string>>): (ts: seq<seq<string>>)
    ensures |ts| == |ks| && forall i | 0 <= i < |ks| :: ts[i] == TrimTail(ks[i])
  {
    if ks == [] then [] else [TrimTail(ks[0])] + Trimmed(ks[1..])
  }

  lemma {:induction false} SectionsTrimmed(lower: string -> string, ks: seq<seq<string>>)
    requires lower("") == "" && AreSections(lower, ks)
    ensures AreTrimmed(lower, Trimmed(ks)) && forall i | 0 <= i < |ks| :: ks[i] != []
  {
    hide IsSection, IsTrimmed, FenceAfter, TrimTail;
    if ks != [] {
      TrimmedSection(lower, ks[0]);
      SectionsTrimmed(lower, ks[1..]);
      assert ([TrimTail(ks[0])] + Trimmed(ks[1..]))[1..] == Trimmed(ks[1..]);
      forall i | 0 <= i < |ks| ensures ks[i] != [] { if i > 0 { assert ks[i] == ks[1..][i - 1]; } }
    }
  }

  // ---------------------------------------------------------------------------
  // The slice of a slice
  // ---------------------------------------------------------------------------

  /** The lines of the joined texts. */
  function OutLines(ts: seq<seq<string>>): seq<string> {
    if ts == [] then [""]
    else if |ts| == 1 then ts[0]
    else ts[0] + [""] + OutLines(ts[1..])
  }

  lemma SectionsTicks(lower: string -> string, line: string, rest: seq<string>, cur: Option<seq<string>>, fence: Option<string>)
    requires fence.Some? || IsTicks(line) || !(Opens(lower, line) || Divides(line))
    ensures Sections(lower, [line] + rest, cur, fence) ==
            Sections(lower, rest, Keep(cur, if IsTicks(line) && fence.None? then Some(TicksInfo(line)) else fence, line), NextFence(fence, line))
  {
    hide Opens, Divides, IsTicks, TicksInfo, Keep;
    assert ([line] + rest)[1..] == rest;
  }

  lemma SectionsHead(lower: string -> string, line: string, rest: seq<string>, cur: Option<seq<string>>)
    requires Divides(line) && !IsTicks(line)
    ensures Sections(lower, [line] + rest, cur, None) ==
            Close(cur) + Sections(lower, rest, if Opens(lower, line) then Some([line]) else None, None)
  {
    hide Opens, Divides, IsTicks, TicksInfo, Keep;
    assert ([line] + rest)[1..] == rest;
  }

  predicate NotDirective(fence: Option<string>) { fence.Some? ==> !IsDirectiveInfo(fence.value) }

  lemma PlainLineKept(line: string, c: seq<string>, fence: Option<string>)
    requires PlainLine(line, fence) && NotDirective(fence)
    ensures NotDirective(NextFence(fence, line))
    ensures Keep(Some(c), if IsTicks(line) && fence.None? then Some(TicksInfo(line)) else fence, line) == Some(c + [line])
  {
    hide IsTicks, TicksInfo, IsDirectiveInfo, Divides, OneLine;
  }

  lemma {:induction false} PlainIsKept(lower: string -> string, body: seq<string>, rest: seq<string>, c: seq<string>)
    requires Plain(body)
    ensures NotDirective(EndFence(body, None))
    ensures Sections(lower, body + rest, Some(c), None) == Sections(lower, rest, Some(c + body), EndFence(body, None))
    decreases |body|
  {
    hide Sections, PlainLine, Opens, Divides, Keep, IsTicks, TicksInfo, NextFence, NotDirective;
    if body == [] {
      assert body + rest == rest && c + body == c;
      NoneIsNotDirective();
    } else {
      var n := |body| - 1;
      var line := body[n];
      var fence := EndFence(body[..n], None);
      PlainIsKept(lower, body[..n], [line] + rest, c);
      assert body[..n] + ([line] + rest) == body + rest;
      PlainLineKept(line, c + body[..n], fence);
      PlainStep(lower, line, fence);
      SectionsTicks(lower, line, rest, Some(c + body[..n]), fence);
      assert c + body[..n] + [line] == c + body;
    }
  }

  lemma NoneIsNotDirective()
    ensures NotDirective(None)
  {
  }

  lemma PlainStep(lower: string -> string, line: string, fence: Option<string>)
    requires PlainLine(line, fence)
    ensures fence.Some? || IsTicks(line) || !(Opens(lower, line) || Divides(line))
  {
    hide IsTicks, TicksInfo, Level;
    OpensDivides(lower, line);
  }

  lemma SectionIsKept(lower: string -> string, k: seq<string>, rest: seq<string>, cur: Option<seq<string>>)
    requires IsSection(lower, k)
    ensures Sections(lower, k + rest, cur, None) == Close(cur) + Sections(lower, rest, Some(k), FenceAfter(k))
    ensures NotDirective(FenceAfter(k))
  {
    hide Sections, Opens, Plain, OneLine, Divides;
    SectionHead(lower, k[0]);
    OpensDivides(lower, k[0]);
    assert k == [k[0]] + k[1..];
    assert k + rest == [k[0]] + (k[1..] + rest);
    SectionsHead(lower, k[0], k[1..] + rest, cur);
    PlainIsKept(lower, k[1..], rest, [k[0]]);
  }

  /** The trimmed last line of the section is a heading of level 1 or 2 outside every fence. */
  predicate Turns(t: seq<string>): (turns: bool)
    ensures turns ==> |t| > 1
  {
    |t| > 1 && FenceAfter(t[..|t| - 1]).None? && Divides(t[|t| - 1])
  }

  lemma DividesNotTicks(line: string)
    requires Divides(line)
    ensures !IsTicks(line) && line != "" && line[0] == '#'
  {
  }

  lemma TailKept(line: string, c: seq<string>, fence: Option<string>)
    requires TailLine(line, fence) && NotDirective(fence)
    ensures Keep(Some(c), if IsTicks(line) && fence.None? then Some(TicksInfo(line)) else fence, line) == Some(c + [line])
  {
    hide IsTicks, TicksInfo, IsDirectiveInfo, OneLine, Ends;
  }

  /** One trimmed section, sliced again. */
  lemma TrimmedAgain(lower: string -> string, t: seq<string>, rest: seq<string>, cur: Option<seq<string>>)
    requires IsTrimmed(lower, t)
    ensures Sections(lower, t + rest, cur, None) == Close(cur) +
      if !Turns(t) then Sections(lower, rest, Some(t), FenceAfter(t))
      else [t[..|t| - 1]] + Sections(lower, rest, if Opens(lower, t[|t| - 1]) then Some([t[|t| - 1]]) else None, None)
    ensures Turns(t) ==> FenceAfter(t).None?
  {
    hide Sections, IsSection, TailLine, Opens, Divides, IsTicks, TicksInfo, Keep, Close, NextFence, FenceAfter, NotDirective;
    if |t| == 1 {
      SectionIsKept(lower, t, rest, cur);
    } else {
      var n := |t| - 1;
      var k, line := t[..n], t[n];
      var fence := FenceAfter(k);
      assert t == k + [line];
      Regroup(k, [line], rest);
      SectionIsKept(lower, k, [line] + rest, cur);
      FencePush(k, line);
      OpensDivides(lower, line);
      if Turns(t) {
        DividesNotTicks(line);
        BlankKeepsFence(fence, line);
        SectionsHead(lower, line, rest, Some(k));
        ClosedIs(k);
      } else {
        if fence.None? && !IsTicks(line) { assert !Divides(line); }
        SectionsTicks(lower, line, rest, Some(k), fence);
        TailKept(line, k, fence);
      }
    }
  }

  /** What slicing the trimmed sections again, blank lines between them, gives. */
  function Resections(lower: string -> string, ts: seq<seq<string>>): seq<seq<string>> {
    if ts == [] then []
    else
      var t, gap := ts[0], if |ts| == 1 then [] else [""];
      (if !Turns(t) then [t + gap]
       else [t[..|t| - 1]] + if Opens(lower, t[|t| - 1]) then [[t[|t| - 1]] + gap] else [])
      + Resections(lower, ts[1..])
  }

  /** The section still being collected after the lines of `t`, with its gap. */
  function Open(lower: string -> string, t: seq<string>, gap: seq<string>): Option<seq<string>> {
    if !Turns(t) then Some(t + gap) else if Opens(lower, t[|t| - 1]) then Some([t[|t| - 1]] + gap) else None
  }

  lemma ResectionsCons(lower: string -> string, ts: seq<seq<string>>)
    requires ts != []
    ensures Resections(lower, ts) ==
      (if Turns(ts[0]) then [ts[0][..|ts[0]| - 1]] else [])
      + (Close(Open(lower, ts[0], if |ts| == 1 then [] else [""])) + Resections(lower, ts[1..]))
  {
    hide Turns, Opens;
    var t, rest := ts[0], Resections(lower, ts[1..]);
    var open := Close(Open(lower, t, if |ts| == 1 then [] else [""]));
    if Turns(t) { Regroup([t[..|t| - 1]], open, rest); } else { NothingBefore(open + rest); }
  }

  lemma NothingBefore(ks: seq<seq<string>>)
    ensures [] + ks == ks
  {
  }

  lemma {:induction false} SlicesOfOutput(lower: string -> string, ts: seq<seq<string>>, cur: Option<seq<string>>)
    requires AreTrimmed(lower, ts) && ts != []
    ensures Sections(lower, OutLines(ts), cur, None) == Close(cur) + Resections(lower, ts)
    decreases |ts|
  {
    hide Sections, IsTrimmed, FenceAfter, Close, Keep, Turns, Opens, Resections;
    var t := ts[0];
    ResectionsCons(lower, ts);
    var first := if Turns(t) then [t[..|t| - 1]] else [];
    var gap := if |ts| == 1 then [] else [""];
    var next := Open(lower, t, gap);
    var tail := if |ts| == 1 then [] else OutLines(ts[1..]);
    assert OutLines(ts) == t + (gap + tail) by { if |ts| == 1 { assert t + ([] + []) == t; } else { Regroup(t, gap, tail); } }
    FirstAgain(lower, t, gap, tail, cur);
    var fence := if Turns(t) || |ts| > 1 then None else FenceAfter(t);
    if |ts| == 1 {
      SectionsEnd(lower, next, fence);
      assert Resections(lower, ts[1..]) == [] by { assert ts[1..] == []; NoResections(lower); }
      assert Close(next) + [] == Close(next);
    } else {
      SlicesOfOutput(lower, ts[1..], next);
    }
    Regroup(Close(cur), first, Sections(lower, tail, next, fence));
  }

  lemma NoResections(lower: string -> string)
    ensures Resections(lower, []) == []
  {
  }

  /** The fence still open after a trimmed section. */
  function FenceLeft(t: seq<string>): Option<string>
    requires t != []
  {
    if Turns(t) then None else FenceAfter(t)
  }

  lemma FirstAgain(lower: string -> string, t: seq<string>, gap: seq<string>, tail: seq<string>, cur: Option<seq<string>>)
    requires IsTrimmed(lower, t) && (gap == [] || (gap == [""] && FenceAfter(t).None?))
    ensures Sections(lower, t + (gap + tail), cur, None) ==
      Close(cur) + (if Turns(t) then [t[..|t| - 1]] else [])
      + Sections(lower, tail, Open(lower, t, gap), if Turns(t) || gap == [""] then None else FenceAfter(t))
  {
    hide *;
    var first := if Turns(t) then [t[..|t| - 1]] else [];
    var fence := if Turns(t) || gap == [""] then None else FenceAfter(t);
    calc {
      Sections(lower, t + (gap + tail), cur, None);
    == { TrimmedOpen(lower, t, gap + tail, cur); }
      Close(cur) + first + Sections(lower, gap + tail, Open(lower, t, []), FenceLeft(t));
    == { GapKept(lower, t, gap, tail); }
      Close(cur) + first + Sections(lower, tail, Open(lower, t, gap), fence);
    }
  }

  lemma TrimmedOpen(lower: string -> string, t: seq<string>, rest: seq<string>, cur: Option<seq<string>>)
    requires IsTrimmed(lower, t)
    ensures Sections(lower, t + rest, cur, None) ==
            Close(cur) + (if Turns(t) then [t[..|t| - 1]] else []) + Sections(lower, rest, Open(lower, t, []), FenceLeft(t))
  {
    hide Sections, IsTrimmed, FenceAfter, Close, Turns, Opens;
    TrimmedAgain(lower, t, rest, cur);
    OpenAlone(lower, t);
    var more := Sections(lower, rest, Open(lower, t, []), FenceLeft(t));
    if Turns(t) {
      Regroup(Close(cur), [t[..|t| - 1]], more);
    } else {
      Regroup(Close(cur), [], more);
      assert [] + more == more;
    }
  }

  lemma OpenAlone(lower: string -> string, t: seq<string>)
    ensures Open(lower, t, []) ==
            if !Turns(t) then Some(t) else if Opens(lower, t[|t| - 1]) then Some([t[|t| - 1]]) else None
  {
    hide Turns, Opens;
    assert t + [] == t;
    if Turns(t) { assert [t[|t| - 1]] + [] == [t[|t| - 1]]; }
  }

  /** The blank line between two sections goes to the one still open. */
  lemma GapKept(lower: string -> string, t: seq<string>, gap: seq<string>, tail: seq<string>)
    requires t != [] && (gap == [] || (gap == [""] && FenceAfter(t).None?))
    ensures Sections(lower, gap + tail, Open(lower, t, []), FenceLeft(t)) ==
            Sections(lower, tail, Open(lower, t, gap), if Turns(t) || gap == [""] then None else FenceAfter(t))
  {
    hide Sections, FenceAfter, Turns, Opens;
    if gap == [] {
      assert [] + tail == tail;
    } else {
      OpenAlone(lower, t);
      BlankStep(lower, tail, Open(lower, t, []));
    }
  }

  lemma SectionsEnd(lower: string -> string, cur: Option<seq<string>>, fence: Option<string>)
    ensures Sections(lower, [], cur, fence) == Close(cur)
  {
  }

  lemma ClosedIs(k: seq<string>)
    ensures Close(Some(k)) == [k]
  {
  }

  lemma BlankStep(lower: string -> string, rest: seq<string>, cur: Option<seq<string>>)
    ensures Sections(lower, [""] + rest, cur, None) == Sections(lower, rest, if cur.Some? then Some(cur.value + [""]) else None, None)
  {
    hide Sections;
    SectionsTicks(lower, "", rest, cur, None);
  }

  // ---------------------------------------------------------------------------
  // The text of the slice
  // ---------------------------------------------------------------------------

  function Joined(ks: seq<seq<string>>): seq<string> {
    if ks == [] then [] else [JoinLines(ks[0])] + Joined(ks[1..])
  }

  lemma JoinStarts(k: seq<string>)
    requires k != []
    ensures k[0] <= JoinLines(k)
  {
  }

  lemma HeadNotSpace(lower: string -> string, k: seq<string>)
    requires k != [] && Opens(lower, k[0])
    ensures JoinLines(k) != "" && !IsSpace(JoinLines(k)[0])
  {
    hide Caption, Join;
    assert k[0][0] == '#';
    JoinStarts(k);
  }

  /** The text of a section is its trimmed lines, joined. */
  lemma SectionText(lower: string -> string, k: seq<string>)
    requires lower("") == "" && k != [] && Opens(lower, k[0])
    ensures Trim(JoinLines(k)) == JoinLines(TrimTail(k)) && Tight(JoinLines(TrimTail(k))) && TrimTail(k) != []
  {
    hide Opens, TrimEnd, TrimStart, Join, TrimTail;
    HeadNotSpace(lower, k);
    TrimStartDone(JoinLines(k));
    OpensSurvives(lower, k[0]);
    TrimTailIsTrim(k);
    TailHead(k);
    JoinStarts(TrimTail(k));
    var spaces := TrimEndSplits(JoinLines(k));
    TrimEndIsPrefix(JoinLines(k));
  }

  /** Trimming keeps the first line, but for its own trailing space. */
  lemma {:induction false} TailHead(k: seq<string>)
    requires k != [] && TrimEnd(k[0]) != ""
    ensures TrimTail(k) != [] && TrimEnd(k[0]) <= TrimTail(k)[0] <= k[0] && TrimTail(k)[0] != ""
    decreases |k|
  {
    hide TrimEnd;
    var n := |k| - 1;
    TrimEndIsPrefix(k[0]);
    if n > 0 && TrimEnd(k[n]) == "" { TailHead(k[..n]); }
  }

  predicate AllTight(ks: seq<seq<string>>) { forall i | 0 <= i < |ks| :: OneLiners(ks[i]) && Tight(JoinLines(ks[i])) }

  lemma TightIsNonEmpty(s: string)
    requires Tight(s)
    ensures s != ""
  {
  }

  lemma BlankedText(k: seq<string>)
    requires k != [] && Tight(JoinLines(k))
    ensures Trim(JoinLines(k + [""])) == JoinLines(k)
  {
    hide TrimEnd, TrimStart, Join;
    JoinLast(k, "");
    assert JoinLines(k) + "\n" + "" == JoinLines(k) + "\n";
    TightTrims(JoinLines(k));
    StartThenEnd(JoinLines(k), "\n");
  }

  /** The texts of two lists of sections, one section after another. */
  lemma TextsCons(k: seq<string>, text: string, rest: seq<seq<string>>)
    requires Trim(JoinLines(k)) == text && Tight(text)
    ensures Texts([k] + rest) == [text] + Texts(rest)
  {
    hide Trim, JoinLines, Tight;
    TightIsNonEmpty(text);
    assert ([k] + rest)[1..] == rest;
  }

  lemma JoinedCons(k: seq<string>, rest: seq<seq<string>>)
    ensures Joined([k] + rest) == [JoinLines(k)] + Joined(rest)
  {
    hide JoinLines;
    assert ([k] + rest)[1..] == rest;
  }

  function Output(ks: seq<seq<string>>): string { Join(Joined(ks), "\n\n") }

  lemma OutputCons(ks: seq<seq<string>>)
    requires |ks| > 0
    ensures Output(ks) == if |ks| == 1 then JoinLines(ks[0]) else JoinLines(ks[0]) + "\n\n" + Output(ks[1..])
  {
    hide JoinLines;
    assert Joined(ks)[1..] == Joined(ks[1..]);
    if |ks| > 1 { assert Joined(ks[1..]) == [JoinLines(ks[1])] + Joined(ks[1..][1..]); } else { assert Joined(ks[1..]) == []; }
  }

  lemma {:induction false} OutputTight(ks: seq<seq<string>>)
    requires AllTight(ks) && ks != []
    ensures Tight(Output(ks))
  {
    hide JoinLines, Output, OneLiners;
    OutputCons(ks);
    if |ks| > 1 { OutputTight(ks[1..]); }
  }

  lemma {:induction false} SplitAfterLines(a: seq<string>, s: string)
    requires a != [] && forall k | 0 <= k < |a| :: '\n' !in a[k]
    ensures SplitLines(JoinLines(a) + "\n" + s) == a + SplitLines(s)
  {
    hide *;
    if |a| == 1 {
      assert a == [a[0]];
      JoinOne(a[0]);
      SplitCons(a[0], s);
    } else {
      SplitAfterLines(a[1..], s);
      assert a == [a[0]] + a[1..];
      JoinCons(a[0], a[1..]);
      Regroup(a[0] + "\n", JoinLines(a[1..]), "\n");
      Regroup(a[0] + "\n", JoinLines(a[1..]) + "\n", s);
      SplitCons(a[0], JoinLines(a[1..]) + "\n" + s);
      Regroup([a[0]], a[1..], SplitLines(s));
    }
  }

  predicate OneLiners(k: seq<string>) { k != [] && forall i | 0 <= i < |k| :: '\n' !in k[i] }

  lemma {:induction false} PlainOneLiners(body: seq<string>)
    requires Plain(body)
    ensures forall i | 0 <= i < |body| :: '\n' !in body[i]
  {
    hide IsTicks, TicksInfo, Divides, EndFence;
    if body != [] { PlainOneLiners(body[..|body| - 1]); }
  }

  lemma SectionOneLiners(lower: string -> string, k: seq<string>)
    requires IsSection(lower, k)
    ensures OneLiners(k)
  {
    hide Opens, Plain;
    PlainOneLiners(k[1..]);
    forall i | 0 <= i < |k| ensures '\n' !in k[i] { if i > 0 { assert k[i] == k[1..][i - 1]; } }
  }

  lemma TrimmedOneLiners(lower: string -> string, t: seq<string>)
    requires IsTrimmed(lower, t)
    ensures OneLiners(t)
  {
    hide IsSection, FenceAfter, IsTicks, TicksInfo, Ends;
    if |t| == 1 {
      SectionOneLiners(lower, t);
    } else {
      var n := |t| - 1;
      SectionOneLiners(lower, t[..n]);
      assert forall i | 0 <= i < n :: t[i] == t[..n][i];
    }
  }

  lemma {:induction false} TailOneLiners(k: seq<string>)
    requires OneLiners(k)
    ensures OneLiners(TrimTail(k))
    decreases |k|
  {
    hide TrimEnd;
    var n := |k| - 1;
    if n > 0 && TrimEnd(k[n]) == "" {
      TailOneLiners(k[..n]);
    } else {
      TrimEndIsPrefix(k[n]);
    }
  }

  lemma {:induction false} SplitOutput(ks: seq<seq<string>>)
    requires AllTight(ks) && ks != []
    ensures SplitLines(Output(ks)) == OutLines(ks)
  {
    hide JoinLines, Output, SplitLines, Tight;
    OutputCons(ks);
    if |ks| == 1 {
      SplitJoin(ks[0]);
    } else {
      SplitOutput(ks[1..]);
      var rest := Output(ks[1..]);
      assert JoinLines(ks[0]) + "\n\n" + rest == JoinLines(ks[0]) + "\n" + ("" + "\n" + rest);
      SplitAfterLines(ks[0], "" + "\n" + rest);
      SplitCons("", rest);
      Regroup(ks[0], [""], OutLines(ks[1..]));
    }
  }

  // ---------------------------------------------------------------------------
  // The lines of the slice
  // ---------------------------------------------------------------------------

  /** The sections of a markdown text, as collected and as returned. */
  function RawSections(lower: string -> string, md: string): seq<seq<string>> { Sections(lower, SplitLines(md), None, None) }

  function CutSections(lower: string -> string, md: string): seq<seq<string>> { Trimmed(RawSections(lower, md)) }

  lemma TrimmedText(lower: string -> string, t: seq<string>)
    requires lower("") == "" && IsTrimmed(lower, t)
    ensures Tight(JoinLines(t)) && Trim(JoinLines(t)) == JoinLines(t) && TrimTail(t) == t && Opens(lower, t[0])
  {
    hide IsSection, FenceAfter, IsTicks, TicksInfo, Opens, Join, TrimEnd, TrimStart, Tight;
    var n := |t| - 1;
    if n > 0 {
      SectionOpens(lower, t[..n]);
      assert Ends(t[n]);
    } else {
      SectionOpens(lower, t);
    }
    TrimEndDone(t[n]);
    assert t[..n] + [t[n]] == t;
    SectionText(lower, t);
  }

  lemma {:induction false} TrimmedTight(lower: string -> string, ts: seq<seq<string>>)
    requires lower("") == "" && AreTrimmed(lower, ts)
    ensures AllTight(ts)
  {
    hide IsTrimmed, FenceAfter, Tight, JoinLines, OneLiners;
    if ts != [] {
      TrimmedText(lower, ts[0]);
      TrimmedOneLiners(lower, ts[0]);
      TrimmedTight(lower, ts[1..]);
      forall i | 0 <= i < |ts| ensures OneLiners(ts[i]) && Tight(JoinLines(ts[i])) { if i > 0 { assert ts[i] == ts[1..][i - 1]; } }
    }
  }

  lemma {:induction false} TextsAreJoined(lower: string -> string, ks: seq<seq<string>>)
    requires lower("") == "" && AreSections(lower, ks)
    ensures Texts(ks) == Joined(Trimmed(ks))
  {
    hide IsSection, Trim, JoinLines, TrimTail, FenceAfter, Tight;
    if ks != [] {
      SectionOpens(lower, ks[0]);
      SectionText(lower, ks[0]);
      TextsAreJoined(lower, ks[1..]);
      TextsCons(ks[0], JoinLines(TrimTail(ks[0])), ks[1..]);
      assert ks == [ks[0]] + ks[1..];
      JoinedCons(TrimTail(ks[0]), Trimmed(ks[1..]));
    }
  }

  lemma NothingCollected(lower: string -> string)
    ensures Collecting(lower, None, None)
  {
  }

  lemma EmptyTrims()
    ensures Trim("") == ""
  {
  }

  lemma LinesAreOne(md: string)
    ensures forall k | 0 <= k < |SplitLines(md)| :: OneLine(SplitLines(md)[k])
  {
    hide SplitLines;
    forall k | 0 <= k < |SplitLines(md)| ensures OneLine(SplitLines(md)[k]) { assert SplitLines(md)[k] in SplitLines(md); }
  }

  lemma CutShape(lower: string -> string, md: string)
    requires lower("") == ""
    ensures var ts := CutSections(lower, md);
      && AreTrimmed(lower, ts) && AllTight(ts)
      && Prose(lower, md) == (if ts == [] then "" else Output(ts))
      && (forall i | 0 <= i < |ts| :: RawSections(lower, md)[i] != [])
  {
    hide SplitLines, Sections, AreSections, AreTrimmed, Trim, Tight, AllTight, OneLine, Collecting, TrimTail;
    LinesAreOne(md);
    NothingCollected(lower);
    SlicesAreSections(lower, SplitLines(md), None, None);
    var raw, ts := RawSections(lower, md), CutSections(lower, md);
    SectionsTrimmed(lower, raw);
    TextsAreJoined(lower, raw);
    TrimmedTight(lower, ts);
    if ts == [] {
      EmptyTrims();
    } else {
      OutputTight(ts);
      TightTrims(Output(ts));
    }
  }

  /**
   * The slice, line by line: it is the sections, one blank line between two of them. All
   * sections together are exactly the lines under a reference heading and in no `nc:`
   * fence, in order; each loses its trailing blank lines and its last line's trailing space.
   */
  lemma SlicedProse(lower: string -> string, md: string)
    requires lower("") == ""
    ensures var ks, ts := RawSections(lower, md), CutSections(lower, md);
      && Flatten(ks) == KeptFrom(lower, SplitLines(md), 0)
      && |ts| == |ks| && (forall i | 0 <= i < |ks| :: ks[i] != [] && IsCut(ks[i], ts[i]))
      && SplitLines(Prose(lower, md)) == OutLines(ts)
  {
    hide SplitLines, Sections, AreTrimmed, AllTight, Flatten, KeptFrom, TrimTail, IsCut, Prose;
    var ks, ts := RawSections(lower, md), CutSections(lower, md);
    SlicedLines(lower, SplitLines(md));
    CutShape(lower, md);
    forall i | 0 <= i < |ks| ensures ks[i] != [] && IsCut(ks[i], ts[i]) { TrimTailIsCut(ks[i]); }
    if ts == [] { SplitSingle(""); } else { SplitOutput(ts); }
  }

  // ---------------------------------------------------------------------------
  // When slicing again changes nothing
  // ---------------------------------------------------------------------------

  /** The trimmed sections of the second slice. */
  function Second(lower: string -> string, ts: seq<seq<string>>): seq<seq<string>> {
    if ts == [] then []
    else
      var t := ts[0];
      (if !Turns(t) then [t]
       else [TrimTail(t[..|t| - 1])] + if Opens(lower, t[|t| - 1]) then [[t[|t| - 1]]] else [])
      + Second(lower, ts[1..])
  }

  /** The sections of the second slice from the first of the first one. */
  function SecondOf(lower: string -> string, t: seq<string>): seq<seq<string>> {
    if !Turns(t) then [t]
    else [TrimTail(t[..|t| - 1])] + if Opens(lower, t[|t| - 1]) then [[t[|t| - 1]]] else []
  }

  lemma GapText(k: seq<string>, gap: seq<string>)
    requires k != [] && Tight(JoinLines(k)) && (gap == [] || gap == [""])
    ensures Trim(JoinLines(k + gap)) == JoinLines(k)
  {
    hide JoinLines, Tight, Trim;
    if gap == [] {
      assert k + gap == k;
      TightTrims(JoinLines(k));
    } else {
      BlankedText(k);
    }
  }

  /** The line a section turned into a heading. */
  lemma TurnedLine(lower: string -> string, t: seq<string>)
    requires IsTrimmed(lower, t) && Turns(t)
    ensures OneLine(t[|t| - 1]) && Tight(t[|t| - 1]) && IsSection(lower, t[..|t| - 1]) && Opens(lower, t[0])
  {
    hide IsSection, FenceAfter, IsTicks, TicksInfo, Divides, Opens;
    DividesNotTicks(t[|t| - 1]);
    SectionOpens(lower, t[..|t| - 1]);
  }

  lemma SecondTexts(lower: string -> string, t: seq<string>, gap: seq<string>, rest: seq<seq<string>>, more: seq<seq<string>>)
    requires lower("") == "" && IsTrimmed(lower, t) && (gap == [] || gap == [""]) && Texts(rest) == Joined(more)
    ensures var first := if Turns(t) then [t[..|t| - 1]] else [];
            Texts(first + (Close(Open(lower, t, gap)) + rest)) == Joined(SecondOf(lower, t) + more)
    ensures AllTight(SecondOf(lower, t))
  {
    hide IsTrimmed, Turns, Opens, Trim, JoinLines, Tight, Texts, Joined, TrimTail, IsSection, OneLiners;
    var open := Open(lower, t, gap);
    if !Turns(t) {
      TrimmedText(lower, t);
      TrimmedOneLiners(lower, t);
      GapText(t, gap);
      TextsCons(t + gap, JoinLines(t), rest);
      JoinedCons(t, more);
      assert [] + (Close(open) + rest) == [t + gap] + rest;
    } else {
      var n := |t| - 1;
      var k, line := t[..n], t[n];
      TurnedLine(lower, t);
      SectionOpens(lower, k);
      SectionText(lower, k);
      SectionOneLiners(lower, k);
      TailOneLiners(k);
      TextsCons(k, JoinLines(TrimTail(k)), Close(open) + rest);
      if Opens(lower, line) {
        JoinOne(line);
        GapText([line], gap);
        LineOneLiners(line);
        TextsCons([line] + gap, line, rest);
        JoinedCons([line], more);
        JoinedCons(TrimTail(k), [[line]] + more);
        Regroup([TrimTail(k)], [[line]], more);
      } else {
        assert Close(open) + rest == rest;
        assert [TrimTail(k)] + [] == [TrimTail(k)];
        JoinedCons(TrimTail(k), more);
      }
    }
  }

  lemma TurnsLonger(t: seq<string>)
    requires Turns(t)
    ensures |t| > 1 && t[|t| - 1] != ""
  {
    DividesNotTicks(t[|t| - 1]);
  }

  lemma LineOneLiners(line: string)
    requires OneLine(line)
    ensures OneLiners([line])
  {
  }

  lemma SecondCons(lower: string -> string, ts: seq<seq<string>>)
    requires ts != []
    ensures Second(lower, ts) == SecondOf(lower, ts[0]) + Second(lower, ts[1..]) && SecondOf(lower, ts[0]) != []
  {
    hide Turns, Opens, TrimTail;
  }

  lemma {:induction false} TextsOfResections(lower: string -> string, ts: seq<seq<string>>)
    requires lower("") == "" && AreTrimmed(lower, ts)
    ensures Texts(Resections(lower, ts)) == Joined(Second(lower, ts)) && AllTight(Second(lower, ts))
  {
    hide IsTrimmed, FenceAfter, Turns, Opens, Close, Open, SecondOf, OneLiners, Tight, JoinLines;
    if ts == [] {
      NoResections(lower);
    } else {
      hide Resections, Second;
      TextsOfResections(lower, ts[1..]);
      ResectionsCons(lower, ts);
      SecondCons(lower, ts);
      SecondTexts(lower, ts[0], if |ts| == 1 then [] else [""], Resections(lower, ts[1..]), Second(lower, ts[1..]));
    }
  }

  /** The second slice, as sections. */
  lemma ProseAgain(lower: string -> string, md: string)
    requires lower("") == "" && CutSections(lower, md) != []
    ensures var again := Second(lower, CutSections(lower, md));
            Prose(lower, Prose(lower, md)) == Output(again) && AllTight(again) && again != []
  {
    hide SplitLines, Sections, AreTrimmed, AllTight, Trim, Tight, Texts, Resections, Second, CutSections, OutLines, Close;
    var ts := CutSections(lower, md);
    CutShape(lower, md);
    SplitOutput(ts);
    SlicesOfOutput(lower, ts, None);
    NothingClosed(Resections(lower, ts));
    TextsOfResections(lower, ts);
    SecondCons(lower, ts);
    OutputTight(Second(lower, ts));
    TightTrims(Output(Second(lower, ts)));
  }

  lemma NothingClosed(ks: seq<seq<string>>)
    ensures Close(None) + ks == ks
  {
  }

  /** The last line starts no heading, or starts a reference section after exactly one blank line. */
  predicate Settles(lower: string -> string, t: seq<string>) {
    Turns(t) ==> Opens(lower, t[|t| - 1]) && t[..|t| - 1] == TrimTail(t[..|t| - 1]) + [""]
  }

  predicate AllSettle(lower: string -> string, ts: seq<seq<string>>) { forall i | 0 <= i < |ts| :: Settles(lower, ts[i]) }

  /** Cutting the lines before the last one and going on after a blank line with a reference heading. */
  lemma Diverges(lower: string -> string, t: seq<string>, tail: seq<string>, more: seq<string>)
    requires |t| > 1 && t[|t| - 1] != "" && t + tail == TrimTail(t[..|t| - 1]) + more
    requires more == [] || (|more| > 1 && more[0] == "" && Opens(lower, more[1]))
    ensures Opens(lower, t[|t| - 1]) && t[..|t| - 1] == TrimTail(t[..|t| - 1]) + [""]
  {
    hide TrimTail, TrimEnd, Opens;
    var n := |t| - 1;
    var cut := TrimTail(t[..n]);
    var m, lines := |cut|, t + tail;
    TrimTailIsCut(t[..n]);
    assert m <= n;
    assert lines[n] == t[n] && n < |lines|;
    assert |more| == |lines| - m;
    assert more != [];
    assert lines[m] == more[0] && lines[m + 1] == more[1];
    if m + 1 < n {
      assert lines[m + 1] == t[..n][m + 1];
      OpensIsNotBlank(lower, t[..n][m + 1]);
    }
    assert t[..n] == lines[..n];
    assert lines[..n] == (cut + more)[..n];
  }

  lemma OpensIsNotBlank(lower: string -> string, line: string)
    requires Opens(lower, line)
    ensures TrimEnd(line) != ""
  {
    hide TrimEnd, Caption;
    var spaces := TrimEndSplits(line);
    assert line[0] == '#';
  }

  lemma OutLinesCons(t: seq<string>, rest: seq<seq<string>>)
    ensures OutLines([t] + rest) == t + if rest == [] then [] else [""] + OutLines(rest)
  {
    assert ([t] + rest)[1..] == rest;
    if rest == [] { assert t + [] == t; } else { Regroup(t, [""], OutLines(rest)); }
  }

  lemma SecondHead(lower: string -> string, ts: seq<seq<string>>)
    requires lower("") == "" && AreTrimmed(lower, ts) && ts != []
    ensures OutLines(Second(lower, ts)) != [] && Opens(lower, OutLines(Second(lower, ts))[0])
  {
    hide IsTrimmed, FenceAfter, Turns, Opens, TrimEnd;
    SecondCons(lower, ts);
    var t := ts[0];
    var first := SecondOf(lower, t)[0];
    if Turns(t) {
      TurnsLonger(t);
      TurnedLine(lower, t);
      CutHead(lower, t[..|t| - 1]);
    } else {
      TrimmedText(lower, t);
    }
    var rest := Second(lower, ts)[1..];
    assert Second(lower, ts) == [first] + rest;
    OutLinesCons(first, rest);
  }

  lemma CutHead(lower: string -> string, k: seq<string>)
    requires lower("") == "" && k != [] && Opens(lower, k[0])
    ensures TrimTail(k) != [] && Opens(lower, TrimTail(k)[0])
  {
    hide TrimTail, TrimEnd, Opens;
    OpensSurvives(lower, k[0]);
    TrimTailIsCut(k);
    if |TrimTail(k)| > 1 { assert TrimTail(k)[0] == k[0]; }
  }

  /** The lines of both slices agree exactly when every section settles. */
  lemma {:induction false} SettledIff(lower: string -> string, ts: seq<seq<string>>)
    requires lower("") == "" && AreTrimmed(lower, ts) && ts != []
    ensures OutLines(Second(lower, ts)) == OutLines(ts) <==> AllSettle(lower, ts)
    decreases |ts|
  {
    hide IsTrimmed, FenceAfter, Second, OutLines, Settles, AllSettle, AreTrimmed;
    var t, rest := ts[0], ts[1..];
    assert ts == [t] + rest;
    FirstTrimmed(lower, ts);
    SecondCons(lower, ts);
    OutLinesCons(t, rest);
    SettleCons(lower, t, rest);
    if rest != [] {
      SettledIff(lower, rest);
      SecondHead(lower, rest);
      SecondCons(lower, rest);
    } else {
      NoneSecond(lower);
      NoneSettle(lower);
    }
    FirstSettles(lower, t, Second(lower, rest), rest);
  }

  lemma FirstTrimmed(lower: string -> string, ts: seq<seq<string>>)
    requires AreTrimmed(lower, ts) && ts != []
    ensures IsTrimmed(lower, ts[0]) && AreTrimmed(lower, ts[1..])
  {
  }

  lemma NoneSecond(lower: string -> string)
    ensures Second(lower, []) == []
  {
  }

  lemma SettleCons(lower: string -> string, t: seq<string>, rest: seq<seq<string>>)
    ensures AllSettle(lower, [t] + rest) <==> Settles(lower, t) && AllSettle(lower, rest)
  {
    hide Settles;
    assert forall i | 0 <= i < |rest| :: ([t] + rest)[i + 1] == rest[i];
    assert ([t] + rest)[0] == t;
  }

  lemma FirstSettles(lower: string -> string, t: seq<string>, second: seq<seq<string>>, rest: seq<seq<string>>)
    requires IsTrimmed(lower, t) && (second == [] <==> rest == [])
    requires rest != [] ==> OutLines(second) != [] && Opens(lower, OutLines(second)[0])
    ensures OutLines(SecondOf(lower, t) + second) == t + (if rest == [] then [] else [""] + OutLines(rest)) <==>
            Settles(lower, t) && (rest == [] || OutLines(second) == OutLines(rest))
  {
    hide IsTrimmed, FenceAfter, OutLines, TrimTail, Opens, Turns;
    var tail := if rest == [] then [] else [""] + OutLines(rest);
    var next := if rest == [] then [] else [""] + OutLines(second);
    assert tail == next <==> rest == [] || OutLines(second) == OutLines(rest) by {
      if rest != [] { assert tail[1..] == OutLines(rest) && next[1..] == OutLines(second); }
    }
    if !Turns(t) {
      OutLinesCons(t, second);
      SamePrefix(t, next, tail);
    } else {
      TurnsLonger(t);
      var cut, line := TrimTail(t[..|t| - 1]), t[|t| - 1];
      if Opens(lower, line) {
        OutLinesCons([line], second);
        OutLinesCons(cut, [[line]] + second);
        Regroup([cut], [[line]], second);
      } else {
        assert [cut] + [] == [cut];
        OutLinesCons(cut, second);
      }
      TurnedSettles(lower, t, next, tail);
    }
  }

  lemma TurnedSettles(lower: string -> string, t: seq<string>, next: seq<string>, tail: seq<string>)
    requires |t| > 1 && t[|t| - 1] != "" && (next == [] || (|next| > 1 && next[0] == "" && Opens(lower, next[1])))
    ensures var cut, line := TrimTail(t[..|t| - 1]), t[|t| - 1];
            cut + (if Opens(lower, line) then [""] + ([line] + next) else next) == t + tail <==>
            Opens(lower, line) && t[..|t| - 1] == cut + [""] && next == tail
  {
    hide TrimTail, Opens;
    var n := |t| - 1;
    var cut, line := TrimTail(t[..n]), t[n];
    var more := if Opens(lower, line) then [""] + ([line] + next) else next;
    if cut + more == t + tail { Diverges(lower, t, tail, more); }
    if Opens(lower, line) && t[..n] == cut + [""] {
      assert t == t[..n] + [line];
      assert cut + more == t + next;
      SamePrefix(t, next, tail);
    }
  }

  lemma SamePrefix(a: seq<string>, b: seq<string>, c: seq<string>)
    ensures a + b == a + c <==> b == c
  {
    if a + b == a + c { assert (a + b)[|a|..] == b && (a + c)[|a|..] == c; }
  }

  lemma NoSections(lower: string -> string)
    ensures Prose(lower, "") == ""
  {
    assert SplitLines("") == [""];
    assert [""][1..] == [];
    assert Texts([]) == [];
  }

  /**
   * Slicing a slice changes nothing exactly when no section's last line, once its trailing
   * space is cut, has become a level 1 or 2 heading outside a fence; or has become a
   * reference heading just after one blank line, where the text is the same.
   */
  lemma SliceIsIdempotentIff(lower: string -> string, md: string)
    requires lower("") == ""
    ensures Prose(lower, Prose(lower, md)) == Prose(lower, md) <==> AllSettle(lower, CutSections(lower, md))
  {
    hide CutSections, AreTrimmed, AllTight, AllSettle, Second, Output, OutLines, SplitLines, Prose;
    var ts := CutSections(lower, md);
    CutShape(lower, md);
    if ts == [] {
      NoSections(lower);
      NoneSettle(lower);
    } else {
      ProseAgain(lower, md);
      var again := Second(lower, ts);
      SplitOutput(ts);
      SplitOutput(again);
      JoinSplit(Output(ts));
      JoinSplit(Output(again));
      SettledIff(lower, ts);
    }
  }

  lemma NoneSettle(lower: string -> string)
    ensures AllSettle(lower, [])
  {
  }

  /** Text whose only line terminator is the newline. */
  predicate LfOnly(md: string) { forall k | 0 <= k < |md| :: IsLineTerminator(md[k]) ==> md[k] == '\n' }

  lemma {:induction false} LfOnlyLines(md: string)
    requires LfOnly(md)
    ensures forall k | 0 <= k < |SplitLines(md)| :: NoTerminator(SplitLines(md)[k])
  {
    if md != "" { LfOnlyLines(md[1..]); }
  }

  /** Trimming a section of lines without terminators turns no line into a heading. */
  lemma {:induction false} PlainDoesNotTurn(lower: string -> string, k: seq<string>)
    requires IsSection(lower, k) && forall i | 0 <= i < |k| :: NoTerminator(k[i])
    ensures !Turns(TrimTail(k))
    decreases |k|
  {
    hide FenceAfter, IsSection, PlainLine, TrimEnd, Level, NoTerminator;
    var n := |k| - 1;
    if n > 0 {
      DropLast(lower, k);
      if TrimEnd(k[n]) == "" {
        PlainDoesNotTurn(lower, k[..n]);
      } else {
        var t := k[..n] + [TrimEnd(k[n])];
        assert t[..n] == k[..n];
        PlainTail(k[n], FenceAfter(k[..n]));
      }
    }
  }

  lemma PlainTail(line: string, fence: Option<string>)
    requires PlainLine(line, fence) && NoTerminator(line) && TrimEnd(line) != ""
    ensures fence.Some? || !Divides(TrimEnd(line))
  {
    hide TrimEnd, Level, IsTicks, TicksInfo, NoTerminator;
    TrimmedLevel(line);
    TrimmedTicks(line);
    if Divides(TrimEnd(line)) { DividesNotTicks(TrimEnd(line)); }
  }

  lemma {:induction false} KeptFromLines(lower: string -> string, lines: seq<string>, i: nat, line: string)
    requires i <= |lines| && line in KeptFrom(lower, lines, i)
    ensures line in lines
    decreases |lines| - i
  {
    hide Kept;
    if i < |lines| && line in KeptFrom(lower, lines, i + 1) { KeptFromLines(lower, lines, i + 1, line); }
  }

  lemma {:induction false} FlattenHas(ks: seq<seq<string>>, i: nat, line: string)
    requires i < |ks| && line in ks[i]
    ensures line in Flatten(ks)
  {
    if i > 0 { FlattenHas(ks[1..], i - 1, line); }
  }

  lemma {:induction false} SectionAt(lower: string -> string, ks: seq<seq<string>>, i: nat)
    requires AreSections(lower, ks) && i < |ks|
    ensures IsSection(lower, ks[i])
  {
    hide IsSection, FenceAfter;
    if i > 0 { SectionAt(lower, ks[1..], i - 1); }
  }

  /** Slicing a slice of text with newlines alone changes nothing. */
  lemma SliceIsIdempotent(lower: string -> string, md: string)
    requires lower("") == "" && LfOnly(md)
    ensures Prose(lower, Prose(lower, md)) == Prose(lower, md)
  {
    hide Sections, AreSections, SplitLines, NoTerminator, LfOnly, Collecting, Turns, TrimTail, Prose, Flatten, KeptFrom, OneLine;
    var lines, ks := SplitLines(md), RawSections(lower, md);
    LfOnlyLines(md);
    LinesAreOne(md);
    NothingCollected(lower);
    SlicesAreSections(lower, lines, None, None);
    SlicedLines(lower, lines);
    forall i | 0 <= i < |ks| ensures !Turns(TrimTail(ks[i])) {
      SectionAt(lower, ks, i);
      forall j | 0 <= j < |ks[i]| ensures NoTerminator(ks[i][j]) {
        FlattenHas(ks, i, ks[i][j]);
        KeptFromLines(lower, lines, 0, ks[i][j]);
      }
      PlainDoesNotTurn(lower, ks[i]);
    }
    SliceIsIdempotentIff(lower, md);
  }

  // ---------------------------------------------------------------------------
  // When a slice holds nothing but reference text
  // ---------------------------------------------------------------------------

  /** The last line has become a heading that ends the section it stands in. */
  predicate Loses(lower: string -> string, t: seq<string>) { Turns(t) && !Opens(lower, t[|t| - 1]) }

  predicate NoneLoses(lower: string -> string, ts: seq<seq<string>>) { forall i | 0 <= i < |ts| :: !Loses(lower, ts[i]) }

  lemma {:induction false} ResectionsHold(lower: string -> string, ts: seq<seq<string>>)
    requires ts != []
    ensures |Flatten(Resections(lower, ts))| <= |OutLines(ts)|
    ensures |Flatten(Resections(lower, ts))| == |OutLines(ts)| <==> NoneLoses(lower, ts)
    decreases |ts|
  {
    hide Turns, Opens, Resections, OutLines, Flatten, Loses;
    var t, rest, gap := ts[0], ts[1..], if |ts| == 1 then [] else [""];
    assert ts == [t] + rest;
    OutLinesCons(t, rest);
    ResectionsCons(lower, ts);
    FirstHolds(lower, t, gap);
    var first := if Turns(t) then [t[..|t| - 1]] else [];
    FlattenSplits(first, Close(Open(lower, t, gap)) + Resections(lower, rest));
    FlattenSplits(Close(Open(lower, t, gap)), Resections(lower, rest));
    LosesCons(lower, t, rest);
    if rest == [] {
      NoResections(lower);
      FlattenNone();
    } else {
      ResectionsHold(lower, rest);
    }
  }

  lemma FirstHolds(lower: string -> string, t: seq<string>, gap: seq<string>)
    ensures var first := if Turns(t) then [t[..|t| - 1]] else [];
      |Flatten(first)| + |Flatten(Close(Open(lower, t, gap)))| == if Loses(lower, t) then |t| - 1 else |t| + |gap|
  {
    hide Turns, Opens, FenceAfter;
    FlattenNone();
    if Turns(t) {
      TurnsLonger(t);
      FlattenOne(t[..|t| - 1]);
    }
    if Open(lower, t, gap).Some? { FlattenOne(Open(lower, t, gap).value); }
  }

  lemma FlattenOne(k: seq<string>)
    ensures Flatten([k]) == k
  {
    FlattenFirst(k, []);
    assert [k] + [] == [k] && k + [] == k;
  }

  lemma LosesCons(lower: string -> string, t: seq<string>, rest: seq<seq<string>>)
    ensures NoneLoses(lower, [t] + rest) <==> !Loses(lower, t) && NoneLoses(lower, rest)
  {
    hide Loses;
    assert forall i | 0 <= i < |rest| :: ([t] + rest)[i + 1] == rest[i];
    assert ([t] + rest)[0] == t;
  }

  lemma {:induction false} KeptAllIff(lower: string -> string, lines: seq<string>, i: nat)
    requires i <= |lines|
    ensures |KeptFrom(lower, lines, i)| == |lines| - i <==> forall k | i <= k < |lines| :: Kept(lower, lines, k)
    decreases |lines| - i
  {
    hide Kept;
    if i < |lines| { KeptAllIff(lower, lines, i + 1); }
  }

  /**
   * Read again, every line of a slice is under a reference heading and in no `nc:` fence,
   * exactly when no section's trimmed last line has become another level 1 or 2 heading.
   */
  lemma SliceHoldsOnlyReference(lower: string -> string, md: string)
    requires lower("") == "" && Prose(lower, md) != ""
    ensures var lines := SplitLines(Prose(lower, md));
            (forall k | 0 <= k < |lines| :: Kept(lower, lines, k)) <==> NoneLoses(lower, CutSections(lower, md))
  {
    hide CutSections, Sections, AreTrimmed, AllTight, OutLines, SplitLines, Kept, KeptFrom, Flatten, Prose, Resections, Close, NoneLoses;
    var ts := CutSections(lower, md);
    CutShape(lower, md);
    SplitOutput(ts);
    var lines := OutLines(ts);
    SlicesOfOutput(lower, ts, None);
    NothingClosed(Resections(lower, ts));
    SlicedLines(lower, lines);
    ResectionsHold(lower, ts);
    KeptAllIff(lower, lines, 0);
  }

  // ---------------------------------------------------------------------------
  // A carriage return breaks idempotence
  // ---------------------------------------------------------------------------

  const HEAD := "## alternatives"

  lemma HeadHashes()
    ensures Hashes(HEAD) == 2 && HEAD[2..] == " " + "alternatives" && AllSpaces(" ") && Tight("alternatives")
  {
    hide Hashes;
    HashesBounded(HEAD, 2);
  }

  lemma HeadCaption()
    ensures Caption(HEAD) == "alternatives" && Hashes(HEAD) == 2
  {
    hide Hashes, TrimStart, TrimEnd, IsSpace;
    HeadHashes();
    TightTrims("alternatives");
    TrimStartSkips(" ", "alternatives");
  }

  lemma HeadOpens(lower: string -> string)
    requires lower("alternatives") == "alternatives"
    ensures Opens(lower, HEAD) && !IsTicks(HEAD)
  {
    hide Hashes, Caption;
    HeadCaption();
    assert SkipSpaces(HEAD, 2) == 3;
  }

  lemma ReturnIsNoHeading()
    ensures Level("# x\r") == 0 && Level("# x") == 1 && !IsTicks("# x\r") && !IsTicks("# x")
  {
    assert Hashes("# x\r") == 1 && SkipSpaces("# x\r", 1) == 2;
    assert "# x\r"[2..][1] == '\r';
    assert Hashes("# x") == 1 && SkipSpaces("# x", 1) == 2;
    assert "# x"[2..] == "x";
  }

  lemma ReturnSections(lower: string -> string)
    requires lower("alternatives") == "alternatives"
    ensures Sections(lower, [HEAD, "# x\r"], None, None) == [[HEAD, "# x\r"]]
    ensures Sections(lower, [HEAD, "# x"], None, None) == [[HEAD]]
  {
    hide Level, Hashes, IsTicks, Caption;
    HeadOpens(lower);
    ReturnIsNoHeading();
    SectionsHead(lower, HEAD, ["# x\r"], None);
    SectionsHead(lower, HEAD, ["# x"], None);
    assert [HEAD] + ["# x\r"] == [HEAD, "# x\r"] && [HEAD] + ["# x"] == [HEAD, "# x"];
    assert ["# x\r"][1..] == [] && ["# x"][1..] == [];
    assert [[HEAD]] + [] == [[HEAD]];
  }

  lemma ProseOfOne(lower: string -> string, md: string, k: seq<string>, text: string)
    requires Sections(lower, SplitLines(md), None, None) == [k] && Trim(JoinLines(k)) == text && Tight(text)
    ensures Prose(lower, md) == text
  {
    hide Trim, JoinLines, Sections, SplitLines;
    TightIsNonEmpty(text);
    TightTrims(text);
    assert [k][1..] == [];
    assert Texts([k]) == [text];
  }

  lemma TwoLines(a: string, b: string)
    requires '\n' !in a && '\n' !in b
    ensures JoinLines([a, b]) == a + "\n" + b && SplitLines(a + "\n" + b) == [a, b]
  {
    hide SplitLines, JoinLines;
    JoinCons(a, [b]);
    JoinOne(b);
    SplitCons(a, b);
    SplitSingle(b);
    assert [a] + [b] == [a, b];
  }

  lemma TightTexts()
    ensures Tight(HEAD + "\n" + "# x") && Tight(HEAD) && '\n' !in HEAD && AllSpaces("\r")
  {
  }

  /** A last line whose carriage return hides a heading: the second slice drops it. */
  lemma ReturnNotIdempotent(lower: string -> string)
    requires lower("alternatives") == "alternatives"
    ensures Prose(lower, HEAD + "\n" + "# x\r") == HEAD + "\n" + "# x"
    ensures Prose(lower, HEAD + "\n" + "# x") == HEAD
  {
    hide *;
    ReturnSections(lower);
    TightTexts();
    TwoLines(HEAD, "# x\r");
    TwoLines(HEAD, "# x");
    var text := HEAD + "\n" + "# x";
    TightTrims(text);
    TightTrims(HEAD);
    JoinOne(HEAD);
    Regroup(HEAD + "\n", "# x", "\r");
    assert "# x" + "\r" == "# x\r";
    TightTrimsMore(text, "\r");
    ProseOfOne(lower, HEAD + "\n" + "# x\r", [HEAD, "# x\r"], text);
    ProseOfOne(lower, text, [HEAD], HEAD);
  }
}
