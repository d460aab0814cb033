/** Where the sliced sections begin and end in the document, and which of its lines they hold. */
module ReferenceLines {
  import opened Text
  import opened Trimming
  import opened Vars
  import opened ReferenceProse

  // ---------------------------------------------------------------------------
  // Headings and fences, as written
  // ---------------------------------------------------------------------------

  function Marks(n: nat): string { seq(n, _ => '#') }

  predicate OnOneLine(s: string) { '\n' !in s && '\r' !in s && '\U{2028}' !in s && '\U{2029}' !in s }

  /** One to six hashes, then space, then the rest of the line. */
  ghost predicate Heading(line: string, level: nat, caption: string) {
    1 <= level <= 6 && exists gap, text | gap != "" && AllSpaces(gap) && OnOneLine(text) ::
      line == Marks(level) + gap + text && caption == Trim(text)
  }

  ghost predicate ReferenceHeading(lower: string -> string, line: string) {
    exists caption :: Heading(line, 2, caption) && lower(caption) in {"alternatives", "optional configuration", "troubleshooting"}
  }

  ghost predicate ChapterHeading(line: string) { exists caption :: Heading(line, 1, caption) || Heading(line, 2, caption) }

  predicate Ticked(line: string) { |line| >= 3 && line[0] == '`' && line[1] == '`' && line[2] == '`' }

  /** How many of the first `i` lines are fences. */
  function Fencings(lines: seq<string>, i: nat): nat
    requires i <= |lines|
  {
    if i == 0 then 0 else Fencings(lines, i - 1) + if Ticked(lines[i - 1]) then 1 else 0
  }

  /** Outside every fence. */
  predicate Free(lines: seq<string>, i: nat)
    requires i < |lines|
  {
    Fencings(lines, i) % 2 == 0 && !Ticked(lines[i])
  }

  /** Line `i` opens, closes or is inside the `nc:` fence that opens at `j`. */
  predicate TaggedFrom(lines: seq<string>, j: nat, i: nat)
    requires j <= i < |lines|
  {
    && Fencings(lines, j) % 2 == 0 && Ticked(lines[j]) && "nc:" <= Trim(lines[j][3..])
    && forall k | j < k < i :: !Ticked(lines[k])
  }

  predicate InTagged(lines: seq<string>, i: nat)
    requires i < |lines|
  {
    exists j | 0 <= j <= i :: TaggedFrom(lines, j, i)
  }

  /** A section starts at the line. */
  ghost predicate Starts(lower: string -> string, lines: seq<string>, i: nat)
    requires i < |lines|
  {
    Free(lines, i) && ReferenceHeading(lower, lines[i])
  }

  /** The last heading of level 1 or 2 at or above line `i`, outside every fence, is a reference heading. */
  ghost predicate UnderReference(lower: string -> string, lines: seq<string>, i: nat)
    requires i < |lines|
  {
    exists h | 0 <= h <= i :: Starts(lower, lines, h) && forall k | h < k <= i :: Free(lines, k) ==> !ChapterHeading(lines[k])
  }

  /** The line is part of the reference prose. */
  ghost predicate Wanted(lower: string -> string, lines: seq<string>, i: nat)
    requires i < |lines|
  {
    UnderReference(lower, lines, i) && !InTagged(lines, i)
  }

  // ---------------------------------------------------------------------------
  // The slicer's tests are these
  // ---------------------------------------------------------------------------

  lemma GapEnds(line: string, n: nat, gap: string, text: string)
    requires line == Marks(n) + gap + text && gap != "" && AllSpaces(gap)
    ensures Hashes(line) == n && n < |line| && IsSpace(line[n]) && line[n..] == gap + text
    ensures n + |gap| <= SkipSpaces(line, n) && line[SkipSpaces(line, n)..] == text[SkipSpaces(line, n) - n - |gap|..]
    ensures Trim(line[n..]) == Trim(text)
  {
    assert forall k | 0 <= k < n :: line[k] == Marks(n)[k] == '#';
    assert forall k | n <= k < n + |gap| :: line[k] == gap[k - n];
    assert line[n] == gap[0];
    HashesFrom(line, 0, n);
    assert line[n + |gap|..] == text;
    TrimStartSkips(gap, text);
  }

  lemma HeadingIs(line: string, level: nat, caption: string)
    requires Heading(line, level, caption)
    ensures Level(line) == level && Caption(line) == caption
  {
    hide Trim, AllSpaces, OnOneLine, NoTerminator, Marks;
    var gap, text :| gap != "" && AllSpaces(gap) && OnOneLine(text) && line == Marks(level) + gap + text && caption == Trim(text);
    GapEnds(line, level, gap, text);
    var e := SkipSpaces(line, level);
    assert line[e..] == text[e - level - |gap|..];
    TailOnOneLine(text, e - level - |gap|);
  }

  lemma TailOnOneLine(text: string, n: nat)
    requires OnOneLine(text) && n <= |text|
    ensures NoTerminator(text[n..])
  {
    assert forall k | 0 <= k < |text[n..]| :: text[n..][k] == text[n + k] && text[n + k] in text;
  }

  lemma LevelIsHeading(line: string)
    requires Level(line) > 0
    ensures Heading(line, Level(line), Caption(line))
  {
    var n := Level(line);
    var e := SkipSpaces(line, n);
    var gap, text := line[n..e], line[e..];
    assert line[..n] == Marks(n);
    assert line == Marks(n) + gap + text;
    GapEnds(line, n, gap, text);
  }

  lemma OpensIff(lower: string -> string, line: string)
    ensures Opens(lower, line) <==> ReferenceHeading(lower, line)
  {
    hide Level, Caption, Heading;
    if Opens(lower, line) { LevelIsHeading(line); }
    if caption :| Heading(line, 2, caption) && lower(caption) in {"alternatives", "optional configuration", "troubleshooting"} {
      HeadingIs(line, 2, caption);
    }
  }

  lemma DividesIff(line: string)
    ensures Divides(line) <==> ChapterHeading(line)
  {
    hide Level, Caption, Heading;
    if Divides(line) { LevelIsHeading(line); }
    if caption :| Heading(line, 1, caption) || Heading(line, 2, caption) {
      if Heading(line, 1, caption) { HeadingIs(line, 1, caption); } else { HeadingIs(line, 2, caption); }
    }
  }

  lemma TicksIff(line: string)
    ensures IsTicks(line) <==> Ticked(line)
  {
  }

  /** The fence open before line `i`, by counting. */
  lemma {:induction false} FenceIs(lines: seq<string>, i: nat) returns (j: nat)
    requires i <= |lines|
    ensures FenceBefore(lines, i).None? <==> Fencings(lines, i) % 2 == 0
    ensures FenceBefore(lines, i).Some? ==>
      && j < i && Fencings(lines, j) % 2 == 0 && Ticked(lines[j]) && FenceBefore(lines, i) == Some(Trim(lines[j][3..]))
      && forall k | j < k < i :: !Ticked(lines[k])
  {
    hide Trim, Ticked, IsTicks;
    j := 0;
    if i > 0 {
      TicksIff(lines[i - 1]);
      j := FenceIs(lines, i - 1);
      if FenceBefore(lines, i - 1).None? { j := i - 1; }
    }
  }

  lemma DirectiveIff(lines: seq<string>, i: nat)
    requires i < |lines|
    ensures InDirective(lines, i) <==> InTagged(lines, i)
  {
    hide Trim, Ticked, IsTicks, FenceBefore, Fencings;
    TicksIff(lines[i]);
    var j := FenceIs(lines, i);
    if InDirective(lines, i) {
      if FenceBefore(lines, i).None? { assert TaggedFrom(lines, i, i); } else { assert TaggedFrom(lines, j, i); }
    }
    if InTagged(lines, i) {
      var t :| 0 <= t <= i && TaggedFrom(lines, t, i);
      if FenceBefore(lines, i).Some? {
        assert t == j;
      } else if t < i {
        StaysOdd(lines, t, i);
      }
    }
  }

  lemma {:induction false} StaysOdd(lines: seq<string>, j: nat, i: nat)
    requires j < i <= |lines| && Fencings(lines, j) % 2 == 0 && Ticked(lines[j]) && forall k | j < k < i :: !Ticked(lines[k])
    ensures Fencings(lines, i) % 2 == 1
  {
    hide Ticked;
    if j + 1 < i { StaysOdd(lines, j, i - 1); }
  }

  lemma DividerIff(lower: string -> string, lines: seq<string>, i: nat)
    requires i < |lines|
    ensures IsDivider(lines, i) <==> Free(lines, i) && ChapterHeading(lines[i])
    ensures IsDivider(lines, i) && Opens(lower, lines[i]) <==> Starts(lower, lines, i)
  {
    hide Ticked, IsTicks, FenceBefore, Fencings, Opens, Divides, ReferenceHeading, ChapterHeading;
    TicksIff(lines[i]);
    var _ := FenceIs(lines, i);
    DividesIff(lines[i]);
    OpensIff(lower, lines[i]);
    OpensDivides(lower, lines[i]);
  }

  lemma {:induction false} ReferenceIff(lower: string -> string, lines: seq<string>, i: nat)
    requires i < |lines|
    ensures InReference(lower, lines, i) <==> UnderReference(lower, lines, i)
  {
    hide Starts, Free, ChapterHeading, IsDivider, Opens;
    DividerIff(lower, lines, i);
    if i > 0 { ReferenceIff(lower, lines, i - 1); }
    if IsDivider(lines, i) && Opens(lower, lines[i]) { assert Starts(lower, lines, i); }
  }

  lemma WantedIff(lower: string -> string, lines: seq<string>, i: nat)
    requires i < |lines|
    ensures Kept(lower, lines, i) <==> Wanted(lower, lines, i)
  {
    ReferenceIff(lower, lines, i);
    DirectiveIff(lines, i);
  }

  // ---------------------------------------------------------------------------
  // The sections
  // ---------------------------------------------------------------------------

  /** The wanted lines from `a` up to `b`. */
  ghost function Between(lower: string -> string, lines: seq<string>, a: nat, b: nat): seq<string>
    requires a <= b <= |lines|
    decreases b - a
  {
    if a == b then [] else (if Wanted(lower, lines, a) then [lines[a]] else []) + Between(lower, lines, a + 1, b)
  }

  /** The first line at or after `i` that starts a section, or the end. */
  ghost function NextStart(lower: string -> string, lines: seq<string>, i: nat): (n: nat)
    requires i <= |lines|
    ensures i <= n <= |lines|
    ensures n < |lines| ==> Starts(lower, lines, n)
    ensures forall k | i <= k < n :: !Starts(lower, lines, k)
    decreases |lines| - i
  {
    if i == |lines| || Starts(lower, lines, i) then i else NextStart(lower, lines, i + 1)
  }

  /** One section for each line at or after `i` that starts one: its wanted lines up to the next start. */
  ghost function Chapters(lower: string -> string, lines: seq<string>, i: nat): seq<seq<string>>
    requires i <= |lines|
    decreases |lines| - i
  {
    if i == |lines| then []
    else (if Starts(lower, lines, i) then [Between(lower, lines, i, NextStart(lower, lines, i + 1))] else [])
         + Chapters(lower, lines, i + 1)
  }

  /** Away from reference headings nothing is wanted until the next one. */
  lemma {:induction false} NothingWanted(lower: string -> string, lines: seq<string>, i: nat)
    requires i <= |lines| && (i > 0 ==> !InReference(lower, lines, i - 1))
    ensures Between(lower, lines, i, NextStart(lower, lines, i)) == []
    decreases |lines| - i
  {
    hide Starts, IsDivider, Wanted, InDirective, Opens;
    if i < |lines| && !Starts(lower, lines, i) {
      DividerIff(lower, lines, i);
      WantedIff(lower, lines, i);
      NothingWanted(lower, lines, i + 1);
    }
  }

  ghost function Rest(lower: string -> string, lines: seq<string>, i: nat, cur: Option<seq<string>>): seq<seq<string>>
    requires i <= |lines|
  {
    (if cur.Some? then [cur.value + Between(lower, lines, i, NextStart(lower, lines, i))] else []) + Chapters(lower, lines, i)
  }

  /** One line of the slicer, by position. */
  lemma RestStep(lower: string -> string, lines: seq<string>, i: nat, cur: Option<seq<string>>) returns (next: Option<seq<string>>)
    requires i < |lines| && (cur.Some? <==> (i > 0 && InReference(lower, lines, i - 1)))
    ensures next.Some? <==> InReference(lower, lines, i)
    ensures next == (if Starts(lower, lines, i) then Some([lines[i]])
                     else if IsDivider(lines, i) then None
                     else if cur.Some? && Wanted(lower, lines, i) then Some(cur.value + [lines[i]]) else cur)
    ensures Sections(lower, lines[i..], cur, FenceBefore(lines, i))
         == (if IsDivider(lines, i) then Close(cur) else []) + Sections(lower, lines[i + 1..], next, FenceBefore(lines, i + 1))
  {
    hide Starts, Wanted, Opens, Divides, IsTicks, TicksInfo, IsDirectiveInfo, Sections;
    DividerIff(lower, lines, i);
    WantedIff(lower, lines, i);
    SlicedStep(lower, lines, i, cur);
    OpensDivides(lower, lines[i]);
    var fence := FenceBefore(lines, i);
    next := if IsTicks(lines[i]) || fence.Some? || !Divides(lines[i])
            then Keep(cur, if IsTicks(lines[i]) && fence.None? then Some(TicksInfo(lines[i])) else fence, lines[i])
            else if Opens(lower, lines[i]) then Some([lines[i]]) else None;
  }

  lemma RestUnfolds(lower: string -> string, lines: seq<string>, i: nat, cur: Option<seq<string>>, next: Option<seq<string>>)
    requires i < |lines| && (cur.Some? <==> (i > 0 && InReference(lower, lines, i - 1)))
    requires next == (if Starts(lower, lines, i) then Some([lines[i]])
                      else if IsDivider(lines, i) then None
                      else if cur.Some? && Wanted(lower, lines, i) then Some(cur.value + [lines[i]]) else cur)
    requires next.Some? <==> InReference(lower, lines, i)
    ensures Rest(lower, lines, i, cur) == (if IsDivider(lines, i) then Close(cur) else []) + Rest(lower, lines, i + 1, next)
  {
    hide Starts, Wanted, InReference, IsDivider, Chapters, NextStart, Opens;
    DividerIff(lower, lines, i);
    WantedIff(lower, lines, i);
    RestParts(lower, lines, i);
    StartIsWanted(lower, lines, i);
    var later := NextStart(lower, lines, i + 1);
    var tail, chapters := Between(lower, lines, i + 1, later), Chapters(lower, lines, i + 1);
    if Starts(lower, lines, i) {
      if cur.Some? { assert cur.value + [] == cur.value; }
      Regroup(Close(cur), [[lines[i]] + tail], chapters);
    } else if IsDivider(lines, i) {
      if next.None? { NothingWanted(lower, lines, i + 1); }
      if cur.Some? { assert cur.value + ([] + tail) == cur.value; }
      assert Close(cur) + ([] + chapters) == Close(cur) + chapters;
    } else if cur.Some? {
      if Wanted(lower, lines, i) { Regroup(cur.value, [lines[i]], tail); } else { assert [] + tail == tail; }
      assert [] + Rest(lower, lines, i + 1, next) == Rest(lower, lines, i + 1, next);
    } else {
      assert [] + ([] + chapters) == [] + chapters;
    }
  }

  lemma RestParts(lower: string -> string, lines: seq<string>, i: nat)
    requires i < |lines|
    ensures Starts(lower, lines, i) ==>
      Chapters(lower, lines, i) == [Between(lower, lines, i, NextStart(lower, lines, i + 1))] + Chapters(lower, lines, i + 1)
    ensures !Starts(lower, lines, i) ==> Chapters(lower, lines, i) == Chapters(lower, lines, i + 1)
    ensures NextStart(lower, lines, i) == if Starts(lower, lines, i) then i else NextStart(lower, lines, i + 1)
  {
    hide Starts, Between;
    assert [] + Chapters(lower, lines, i + 1) == Chapters(lower, lines, i + 1);
  }

  lemma StartIsWanted(lower: string -> string, lines: seq<string>, i: nat)
    requires i < |lines|
    ensures Starts(lower, lines, i) ==> Wanted(lower, lines, i)
    ensures IsDivider(lines, i) && !Starts(lower, lines, i) ==> !InReference(lower, lines, i)
  {
    hide Opens, ReferenceHeading, TicksInfo, IsTicks;
    DividerIff(lower, lines, i);
    WantedIff(lower, lines, i);
  }

  lemma {:induction false} RestIs(lower: string -> string, lines: seq<string>, i: nat, cur: Option<seq<string>>)
    requires i <= |lines| && (cur.Some? <==> (i > 0 && InReference(lower, lines, i - 1)))
    ensures Sections(lower, lines[i..], cur, FenceBefore(lines, i)) == Rest(lower, lines, i, cur)
    decreases |lines| - i
  {
    hide Starts, Wanted, InReference, IsDivider, FenceBefore, Rest, Close;
    if i == |lines| {
      RestEnds(lower, lines, cur);
    } else {
      var next := RestStep(lower, lines, i, cur);
      RestUnfolds(lower, lines, i, cur, next);
      RestIs(lower, lines, i + 1, next);
    }
  }

  lemma RestEnds(lower: string -> string, lines: seq<string>, cur: Option<seq<string>>)
    ensures Sections(lower, lines[|lines|..], cur, FenceBefore(lines, |lines|)) == Rest(lower, lines, |lines|, cur)
  {
    assert lines[|lines|..] == [];
    if cur.Some? { assert cur.value + [] == cur.value; }
    assert Close(cur) + [] == Close(cur);
  }

  /**
   * The sections of a document: each starts at a reference heading outside every fence, and holds the
   * wanted lines from there to the next such heading.
   */
  lemma SectionsAre(lower: string -> string, md: string)
    ensures RawSections(lower, md) == Chapters(lower, SplitLines(md), 0)
  {
    hide SplitLines, Sections, Chapters, Between, NextStart;
    var lines := SplitLines(md);
    RestIs(lower, lines, 0, None);
    assert lines[0..] == lines;
    assert [] + Chapters(lower, lines, 0) == Chapters(lower, lines, 0);
  }
}
