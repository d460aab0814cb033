/** What an update does to each line of `.env`, and what a reader finds in it, from the lines as written. */
module EnvLines {
  import opened Text
  import opened Trimming
  import opened DotEnv

  // ---------------------------------------------------------------------------
  // Assignments as written
  // ---------------------------------------------------------------------------

  function Spelled(left: string, key: string, right: string, rest: string): string { left + key + right + "=" + rest }

  /** The line sets the key: space may stand before the key and between it and the equals sign. */
  ghost predicate AssignsTo(line: string, key: string) {
    exists left, right, rest | AllSpaces(left) && AllSpaces(right) :: line == Spelled(left, key, right, rest)
  }

  /** Trimming a text that starts with a key. */
  lemma TrimSpelled(left: string, head: string, rest: string)
    requires AllSpaces(left) && head != "" && !IsSpace(head[0])
    ensures Trim(left + head + "=" + rest) == head + "=" + TrimEnd(rest)
  {
    hide TrimEnd;
    var body := head + "=" + rest;
    assert left + head + "=" + rest == left + body;
    TrimStartSkips(left, body);
    TrimStartDone(body);
    var spaces := TrimEndSplits(rest);
    assert body == head + "=" + TrimEnd(rest) + spaces;
    TrimEndIgnores(head + "=" + TrimEnd(rest), spaces);
    TrimEndDone(head + "=" + TrimEnd(rest));
  }

  lemma WriterSees(left: string, key: string, right: string, rest: string)
    requires UpperSnake(key) && AllSpaces(left) && AllSpaces(right)
    ensures WriterKey(Spelled(left, key, right, rest)) == Some(key)
  {
    hide Trim, TrimEnd, AllSpaces;
    var head := key + right;
    assert Spelled(left, key, right, rest) == left + head + "=" + rest;
    TrimSpelled(left, head, rest);
    assert '=' !in head by { NoEquals(key, right); }
    FirstEquals(head, TrimEnd(rest), 0);
    var t := head + "=" + TrimEnd(rest);
    assert t[..|head|] == head && t[0] == key[0];
    TightTrimsMore(key, right);
  }

  lemma NoEquals(key: string, spaces: string)
    requires UpperSnake(key) && AllSpaces(spaces)
    ensures '=' !in key + spaces
  {
    assert '=' !in spaces;
  }

  /** Any text is its trimmed form with space around it. */
  lemma TrimParts(s: string) returns (left: string, right: string)
    ensures AllSpaces(left) && AllSpaces(right) && s == left + Trim(s) + right
  {
    hide TrimStart, TrimEnd;
    var body;
    left, body := TrimStartSplits(s);
    TrimStartSkips(left, body);
    TrimStartDone(body);
    right := TrimEndSplits(TrimStart(s));
  }

  lemma WriterSpells(line: string, key: string)
    requires WriterKey(line) == Some(key)
    ensures AssignsTo(line, key)
  {
    hide Trim;
    var t := Trim(line);
    var eq := IndexOf(t, '=');
    var before, after := TrimParts(line);
    var left, right := TrimParts(t[..eq]);
    assert t == t[..eq] + "=" + t[eq + 1..];
    assert line == Spelled(before + left, key, right, t[eq + 1..] + after);
  }

  lemma WriterIff(line: string, key: string)
    requires UpperSnake(key)
    ensures WriterKey(line) == Some(key) <==> AssignsTo(line, key)
  {
    hide WriterKey;
    if WriterKey(line) == Some(key) { WriterSpells(line, key); }
    if AssignsTo(line, key) {
      var left, right, rest :| AllSpaces(left) && AllSpaces(right) && line == Spelled(left, key, right, rest);
      WriterSees(left, key, right, rest);
    }
  }

  // ---------------------------------------------------------------------------
  // Settings
  // ---------------------------------------------------------------------------

  /** Settings are accepted exactly when each key is capitals, digits and underscores after a capital, and each value one line. */
  lemma ValidIff(vs: Values)
    ensures Valid(vs) <==> forall i | 0 <= i < |vs| ::
      && vs[i].0 != "" && 'A' <= vs[i].0[0] <= 'Z'
      && (forall c | c in vs[i].0 :: 'A' <= c <= 'Z' || '0' <= c <= '9' || c == '_')
      && '\r' !in vs[i].1 && '\n' !in vs[i].1 && '\0' !in vs[i].1
  {
    forall i | 0 <= i < |vs|
      ensures UpperSnake(vs[i].0) && OneLine(vs[i].1) <==>
        && vs[i].0 != "" && 'A' <= vs[i].0[0] <= 'Z'
        && (forall c | c in vs[i].0 :: 'A' <= c <= 'Z' || '0' <= c <= '9' || c == '_')
        && '\r' !in vs[i].1 && '\n' !in vs[i].1 && '\0' !in vs[i].1
    {
      SettingIff(vs[i].0, vs[i].1);
    }
  }

  lemma SettingIff(key: string, value: string)
    ensures UpperSnake(key) <==> key != "" && 'A' <= key[0] <= 'Z' && forall c | c in key :: 'A' <= c <= 'Z' || '0' <= c <= '9' || c == '_'
    ensures OneLine(value) <==> '\r' !in value && '\n' !in value && '\0' !in value
  {
    if UpperSnake(key) {
      forall c | c in key ensures 'A' <= c <= 'Z' || '0' <= c <= '9' || c == '_' { var k :| 0 <= k < |key| && key[k] == c; }
    }
    assert forall k | 0 <= k < |key| :: key[k] in key;
    assert forall k | 0 <= k < |value| :: value[k] in value;
  }

  // ---------------------------------------------------------------------------
  // Updating
  // ---------------------------------------------------------------------------

  /** One of the lines sets the key. */
  ghost predicate SetIn(lines: seq<string>, key: string) { exists j | 0 <= j < |lines| :: AssignsTo(lines[j], key) }

  /** Line `k` sets the `i`-th key to be written. */
  ghost predicate SetsWritten(lines: seq<string>, vs: Values, k: nat, i: nat)
    requires k < |lines|
  {
    i < |vs| && AssignsTo(lines[k], vs[i].0)
  }

  /** What becomes of line `k`: the first line of a written key takes its value, later ones go, every other line stays. */
  ghost predicate Becomes(lines: seq<string>, vs: Values, k: nat, out: seq<string>)
    requires k < |lines|
  {
    && (forall i: nat :: SetsWritten(lines, vs, k, i) ==> out == if SetIn(lines[..k], vs[i].0) then [] else [vs[i].0 + "=" + vs[i].1])
    && ((forall i: nat :: !SetsWritten(lines, vs, k, i)) ==> out == [lines[k]])
  }

  function Flat(parts: seq<seq<string>>): seq<string> { if parts == [] then [] else parts[0] + Flat(parts[1..]) }

  lemma OwnsWrites(vs: Values, line: string, i: nat)
    requires Valid(vs) && Distinct(vs) && i < |vs|
    ensures Owns(vs, line) == Some(vs[i].0) <==> AssignsTo(line, vs[i].0)
  {
    hide WriterKey, UpperSnake, OneLine, ValueOf;
    WriterIff(line, vs[i].0);
    ValueAt(vs, i);
  }

  lemma {:induction false} ValueIndex(vs: Values, key: string) returns (i: nat)
    requires ValueOf(vs, key).Some?
    ensures i < |vs| && vs[i].0 == key
  {
    i := 0;
    if vs[0].0 != key {
      i := ValueIndex(vs[1..], key);
      i := i + 1;
    }
  }

  lemma OwnsIndex(vs: Values, line: string) returns (i: nat)
    requires Owns(vs, line).Some?
    ensures i < |vs| && vs[i].0 == Owns(vs, line).value
  {
    hide WriterKey, ValueOf;
    i := ValueIndex(vs, Owns(vs, line).value);
  }

  /** The keys found so far are the written ones set by the lines before `k`. */
  ghost predicate FoundBefore(lines: seq<string>, vs: Values, k: nat, existed: set<string>)
    requires k <= |lines|
  {
    forall i: nat | i < |vs| :: vs[i].0 in existed <==> SetIn(lines[..k], vs[i].0)
  }

  lemma SetInMore(lines: seq<string>, k: nat, key: string)
    requires k < |lines|
    ensures SetIn(lines[..k + 1], key) <==> SetIn(lines[..k], key) || AssignsTo(lines[k], key)
  {
    hide AssignsTo;
    var a, b := lines[..k], lines[..k + 1];
    assert b == a + [lines[k]];
    if j :| 0 <= j < |a| && AssignsTo(a[j], key) { assert AssignsTo(b[j], key); }
    if AssignsTo(lines[k], key) { assert AssignsTo(b[k], key); }
  }

  /** One line of the rewriting pass. */
  lemma RewriteStep(lines: seq<string>, vs: Values, k: nat, existed: set<string>) returns (out: seq<string>, next: set<string>)
    requires Valid(vs) && Distinct(vs) && k < |lines| && FoundBefore(lines, vs, k, existed)
    ensures Becomes(lines, vs, k, out) && FoundBefore(lines, vs, k + 1, next)
    ensures Rewrite(lines[k..], vs, existed) == out + Rewrite(lines[k + 1..], vs, next)
    ensures Found(lines[k..], vs, existed) == Found(lines[k + 1..], vs, next)
  {
    hide WriterKey, UpperSnake, OneLine, ValueOf, AssignsTo, SetIn, Owns, Valid;
    var line := lines[k];
    assert lines[k..][0] == line && lines[k..][1..] == lines[k + 1..];
    forall i: nat | i < |vs| ensures Owns(vs, line) == Some(vs[i].0) <==> AssignsTo(line, vs[i].0) { OwnsWrites(vs, line, i); }
    forall i: nat | i < |vs|
      ensures SetIn(lines[..k + 1], vs[i].0) <==> SetIn(lines[..k], vs[i].0) || AssignsTo(line, vs[i].0)
    {
      SetInMore(lines, k, vs[i].0);
    }
    match Owns(vs, line)
    case None =>
      out, next := [line], existed;
    case Some(key) =>
      OwnsMeans(vs, line);
      var i := OwnsIndex(vs, line);
      ValueAt(vs, i);
      next := existed + {key};
      out := if key in existed then [] else [Line(key, ValueOf(vs, key).value)];
      forall j: nat | SetsWritten(lines, vs, k, j) ensures vs[j] == vs[i] { ValueAt(vs, j); }
      assert SetsWritten(lines, vs, k, i);
      assert key in existed ==> existed + {key} == existed;
  }

  /** The pass takes every line to what becomes of it, in order, and finds the written keys that are set. */
  lemma {:induction false} RewriteIs(lines: seq<string>, vs: Values, k: nat, existed: set<string>) returns (parts: seq<seq<string>>)
    requires Valid(vs) && Distinct(vs) && k <= |lines| && FoundBefore(lines, vs, k, existed)
    ensures |parts| == |lines| - k && forall j | 0 <= j < |parts| :: Becomes(lines, vs, k + j, parts[j])
    ensures Rewrite(lines[k..], vs, existed) == Flat(parts)
    ensures FoundBefore(lines, vs, |lines|, Found(lines[k..], vs, existed))
    decreases |lines| - k
  {
    hide Valid, Distinct, FoundBefore, Becomes, Rewrite, Found;
    if k == |lines| {
      parts := [];
      NothingLeft(lines[k..], vs, existed);
    } else {
      var out, next := RewriteStep(lines, vs, k, existed);
      var rest := RewriteIs(lines, vs, k + 1, next);
      parts := [out] + rest;
      assert parts[1..] == rest;
      forall j | 0 <= j < |parts| ensures Becomes(lines, vs, k + j, parts[j]) {
        if j > 0 { assert parts[j] == rest[j - 1]; assert k + j == k + 1 + (j - 1); }
      }
    }
  }

  lemma NothingLeft(lines: seq<string>, vs: Values, existed: set<string>)
    requires lines == []
    ensures Rewrite(lines, vs, existed) == [] && Found(lines, vs, existed) == existed
  {
  }

  /** The settings of keys that no line sets, in order. */
  ghost function Added(lines: seq<string>, vs: Values, i: nat): seq<string>
    requires i <= |vs|
    decreases |vs| - i
  {
    if i == |vs| then [] else (if SetIn(lines, vs[i].0) then [] else [vs[i].0 + "=" + vs[i].1]) + Added(lines, vs, i + 1)
  }

  lemma {:induction false} MissingIs(lines: seq<string>, vs: Values, i: nat, found: set<string>)
    requires i <= |vs| && FoundBefore(lines, vs, |lines|, found)
    ensures Missing(vs[i..], found) == Added(lines, vs, i)
    decreases |vs| - i
  {
    hide SetIn;
    if i < |vs| {
      assert lines[..|lines|] == lines;
      assert vs[i..][0] == vs[i] && vs[i..][1..] == vs[i + 1..];
      MissingIs(lines, vs, i + 1, found);
    }
  }

  /** A text is its lines, each ended; only a last line without a newline gets one. */
  lemma BodyIs(content: string)
    ensures Ended(Body(content)) == if content == "" || content[|content| - 1] == '\n' then content else content + "\n"
  {
    hide SplitLines, Ended;
    var lines := SplitLines(content);
    var n := |lines| - 1;
    JoinSplit(content);
    JoinEnds(lines);
    assert lines == lines[..n] + [lines[n]];
    assert '\n' !in lines[n] by { assert lines[n] in lines; }
    EndedLast(lines[..n], lines[n]);
    if lines[n] != "" { EndedTail(lines[..n], lines[n]); } else { EndedNewline(lines[..n]); }
  }

  lemma {:induction false} JoinEnds(lines: seq<string>)
    requires lines != []
    ensures JoinLines(lines) == Ended(lines[..|lines| - 1]) + lines[|lines| - 1]
  {
    if |lines| == 1 {
      assert lines[..0] == [];
      assert "" + lines[0] == lines[0];
    } else {
      var rest := lines[1..];
      JoinEnds(rest);
      assert lines[..|lines| - 1] == [lines[0]] + rest[..|rest| - 1];
      EndedCons(lines[0], rest[..|rest| - 1]);
      Regroup(lines[0] + "\n", Ended(rest[..|rest| - 1]), rest[|rest| - 1]);
    }
  }

  lemma EndedLast(head: seq<string>, last: string)
    ensures Ended(head + [last]) == Ended(head) + (last + "\n")
  {
    hide Ended;
    EndedSplits(head, [last]);
    EndedCons(last, []);
    EndedNone();
    assert [last] + [] == [last] && last + "\n" + "" == last + "\n";
  }

  lemma EndedTail(head: seq<string>, last: string)
    requires last != "" && '\n' !in last
    ensures var s := Ended(head) + last; s != "" && s[|s| - 1] != '\n' && s + "\n" == Ended(head) + (last + "\n")
  {
  }

  lemma {:induction false} EndedNewline(head: seq<string>)
    ensures Ended(head) + "" == Ended(head)
    ensures Ended(head) == "" || Ended(head)[|Ended(head)| - 1] == '\n'
  {
    if head != [] {
      EndedNewline(head[1..]);
      assert Ended(head) == head[0] + "\n" + Ended(head[1..]);
    }
  }

  /**
   * The update, line by line: each line of the file becomes what `Becomes` says, then come the
   * settings no line set; the keys reported as existing are the written ones that a line set.
   */
  lemma UpdatedIs(content: string, vs: Values) returns (parts: seq<seq<string>>)
    requires Valid(vs) && Distinct(vs)
    ensures var lines := Body(content);
      && |parts| == |lines| && (forall k | 0 <= k < |lines| :: Becomes(lines, vs, k, parts[k]))
      && Upsert(content, vs) == Ended(Flat(parts) + Added(lines, vs, 0))
      && forall i: nat | i < |vs| :: vs[i].0 in Found(lines, vs, {}) <==> SetIn(lines, vs[i].0)
  {
    hide Valid, Distinct, Body, Becomes, Rewrite, Found, Missing, Added, SetIn;
    var lines := Body(content);
    NoneBefore(lines, vs);
    parts := RewriteIs(lines, vs, 0, {});
    assert lines[0..] == lines && vs[0..] == vs && lines[..|lines|] == lines;
    MissingIs(lines, vs, 0, Found(lines, vs, {}));
    forall k | 0 <= k < |lines| ensures Becomes(lines, vs, k, parts[k]) { assert k == 0 + k; }
  }

  lemma NoneBefore(lines: seq<string>, vs: Values)
    ensures FoundBefore(lines, vs, 0, {})
  {
    assert lines[..0] == [];
  }

  // ---------------------------------------------------------------------------
  // Reading
  // ---------------------------------------------------------------------------

  /** The line gives the key the value, for the reader: nothing stands between the key and the equals sign. */
  ghost predicate Gives(line: string, key: string, rest: string) {
    key != "" && '=' !in key && !IsSpace(key[0]) && key[0] != '#' && exists left | AllSpaces(left) :: line == Spelled(left, key, "", rest)
  }

  lemma GivesIsRead(line: string, key: string, rest: string)
    requires Gives(line, key, rest)
    ensures ReaderKey(line) == Some(key)
    ensures ReaderValue(line) == if Trim(rest) == "" then None else Some(Trim(rest))
  {
    hide Trim, TrimEnd;
    var left :| AllSpaces(left) && line == Spelled(left, key, "", rest);
    assert line == left + key + "=" + rest;
    TrimSpelled(left, key, rest);
    var t := key + "=" + TrimEnd(rest);
    FirstEquals(key, TrimEnd(rest), 0);
    assert t[..|key|] == key && t[0] == key[0] && t[|key| + 1..] == TrimEnd(rest);
    TrimOfTrimEnd(rest);
  }

  lemma ReadGives(line: string, key: string) returns (rest: string)
    requires ReaderKey(line) == Some(key)
    ensures Gives(line, key, rest)
  {
    hide TrimStart, TrimEnd;
    var t := Trim(line);
    var eq := IndexOf(t, '=');
    var before, after := TrimParts(line);
    rest := t[eq + 1..] + after;
    assert t == key + "=" + t[eq + 1..];
    assert line == Spelled(before, key, "", rest);
    TrimHead(line);
    assert key[0] == t[0];
  }

  lemma TrimHead(s: string)
    ensures Trim(s) == "" || !IsSpace(Trim(s)[0])
  {
    var spaces, body := TrimStartSplits(s);
    var after := TrimEndSplits(TrimStart(s));
    HeadOf(s);
    assert TrimStart(s) == Trim(s) + after;
  }

  lemma {:induction false} HeadOf(s: string)
    ensures TrimStart(s) == "" || !IsSpace(TrimStart(s)[0])
  {
    if s != "" { HeadOf(s[1..]); }
  }

  ghost predicate GivenIn(lines: seq<string>, key: string) { exists k, rest | 0 <= k < |lines| :: Gives(lines[k], key, rest) }

  lemma ReadIsGiven(lines: seq<string>, key: string)
    requires lines != [] && ReaderKey(lines[0]) == Some(key)
    ensures GivenIn(lines, key)
  {
    var rest := ReadGives(lines[0], key);
  }

  lemma GivenLater(lines: seq<string>, key: string)
    requires lines != []
    ensures GivenIn(lines[1..], key) ==> GivenIn(lines, key)
  {
    hide Gives;
    if k, rest :| 0 <= k < |lines[1..]| && Gives(lines[1..][k], key, rest) { assert Gives(lines[k + 1], key, rest); }
  }

  /** The first line that gives the key a value decides: what is read is that value trimmed, or nothing when it is blank. */
  lemma {:induction false} ReadIs(lines: seq<string>, key: string)
    ensures !GivenIn(lines, key) ==> ReadIn(lines, key) == None
    ensures forall k, rest | 0 <= k < |lines| && Gives(lines[k], key, rest) && !GivenIn(lines[..k], key) ::
              ReadIn(lines, key) == if Trim(rest) == "" then None else Some(Trim(rest))
  {
    hide Gives, ReaderKey, ReaderValue, Trim;
    if lines != [] {
      ReadIs(lines[1..], key);
      if ReaderKey(lines[0]) == Some(key) { ReadIsGiven(lines, key); }
      GivenLater(lines, key);
      forall k, rest | 0 <= k < |lines| && Gives(lines[k], key, rest) && !GivenIn(lines[..k], key)
        ensures ReadIn(lines, key) == if Trim(rest) == "" then None else Some(Trim(rest))
      {
        GivesIsRead(lines[k], key, rest);
        if k > 0 { ReadLater(lines, key, k, rest); }
      }
    }
  }

  lemma ReadLater(lines: seq<string>, key: string, k: nat, rest: string)
    requires 0 < k < |lines| && Gives(lines[k], key, rest) && !GivenIn(lines[..k], key)
    ensures ReaderKey(lines[0]) != Some(key)
    ensures lines[1..][k - 1] == lines[k] && !GivenIn(lines[1..][..k - 1], key)
  {
    hide Gives, ReaderKey;
    assert lines[..k][0] == lines[0];
    if ReaderKey(lines[..k][0]) == Some(key) { ReadIsGiven(lines[..k], key); }
    assert lines[1..][..k - 1] == lines[..k][1..];
    GivenLater(lines[..k], key);
  }
}
