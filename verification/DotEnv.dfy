/** Writing and reading `.env`. */
module DotEnv {
  import opened Text
  import opened Trimming

  // ---------------------------------------------------------------------------
  // Assignments
  // ---------------------------------------------------------------------------

  type Values = seq<(string, string)>

  predicate UpperSnake(key: string) {
    key != "" && 'A' <= key[0] <= 'Z'
    && forall k | 0 <= k < |key| :: 'A' <= key[k] <= 'Z' || IsDigit(key[k]) || key[k] == '_'
  }

  predicate OneLine(value: string) { forall k | 0 <= k < |value| :: value[k] != '\r' && value[k] != '\n' && value[k] != '\0' }

  predicate Valid(vs: Values) { forall i | 0 <= i < |vs| :: UpperSnake(vs[i].0) && OneLine(vs[i].1) }

  /** The keys of an object. */
  predicate Distinct(vs: Values) { forall i, j | 0 <= i < j < |vs| :: vs[i].0 != vs[j].0 }

  function ValueOf(vs: Values, key: string): Option<string> {
    if vs == [] then None else if vs[0].0 == key then Some(vs[0].1) else ValueOf(vs[1..], key)
  }

  function Line(key: string, value: string): string { key + "=" + value }

  /** The key the writer takes a line to assign. */
  function WriterKey(line: string): Option<string> {
    var t := Trim(line);
    var eq := IndexOf(t, '=');
    if StartsWith(t, "#") || eq < 0 then None else Some(Trim(t[..eq]))
  }

  /** The key the reader takes a line to assign. */
  function ReaderKey(line: string): Option<string> {
    var t := Trim(line);
    var eq := IndexOf(t, '=');
    if t == "" || StartsWith(t, "#") || eq < 1 then None else Some(t[..eq])
  }

  function ReaderValue(line: string): Option<string> {
    var t := Trim(line);
    var eq := IndexOf(t, '=');
    var value := if eq >= 0 then Trim(t[eq + 1..]) else "";
    if value == "" then None else Some(value)
  }

  /** The first assignment decides; a blank value reads as unset. */
  function ReadIn(lines: seq<string>, key: string): Option<string> {
    if lines == [] then None
    else if ReaderKey(lines[0]) == Some(key) then ReaderValue(lines[0])
    else ReadIn(lines[1..], key)
  }

  function Read(content: string, key: string): Option<string> { ReadIn(SplitLines(content), key) }

  method ReadEnvKey(content: Option<string>, key: string) returns (value: Option<string>)
    ensures value == match content case None => None case Some(text) => Read(text, key)
  {
    if content.None? { return None; }
    var lines := SplitLines(content.value);
    for i := 0 to |lines|
      invariant ReadIn(lines[i..], key) == ReadIn(lines, key)
    {
      var line := lines[i];
      assert lines[i..][0] == line && lines[i..][1..] == lines[i + 1..];
      var trimmed := Trim(line);
      if trimmed == "" || StartsWith(trimmed, "#") { continue; }
      var eq := IndexOf(trimmed, '=');
      if eq < 1 { continue; }
      if trimmed[..eq] == key {
        var text := Trim(trimmed[eq + 1..]);
        return if text == "" then None else Some(text);
      }
    }
    value := None;
  }

  // ---------------------------------------------------------------------------
  // Updating
  // ---------------------------------------------------------------------------

  /** The lines of a text, without the empty one after a final newline. */
  function Body(content: string): seq<string> {
    var lines := SplitLines(content);
    if lines[|lines| - 1] == "" then lines[..|lines| - 1] else lines
  }

  function Ended(lines: seq<string>): string { if lines == [] then "" else lines[0] + "\n" + Ended(lines[1..]) }

  /** Does the writer own this line? */
  function Owns(vs: Values, line: string): Option<string> {
    match WriterKey(line)
    case None => None
    case Some(key) => if ValueOf(vs, key).Some? then Some(key) else None
  }

  /** The first assignment of each key gets its value; later ones go; other lines stay. */
  function Rewrite(lines: seq<string>, vs: Values, existed: set<string>): seq<string>
    decreases |lines|
  {
    if lines == [] then []
    else
      match Owns(vs, lines[0])
      case None => [lines[0]] + Rewrite(lines[1..], vs, existed)
      case Some(key) =>
        if key in existed then Rewrite(lines[1..], vs, existed)
        else [Line(key, ValueOf(vs, key).value)] + Rewrite(lines[1..], vs, existed + {key})
  }

  function Found(lines: seq<string>, vs: Values, existed: set<string>): set<string>
    decreases |lines|
  {
    if lines == [] then existed
    else
      match Owns(vs, lines[0])
      case None => Found(lines[1..], vs, existed)
      case Some(key) => Found(lines[1..], vs, existed + {key})
  }

  function Missing(vs: Values, existed: set<string>): seq<string> {
    if vs == [] then []
    else (if vs[0].0 in existed then [] else [Line(vs[0].0, vs[0].1)]) + Missing(vs[1..], existed)
  }

  function Updated(content: string, vs: Values): seq<string> {
    Rewrite(Body(content), vs, {}) + Missing(vs, Found(Body(content), vs, {}))
  }

  function Upsert(content: string, vs: Values): string { Ended(Updated(content, vs)) }

  // ---------------------------------------------------------------------------
  // Lines and text
  // ---------------------------------------------------------------------------

  predicate Unbroken(lines: seq<string>) { forall k | 0 <= k < |lines| :: '\n' !in lines[k] }

  lemma EndedCons(line: string, rest: seq<string>)
    ensures Ended([line] + rest) == line + "\n" + Ended(rest)
  {
    assert ([line] + rest)[1..] == rest;
  }

  lemma {:induction false} EndedSplits(a: seq<string>, b: seq<string>)
    ensures Ended(a + b) == Ended(a) + Ended(b)
  {
    hide Ended;
    if a == [] {
      assert a + b == b;
      EndedNone();
    } else {
      assert a == [a[0]] + a[1..];
      Regroup([a[0]], a[1..], b);
      EndedCons(a[0], a[1..] + b);
      EndedCons(a[0], a[1..]);
      EndedSplits(a[1..], b);
      Regroup(a[0] + "\n", Ended(a[1..]), Ended(b));
    }
  }

  lemma EndedNone()
    ensures Ended([]) == ""
  {
  }

  lemma {:induction false} SplitEnded(lines: seq<string>)
    requires Unbroken(lines)
    ensures SplitLines(Ended(lines)) == lines + [""]
  {
    hide SplitLines;
    if lines == [] {
      SplitSingle("");
    } else {
      SplitEnded(lines[1..]);
      SplitCons(lines[0], Ended(lines[1..]));
      assert lines == [lines[0]] + lines[1..];
    }
  }

  lemma BodyEnded(lines: seq<string>)
    requires Unbroken(lines)
    ensures Body(Ended(lines)) == lines
  {
    hide SplitLines;
    SplitEnded(lines);
  }

  lemma BodyUnbroken(content: string)
    ensures Unbroken(Body(content))
  {
    hide SplitLines;
    var lines := SplitLines(content);
    forall k | 0 <= k < |Body(content)| ensures '\n' !in Body(content)[k] { assert lines[k] in lines; }
  }

  lemma {:induction false} ReadSkips(a: seq<string>, b: seq<string>, key: string)
    requires forall k | 0 <= k < |a| :: ReaderKey(a[k]) != Some(key)
    ensures ReadIn(a + b, key) == ReadIn(b, key)
  {
    hide ReaderKey, ReaderValue;
    if a == [] {
      assert a + b == b;
    } else {
      assert (a + b)[1..] == a[1..] + b;
      ReadSkips(a[1..], b, key);
    }
  }

  lemma {:induction false} ReadUnended(lines: seq<string>, key: string)
    ensures ReadIn(lines + [""], key) == ReadIn(lines, key)
  {
    hide ReaderValue;
    if lines == [] {
      assert lines + [""] == [""];
      assert ReaderKey("") == None;
      assert [""][1..] == [];
    } else {
      assert (lines + [""])[1..] == lines[1..] + [""];
      ReadUnended(lines[1..], key);
    }
  }

  lemma ReadBody(content: string, key: string)
    ensures Read(content, key) == ReadIn(Body(content), key)
  {
    hide SplitLines, ReadIn;
    var lines := SplitLines(content);
    if lines[|lines| - 1] == "" {
      ReadUnended(Body(content), key);
      assert lines == Body(content) + [""];
    }
  }

  lemma ReadEnded(lines: seq<string>, key: string)
    requires Unbroken(lines)
    ensures Read(Ended(lines), key) == ReadIn(lines, key)
  {
    hide SplitLines, ReadIn, Ended;
    SplitEnded(lines);
    ReadUnended(lines, key);
  }

  // ---------------------------------------------------------------------------
  // The written line
  // ---------------------------------------------------------------------------

  lemma {:induction false} FirstEquals(key: string, rest: string, from: nat)
    requires '=' !in key && from <= |key|
    ensures IndexOf(key + "=" + rest, '=', from) == |key|
    decreases |key| - from
  {
    if from < |key| { FirstEquals(key, rest, from + 1); }
  }

  lemma TrimEndLine(key: string, value: string)
    requires UpperSnake(key)
    ensures Trim(Line(key, value)) == Line(key, TrimEnd(value))
  {
    hide TrimEnd;
    TrimStartDone(Line(key, value));
    var spaces := TrimEndSplits(value);
    assert Line(key, value) == Line(key, TrimEnd(value)) + spaces;
    TrimEndIgnores(Line(key, TrimEnd(value)), spaces);
    TrimEndDone(Line(key, TrimEnd(value)));
  }

  lemma KeyTrims(key: string)
    requires UpperSnake(key)
    ensures Trim(key) == key && '=' !in key && !StartsWith(key, "#")
  {
    TightTrims(key);
  }

  lemma TrimOfTrimEnd(value: string)
    ensures Trim(TrimEnd(value)) == Trim(value)
  {
    hide TrimEnd, TrimStart;
    TrimmedTail(value, 0);
    assert TrimEnd(value)[0..] == TrimEnd(value) && value[0..] == value;
  }

  /** What both sides make of a written line. */
  lemma WrittenLine(key: string, value: string)
    requires UpperSnake(key)
    ensures WriterKey(Line(key, value)) == Some(key) && ReaderKey(Line(key, value)) == Some(key)
    ensures ReaderValue(Line(key, value)) == if Trim(value) == "" then None else Some(Trim(value))
  {
    hide TrimEnd, TrimStart;
    TrimEndLine(key, value);
    KeyTrims(key);
    var t := Line(key, TrimEnd(value));
    FirstEquals(key, TrimEnd(value), 0);
    assert t[..|key|] == key && t[|key| + 1..] == TrimEnd(value);
    TrimOfTrimEnd(value);
    assert t[0] == key[0];
  }

  /** What the reader takes as a key, the writer takes as that key trimmed. */
  lemma ReaderIsWriter(line: string)
    requires ReaderKey(line).Some?
    ensures WriterKey(line) == Some(Trim(ReaderKey(line).value))
  {
  }

  lemma ValueIsListed(vs: Values, key: string)
    requires ValueOf(vs, key).Some?
    ensures (key, ValueOf(vs, key).value) in vs
  {
  }

  lemma ValidKey(vs: Values, key: string)
    requires Valid(vs) && ValueOf(vs, key).Some?
    ensures UpperSnake(key) && OneLine(ValueOf(vs, key).value)
  {
    hide UpperSnake, OneLine;
    ValueIsListed(vs, key);
  }

  lemma {:induction false} ValueAt(vs: Values, i: nat)
    requires Distinct(vs) && i < |vs|
    ensures ValueOf(vs, vs[i].0) == Some(vs[i].1)
  {
    if i > 0 { ValueAt(vs[1..], i - 1); }
  }

  lemma OwnsWritten(vs: Values, key: string, value: string)
    requires Valid(vs) && ValueOf(vs, key).Some?
    ensures Owns(vs, Line(key, value)) == Some(key)
  {
    hide WriterKey, UpperSnake, OneLine, ReaderKey, ReaderValue;
    ValidKey(vs, key);
    WrittenLine(key, value);
  }

  // ---------------------------------------------------------------------------
  // An updated file is settled: each key is assigned once, with its value
  // ---------------------------------------------------------------------------

  /** Every line the writer owns is the written one, and the first for its key. */
  predicate Settled(lines: seq<string>, vs: Values, existed: set<string>)
    decreases |lines|
  {
    lines != [] ==>
      match Owns(vs, lines[0])
      case None => Settled(lines[1..], vs, existed)
      case Some(key) =>
        key !in existed && ValueOf(vs, key).Some? && lines[0] == Line(key, ValueOf(vs, key).value)
        && Settled(lines[1..], vs, existed + {key})
  }

  lemma SettledCons(line: string, rest: seq<string>, vs: Values, existed: set<string>)
    ensures Settled([line] + rest, vs, existed) ==
      (match Owns(vs, line)
       case None => Settled(rest, vs, existed)
       case Some(key) =>
         key !in existed && ValueOf(vs, key).Some? && line == Line(key, ValueOf(vs, key).value) && Settled(rest, vs, existed + {key}))
    ensures Found([line] + rest, vs, existed) ==
      (match Owns(vs, line) case None => Found(rest, vs, existed) case Some(key) => Found(rest, vs, existed + {key}))
  {
    hide Owns, ValueOf;
    assert ([line] + rest)[1..] == rest;
  }

  lemma {:induction false} RewriteSettles(lines: seq<string>, vs: Values, existed: set<string>)
    requires Valid(vs)
    ensures Settled(Rewrite(lines, vs, existed), vs, existed)
    ensures Found(Rewrite(lines, vs, existed), vs, existed) == Found(lines, vs, existed)
    decreases |lines|
  {
    hide Owns, ValueOf, Settled, Found, Valid;
    if lines == [] {
      NothingSettled(vs, existed);
    } else {
      var rest := lines[1..];
      assert lines == [lines[0]] + rest;
      SettledCons(lines[0], rest, vs, existed);
      match Owns(vs, lines[0])
      case None =>
        RewriteSettles(rest, vs, existed);
        SettledCons(lines[0], Rewrite(rest, vs, existed), vs, existed);
      case Some(key) =>
        OwnsMeans(vs, lines[0]);
        if key in existed {
          RewriteSettles(rest, vs, existed);
          assert existed + {key} == existed;
        } else {
          RewriteSettles(rest, vs, existed + {key});
          OwnsWritten(vs, key, ValueOf(vs, key).value);
          SettledCons(Line(key, ValueOf(vs, key).value), Rewrite(rest, vs, existed + {key}), vs, existed);
        }
    }
  }

  lemma OwnsMeans(vs: Values, line: string)
    ensures Owns(vs, line).Some? ==> ValueOf(vs, Owns(vs, line).value).Some? && WriterKey(line) == Owns(vs, line)
  {
  }

  lemma NothingSettled(vs: Values, existed: set<string>)
    ensures Settled([], vs, existed) && Found([], vs, existed) == existed
  {
  }

  lemma {:induction false} SettledSplits(a: seq<string>, b: seq<string>, vs: Values, existed: set<string>)
    requires Settled(a, vs, existed) && Settled(b, vs, Found(a, vs, existed))
    ensures Settled(a + b, vs, existed) && Found(a + b, vs, existed) == Found(b, vs, Found(a, vs, existed))
    decreases |a|
  {
    hide Owns, ValueOf, Settled, Found;
    if a == [] {
      NothingSettled(vs, existed);
      assert a + b == b;
    } else {
      assert a == [a[0]] + a[1..];
      Regroup([a[0]], a[1..], b);
      SettledCons(a[0], a[1..], vs, existed);
      SettledCons(a[0], a[1..] + b, vs, existed);
      match Owns(vs, a[0])
      case None => SettledSplits(a[1..], b, vs, existed);
      case Some(key) => SettledSplits(a[1..], b, vs, existed + {key});
    }
  }

  /** The keys from position `i` on. */
  function KeysFrom(vs: Values, i: nat): set<string> { set k | i <= k < |vs| :: vs[k].0 }

  lemma {:induction false} MissingSettles(vs: Values, i: nat, found: set<string>, existed: set<string>)
    requires Valid(vs) && Distinct(vs) && i <= |vs|
    requires forall k | 0 <= k < |vs| :: k >= i ==> (vs[k].0 in existed <==> vs[k].0 in found)
    ensures Settled(Missing(vs[i..], found), vs, existed)
    ensures Found(Missing(vs[i..], found), vs, existed) == existed + KeysFrom(vs, i)
    decreases |vs| - i
  {
    hide Owns, ValueOf, Settled, Found, Valid;
    if i == |vs| {
      NothingSettled(vs, existed);
      assert existed + KeysFrom(vs, i) == existed;
    } else {
      var key, value := vs[i].0, vs[i].1;
      assert vs[i..][0] == vs[i] && vs[i..][1..] == vs[i + 1..];
      assert KeysFrom(vs, i) == {key} + KeysFrom(vs, i + 1);
      ValueAt(vs, i);
      if key in found {
        MissingSettles(vs, i + 1, found, existed);
        assert existed + KeysFrom(vs, i) == existed + KeysFrom(vs, i + 1);
        var rest := Missing(vs[i + 1..], found);
        assert [] + rest == rest;
      } else {
        MissingSettles(vs, i + 1, found, existed + {key});
        OwnsWritten(vs, key, value);
        SettledCons(Line(key, value), Missing(vs[i + 1..], found), vs, existed);
        assert existed + KeysFrom(vs, i) == existed + {key} + KeysFrom(vs, i + 1);
      }
    }
  }

  lemma UpdatedSettles(content: string, vs: Values)
    requires Valid(vs) && Distinct(vs)
    ensures Settled(Updated(content, vs), vs, {})
    ensures forall k | 0 <= k < |vs| :: vs[k].0 in Found(Updated(content, vs), vs, {})
  {
    hide Owns, ValueOf, Settled, Found, Valid, Rewrite, Body;
    var body := Body(content);
    var found := Found(body, vs, {});
    RewriteSettles(body, vs, {});
    assert vs[0..] == vs;
    MissingSettles(vs, 0, found, found);
    SettledSplits(Rewrite(body, vs, {}), Missing(vs, found), vs, {});
    forall k | 0 <= k < |vs| ensures vs[k].0 in Found(Updated(content, vs), vs, {}) { assert vs[k].0 in KeysFrom(vs, 0); }
  }

  lemma {:induction false} SettledIsKept(lines: seq<string>, vs: Values, existed: set<string>)
    requires Settled(lines, vs, existed)
    ensures Rewrite(lines, vs, existed) == lines
    decreases |lines|
  {
    hide Owns, ValueOf;
    if lines != [] {
      match Owns(vs, lines[0])
      case None => SettledIsKept(lines[1..], vs, existed);
      case Some(key) => SettledIsKept(lines[1..], vs, existed + {key});
    }
  }

  lemma {:induction false} NothingMissing(vs: Values, found: set<string>)
    requires forall k | 0 <= k < |vs| :: vs[k].0 in found
    ensures Missing(vs, found) == []
  {
    if vs != [] { NothingMissing(vs[1..], found); }
  }

  lemma LineUnbroken(vs: Values, key: string)
    requires Valid(vs) && ValueOf(vs, key).Some?
    ensures '\n' !in Line(key, ValueOf(vs, key).value)
  {
    hide ValueOf;
    ValidKey(vs, key);
  }

  lemma {:induction false} SettledUnbroken(lines: seq<string>, vs: Values, existed: set<string>)
    requires Valid(vs) && Unbroken(lines)
    ensures Unbroken(Rewrite(lines, vs, existed))
    decreases |lines|
  {
    hide Owns, ValueOf, Valid;
    if lines != [] {
      match Owns(vs, lines[0])
      case None => SettledUnbroken(lines[1..], vs, existed);
      case Some(key) =>
        OwnsMeans(vs, lines[0]);
        LineUnbroken(vs, key);
        SettledUnbroken(lines[1..], vs, existed);
        SettledUnbroken(lines[1..], vs, existed + {key});
    }
  }

  lemma {:induction false} MissingUnbroken(vs: Values, found: set<string>)
    requires Valid(vs)
    ensures Unbroken(Missing(vs, found))
  {
    if vs != [] { MissingUnbroken(vs[1..], found); }
  }

  lemma UpdatedUnbroken(content: string, vs: Values)
    requires Valid(vs)
    ensures Unbroken(Updated(content, vs))
  {
    hide Rewrite, Missing, Found, Body, Valid;
    BodyUnbroken(content);
    SettledUnbroken(Body(content), vs, {});
    MissingUnbroken(vs, Found(Body(content), vs, {}));
  }

  /** A second identical update changes no byte. */
  lemma SecondUpdateIsIdle(content: string, vs: Values)
    requires Valid(vs) && Distinct(vs)
    ensures Upsert(Upsert(content, vs), vs) == Upsert(content, vs)
  {
    hide Rewrite, Missing, Found, Body, Valid, Settled, Ended;
    var lines := Updated(content, vs);
    UpdatedUnbroken(content, vs);
    BodyEnded(lines);
    UpdatedSettles(content, vs);
    SettledIsKept(lines, vs, {});
    NothingMissing(vs, Found(lines, vs, {}));
    assert lines + [] == lines;
  }

  // ---------------------------------------------------------------------------
  // Reading an updated file
  // ---------------------------------------------------------------------------

  /** How many lines assign `key` for the writer. */
  function Assignments(lines: seq<string>, key: string): nat {
    if lines == [] then 0 else (if WriterKey(lines[0]) == Some(key) then 1 else 0) + Assignments(lines[1..], key)
  }

  lemma {:induction false} SettledOnce(lines: seq<string>, vs: Values, existed: set<string>, key: string)
    requires Valid(vs) && Settled(lines, vs, existed) && ValueOf(vs, key).Some?
    ensures Assignments(lines, key) == if key !in existed && key in Found(lines, vs, existed) then 1 else 0
    ensures key !in existed && key in Found(lines, vs, existed) ==>
      ReadIn(lines, key) == (var v := Trim(ValueOf(vs, key).value); if v == "" then None else Some(v))
    decreases |lines|
  {
    hide ValueOf, WriterKey, ReaderKey, ReaderValue, Valid, Trim;
    if lines != [] {
      OwnsMeans(vs, lines[0]);
      ReadsOnlyOwned(vs, lines[0], key);
      match Owns(vs, lines[0])
      case None =>
        assert WriterKey(lines[0]) != Some(key);
        SettledOnce(lines[1..], vs, existed, key);
      case Some(k) =>
        ValidKey(vs, k);
        WrittenLine(k, ValueOf(vs, k).value);
        SettledOnce(lines[1..], vs, existed + {k}, key);
        if k == key { FoundGrows(lines[1..], vs, existed + {k}); }
    }
  }

  lemma {:induction false} FoundGrows(lines: seq<string>, vs: Values, existed: set<string>)
    ensures existed <= Found(lines, vs, existed)
    decreases |lines|
  {
    hide Owns;
    if lines != [] {
      match Owns(vs, lines[0])
      case None => FoundGrows(lines[1..], vs, existed);
      case Some(k) => FoundGrows(lines[1..], vs, existed + {k});
    }
  }

  /** A line read as one of the keys is one the writer owns. */
  lemma ReadsOnlyOwned(vs: Values, line: string, key: string)
    requires Valid(vs) && ValueOf(vs, key).Some?
    ensures WriterKey(line) == Some(key) ==> Owns(vs, line) == Some(key)
    ensures ReaderKey(line) == Some(key) ==> Owns(vs, line) == Some(key)
  {
    hide WriterKey, ReaderKey;
    ValidKey(vs, key);
    KeyTrims(key);
    if ReaderKey(line) == Some(key) { ReaderIsWriter(line); }
  }

  /** After an update each written key is assigned exactly once and reads as its trimmed value. */
  lemma UpdateIsRead(content: string, vs: Values, i: nat)
    requires Valid(vs) && Distinct(vs) && i < |vs|
    ensures Read(Upsert(content, vs), vs[i].0) == if Trim(vs[i].1) == "" then None else Some(Trim(vs[i].1))
    ensures Assignments(Body(Upsert(content, vs)), vs[i].0) == 1
  {
    hide Rewrite, Missing, Found, Body, Valid, Settled, Ended, ReadIn, Read, Assignments, Trim, ValueOf;
    var lines := Updated(content, vs);
    UpdatedUnbroken(content, vs);
    UpdatedSettles(content, vs);
    ValueAt(vs, i);
    SettledOnce(lines, vs, {}, vs[i].0);
    ReadEnded(lines, vs[i].0);
    BodyEnded(lines);
  }

  lemma {:induction false} RewriteReadsOthers(lines: seq<string>, vs: Values, existed: set<string>, key: string)
    requires Valid(vs) && ValueOf(vs, Trim(key)).None?
    ensures ReadIn(Rewrite(lines, vs, existed), key) == ReadIn(lines, key)
    decreases |lines|
  {
    hide ValueOf, WriterKey, ReaderKey, ReaderValue, Valid, Trim, Owns;
    if lines != [] {
      OwnsMeans(vs, lines[0]);
      if Owns(vs, lines[0]).Some? { OwnedIsOther(vs, lines[0], key); }
      var rest := lines[1..];
      match Owns(vs, lines[0])
      case None =>
        RewriteReadsOthers(rest, vs, existed, key);
        ReadCons(lines[0], Rewrite(rest, vs, existed), key);
      case Some(k) =>
        RewriteReadsOthers(rest, vs, existed, key);
        RewriteReadsOthers(rest, vs, existed + {k}, key);
        WrittenIsOther(vs, k, key);
        ReadCons(Line(k, ValueOf(vs, k).value), Rewrite(rest, vs, existed + {k}), key);
    }
  }

  lemma ReadCons(line: string, rest: seq<string>, key: string)
    ensures ReadIn([line] + rest, key) == if ReaderKey(line) == Some(key) then ReaderValue(line) else ReadIn(rest, key)
  {
    hide ReaderKey, ReaderValue;
    assert ([line] + rest)[1..] == rest;
  }

  lemma OwnedIsOther(vs: Values, line: string, key: string)
    requires ValueOf(vs, Trim(key)).None? && Owns(vs, line).Some?
    ensures ReaderKey(line) != Some(key)
  {
    hide WriterKey, ReaderKey, Trim;
    if ReaderKey(line) == Some(key) { ReaderIsWriter(line); }
  }

  lemma WrittenIsOther(vs: Values, k: string, key: string)
    requires Valid(vs) && ValueOf(vs, Trim(key)).None? && ValueOf(vs, k).Some?
    ensures ReaderKey(Line(k, ValueOf(vs, k).value)) != Some(key)
  {
    hide WriterKey, ReaderKey, ReaderValue, ValueOf, Trim;
    ValidKey(vs, k);
    WrittenLine(k, ValueOf(vs, k).value);
    KeyTrims(k);
  }

  lemma {:induction false} MissingReadsOthers(vs: Values, i: nat, found: set<string>, key: string)
    requires Valid(vs) && Distinct(vs) && ValueOf(vs, Trim(key)).None? && i <= |vs|
    ensures forall k | 0 <= k < |Missing(vs[i..], found)| :: ReaderKey(Missing(vs[i..], found)[k]) != Some(key)
    decreases |vs| - i
  {
    hide ReaderKey, ValueOf, Valid, Trim;
    if i < |vs| {
      assert vs[i..][0] == vs[i] && vs[i..][1..] == vs[i + 1..];
      MissingReadsOthers(vs, i + 1, found, key);
      ValueAt(vs, i);
      WrittenIsOther(vs, vs[i].0, key);
    }
  }

  lemma {:induction false} ReadSplits(a: seq<string>, b: seq<string>, key: string)
    requires forall k | 0 <= k < |b| :: ReaderKey(b[k]) != Some(key)
    ensures ReadIn(a + b, key) == ReadIn(a, key)
  {
    hide ReaderKey, ReaderValue;
    if a == [] {
      ReadSkips(b, [], key);
      assert a + b == b && b + [] == b;
    } else {
      assert (a + b)[1..] == a[1..] + b;
      ReadSplits(a[1..], b, key);
    }
  }

  /** A settled file has no line for a key that only trims to a written one. */
  lemma {:induction false} SettledUnread(lines: seq<string>, vs: Values, existed: set<string>, key: string)
    requires Valid(vs) && Settled(lines, vs, existed) && ValueOf(vs, key).None? && ValueOf(vs, Trim(key)).Some?
    ensures ReadIn(lines, key) == None
    decreases |lines|
  {
    hide ValueOf, WriterKey, ReaderKey, ReaderValue, Valid, Trim;
    if lines != [] {
      OwnsMeans(vs, lines[0]);
      if ReaderKey(lines[0]) == Some(key) { ReaderIsWriter(lines[0]); }
      match Owns(vs, lines[0])
      case None => SettledUnread(lines[1..], vs, existed, key);
      case Some(k) =>
        ValidKey(vs, k);
        WrittenLine(k, ValueOf(vs, k).value);
        SettledUnread(lines[1..], vs, existed + {k}, key);
    }
  }

  /** Every key not written reads as it did, but one that trims to a written key is no longer set. */
  lemma UpdateKeepsOthers(content: string, vs: Values, key: string)
    requires Valid(vs) && Distinct(vs) && ValueOf(vs, key).None?
    ensures Read(Upsert(content, vs), key) == if ValueOf(vs, Trim(key)).Some? then None else Read(content, key)
  {
    hide Rewrite, Missing, Found, Body, Valid, Settled, Ended, ReadIn, Read, Trim, ValueOf, ReaderKey;
    var body := Body(content);
    var found := Found(body, vs, {});
    UpdatedUnbroken(content, vs);
    ReadEnded(Updated(content, vs), key);
    if ValueOf(vs, Trim(key)).Some? {
      UpdatedSettles(content, vs);
      SettledUnread(Updated(content, vs), vs, {}, key);
      return;
    }
    ReadBody(content, key);
    RewriteReadsOthers(body, vs, {}, key);
    assert vs[0..] == vs;
    MissingReadsOthers(vs, 0, found, key);
    ReadSplits(Rewrite(body, vs, {}), Missing(vs, found), key);
  }

  // ---------------------------------------------------------------------------
  // Removing
  // ---------------------------------------------------------------------------

  /** The end of the match: up to a line terminator, and past it if it is a newline. */
  function SkipLine(s: string): string {
    if s == "" then "" else if s[0] == '\n' then s[1..] else if IsLineTerminator(s[0]) then s else SkipLine(s[1..])
  }

  /** Delete the first `KEY=` line; a line starts after any line terminator. */
  function RemoveFrom(s: string, key: string, atStart: bool): string {
    if atStart && StartsWith(s, key + "=") then SkipLine(s)
    else if s == "" then ""
    else [s[0]] + RemoveFrom(s[1..], key, IsLineTerminator(s[0]))
  }

  function Remove(content: string, key: string): string { RemoveFrom(content, key, true) }

  predicate HasLine(s: string, key: string, atStart: bool) {
    if atStart && StartsWith(s, key + "=") then true
    else s != "" && HasLine(s[1..], key, IsLineTerminator(s[0]))
  }

  predicate NoTerminator(s: string) { forall k | 0 <= k < |s| :: !IsLineTerminator(s[k]) }

  /** `^KEY=` matches at `k`. */
  predicate MatchAt(s: string, key: string, k: nat, atStart: bool := true) {
    k <= |s| && (if k == 0 then atStart else IsLineTerminator(s[k - 1])) && StartsWith(s[k..], key + "=")
  }

  /** From `k` to `e` runs the rest of a line: to a terminator, and past it if it is a newline. */
  predicate RestOfLine(s: string, k: nat, e: nat) {
    k <= e <= |s|
    && if k < e && s[e - 1] == '\n' then NoTerminator(s[k..e - 1])
       else NoTerminator(s[k..e]) && (e == |s| || (IsLineTerminator(s[e]) && s[e] != '\n'))
  }

  /** The match the removal deletes. */
  predicate FirstMatch(s: string, key: string, k: nat, e: nat, atStart: bool := true) {
    MatchAt(s, key, k, atStart) && RestOfLine(s, k, e) && forall j | 0 <= j < k :: !MatchAt(s, key, j, atStart)
  }

  lemma MatchShifts(s: string, key: string, k: nat, atStart: bool)
    requires s != ""
    ensures MatchAt(s, key, k + 1, atStart) == MatchAt(s[1..], key, k, IsLineTerminator(s[0]))
  {
    hide IsLineTerminator, StartsWith;
    if k + 1 <= |s| { assert s[1..][k..] == s[k + 1..]; }
  }

  lemma {:induction false} SkipsRest(s: string) returns (e: nat)
    ensures RestOfLine(s, 0, e) && SkipLine(s) == s[e..]
  {
    if s == "" {
      e := 0;
    } else if s[0] == '\n' {
      e := 1;
    } else if IsLineTerminator(s[0]) {
      e := 0;
    } else {
      e := SkipsRest(s[1..]);
      assert s[1..][e..] == s[e + 1..];
      assert s[..e + 1] == [s[0]] + s[1..][..e];
      if e > 0 { assert s[..e] == [s[0]] + s[1..][..e - 1]; }
      e := e + 1;
    }
  }

  lemma {:induction false} MatchIsFound(s: string, key: string, k: nat, atStart: bool)
    requires MatchAt(s, key, k, atStart)
    ensures HasLine(s, key, atStart)
  {
    hide MatchAt, StartsWith;
    if k == 0 {
      MatchAtStart(s, key, atStart);
    } else {
      MatchFits(s, key, k, atStart);
      MatchShifts(s, key, k - 1, atStart);
      MatchIsFound(s[1..], key, k - 1, IsLineTerminator(s[0]));
    }
  }

  lemma MatchAtStart(s: string, key: string, atStart: bool)
    ensures MatchAt(s, key, 0, atStart) == (atStart && StartsWith(s, key + "="))
  {
    assert s[0..] == s;
  }

  lemma MatchFits(s: string, key: string, k: nat, atStart: bool)
    requires MatchAt(s, key, k, atStart)
    ensures k <= |s|
  {
  }

  /** The removal deletes the first match and keeps every other byte. */
  lemma {:induction false} RemoveIsFirstMatch(s: string, key: string, atStart: bool) returns (k: nat, e: nat)
    requires HasLine(s, key, atStart)
    ensures FirstMatch(s, key, k, e, atStart) && k <= e <= |s| && RemoveFrom(s, key, atStart) == s[..k] + s[e..]
  {
    hide MatchAt, StartsWith, SkipLine, RestOfLine, IsLineTerminator;
    MatchAtStart(s, key, atStart);
    if atStart && StartsWith(s, key + "=") {
      k := 0;
      e := SkipsRest(s);
    } else {
      k, e := RemoveIsFirstMatch(s[1..], key, IsLineTerminator(s[0]));
      FirstMatchShifts(s, key, k, e, atStart);
      assert [s[0]] + (s[1..][..k] + s[1..][e..]) == s[..k + 1] + s[e + 1..];
      k, e := k + 1, e + 1;
    }
  }

  lemma FirstMatchShifts(s: string, key: string, k: nat, e: nat, atStart: bool)
    requires s != "" && FirstMatch(s[1..], key, k, e, IsLineTerminator(s[0])) && !MatchAt(s, key, 0, atStart)
    ensures FirstMatch(s, key, k + 1, e + 1, atStart)
  {
    hide MatchAt, NoTerminator, IsLineTerminator;
    forall j | 0 <= j < k + 1 ensures !MatchAt(s, key, j, atStart) {
      if j > 0 { MatchShifts(s, key, j - 1, atStart); }
    }
    MatchShifts(s, key, k, atStart);
    SliceShifts(s, k, e);
    if k < e { SliceShifts(s, k, e - 1); }
  }

  lemma SliceShifts(s: string, i: nat, j: nat)
    requires s != "" && i <= j < |s|
    ensures s[1..][i..j] == s[i + 1..j + 1]
  {
  }

  /** What is left of a line holding the first match, and whether the match ran to the line's end. */
  function Cut(line: string, key: string, atStart: bool): (string, bool) {
    if atStart && StartsWith(line, key + "=") then (SkipLine(line), NoTerminator(line))
    else if line == "" then ("", false)
    else var rest := Cut(line[1..], key, IsLineTerminator(line[0])); ([line[0]] + rest.0, rest.1)
  }

  lemma {:induction false} SkipLineOf(line: string, rest: string)
    requires '\n' !in line
    ensures SkipLine(line + "\n" + rest) == if NoTerminator(line) then rest else SkipLine(line) + "\n" + rest
    ensures NoTerminator(line) ==> SkipLine(line) == ""
  {
    var s := line + "\n" + rest;
    if line == "" {
      assert s[1..] == rest;
    } else {
      assert s[1..] == line[1..] + "\n" + rest;
      if !IsLineTerminator(line[0]) {
        SkipLineOf(line[1..], rest);
        assert NoTerminator(line) == NoTerminator(line[1..]) by { assert line == [line[0]] + line[1..]; }
      }
    }
  }

  lemma LineStartsIn(line: string, rest: string, key: string)
    requires '\n' !in key
    ensures StartsWith(line + "\n" + rest, key + "=") == StartsWith(line, key + "=")
  {
    var s, start := line + "\n" + rest, key + "=";
    assert s[|line|] == '\n' && forall k | 0 <= k < |start| :: start[k] != '\n';
  }

  lemma {:induction false} RemoveInLine(line: string, rest: string, key: string, atStart: bool)
    requires '\n' !in line && '\n' !in key
    ensures RemoveFrom(line + "\n" + rest, key, atStart) ==
      if HasLine(line, key, atStart) then Cut(line, key, atStart).0 + (if Cut(line, key, atStart).1 then rest else "\n" + rest)
      else line + "\n" + RemoveFrom(rest, key, true)
  {
    hide SkipLine, StartsWith, NoTerminator;
    var s := line + "\n" + rest;
    LineStartsIn(line, rest, key);
    if atStart && StartsWith(line, key + "=") {
      SkipLineOf(line, rest);
      Regroup(SkipLine(line), "\n", rest);
      if NoTerminator(line) { assert SkipLine(line) + rest == rest; }
    } else if line == "" {
      assert s[1..] == rest;
    } else {
      var after := line[1..] + "\n" + rest;
      assert s[0] == line[0] && s[1..] == after;
      RemoveInLine(line[1..], rest, key, IsLineTerminator(line[0]));
      var cut := Cut(line[1..], key, IsLineTerminator(line[0]));
      Regroup([line[0]], cut.0, if cut.1 then rest else "\n" + rest);
      Regroup([line[0]], line[1..] + "\n", RemoveFrom(rest, key, true));
      assert [line[0]] + (line[1..] + "\n") == line + "\n";
    }
  }

  /** The first line in which the pattern matches. */
  function FirstHit(lines: seq<string>, key: string): (k: nat)
    ensures k <= |lines| && (k < |lines| ==> HasLine(lines[k], key, true)) && forall j | 0 <= j < k :: !HasLine(lines[j], key, true)
  {
    if lines == [] then 0 else if HasLine(lines[0], key, true) then 0 else 1 + FirstHit(lines[1..], key)
  }

  /** The text after the line `a` of the first match: joined to what is left of it when the match took its newline. */
  function CutAt(lines: seq<string>, key: string, a: nat): seq<string>
    requires a < |lines|
  {
    var cut := Cut(lines[a], key, true);
    if !cut.1 then [cut.0] + lines[a + 1..]
    else if a + 1 < |lines| then [cut.0 + lines[a + 1]] + lines[a + 2..]
    else []
  }

  /** Removal as a change of the lines. */
  lemma {:induction false} RemoveCuts(lines: seq<string>, key: string)
    requires Unbroken(lines) && '\n' !in key
    ensures var a := FirstHit(lines, key);
      if a == |lines| then Remove(Ended(lines), key) == Ended(lines)
      else if a + 1 < |lines| || !Cut(lines[a], key, true).1 || Cut(lines[a], key, true).0 == "" then
        Remove(Ended(lines), key) == Ended(lines[..a] + CutAt(lines, key, a))
      else true
  {
    hide HasLine, Cut, RemoveFrom, Ended;
    if lines == [] {
      EndedNone();
      NothingRemoved(key);
    } else {
      var line, rest, a := lines[0], lines[1..], FirstHit(lines, key);
      assert lines == [line] + rest;
      EndedCons(line, rest);
      RemoveInLine(line, Ended(rest), key, true);
      if HasLine(line, key, true) {
        CutIsEnded(lines, key);
        assert lines[..0] + CutAt(lines, key, 0) == CutAt(lines, key, 0);
      } else {
        RemoveCuts(rest, key);
        if a < |lines| {
          assert CutAt(rest, key, a - 1) == CutAt(lines, key, a);
          assert lines[..a] + CutAt(lines, key, a) == [line] + (rest[..a - 1] + CutAt(rest, key, a - 1));
          EndedCons(line, rest[..a - 1] + CutAt(rest, key, a - 1));
        }
      }
    }
  }

  lemma CutIsEnded(lines: seq<string>, key: string)
    requires lines != []
    ensures var cut, rest := Cut(lines[0], key, true), Ended(lines[1..]);
      (|lines| > 1 || !cut.1 || cut.0 == "" ==> cut.0 + (if cut.1 then rest else "\n" + rest) == Ended(CutAt(lines, key, 0)))
  {
    hide Cut, Ended;
    var cut := Cut(lines[0], key, true);
    if !cut.1 {
      EndedCons(cut.0, lines[1..]);
      Regroup(cut.0, "\n", Ended(lines[1..]));
    } else if |lines| > 1 {
      assert lines[1..] == [lines[1]] + lines[2..];
      EndedCons(lines[1], lines[2..]);
      EndedCons(cut.0 + lines[1], lines[2..]);
      Regroup(cut.0, lines[1], "\n");
      Regroup(cut.0, lines[1] + "\n", Ended(lines[2..]));
    } else {
      EndedNone();
    }
  }

  lemma NothingRemoved(key: string)
    ensures Remove("", key) == ""
  {
  }

  /** A line that starts with `KEY=` is an assignment of the key. */
  lemma StartAssigns(line: string, key: string)
    requires UpperSnake(key) && StartsWith(line, key + "=")
    ensures WriterKey(line) == Some(key)
  {
    hide UpperSnake, ReaderKey, ReaderValue, Trim;
    assert line == Line(key, line[|key| + 1..]);
    WrittenLine(key, line[|key| + 1..]);
  }

  /** A match inside a line: what stands before it, and what follows. */
  lemma {:induction false} CutSplits(line: string, key: string, atStart: bool) returns (before: string, found: string)
    requires HasLine(line, key, atStart)
    ensures line == before + found && StartsWith(found, key + "=")
    ensures Cut(line, key, atStart) == (before + SkipLine(found), NoTerminator(found))
    ensures if before == "" then atStart else IsLineTerminator(before[|before| - 1])
  {
    hide SkipLine, NoTerminator, StartsWith, IsLineTerminator;
    if atStart && StartsWith(line, key + "=") {
      before, found := "", line;
      assert before + SkipLine(found) == SkipLine(line);
    } else {
      before, found := CutSplits(line[1..], key, IsLineTerminator(line[0]));
      Regroup([line[0]], before, SkipLine(found));
      before := [line[0]] + before;
    }
  }

  lemma {:induction false} TrimStartSplits(s: string) returns (spaces: string, body: string)
    ensures s == spaces + body && AllSpaces(spaces) && (body == "" || !IsSpace(body[0]))
  {
    if s != "" && IsSpace(s[0]) {
      spaces, body := TrimStartSplits(s[1..]);
      spaces := [s[0]] + spaces;
    } else {
      spaces, body := "", s;
    }
  }

  lemma StartPlain(key: string)
    requires UpperSnake(key)
    ensures NoTerminator(key + "=")
  {
  }

  /** `KEY=` holds no terminator, so it does not reach past one. */
  lemma StartsBefore(body: string, tail: string, key: string)
    requires UpperSnake(key) && body != "" && IsLineTerminator(body[|body| - 1]) && StartsWith(body + tail, key + "=")
    ensures StartsWith(body, key + "=")
  {
    if |body| <= |key + "="| { StartHolds(body + tail, key, |body| - 1); }
  }

  lemma StartHolds(s: string, key: string, n: nat)
    requires UpperSnake(key) && StartsWith(s, key + "=") && n < |key + "="|
    ensures !IsLineTerminator(s[n])
  {
    StartPlain(key);
    assert s[n] == (key + "=")[n];
  }

  /** Text cut after a terminator inside a line that does not assign the key never reads as the key. */
  lemma CutNotRead(before: string, found: string, tail: string, key: string)
    requires UpperSnake(key) && before != "" && IsLineTerminator(before[|before| - 1])
    requires StartsWith(found, key + "=") && WriterKey(before + found) != Some(key)
    ensures ReaderKey(before + tail) != Some(key)
  {
    hide WriterKey, ReaderKey, UpperSnake, IsLineTerminator, StartsWith, Trim;
    if ReaderKey(before + tail) == Some(key) {
      ReadIsSet(before + tail, key);
      var spaces, body := TrimStartSplits(before);
      Regroup(spaces, body, found);
      TrimPast(spaces, body + found);
      SameTrim(before + found, body + found);
      if body == "" {
        assert body + found == found;
        StartAssigns(found, key);
      } else {
        Regroup(spaces, body, tail);
        TrimPast(spaces, body + tail);
        StartsUntrimmed(body + tail, key + "=");
        assert body[|body| - 1] == before[|before| - 1];
        StartsBefore(body, tail, key);
        StartsLonger(body, found, key + "=");
        StartAssigns(body + found, key);
      }
    }
  }

  lemma StartsUntrimmed(s: string, start: string)
    requires s != "" && !IsSpace(s[0]) && StartsWith(Trim(s), start)
    ensures StartsWith(s, start)
  {
    hide TrimEnd, IsSpace;
    TrimStartDone(s);
    var spaces := TrimEndSplits(s);
  }

  lemma StartsLonger(s: string, more: string, start: string)
    requires StartsWith(s, start)
    ensures StartsWith(s + more, start)
  {
  }

  lemma TrimPast(spaces: string, s: string)
    requires AllSpaces(spaces)
    ensures Trim(spaces + s) == Trim(s)
  {
    TrimStartSkips(spaces, s);
  }

  lemma SameTrim(a: string, b: string)
    requires Trim(a) == Trim(b)
    ensures WriterKey(a) == WriterKey(b) && ReaderKey(a) == ReaderKey(b) && ReaderValue(a) == ReaderValue(b)
  {
    hide Trim;
  }

  lemma NotWrittenNotRead(line: string, key: string)
    requires UpperSnake(key) && WriterKey(line) != Some(key)
    ensures ReaderKey(line) != Some(key)
  {
    hide WriterKey, ReaderKey, Trim;
    KeyTrims(key);
    if ReaderKey(line) == Some(key) { ReaderIsWriter(line); }
  }

  lemma {:induction false} NoAssignments(lines: seq<string>, key: string)
    requires forall j | 0 <= j < |lines| :: WriterKey(lines[j]) != Some(key)
    ensures Assignments(lines, key) == 0
  {
    hide WriterKey;
    if lines != [] { NoAssignments(lines[1..], key); }
  }

  lemma {:induction false} AssignmentsNone(lines: seq<string>, key: string, j: nat)
    requires Assignments(lines, key) == 0 && j < |lines|
    ensures WriterKey(lines[j]) != Some(key)
  {
    hide WriterKey;
    if j > 0 { AssignmentsNone(lines[1..], key, j - 1); }
  }

  lemma NoneRead(lines: seq<string>, key: string)
    requires UpperSnake(key) && forall j | 0 <= j < |lines| :: WriterKey(lines[j]) != Some(key)
    ensures ReadIn(lines, key) == None && forall j | 0 <= j < |lines| :: ReaderKey(lines[j]) != Some(key)
  {
    hide WriterKey, ReaderKey, ReaderValue, UpperSnake;
    forall j | 0 <= j < |lines| ensures ReaderKey(lines[j]) != Some(key) { NotWrittenNotRead(lines[j], key); }
    ReadSkips(lines, [], key);
    assert lines + [] == lines;
  }

  /** Line `w` is the only one that assigns `key`, and it is the written one. */
  predicate WrittenAt(lines: seq<string>, key: string, value: string, w: nat) {
    && w < |lines| && lines[w] == Line(key, value) && UpperSnake(key) && '\n' !in value && Unbroken(lines)
    && forall j | 0 <= j < |lines| :: j != w ==> WriterKey(lines[j]) != Some(key)
  }

  lemma {:induction false} FindWritten(lines: seq<string>, vs: Values, existed: set<string>, key: string) returns (w: nat)
    requires Valid(vs) && Settled(lines, vs, existed) && ValueOf(vs, key).Some?
    requires key !in existed && key in Found(lines, vs, existed)
    ensures w < |lines| && lines[w] == Line(key, ValueOf(vs, key).value)
    ensures forall j | 0 <= j < |lines| :: j != w ==> WriterKey(lines[j]) != Some(key)
    decreases |lines|
  {
    hide ValueOf, WriterKey, ReaderKey, Valid, UpperSnake, Owns, Line;
    var rest := lines[1..];
    OwnsMeans(vs, lines[0]);
    ReadsOnlyOwned(vs, lines[0], key);
    if Owns(vs, lines[0]) == Some(key) {
      w := 0;
      SettledOnce(rest, vs, existed + {key}, key);
      forall j | 0 <= j < |rest| ensures WriterKey(rest[j]) != Some(key) { AssignmentsNone(rest, key, j); }
    } else {
      var seen := match Owns(vs, lines[0]) case None => existed case Some(k) => existed + {k};
      w := FindWritten(rest, vs, seen, key);
      w := w + 1;
    }
    assert forall j | 0 < j < |lines| :: lines[j] == rest[j - 1];
  }

  lemma UpdateWrites(content: string, vs: Values, i: nat) returns (w: nat)
    requires Valid(vs) && Distinct(vs) && i < |vs|
    ensures WrittenAt(Updated(content, vs), vs[i].0, vs[i].1, w)
  {
    hide Rewrite, Missing, Found, Body, Settled, WriterKey, ValueOf;
    UpdatedUnbroken(content, vs);
    UpdatedSettles(content, vs);
    ValueAt(vs, i);
    w := FindWritten(Updated(content, vs), vs, {}, vs[i].0);
  }

  lemma WrittenIsHit(lines: seq<string>, key: string, value: string, w: nat)
    requires WrittenAt(lines, key, value, w)
    ensures FirstHit(lines, key) <= w && HasLine(lines[w], key, true)
  {
    hide WriterKey, UpperSnake;
    assert StartsWith(lines[w], key + "=");
  }

  lemma CutOfWritten(key: string, value: string)
    requires UpperSnake(key)
    ensures Cut(Line(key, value), key, true) == (SkipLine(value), NoTerminator(value))
  {
    hide SkipLine, NoTerminator;
    assert StartsWith(Line(key, value), key + "=");
    StartPlain(key);
    SkipPast(key + "=", value);
  }

  lemma {:induction false} SkipPast(start: string, rest: string)
    requires NoTerminator(start)
    ensures SkipLine(start + rest) == SkipLine(rest) && NoTerminator(start + rest) == NoTerminator(rest)
  {
    if start == "" {
      assert start + rest == rest;
    } else {
      assert (start + rest)[1..] == start[1..] + rest;
      SkipPast(start[1..], rest);
      assert start + rest == [start[0]] + (start[1..] + rest);
    }
  }

  /**
   * When the removal leaves the key unread. If the first match is the written line, only
   * what its value holds after a line terminator can still assign the key. Otherwise the
   * match is elsewhere, and the written line survives unless it was joined to that line.
   */
  predicate RemovalUnreads(lines: seq<string>, key: string, value: string) {
    var a := FirstHit(lines, key);
    a < |lines|
    && if lines[a] == Line(key, value) then NoTerminator(value) || ReadIn([SkipLine(value)], key) == None
       else Trim(value) == "" || (Cut(lines[a], key, true).1 && a + 1 < |lines| && lines[a + 1] == Line(key, value))
  }

  /** The first match is the written line. */
  lemma CutWritten(lines: seq<string>, key: string, value: string, w: nat)
    requires WrittenAt(lines, key, value, w) && FirstHit(lines, key) == w
    ensures NoTerminator(value) ==> Remove(Ended(lines), key) == Ended(lines[..w] + lines[w + 1..])
    ensures Read(Remove(Ended(lines), key), key) == if NoTerminator(value) then None else ReadIn([SkipLine(value)], key)
  {
    hide WriterKey, ReaderKey, ReaderValue, UpperSnake, RemoveFrom, Ended, Cut, ReadIn, Read, SkipLine, NoTerminator, HasLine;
    var tail := SkipLine(value);
    KeyIsOneLine(key);
    RemoveCuts(lines, key);
    CutOfWritten(key, value);
    SkipLineOf(value, "");
    SkipUnbroken(value);
    var kept := if NoTerminator(value) then lines[..w] + lines[w + 1..] else lines[..w] + ([tail] + lines[w + 1..]);
    if NoTerminator(value) && w + 1 < |lines| {
      assert tail + lines[w + 1] == lines[w + 1];
      assert [tail + lines[w + 1]] + lines[w + 2..] == lines[w + 1..];
    }
    assert Remove(Ended(lines), key) == Ended(kept);
    ReadEnded(kept, key);
    NoneRead(lines[..w], key);
    NoneRead(lines[w + 1..], key);
    if NoTerminator(value) {
      ReadSkips(lines[..w], lines[w + 1..], key);
    } else {
      ReadSkips(lines[..w], [tail] + lines[w + 1..], key);
      ReadCons(tail, lines[w + 1..], key);
      ReadCons(tail, [], key);
      assert [tail] + [] == [tail];
      ReadNone(key);
    }
  }

  lemma ReadNone(key: string)
    ensures ReadIn([], key) == None
  {
  }

  lemma {:induction false} SkipUnbroken(value: string)
    requires '\n' !in value
    ensures '\n' !in SkipLine(value)
  {
    if value != "" { SkipUnbroken(value[1..]); }
  }

  /** The first match is inside another line. */
  lemma CutElsewhere(lines: seq<string>, key: string, value: string, w: nat)
    requires WrittenAt(lines, key, value, w) && FirstHit(lines, key) < w
    ensures var a := FirstHit(lines, key);
      Read(Remove(Ended(lines), key), key) ==
        if Cut(lines[a], key, true).1 && a + 1 == w then None else ReadIn([Line(key, value)], key)
  {
    hide WriterKey, ReaderKey, ReaderValue, UpperSnake, RemoveFrom, Ended, Cut, ReadIn, Read, SkipLine, NoTerminator, HasLine, StartsWith, IsLineTerminator;
    var a := FirstHit(lines, key);
    KeyIsOneLine(key);
    RemoveCuts(lines, key);
    var before, found := CutSplits(lines[a], key, true);
    if before == "" {
      assert "" + found == found;
      StartAssigns(lines[a], key);
    }
    var joined := Cut(lines[a], key, true).1;
    SkipUnbroken(found);
    SkipLineOf(found, "");
    var tail := SkipLine(found) + if joined then lines[a + 1] else "";
    CutNotRead(before, found, tail, key);
    Regroup(before, SkipLine(found), if joined then lines[a + 1] else "");
    var next := if joined then a + 2 else a + 1;
    var kept := lines[..a] + ([before + tail] + lines[next..]);
    assert Remove(Ended(lines), key) == Ended(kept) by {
      if !joined { assert before + SkipLine(found) == before + tail; }
    }
    ReadEnded(kept, key);
    NoneRead(lines[..a], key);
    ReadSkips(lines[..a], [before + tail] + lines[next..], key);
    ReadCons(before + tail, lines[next..], key);
    if next > w { NoneRead(lines[next..], key); } else { ReadsWritten(lines, key, value, w, next); }
  }

  lemma ReadsWritten(lines: seq<string>, key: string, value: string, w: nat, from: nat)
    requires WrittenAt(lines, key, value, w) && from <= w
    ensures ReadIn(lines[from..], key) == ReadIn([Line(key, value)], key)
  {
    hide WriterKey, ReaderKey, ReaderValue, UpperSnake, ReadIn;
    WrittenLine(key, value);
    NoneRead(lines[from..w], key);
    assert lines[from..] == lines[from..w] + ([Line(key, value)] + lines[w + 1..]);
    ReadSkips(lines[from..w], [Line(key, value)] + lines[w + 1..], key);
    ReadCons(Line(key, value), lines[w + 1..], key);
    ReadCons(Line(key, value), [], key);
    assert [Line(key, value)] + [] == [Line(key, value)];
  }

  lemma KeyIsOneLine(key: string)
    requires UpperSnake(key)
    ensures '\n' !in key
  {
  }

  /** After an update, removing a key leaves it unread exactly under the stated condition on the file's lines. */
  lemma RemoveUnreadsIff(content: string, vs: Values, i: nat)
    requires Valid(vs) && Distinct(vs) && i < |vs|
    ensures Read(Remove(Upsert(content, vs), vs[i].0), vs[i].0) == None <==>
            RemovalUnreads(Updated(content, vs), vs[i].0, vs[i].1)
  {
    hide Updated, WriterKey, ReaderKey, ReaderValue, UpperSnake, RemoveFrom, Ended, Cut, ReadIn, Read, SkipLine, NoTerminator, HasLine, Trim;
    var lines, key, value := Updated(content, vs), vs[i].0, vs[i].1;
    var w := UpdateWrites(content, vs, i);
    WrittenIsHit(lines, key, value, w);
    WrittenLine(key, value);
    var a := FirstHit(lines, key);
    if a == w { CutWritten(lines, key, value, w); } else { CutElsewhere(lines, key, value, w); }
    ReadCons(Line(key, value), [], key);
    assert [Line(key, value)] + [] == [Line(key, value)];
  }

  /** Removing a key after it was written deletes its line and nothing else, unless another line matches first. */
  lemma RemoveAfterUpdate(content: string, vs: Values, i: nat)
    requires Valid(vs) && Distinct(vs) && i < |vs| && NoTerminator(vs[i].1)
    requires FirstHit(Updated(content, vs), vs[i].0) < |Updated(content, vs)|
    requires Updated(content, vs)[FirstHit(Updated(content, vs), vs[i].0)] == Line(vs[i].0, vs[i].1)
    ensures var lines, w := Updated(content, vs), FirstHit(Updated(content, vs), vs[i].0);
            Remove(Upsert(content, vs), vs[i].0) == Ended(lines[..w] + lines[w + 1..])
    ensures Read(Remove(Upsert(content, vs), vs[i].0), vs[i].0) == None
    ensures Assignments(Body(Remove(Upsert(content, vs), vs[i].0)), vs[i].0) == 0
  {
    hide Updated, WriterKey, ReaderKey, ReaderValue, UpperSnake, RemoveFrom, Ended, Cut, ReadIn, Read, SkipLine, NoTerminator, HasLine, Body, Assignments;
    var lines, key, value := Updated(content, vs), vs[i].0, vs[i].1;
    var w := UpdateWrites(content, vs, i);
    WrittenIsHit(lines, key, value, w);
    WrittenLine(key, value);
    var a := FirstHit(lines, key);
    CutWritten(lines, key, value, w);
    var kept := lines[..w] + lines[w + 1..];
    BodyEnded(kept);
    NoAssignments(kept, key);
  }

  // ---------------------------------------------------------------------------
  // A carriage return inside a line misleads the removal
  // ---------------------------------------------------------------------------

  const MISLEADING := ["A=1\rK=2", "B=3", "K=v"]

  /** The file an update leaves when it adds the last of these lines. */
  lemma MisleadingIsUpdated()
    ensures Updated(Ended(MISLEADING[..2]), [("K", "v")]) == MISLEADING
  {
    hide WriterKey, ReaderKey, ReaderValue, Ended, Body, Trim, ValueOf;
    var vs := [("K", "v")];
    BodyEnded(MISLEADING[..2]);
    WrittenLine("A", "1\rK=2");
    WrittenLine("B", "3");
    assert Line("A", "1\rK=2") == "A=1\rK=2" && Line("B", "3") == "B=3";
    OnlyK();
    assert Owns(vs, MISLEADING[0]) == None && Owns(vs, MISLEADING[1]) == None;
    NoneOwned(MISLEADING[..2], vs);
    assert Missing(vs, {}) == [Line("K", "v")] + Missing(vs[1..], {});
    assert Line("K", "v") == "K=v";
  }

  lemma OnlyK()
    ensures ValueOf([("K", "v")], "A") == None && ValueOf([("K", "v")], "B") == None
  {
  }

  lemma {:induction false} NoneOwned(lines: seq<string>, vs: Values)
    requires forall k | 0 <= k < |lines| :: Owns(vs, lines[k]) == None
    ensures Rewrite(lines, vs, {}) == lines && Found(lines, vs, {}) == {}
  {
    hide Owns;
    if lines != [] { NoneOwned(lines[1..], vs); }
  }

  /** The removal deletes text after the carriage return, and the key just written is still read. */
  lemma ReturnMisleadsRemove()
    ensures Upsert("A=1\rK=2\n" + ("B=3\n" + ""), [("K", "v")]) == Ended(MISLEADING)
    ensures Remove(Ended(MISLEADING), "K") == Ended(["A=1\rB=3", "K=v"])
    ensures Read(Ended(["A=1\rB=3", "K=v"]), "K") == Some("v")
  {
    hide RemoveFrom, SkipLine, ReadIn, Read, Ended, Trim, HasLine, Cut, Updated;
    MisleadingIsUpdated();
    EndedCons("A=1\rK=2", ["B=3"]);
    EndedCons("B=3", []);
    EndedNone();
    assert MISLEADING[..2] == ["A=1\rK=2"] + ["B=3"] && ["B=3"] == ["B=3"] + [];
    assert "A=1\rK=2" + "\n" + ("B=3" + "\n" + "") == "A=1\rK=2\n" + ("B=3\n" + "");
    RemoveCuts(MISLEADING, "K");
    MisleadingCut();
    assert "A=1\r" + "B=3" == "A=1\rB=3";
    assert MISLEADING[..0] + CutAt(MISLEADING, "K", 0) == ["A=1\rB=3", "K=v"];
    ReadEnded(["A=1\rB=3", "K=v"], "K");
    MisleadingReads();
  }

  lemma MisleadingCut()
    ensures HasLine("A=1\rK=2", "K", true) && Cut("A=1\rK=2", "K", true) == ("A=1\r", true)
    ensures FirstHit(MISLEADING, "K") == 0
  {
    assert StartsWith("K=2", "K" + "=") && NoTerminator("K=2");
    SkipLineOf("K=2", "");
    CutStep('\r', "K=2", "K", false);
    CutStep('1', "\rK=2", "K", false);
    CutStep('=', "1\rK=2", "K", false);
    assert ("A=1\rK=2")[0] != ("K" + "=")[0];
    CutStep('A', "=1\rK=2", "K", true);
    assert ['A'] + (['='] + (['1'] + ("\r" + ""))) == "A=1\r";
    assert ['A'] + "=1\rK=2" == "A=1\rK=2" && ['='] + "1\rK=2" == "=1\rK=2" && ['1'] + "\rK=2" == "1\rK=2" && ['\r'] + "K=2" == "\rK=2";
  }

  lemma CutStep(c: char, rest: string, key: string, atStart: bool)
    requires !(atStart && StartsWith([c] + rest, key + "="))
    ensures HasLine([c] + rest, key, atStart) == HasLine(rest, key, IsLineTerminator(c))
    ensures Cut([c] + rest, key, atStart) == ([c] + Cut(rest, key, IsLineTerminator(c)).0, Cut(rest, key, IsLineTerminator(c)).1)
  {
    hide SkipLine, NoTerminator;
    assert ([c] + rest)[1..] == rest;
  }

  lemma MisleadingReads()
    ensures ReadIn(["A=1\rB=3", "K=v"], "K") == Some("v")
  {
    hide ReaderKey, ReaderValue, Trim;
    WrittenLine("A", "1\rB=3");
    WrittenLine("K", "v");
    assert Line("A", "1\rB=3") == "A=1\rB=3" && Line("K", "v") == "K=v";
    TightTrims("v");
    ReadCons("A=1\rB=3", ["K=v"], "K");
    ReadCons("K=v", [], "K");
    assert ["A=1\rB=3"] + ["K=v"] == ["A=1\rB=3", "K=v"] && ["K=v"] + [] == ["K=v"];
  }

  // ---------------------------------------------------------------------------
  // The single-key writer of the environment step
  // ---------------------------------------------------------------------------

  predicate Sets(line: string, key: string) { StartsWith(Trim(line), key + "=") }

  function FirstSet(lines: seq<string>, key: string): (k: nat)
    ensures k <= |lines| && (k < |lines| ==> Sets(lines[k], key)) && forall j | 0 <= j < k :: !Sets(lines[j], key)
  {
    if lines == [] then 0 else if Sets(lines[0], key) then 0 else 1 + FirstSet(lines[1..], key)
  }

  /** Without blank lines at the end. */
  function Chopped(lines: seq<string>): (r: seq<string>)
    ensures r <= lines && forall k | |r| <= k < |lines| :: Trim(lines[k]) == ""
  {
    if lines != [] && Trim(lines[|lines| - 1]) == "" then Chopped(lines[..|lines| - 1]) else lines
  }

  function KeyLines(content: string, key: string, value: string): seq<string> {
    var lines := SplitLines(content);
    var k := FirstSet(lines, key);
    if k < |lines| then lines[k := Line(key, value)] else Chopped(lines) + [Line(key, value)]
  }

  function UpsertKey(content: string, key: string, value: string): string { JoinLines(KeyLines(content, key, value)) + "\n" }

  /** A key the reader can find: not blank at either end, without `=`, not a comment. */
  predicate PlainKey(key: string) { Tight(key) && '=' !in key && key[0] != '#' && '\n' !in key }

  lemma SetsIsRead(line: string, key: string)
    requires PlainKey(key) && Sets(line, key)
    ensures ReaderKey(line) == Some(key)
  {
    hide Trim;
    var t := Trim(line);
    FirstEquals(key, t[|key| + 1..], 0);
    assert t == key + "=" + t[|key| + 1..];
    assert t[0] == key[0] && t[..|key|] == key;
  }

  lemma ReadIsSet(line: string, key: string)
    requires ReaderKey(line) == Some(key)
    ensures Sets(line, key)
  {
    hide Trim;
    var t := Trim(line);
    var eq := IndexOf(t, '=');
    assert t == t[..eq] + [t[eq]] + t[eq + 1..];
    assert t == key + "=" + t[eq + 1..];
  }

  lemma SetsIsReader(line: string, key: string)
    requires PlainKey(key)
    ensures Sets(line, key) <==> ReaderKey(line) == Some(key)
  {
    hide Sets, ReaderKey, PlainKey;
    if Sets(line, key) { SetsIsRead(line, key); }
    if ReaderKey(line) == Some(key) { ReadIsSet(line, key); }
  }

  lemma SplitUnbroken(content: string)
    ensures Unbroken(SplitLines(content))
  {
    hide SplitLines;
    forall k | 0 <= k < |SplitLines(content)| ensures '\n' !in SplitLines(content)[k] { assert SplitLines(content)[k] in SplitLines(content); }
  }

  lemma PlainLine(key: string, value: string)
    requires PlainKey(key)
    ensures ReaderKey(Line(key, value)) == Some(key)
    ensures ReaderValue(Line(key, value)) == if Trim(value) == "" then None else Some(Trim(value))
  {
    hide TrimEnd, TrimStart;
    TrimStartDone(Line(key, value));
    var spaces := TrimEndSplits(value);
    assert Line(key, value) == Line(key, TrimEnd(value)) + spaces;
    TrimEndIgnores(Line(key, TrimEnd(value)), spaces);
    TrimEndDone(Line(key, TrimEnd(value)));
    var t := Line(key, TrimEnd(value));
    FirstEquals(key, TrimEnd(value), 0);
    assert t[..|key|] == key && t[|key| + 1..] == TrimEnd(value) && t[0] == key[0];
    TrimOfTrimEnd(value);
  }

  lemma BlankUnread(line: string, key: string)
    requires Trim(line) == ""
    ensures ReaderKey(line) != Some(key)
  {
  }

  /** The lines before and after the one the writer sets. */
  function Before(content: string, key: string): seq<string> {
    var lines := SplitLines(content);
    var k := FirstSet(lines, key);
    if k < |lines| then lines[..k] else Chopped(lines)
  }

  function After(content: string, key: string): seq<string> {
    var lines := SplitLines(content);
    var k := FirstSet(lines, key);
    if k < |lines| then lines[k + 1..] else []
  }

  lemma {:induction false} SplitsApart(a: seq<string>, text: string, b: seq<string>)
    requires Unbroken(a) && Unbroken(b)
    ensures SplitLines(JoinLines(a + [text] + b)) == a + SplitLines(text) + b
    decreases |a|, |SplitLines(text)|
  {
    hide SplitLines, JoinLines;
    if a != [] {
      SplitsApart(a[1..], text, b);
      assert a + [text] + b == [a[0]] + (a[1..] + [text] + b);
      assert a + SplitLines(text) + b == [a[0]] + (a[1..] + SplitLines(text) + b);
      JoinCons(a[0], a[1..] + [text] + b);
      SplitCons(a[0], JoinLines(a[1..] + [text] + b));
    } else {
      var ls := SplitLines(text);
      assert a + [text] + b == [text] + b && a + ls + b == ls + b;
      SplitUnbroken(text);
      JoinSplit(text);
      if b == [] {
        assert [text] + b == [text] && ls + b == ls;
        JoinOne(text);
      } else {
        JoinSplits(ls, b);
        JoinCons(text, b);
        SplitJoin(ls + b);
      }
    }
  }

  lemma JoinOne(text: string)
    ensures JoinLines([text]) == text
  {
  }

  lemma {:induction false} JoinSplits(a: seq<string>, b: seq<string>)
    requires a != [] && b != []
    ensures JoinLines(a + b) == JoinLines(a) + "\n" + JoinLines(b)
  {
    hide JoinLines;
    assert a == [a[0]] + a[1..];
    if |a| == 1 {
      assert a == [a[0]];
      JoinOne(a[0]);
      JoinCons(a[0], b);
    } else {
      JoinSplits(a[1..], b);
      Regroup([a[0]], a[1..], b);
      JoinCons(a[0], a[1..] + b);
      JoinCons(a[0], a[1..]);
      Regroup(a[0] + "\n", JoinLines(a[1..]), "\n" + JoinLines(b));
      Regroup(JoinLines(a[1..]), "\n", JoinLines(b));
      Regroup(a[0] + "\n" + JoinLines(a[1..]), "\n", JoinLines(b));
    }
  }

  /** The lines of the written file: a value's own newlines make further lines, and the end one more. */
  lemma KeySplits(content: string, key: string, value: string)
    ensures SplitLines(UpsertKey(content, key, value)) ==
            Before(content, key) + SplitLines(Line(key, value)) + After(content, key) + [""]
  {
    hide SplitLines, JoinLines, Sets;
    var a, b := Before(content, key), After(content, key);
    SplitUnbroken(content);
    var line := Line(key, value);
    assert KeyLines(content, key, value) == a + [line] + b;
    JoinSplits(a + [line] + b, [""]);
    JoinOne("");
    assert JoinLines(a + [line] + b) + "\n" + "" == JoinLines(a + [line] + b) + "\n";
    Regroup(a + [line], b, [""]);
    SplitsApart(a, line, b + [""]);
    Regroup(a + SplitLines(line), b, [""]);
  }

  /** The first line of the value, which is all a reader of the key sees, and the others. */
  function ValueLine(value: string): string { SplitLines(value)[0] }

  function ValueRest(value: string): seq<string> { SplitLines(value)[1..] }

  lemma {:induction false} SplitPast(start: string, text: string)
    requires '\n' !in start
    ensures SplitLines(start + text) == [start + SplitLines(text)[0]] + SplitLines(text)[1..]
  {
    if start == "" {
      assert start + text == text;
      assert "" + SplitLines(text)[0] == SplitLines(text)[0];
    } else {
      assert (start + text)[1..] == start[1..] + text;
      SplitPast(start[1..], text);
      assert [start[0]] + (start[1..] + SplitLines(text)[0]) == start + SplitLines(text)[0];
    }
  }

  lemma LineSplits(key: string, value: string)
    requires '\n' !in key
    ensures SplitLines(Line(key, value)) == [Line(key, ValueLine(value))] + ValueRest(value)
  {
    hide SplitLines;
    SplitPast(key + "=", value);
  }

  /** Neither the lines before nor blank lines dropped at the end assign the key. */
  lemma BeforeUnset(content: string, key: string)
    requires PlainKey(key)
    ensures forall j | 0 <= j < |Before(content, key)| :: ReaderKey(Before(content, key)[j]) != Some(key)
  {
    hide SplitLines, ReaderKey, PlainKey;
    var lines := SplitLines(content);
    forall j | 0 <= j < |Before(content, key)| ensures ReaderKey(Before(content, key)[j]) != Some(key) {
      assert Before(content, key)[j] == lines[j] && !Sets(lines[j], key);
      SetsIsReader(lines[j], key);
    }
  }

  /** The lines of the written file as its reader goes through them. */
  lemma WrittenLines(content: string, key: string, value: string, other: string)
    requires PlainKey(key)
    ensures Read(UpsertKey(content, key, value), other) ==
            ReadIn(Before(content, key) + ([Line(key, ValueLine(value))] + (ValueRest(value) + After(content, key))), other)
  {
    hide SplitLines, ReadIn, ReaderKey, ReaderValue, Before, After, UpsertKey, ValueLine, ValueRest, Line;
    var a, b, line, rest := Before(content, key), After(content, key), [Line(key, ValueLine(value))], ValueRest(value);
    KeySplits(content, key, value);
    LineSplits(key, value);
    ReadUnended(a + (line + rest) + b, other);
    Regroup(a, line + rest, b);
    Regroup(line, rest, b);
  }

  /** The single-key writer: the key reads as the trimmed first line of its value. */
  lemma KeyIsRead(content: string, key: string, value: string)
    requires PlainKey(key)
    ensures Read(UpsertKey(content, key, value), key) == if Trim(ValueLine(value)) == "" then None else Some(Trim(ValueLine(value)))
  {
    hide ReadIn, Read, Trim, ReaderKey, ReaderValue, Before, After, UpsertKey, ValueLine, ValueRest, PlainKey;
    WrittenLines(content, key, value, key);
    PlainLine(key, ValueLine(value));
    BeforeUnset(content, key);
    var rest := ValueRest(value) + After(content, key);
    ReadSkips(Before(content, key), [Line(key, ValueLine(value))] + rest, key);
    ReadCons(Line(key, ValueLine(value)), rest, key);
  }

  predicate Assigned(lines: seq<string>, key: string) { exists k :: 0 <= k < |lines| && ReaderKey(lines[k]) == Some(key) }

  lemma {:induction false} ReadEither(a: seq<string>, b: seq<string>, key: string)
    ensures ReadIn(a + b, key) == if Assigned(a, key) then ReadIn(a, key) else ReadIn(b, key)
  {
    hide ReaderKey, ReaderValue;
    if a == [] {
      assert a + b == b;
    } else {
      assert (a + b)[1..] == a[1..] + b;
      ReadEither(a[1..], b, key);
      if ReaderKey(a[0]) != Some(key) {
        if Assigned(a, key) {
          var k :| 0 <= k < |a| && ReaderKey(a[k]) == Some(key);
          assert ReaderKey(a[1..][k - 1]) == Some(key);
        }
        if Assigned(a[1..], key) {
          var k :| 0 <= k < |a[1..]| && ReaderKey(a[1..][k]) == Some(key);
          assert ReaderKey(a[k + 1]) == Some(key);
        }
      } else {
        assert Assigned(a, key);
      }
    }
  }

  /** The file as it was: the same lines around the one that is set, or around dropped blank lines. */
  lemma ReadsAround(content: string, key: string, other: string)
    requires PlainKey(key) && other != key
    ensures Read(content, other) == ReadIn(Before(content, key) + After(content, key), other)
  {
    hide SplitLines, ReadIn, ReaderKey, ReaderValue, Sets, PlainKey, Trim;
    var lines := SplitLines(content);
    var k := FirstSet(lines, key);
    var a, b := Before(content, key), After(content, key);
    if k < |lines| {
      SetsIsReader(lines[k], key);
      assert lines == a + ([lines[k]] + b);
      ReadEither(a, [lines[k]] + b, other);
      ReadEither(a, b, other);
      ReadCons(lines[k], b, other);
    } else {
      assert lines == a + lines[|a|..] && a + b == a;
      forall j | 0 <= j < |lines[|a|..]| ensures ReaderKey(lines[|a|..][j]) != Some(other) {
        BlankUnread(lines[|a| + j], other);
      }
      ReadSplits(a, lines[|a|..], other);
    }
  }

  /** Every other key reads as it did, unless a further line of the value is the first to assign it. */
  lemma KeyKeepsOthers(content: string, key: string, value: string, other: string)
    requires PlainKey(key) && other != key
    ensures Read(UpsertKey(content, key, value), other) ==
      if Assigned(ValueRest(value), other) && !Assigned(Before(content, key), other) then ReadIn(ValueRest(value), other)
      else Read(content, other)
  {
    hide ReadIn, Read, ReaderKey, ReaderValue, Before, After, UpsertKey, ValueLine, ValueRest, PlainKey, Assigned;
    var a, b, line, rest := Before(content, key), After(content, key), Line(key, ValueLine(value)), ValueRest(value);
    WrittenLines(content, key, value, other);
    ReadsAround(content, key, other);
    PlainLine(key, ValueLine(value));
    ReadEither(a, [line] + (rest + b), other);
    ReadCons(line, rest + b, other);
    ReadEither(rest, b, other);
    ReadEither(a, b, other);
  }

  /** Updating a key that is there grows the file by an empty line each time. */
  lemma UpdateGrows(content: string, key: string, value: string)
    requires FirstSet(SplitLines(content), key) < |SplitLines(content)|
    ensures var lines, k := SplitLines(content), FirstSet(SplitLines(content), key);
            SplitLines(UpsertKey(content, key, value)) == lines[..k] + SplitLines(Line(key, value)) + lines[k + 1..] + [""]
  {
    hide SplitLines, FirstSet, UpsertKey;
    KeySplits(content, key, value);
  }

  // ---------------------------------------------------------------------------
  // The file
  // ---------------------------------------------------------------------------

  /** What splitting after each newline leaves of a line: the line with its newline, the last one without. */
  function Piece(lines: seq<string>, i: nat): string
    requires i < |lines|
  {
    if i + 1 < |lines| then lines[i] + "\n" else lines[i]
  }

  lemma TrimsAsLine(line: string)
    ensures Trim(line + "\n") == Trim(line)
  {
    hide TrimStart, TrimEnd;
    if AllSpaces(line) {
      TrimOfSpaces(line);
      TrimOfSpaces(line + "\n");
    } else {
      StartThenEnd(line, "\n");
    }
  }

  lemma RewriteCons(line: string, rest: seq<string>, vs: Values, existed: set<string>)
    ensures Rewrite([line] + rest, vs, existed) ==
      (match Owns(vs, line)
       case None => [line] + Rewrite(rest, vs, existed)
       case Some(key) =>
         if key in existed then Rewrite(rest, vs, existed)
         else [Line(key, ValueOf(vs, key).value)] + Rewrite(rest, vs, existed + {key}))
    ensures Found([line] + rest, vs, existed) ==
      (match Owns(vs, line) case None => Found(rest, vs, existed) case Some(key) => Found(rest, vs, existed + {key}))
  {
    hide Owns, ValueOf;
    assert ([line] + rest)[1..] == rest;
  }

  lemma NothingRewritten(vs: Values, existed: set<string>)
    ensures Rewrite([], vs, existed) == [] && Found([], vs, existed) == existed
  {
  }

  /** The text one piece of the file becomes, before the file's end is completed. */
  function Replaced(piece: string, vs: Values, existed: set<string>): string {
    match Owns(vs, piece)
    case None => piece
    case Some(key) => if key in existed then "" else Line(key, ValueOf(vs, key).value) + "\n"
  }

  function Seen(piece: string, vs: Values, existed: set<string>): set<string> {
    match Owns(vs, piece) case None => existed case Some(key) => existed + {key}
  }

  /** A piece is owned as its line is. */
  lemma OwnsPiece(vs: Values, line: string)
    ensures Owns(vs, line + "\n") == Owns(vs, line)
  {
    hide Trim, ValueOf;
    TrimsAsLine(line);
  }

  lemma EndedStep(line: string, rest: seq<string>, vs: Values, existed: set<string>)
    ensures Ended(Rewrite([line] + rest, vs, existed)) ==
            Replaced(line + "\n", vs, existed) + Ended(Rewrite(rest, vs, Seen(line + "\n", vs, existed)))
    ensures Found([line] + rest, vs, existed) == Found(rest, vs, Seen(line + "\n", vs, existed))
  {
    hide Owns, ValueOf, Ended, Rewrite, Found;
    RewriteCons(line, rest, vs, existed);
    OwnsPiece(vs, line);
    OwnsMeans(vs, line);
    match Owns(vs, line)
    case None => EndedCons(line, Rewrite(rest, vs, existed));
    case Some(key) =>
      EndedCons(Line(key, ValueOf(vs, key).value), Rewrite(rest, vs, existed + {key}));
      if key in existed { assert existed + {key} == existed; }
  }

  datatype Change = Changed(existed: set<string>) | InvalidKey | InvalidValue | Failed

  /** The project's `.env`, if there is one. */
  class EnvFile {
    var content: Option<string>

    function Now(): string reads this { match content case Some(text) => text case None => "" }

    constructor (text: Option<string>)
      ensures content == text
    {
      content := text;
    }

    /** Write all settings in one replacement of the file, or change nothing. */
    method UpsertEnvVars(vs: Values, renamed: bool) returns (r: Change)
      modifies this
      ensures r.Changed? <==> Valid(vs) && renamed
      ensures r.Changed? ==> content == Some(Upsert(old(Now()), vs)) && r.existed == Found(Body(old(Now())), vs, {})
      ensures !r.Changed? ==> content == old(content)
      ensures r.InvalidKey? ==> exists i | 0 <= i < |vs| :: !UpperSnake(vs[i].0) && Valid(vs[..i])
      ensures r.InvalidValue? ==> exists i | 0 <= i < |vs| :: UpperSnake(vs[i].0) && !OneLine(vs[i].1) && Valid(vs[..i])
      ensures r.Failed? ==> Valid(vs) && !renamed
    {
      hide Owns, ValueOf, SplitLines, Rewrite, Found, Missing, Ended, UpperSnake, OneLine;
      for i := 0 to |vs|
        invariant content == old(content)
        invariant forall k | 0 <= k < i :: UpperSnake(vs[k].0) && OneLine(vs[k].1)
      {
        if !UpperSnake(vs[i].0) { return InvalidKey; }
        if !OneLine(vs[i].1) { return InvalidValue; }
      }
      var next, existed := RewriteLines(Now(), vs);
      if next != "" && next[|next| - 1] != '\n' { next := next + "\n"; }
      ghost var kept := next;
      for i := 0 to |vs|
        invariant content == old(content)
        invariant next + Ended(Missing(vs[i..], existed)) == kept + Ended(Missing(vs, existed))
      {
        MissingStep(vs, i, existed);
        if vs[i].0 !in existed { next := next + (Line(vs[i].0, vs[i].1) + "\n"); }
      }
      NoneMissing(vs[|vs|..], existed);
      EndedNone();
      EndedSplits(Rewrite(Body(Now()), vs, {}), Missing(vs, existed));
      assert next + "" == next;
      if !renamed { return Failed; }
      content := Some(next);
      r := Changed(existed);
    }

    /** The first match goes, every other byte stays; a file without a match is not written. */
    method RemoveEnvVar(key: string) returns (existed: bool)
      modifies this
      ensures existed <==> old(content).Some? && exists k: nat :: MatchAt(old(content).value, key, k)
      ensures existed ==> content == Some(Remove(old(content).value, key))
      ensures existed ==> exists k: nat, e: nat :: FirstMatch(old(content).value, key, k, e)
                            && content == Some(old(content).value[..k] + old(content).value[e..])
      ensures !existed ==> content == old(content)
    {
      if content.None? { return false; }
      existed := HasLine(content.value, key, true);
      if existed {
        ghost var k, e := RemoveIsFirstMatch(content.value, key, true);
        content := Some(Remove(content.value, key));
      } else {
        forall k: nat ensures !MatchAt(content.value, key, k) {
          if MatchAt(content.value, key, k) { MatchIsFound(content.value, key, k, true); }
        }
      }
    }

    /** Set or replace one line, dropping blank lines before a new one. */
    method UpsertEnvKey(key: string, value: string)
      modifies this
      ensures content == Some(UpsertKey(old(Now()), key, value))
    {
      hide SplitLines, Sets, JoinLines;
      var lines := SplitLines(Now());
      ghost var all := lines;
      var k := 0;
      while k < |lines| && !Sets(lines[k], key)
        invariant k <= |lines| && FirstSet(lines[k..], key) + k == FirstSet(lines, key)
      {
        assert lines[k..][0] == lines[k] && lines[k..][1..] == lines[k + 1..];
        k := k + 1;
      }
      assert k < |lines| ==> lines[k..][0] == lines[k];
      if k < |lines| {
        lines := lines[k := Line(key, value)];
      } else {
        while lines != [] && Trim(lines[|lines| - 1]) == ""
          invariant Chopped(lines) == Chopped(all)
          decreases |lines|
        {
          lines := lines[..|lines| - 1];
        }
        lines := lines + [Line(key, value)];
      }
      content := Some(JoinLines(lines) + "\n");
    }
  }

  lemma MissingStep(vs: Values, i: nat, existed: set<string>)
    requires i < |vs|
    ensures Ended(Missing(vs[i..], existed)) ==
            (if vs[i].0 in existed then "" else Line(vs[i].0, vs[i].1) + "\n") + Ended(Missing(vs[i + 1..], existed))
  {
    hide Ended;
    assert vs[i..][0] == vs[i] && vs[i..][1..] == vs[i + 1..];
    var rest := Missing(vs[i + 1..], existed);
    assert [] + rest == rest && "" + Ended(rest) == Ended(rest);
    EndedCons(Line(vs[i].0, vs[i].1), rest);
  }

  lemma NoneMissing(vs: Values, existed: set<string>)
    requires vs == []
    ensures Missing(vs, existed) == []
  {
  }

  /** The rewriting pass over the file's lines, each with its newline but the last. */
  method RewriteLines(content: string, vs: Values) returns (next: string, existed: set<string>)
    ensures Completed(next) == Ended(Rewrite(Body(content), vs, {}))
    ensures existed == Found(Body(content), vs, {})
  {
    hide Owns, ValueOf, SplitLines, Rewrite, Found, Ended, Completed, WriterKey;
    var lines := SplitLines(content);
    var n := |lines| - 1;
    next, existed := "", {};
    for i := 0 to n
      invariant next == "" || next[|next| - 1] == '\n'
      invariant next + Ended(Rewrite(lines[i..n], vs, existed)) == Ended(Rewrite(lines[..n], vs, {}))
      invariant Found(lines[i..n], vs, existed) == Found(lines[..n], vs, {})
    {
      var piece := Piece(lines, i);
      assert lines[i..n] == [lines[i]] + lines[i + 1..n];
      EndedStep(lines[i], lines[i + 1..n], vs, existed);
      Regroup(next, Replaced(piece, vs, existed), Ended(Rewrite(lines[i + 1..n], vs, Seen(piece, vs, existed))));
      next := next + Replaced(piece, vs, existed);
      existed := Seen(piece, vs, existed);
    }
    assert lines[n..n] == [];
    NothingRewritten(vs, existed);
    EndedNone();
    assert next + "" == next;
    FinishLast(lines[..n], lines[n], vs, next, existed);
    next := next + Replaced(Piece(lines, n), vs, existed);
    existed := Seen(Piece(lines, n), vs, existed);
    assert lines == lines[..n] + [lines[n]];
  }

  /** The text with its last line ended. */
  function Completed(s: string): string { if s != "" && s[|s| - 1] != '\n' then s + "\n" else s }

  lemma {:induction false} RewriteSnoc(a: seq<string>, b: seq<string>, vs: Values, existed: set<string>)
    ensures Ended(Rewrite(a + b, vs, existed)) == Ended(Rewrite(a, vs, existed)) + Ended(Rewrite(b, vs, Found(a, vs, existed)))
    ensures Found(a + b, vs, existed) == Found(b, vs, Found(a, vs, existed))
    decreases |a|
  {
    hide Owns, ValueOf, Ended, Rewrite, Found, Replaced, Seen;
    if a == [] {
      NothingRewritten(vs, existed);
      EndedNone();
      assert a + b == b;
    } else {
      var line, rest := a[0], a[1..];
      assert a == [line] + rest;
      Regroup([line], rest, b);
      EndedStep(line, rest + b, vs, existed);
      EndedStep(line, rest, vs, existed);
      var seen := Seen(line + "\n", vs, existed);
      RewriteSnoc(rest, b, vs, seen);
      Regroup(Replaced(line + "\n", vs, existed), Ended(Rewrite(rest, vs, seen)), Ended(Rewrite(b, vs, Found(rest, vs, seen))));
    }
  }

  /** The last line, which has no newline, and the completion of the file. */
  lemma FinishLast(head: seq<string>, last: string, vs: Values, next: string, existed: set<string>)
    requires next == Ended(Rewrite(head, vs, {})) && existed == Found(head, vs, {})
    requires (next == "" || next[|next| - 1] == '\n') && '\n' !in last
    ensures var lines := if last == "" then head else head + [last];
            Completed(next + Replaced(last, vs, existed)) == Ended(Rewrite(lines, vs, {}))
            && Seen(last, vs, existed) == Found(lines, vs, {})
  {
    hide Rewrite, Found, Ended, ValueOf, WriterKey;
    BlankNotOwned(vs);
    OwnsPiece(vs, last);
    RewriteSnoc(head, [last], vs, {});
    EndedStep(last, [], vs, existed);
    NothingRewritten(vs, Seen(last, vs, existed));
    EndedNone();
    assert [last] + [] == [last];
    assert next + "" == next;
    assert next + last + "\n" == next + (last + "\n");
  }

  lemma BlankNotOwned(vs: Values)
    ensures Owns(vs, "").None?
  {
  }
}
