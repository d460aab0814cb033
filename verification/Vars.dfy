/** `{{name}}` references: where they match, what they name, and substitution. */
module Vars {
  import opened Text

  datatype Var = Var(value: string, secret: bool)

  type Bindings = map<string, Var>

  datatype Ref = Ref(name: string, length: nat)

  function SkipSpaces(s: string, i: nat): (k: nat)
    requires i <= |s|
    ensures i <= k <= |s|
    ensures forall j | i <= j < k :: IsSpace(s[j])
    ensures k < |s| ==> !IsSpace(s[k])
    decreases |s| - i
  {
    if i < |s| && IsSpace(s[i]) then SkipSpaces(s, i + 1) else i
  }

  function SkipIdent(s: string, i: nat): (k: nat)
    requires i <= |s|
    ensures i <= k <= |s|
    ensures forall j | i <= j < k :: IsIdentPart(s[j])
    ensures k < |s| ==> !IsIdentPart(s[k])
    decreases |s| - i
  {
    if i < |s| && IsIdentPart(s[i]) then SkipIdent(s, i + 1) else i
  }

  /** The reference at the head of `s`, if one matches there. */
  function RefAt(s: string): (r: Option<Ref>)
    ensures r.Some? ==> 4 < r.value.length <= |s|
  {
    if !StartsWith(s, "{{") then None
    else
      var from := SkipSpaces(s, 2);
      if from == |s| || !IsIdentStart(s[from]) then None
      else
        var to := SkipIdent(s, from);
        var end := SkipSpaces(s, to);
        if StartsWith(s[end..], "}}") then Some(Ref(s[from..to], end + 2)) else None
  }

  /** The names referenced in `s`, left to right. */
  function Refs(s: string): seq<string> {
    if s == "" then []
    else
      match RefAt(s)
      case None => Refs(s[1..])
      case Some(r) => [r.name] + Refs(s[r.length..])
  }

  datatype Substituted = Text(text: string) | Unresolved(name: string)

  function Prepend(s: string, r: Substituted): Substituted {
    if r.Text? then Text(s + r.text) else r
  }

  function Substitute(s: string, vars: Bindings): Substituted {
    if s == "" then Text("")
    else
      match RefAt(s)
      case None => Prepend([s[0]], Substitute(s[1..], vars))
      case Some(r) =>
        if r.name !in vars then Unresolved(r.name)
        else Prepend(vars[r.name].value, Substitute(s[r.length..], vars))
  }

  /** Substitution fails exactly when some reference is unbound. */
  lemma {:induction false} SubstituteResolves(s: string, vars: Bindings)
    ensures Substitute(s, vars).Text? <==> forall n | n in Refs(s) :: n in vars
  {
    if s != "" {
      match RefAt(s)
      case None => SubstituteResolves(s[1..], vars);
      case Some(r) =>
        SubstituteResolves(s[r.length..], vars);
        assert Refs(s) == [r.name] + Refs(s[r.length..]);
        assert r.name in Refs(s);
        assert forall n :: n in Refs(s) <==> n == r.name || n in Refs(s[r.length..]);
    }
  }

  // ---------------------------------------------------------------------------
  // References are local: what matches in a part of a text matches in the text
  // ---------------------------------------------------------------------------

  lemma {:induction false} SkipSpacesExtends(s: string, more: string, i: nat)
    requires i <= |s| && SkipSpaces(s, i) < |s|
    ensures SkipSpaces(s + more, i) == SkipSpaces(s, i)
    decreases |s| - i
  {
    if IsSpace(s[i]) { SkipSpacesExtends(s, more, i + 1); }
  }

  lemma {:induction false} SkipIdentExtends(s: string, more: string, i: nat)
    requires i <= |s| && SkipIdent(s, i) < |s|
    ensures SkipIdent(s + more, i) == SkipIdent(s, i)
    decreases |s| - i
  {
    if IsIdentPart(s[i]) { SkipIdentExtends(s, more, i + 1); }
  }

  lemma SliceExtends(s: string, more: string, i: nat, k: nat)
    requires i <= k <= |s|
    ensures (s + more)[i..k] == s[i..k]
    ensures (s + more)[k..] == s[k..] + more
  {
  }

  /** A match is decided by its own characters. */
  lemma RefAtExtends(s: string, more: string)
    requires RefAt(s).Some?
    ensures RefAt(s + more) == RefAt(s)
  {
    hide SkipSpaces, SkipIdent;
    var from := SkipSpaces(s, 2);
    var to := SkipIdent(s, from);
    var end := SkipSpaces(s, to);
    SkipSpacesExtends(s, more, 2);
    SkipIdentExtends(s, more, from);
    SkipSpacesExtends(s, more, to);
    SliceExtends(s, more, to, end);
    SliceExtends(s, more, from, to);
  }

  /** `name` is referenced at position `i`. */
  predicate RefersAt(s: string, i: nat, name: string) {
    i < |s| && RefAt(s[i..]).Some? && RefAt(s[i..]).value.name == name
  }

  /** Nothing matches inside a match. */
  lemma NoRefInside(s: string, j: nat)
    requires RefAt(s).Some? && 0 < j < RefAt(s).value.length
    ensures RefAt(s[j..]).None?
  {
    var from := SkipSpaces(s, 2);
    var to := SkipIdent(s, from);
    var end := SkipSpaces(s, to);
    assert s[end..][0] == '}' && s[end] == '}';
    assert s[end..][1] == '}' && s[end + 1] == '}';
    assert j >= 2 ==> s[j] != '{';
    assert s[2] != '{';
    assert s[j..][0] == s[j];
    if j == 1 { assert s[1..][1] == s[2]; }
  }

  lemma RefersShift(s: string, n: nat, i: nat, name: string)
    requires n <= |s|
    ensures RefersAt(s[n..], i, name) <==> RefersAt(s, n + i, name)
  {
    if n + i < |s| { assert s[n..][i..] == s[n + i..]; }
  }

  lemma RefsUnfold(s: string, name: string)
    ensures name in Refs(s) ==> s != ""
    ensures s != "" && RefAt(s).None? ==> Refs(s) == Refs(s[1..])
    ensures s != "" && RefAt(s).Some? ==> (name in Refs(s) <==> name == RefAt(s).value.name || name in Refs(s[RefAt(s).value.length..]))
  {
  }

  /** A name found by scanning matches somewhere. */
  lemma {:induction false} RefMatches(s: string, name: string) returns (i: nat)
    requires name in Refs(s)
    ensures RefersAt(s, i, name)
    decreases |s|
  {
    hide Refs, RefAt;
    RefsUnfold(s, name);
    if RefAt(s).None? {
      i := RefMatches(s[1..], name);
      RefersShift(s, 1, i, name);
      i := i + 1;
    } else if RefAt(s).value.name == name {
      assert s[0..] == s;
      i := 0;
    } else {
      var n := RefAt(s).value.length;
      i := RefMatches(s[n..], name);
      RefersShift(s, n, i, name);
      i := n + i;
    }
  }

  /** A name that matches anywhere is found by scanning. */
  lemma {:induction false} MatchIsFound(s: string, i: nat, name: string)
    requires RefersAt(s, i, name)
    ensures name in Refs(s)
    decreases |s|
  {
    hide Refs, RefAt;
    assert s[0..] == s;
    RefsUnfold(s, name);
    if RefAt(s).None? {
      RefersShift(s, 1, i - 1, name);
      MatchIsFound(s[1..], i - 1, name);
    } else if i > 0 {
      var n := RefAt(s).value.length;
      if i < n { NoRefInside(s, i); }
      RefersShift(s, n, i - n, name);
      MatchIsFound(s[n..], i - n, name);
    }
  }

  lemma RefersInPart(before: string, part: string, after: string, i: nat, name: string)
    requires RefersAt(part, i, name)
    ensures RefersAt(before + part + after, |before| + i, name)
  {
    hide RefAt;
    RefAtExtends(part[i..], after);
    assert (before + part + after)[|before| + i..] == part[i..] + after;
  }

  /** A name referenced in a part of a text is referenced in the text. */
  lemma RefsOfPart(before: string, part: string, after: string, name: string)
    requires name in Refs(part)
    ensures name in Refs(before + part + after)
  {
    hide Refs, RefAt;
    var i := RefMatches(part, name);
    RefersInPart(before, part, after, i, name);
    MatchIsFound(before + part + after, |before| + i, name);
  }

  lemma TrimIsPart(s: string) returns (before: string, after: string)
    ensures before + Trim(s) + after == s
  {
    before := StartIsPart(s);
    after := EndIsPart(TrimStart(s));
    assert before + (Trim(s) + after) == before + Trim(s) + after;
  }

  lemma {:induction false} StartIsPart(s: string) returns (before: string)
    ensures before + TrimStart(s) == s
  {
    before := "";
    if s != "" && IsSpace(s[0]) {
      before := StartIsPart(s[1..]);
      before := [s[0]] + before;
    }
  }

  lemma {:induction false} EndIsPart(s: string) returns (after: string)
    ensures TrimEnd(s) + after == s
  {
    after := "";
    if s != "" && IsSpace(s[|s| - 1]) {
      after := EndIsPart(s[..|s| - 1]);
      after := after + [s[|s| - 1]];
    }
  }

  /** A name referenced in the trimmed tail of a text is referenced in the text. */
  lemma RefsOfTrimmedTail(s: string, from: nat, name: string)
    requires from <= |s| && name in Refs(Trim(s[from..]))
    ensures name in Refs(s)
  {
    hide Refs, Trim;
    var before, after := TrimIsPart(s[from..]);
    RefsOfPart(s[..from] + before, Trim(s[from..]), after, name);
    assert s[..from] + before + Trim(s[from..]) + after == s[..from] + (before + Trim(s[from..]) + after) == s;
  }

  // ---------------------------------------------------------------------------
  // What a reference looks like, and what substitution leaves in its place
  // ---------------------------------------------------------------------------

  predicate Blank(s: string) { forall k | 0 <= k < |s| :: IsSpace(s[k]) }

  function Braced(left: string, name: string, right: string): string { "{{" + left + name + right + "}}" }

  /** `t` is `{{name}}`, with any space inside the braces. */
  ghost predicate IsReference(t: string, name: string) {
    IsIdent(name) && exists left, right | Blank(left) && Blank(right) :: t == Braced(left, name, right)
  }

  /** Where the parts of a reference stand. */
  lemma BracedParts(left: string, name: string, right: string, after: string)
    ensures var s, a, b, c := Braced(left, name, right) + after, 2 + |left|, 2 + |left| + |name|, 2 + |left| + |name| + |right|;
      && |s| == c + 2 + |after| && s[0] == '{' && s[1] == '{' && s[c] == '}' && s[c + 1] == '}'
      && (forall k | 2 <= k < a :: s[k] == left[k - 2])
      && (forall k | a <= k < b :: s[k] == name[k - a])
      && (forall k | b <= k < c :: s[k] == right[k - b])
      && s[a..b] == name
  {
  }

  /** A text that starts with a reference is read as that reference. */
  lemma BracedIsRead(left: string, name: string, right: string, after: string)
    requires Blank(left) && IsIdent(name) && Blank(right)
    ensures RefAt(Braced(left, name, right) + after) == Some(Ref(name, |Braced(left, name, right)|))
  {
    var s := Braced(left, name, right) + after;
    var a, b, c := 2 + |left|, 2 + |left| + |name|, 2 + |left| + |name| + |right|;
    assert |Braced(left, name, right)| == c + 2;
    BracedParts(left, name, right, after);
    PartsAreRead(s, a, b, c);
  }

  /** Braces, space, a name, space and braces, by position. */
  lemma PartsAreRead(s: string, a: nat, b: nat, c: nat)
    requires 2 <= a < b <= c && c + 2 <= |s| && s[0] == '{' && s[1] == '{' && s[c] == '}' && s[c + 1] == '}'
    requires Blank(s[2..a]) && IsIdent(s[a..b]) && Blank(s[b..c])
    ensures RefAt(s) == Some(Ref(s[a..b], c + 2))
  {
    hide IsSpace;
    assert s[..2] == "{{" && s[c..][..2] == "}}";
    forall k | 2 <= k < a ensures IsSpace(s[k]) { assert s[2..a][k - 2] == s[k]; }
    forall k | a <= k < b ensures IsIdentPart(s[k]) { assert s[a..b][k - a] == s[k]; }
    forall k | b <= k < c ensures IsSpace(s[k]) { assert s[b..c][k - b] == s[k]; }
    assert IsIdentStart(s[a..b][0]) && s[a..b][0] == s[a];
    NamesAreNoSpace(s[a]);
    assert !IsSpace('}') by { BraceIsNoSpace(); }
    if b < c { SpaceIsNoName(s[b]); }
  }

  lemma NamesAreNoSpace(c: char)
    requires IsIdentPart(c)
    ensures !IsSpace(c)
  {
  }

  lemma SpaceIsNoName(c: char)
    requires IsSpace(c)
    ensures !IsIdentPart(c)
  {
  }

  lemma BraceIsNoSpace()
    ensures !IsSpace('}')
  {
  }

  /** What is read as a reference looks like one. */
  lemma ReadIsBraced(s: string)
    requires RefAt(s).Some?
    ensures IsReference(s[..RefAt(s).value.length], RefAt(s).value.name)
  {
    var from := SkipSpaces(s, 2);
    var to := SkipIdent(s, from);
    var end := SkipSpaces(s, to);
    var left, name, right := s[2..from], s[from..to], s[to..end];
    BlankPart(s, 2, from);
    BlankPart(s, to, end);
    NamePart(s, from, to);
    ReadsAs(s, from, to, end);
  }

  lemma BlankPart(s: string, i: nat, k: nat)
    requires i <= k <= |s| && forall j | i <= j < k :: IsSpace(s[j])
    ensures Blank(s[i..k])
  {
    hide IsSpace;
  }

  lemma NamePart(s: string, i: nat, k: nat)
    requires i < k <= |s| && IsIdentStart(s[i]) && forall j | i <= j < k :: IsIdentPart(s[j])
    ensures IsIdent(s[i..k])
  {
    hide IsIdentStart, IsIdentPart;
  }

  lemma ReadsAs(s: string, from: nat, to: nat, end: nat)
    requires 2 <= from <= to <= end && end + 2 <= |s| && "{{" <= s && "}}" <= s[end..]
    ensures s[..end + 2] == Braced(s[2..from], s[from..to], s[to..end])
  {
    assert s[end..][..2] == "}}" && s[..2] == "{{";
    assert s[..end + 2] == s[..2] + s[2..from] + s[from..to] + s[to..end] + s[end..end + 2];
  }

  lemma ReadIsBracedAt(s: string, i: nat) returns (k: nat)
    requires i <= |s| && RefAt(s[i..]).Some?
    ensures i <= k <= |s| && IsReference(s[i..k], RefAt(s[i..]).value.name)
  {
    ReadIsBraced(s[i..]);
    k := i + RefAt(s[i..]).value.length;
    assert s[i..][..k - i] == s[i..k];
  }

  lemma ReferenceIsRead(s: string, i: nat, k: nat, name: string)
    requires i <= k <= |s| && IsReference(s[i..k], name)
    ensures RefersAt(s, i, name)
  {
    hide RefAt, Blank, IsIdent;
    var left, right :| Blank(left) && Blank(right) && s[i..k] == Braced(left, name, right);
    BracedIsRead(left, name, right, s[k..]);
    assert s[i..] == s[i..k] + s[k..];
    assert |s[i..k]| > 0;
  }

  /** A name is found in a text exactly when the text holds a reference to it somewhere. */
  lemma MentionIff(s: string, name: string)
    ensures name in Refs(s) <==> exists i, k | 0 <= i <= k <= |s| :: IsReference(s[i..k], name)
  {
    hide Refs, RefAt, IsReference;
    if name in Refs(s) {
      var i := RefMatches(s, name);
      var k := ReadIsBracedAt(s, i);
      assert IsReference(s[i..k], name);
    }
    if i, k :| 0 <= i <= k <= |s| && IsReference(s[i..k], name) {
      ReferenceIsRead(s, i, k, name);
      MatchIsFound(s, i, name);
    }
  }

  /** No reference starts before position `n`. */
  ghost predicate NoneBefore(s: string, n: nat) {
    forall i, k, name | 0 <= i < n && i <= k <= |s| :: !IsReference(s[i..k], name)
  }

  lemma NoneBeforeIs(s: string, n: nat)
    requires n <= |s| && NoneBefore(s, n)
    ensures forall i | 0 <= i < n :: RefAt(s[i..]).None?
  {
    hide RefAt, IsReference;
    forall i | 0 <= i < n ensures RefAt(s[i..]).None? {
      if RefAt(s[i..]).Some? { var _ := ReadIsBracedAt(s, i); }
    }
  }

  lemma {:induction false} SkipsPlain(s: string, n: nat, vars: Bindings)
    requires n <= |s| && forall i | 0 <= i < n :: RefAt(s[i..]).None?
    ensures Substitute(s, vars) == Prepend(s[..n], Substitute(s[n..], vars))
  {
    hide RefAt;
    if n == 0 {
      assert s[0..] == s;
    } else {
      assert s[0..] == s;
      forall i | 0 <= i < n - 1 ensures RefAt(s[1..][i..]).None? { assert s[1..][i..] == s[i + 1..]; }
      SkipsPlain(s[1..], n - 1, vars);
      assert s[1..][n - 1..] == s[n..] && [s[0]] + s[1..][..n - 1] == s[..n];
      var rest := Substitute(s[n..], vars);
      if rest.Text? { assert [s[0]] + (s[1..][..n - 1] + rest.text) == s[..n] + rest.text; }
    }
  }

  /**
   * The first reference of a text is replaced by its value, everything before it is kept, and
   * what follows is substituted alike; an unbound name ends the substitution. A text without
   * references stays as it is.
   */
  lemma FillsFirst(before: string, left: string, name: string, right: string, after: string, vars: Bindings)
    requires Blank(left) && IsIdent(name) && Blank(right)
    requires NoneBefore(before + Braced(left, name, right) + after, |before|)
    ensures var r := Substitute(before + Braced(left, name, right) + after, vars);
      if name !in vars then r == Unresolved(name)
      else match Substitute(after, vars)
           case Text(rest) => r == Text(before + vars[name].value + rest)
           case Unresolved(missing) => r == Unresolved(missing)
  {
    hide NoneBefore, Braced, IsReference, RefAt;
    var ref := Braced(left, name, right);
    var s := before + ref + after;
    NoneBeforeIs(s, |before|);
    SkipsPlain(s, |before|, vars);
    assert s[|before|..] == ref + after && s[..|before|] == before;
    BracedIsRead(left, name, right, after);
    assert (ref + after)[|ref|..] == after;
    if name in vars && Substitute(after, vars).Text? {
      Regroup(before, vars[name].value, Substitute(after, vars).text);
    }
  }

  lemma KeepsPlain(s: string, vars: Bindings)
    requires NoneBefore(s, |s|)
    ensures Substitute(s, vars) == Text(s)
  {
    hide RefAt, NoneBefore;
    NoneBeforeIs(s, |s|);
    SkipsPlain(s, |s|, vars);
    assert s[..|s|] == s && s[|s|..] == "";
  }
}
