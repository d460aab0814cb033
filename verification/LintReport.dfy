/** What the linter reports, in terms of the document alone. */
module LintReport {
  import opened Text
  import opened Directives
  import opened Vars
  import opened Engine
  import opened Lint

  // ---------------------------------------------------------------------------
  // Versions
  // ---------------------------------------------------------------------------

  predicate Digits(s: string) { s != "" && forall k | 0 <= k < |s| :: '0' <= s[k] <= '9' }

  predicate Suffix(s: string) {
    || s == ""
    || (|s| >= 2 && s[0] in "-+"
        && forall k | 1 <= k < |s| :: 'a' <= s[k] <= 'z' || 'A' <= s[k] <= 'Z' || '0' <= s[k] <= '9' || s[k] in ".-")
  }

  function Dotted(a: string, b: string, c: string, suffix: string): string { a + "." + b + "." + c + suffix }

  /** Three numbers with dots between, and an optional suffix: no range, no tag. */
  ghost predicate IsVersion(s: string) {
    exists a, b, c, suffix | Digits(a) && Digits(b) && Digits(c) && Suffix(suffix) :: s == Dotted(a, b, c, suffix)
  }

  lemma DigitsEnd(s: string, i: nat, k: nat)
    requires i <= k <= |s| && (forall j | i <= j < k :: IsDigit(s[j])) && (k < |s| ==> !IsDigit(s[k]))
    ensures SkipDigits(s, i) == k
  {
  }

  lemma DottedIsExact(a: string, b: string, c: string, suffix: string)
    requires Digits(a) && Digits(b) && Digits(c) && Suffix(suffix)
    ensures ExactSemver(Dotted(a, b, c, suffix))
  {
    hide SkipDigits, Suffix, Digits, ExactSemver, IsDigit;
    var s := Dotted(a, b, c, suffix);
    var head := a + "." + b + ".";
    SuffixIs(suffix);
    DigitsAt("", a, "." + b + "." + c + suffix);
    assert s == "" + a + ("." + b + "." + c + suffix);
    DigitsAt(a + ".", b, "." + c + suffix);
    assert s == a + "." + b + ("." + c + suffix);
    DigitsAt(head, c, suffix);
    assert s == head + c + suffix;
    assert s[|head| + |c|..] == suffix;
    NumbersAreExact(s, |a|, |a| + 1 + |b|, |head| + |c|);
  }

  lemma NumbersAreExact(s: string, i: nat, j: nat, k: nat)
    requires 0 < i && i + 1 < j && j + 1 < k <= |s| && s[i] == '.' && s[j] == '.'
    requires SkipDigits(s, 0) == i && SkipDigits(s, i + 1) == j && SkipDigits(s, j + 1) == k
    requires var tail := s[k..];
      tail == "" || (|tail| > 1 && (tail[0] == '-' || tail[0] == '+') && forall m | 0 < m < |tail| :: IsSuffixChar(tail[m]))
    ensures ExactSemver(s)
  {
    hide SkipDigits, IsSuffixChar;
    assert forall m | k < m < |s| :: s[m] == s[k..][m - k];
  }

  lemma SuffixIs(s: string)
    requires Suffix(s)
    ensures s == "" || (|s| > 1 && (s[0] == '-' || s[0] == '+') && forall k | 0 < k < |s| :: IsSuffixChar(s[k]))
  {
  }

  /** The digits after `before` end where they end. */
  lemma DigitsAt(before: string, digits: string, after: string)
    requires Digits(digits) && (after == "" || after[0] in ".-+")
    ensures SkipDigits(before + digits + after, |before|) == |before| + |digits| > |before|
    ensures after != "" ==> (before + digits + after)[|before| + |digits|] == after[0]
  {
    var s := before + digits + after;
    assert forall m | |before| <= m < |before| + |digits| :: s[m] == digits[m - |before|];
    DigitsEnd(s, |before|, |before| + |digits|);
  }

  lemma ExactIsDotted(s: string)
    requires ExactSemver(s)
    ensures IsVersion(s)
  {
    hide SkipDigits, ExactSemver, Digits, Suffix, Dotted;
    var i, j, k := ExactParts(s);
    var a, b, c, suffix := s[0..i], s[i + 1..j], s[j + 1..k], s[k..];
    DigitsHere(s, 0, i);
    DigitsHere(s, i + 1, j);
    DigitsHere(s, j + 1, k);
    DottedHere(s, i, j, k);
    assert s == Dotted(a, b, c, suffix);
  }

  lemma ExactParts(s: string) returns (i: nat, j: nat, k: nat)
    requires ExactSemver(s)
    ensures 0 < i && i + 1 < j && j + 1 < k <= |s| && s[i] == '.' && s[j] == '.'
    ensures SkipDigits(s, 0) == i && SkipDigits(s, i + 1) == j && SkipDigits(s, j + 1) == k
    ensures Suffix(s[k..])
  {
    hide SkipDigits, IsSuffixChar;
    i := SkipDigits(s, 0);
    j := SkipDigits(s, i + 1);
    k := SkipDigits(s, j + 1);
    SuffixHere(s, k);
  }

  lemma DigitsHere(s: string, i: nat, k: nat)
    requires i < k <= |s| && SkipDigits(s, i) == k
    ensures Digits(s[i..k])
  {
  }

  lemma SuffixHere(s: string, k: nat)
    requires k <= |s|
    requires k == |s| || ((s[k] == '-' || s[k] == '+') && k + 1 < |s| && forall m | k < m < |s| :: IsSuffixChar(s[m]))
    ensures Suffix(s[k..])
  {
  }

  lemma DottedHere(s: string, i: nat, j: nat, k: nat)
    requires i < j < k <= |s| && s[i] == '.' && s[j] == '.'
    ensures s == Dotted(s[0..i], s[i + 1..j], s[j + 1..k], s[k..])
  {
    assert s == s[0..i] + [s[i]] + s[i + 1..j] + [s[j]] + s[j + 1..k] + s[k..];
  }

  lemma ExactIff(s: string)
    ensures ExactSemver(s) <==> IsVersion(s)
  {
    hide ExactSemver, Digits, Suffix, Dotted;
    if ExactSemver(s) { ExactIsDotted(s); }
    if IsVersion(s) {
      var a, b, c, suffix :| Digits(a) && Digits(b) && Digits(c) && Suffix(suffix) && s == Dotted(a, b, c, suffix);
      DottedIsExact(a, b, c, suffix);
    }
  }

  function Spec(name: string, version: string): string { name + "@" + version }

  /** The spec pins a package to `version`. */
  ghost predicate Pins(spec: string, version: string) {
    '@' !in version && exists name | name != "" :: spec == Spec(name, version)
  }

  /** The spec pins a package to one exact version. */
  ghost predicate PinsExactly(spec: string) { exists version | IsVersion(version) :: Pins(spec, version) }

  lemma PinIs(spec: string, version: string)
    requires version != ""
    ensures Pins(spec, version) <==> PinVersion(spec) == version
  {
    var at := LastIndexOf(spec, '@');
    if Pins(spec, version) {
      var name :| name != "" && spec == Spec(name, version);
      assert spec[|name|] == '@';
      assert forall k | |name| < k < |spec| :: spec[k] == version[k - |name| - 1];
      assert at == |name| && spec[at + 1..] == version;
    }
    if PinVersion(spec) == version {
      assert spec == Spec(spec[..at], version);
      assert forall k | 0 <= k < |version| :: version[k] == spec[at + 1 + k];
    }
  }

  lemma VersionHasNoAt(version: string)
    requires IsVersion(version)
    ensures version != "" && '@' !in version
  {
    var a, b, c, suffix :| Digits(a) && Digits(b) && Digits(c) && Suffix(suffix) && version == Dotted(a, b, c, suffix);
    assert '@' !in a && '@' !in b && '@' !in c && '@' !in suffix;
    assert |version| > 0;
  }

  lemma PinsExactlyIff(spec: string)
    ensures PinsExactly(spec) <==> ExactSemver(PinVersion(spec))
  {
    hide IsVersion, Pins, ExactSemver, PinVersion;
    var v := PinVersion(spec);
    ExactIff(v);
    if IsVersion(v) {
      VersionHasNoAt(v);
      PinIs(spec, v);
    }
    if version :| IsVersion(version) && Pins(spec, version) {
      VersionHasNoAt(version);
      PinIs(spec, version);
    }
  }

  lemma AdapterIs(spec: string)
    ensures StartsWith(PinName(spec), "@chat-adapter/") <==> "@chat-adapter/" <= spec
  {
    var at := LastIndexOf(spec, '@');
    var prefix := "@chat-adapter/";
    if at > 0 && prefix <= spec {
      assert forall k | 1 <= k < |prefix| :: spec[k] == prefix[k] != '@';
      assert at >= |prefix|;
      assert spec[..at][..|prefix|] == spec[..|prefix|];
    }
  }

  // ---------------------------------------------------------------------------
  // Names
  // ---------------------------------------------------------------------------

  /** Running the directive can give the name a value. */
  ghost predicate Introduces(d: Directive, name: string) {
    || (d.kind == "prompt"
        && exists k | 0 <= k < |d.args| :: d.args[k] == name && name != "secret" && forall m | 0 <= m < k :: d.args[m] == "secret")
    || (d.kind == "run" && "capture" in d.attrs
        && (if '=' !in d.attrs["capture"] then name == d.attrs["capture"]
            else name != "" && exists k | 0 <= k < |SplitAt(d.attrs["capture"], ',')| :: LintName(SplitAt(d.attrs["capture"], ',')[k]) == name))
  }

  /** An earlier directive introduces the name. */
  ghost predicate Introduced(ds: seq<Directive>, i: nat, name: string) {
    exists j | 0 <= j < i && j < |ds| :: Introduces(ds[j], name)
  }

  lemma {:induction false} FirstNameIff(args: seq<string>, name: string)
    ensures FirstName(args) == Some(name) <==>
            exists k | 0 <= k < |args| :: args[k] == name && name != "secret" && forall m | 0 <= m < k :: args[m] == "secret"
  {
    if args != [] && args[0] == "secret" {
      FirstNameIff(args[1..], name);
      if k :| 0 <= k < |args[1..]| && args[1..][k] == name && name != "secret" && forall m | 0 <= m < k :: args[1..][m] == "secret" {
        assert forall m | 0 <= m < k + 1 :: args[m] == if m == 0 then "secret" else args[1..][m - 1];
        assert args[k + 1] == name;
      }
      if k :| 0 <= k < |args| && args[k] == name && name != "secret" && forall m | 0 <= m < k :: args[m] == "secret" {
        assert forall m | 0 <= m < k - 1 :: args[1..][m] == args[m + 1];
        assert args[1..][k - 1] == name;
      }
    }
  }

  lemma {:induction false} NamesAre(pairs: seq<string>, name: string)
    ensures name in LintNames(pairs) <==> name != "" && exists k | 0 <= k < |pairs| :: LintName(pairs[k]) == name
  {
    hide LintName;
    if pairs != [] {
      NamesAre(pairs[1..], name);
      if k :| 0 <= k < |pairs[1..]| && LintName(pairs[1..][k]) == name { assert LintName(pairs[k + 1]) == name; }
      if k :| 0 <= k < |pairs| && LintName(pairs[k]) == name && k > 0 { assert LintName(pairs[1..][k - 1]) == name; }
    }
  }

  lemma DefinesIff(d: Directive, name: string)
    ensures name in Defines(d) <==> Introduces(d, name)
  {
    hide FirstName, LintNames, LintName, SplitAt;
    FirstNameIff(d.args, name);
    if "capture" in d.attrs { NamesAre(SplitAt(d.attrs["capture"], ','), name); }
  }

  lemma {:induction false} DefinedIff(ds: seq<Directive>, i: nat, name: string)
    requires i <= |ds|
    ensures name in Defined(ds, i) <==> Introduced(ds, i, name)
  {
    hide Defines, Introduces;
    if i > 0 {
      DefinedIff(ds, i - 1, name);
      DefinesIff(ds[i - 1], name);
    }
  }

  // ---------------------------------------------------------------------------
  // Issues
  // ---------------------------------------------------------------------------

  predicate Blankly(d: Directive, key: string) { key !in d.attrs || d.attrs[key] == "" }

  /** A part every directive of the kind needs is not there. */
  predicate Lacks(d: Directive, what: string) {
    || (d.kind == "append" && ((what == "to" && Blankly(d, "to")) || (what == "line" && d.body == [])))
    || (d.kind == "copy" && what == "path" && d.body == [])
    || (d.kind == "json-merge" && ((what == "into" && Blankly(d, "into")) || (what == "key" && Blankly(d, "key"))
                                   || (what == "object" && d.body == [])))
    || (d.kind == "prompt" && ((what == "variable" && Nameless(d.args)) || (what == "question" && d.body == [])))
    || (d.kind == "operator" && what == "instructions" && d.body == [])
  }

  /** No argument names a variable. */
  predicate Nameless(args: seq<string>) {
    forall k | 0 <= k < |args| && (forall m | 0 <= m < k :: args[m] == "secret") :: args[k] in {"secret", ""}
  }

  /** Attributes that were removed from this kind of directive. */
  predicate Removed(d: Directive, name: string) {
    || (d.kind == "prompt" && name in {"min", "error"} && name in d.attrs)
    || (d.kind == "operator" && name == "open" && name in d.attrs)
    || (d.kind == "operator" && name == "gate" && (name in d.attrs || name in d.args))
  }

  /** The `when:` guard's name, when it is written `name=value`. */
  ghost predicate GuardNames(d: Directive, name: string) {
    "when" in d.attrs && exists k | 0 < k < |d.attrs["when"]| ::
      d.attrs["when"][k] == '=' && '=' !in d.attrs["when"][..k] && name == Trim(d.attrs["when"][..k])
  }

  ghost predicate MergesNothing(w: World, d: Directive, issue: Issue) {
    d.kind == "json-merge" && d.body != [] &&
    match w.parse(JoinLines(d.body))
    case None => issue == UnparseableObject
    case Some(Obj(fields)) => "key" in d.attrs && d.attrs["key"] !in fields && issue == NoMatchField(d.attrs["key"])
    case Some(_) => issue == NotAnObject
  }

  /** The directive deserves the issue for its kind. */
  ghost predicate OfItsKind(w: World, d: Directive, issue: Issue, chat: string) {
    match issue
    case InexactDep(spec) => d.kind == "dep" && spec in d.body && !PinsExactly(spec)
    case ChatMismatch(spec) => d.kind == "dep" && spec in d.body && chat != "" && "@chat-adapter/" <= spec && !Pins(spec, chat)
    case Missing(what) => Lacks(d, what)
    case UnparseableObject => MergesNothing(w, d, issue)
    case NotAnObject => MergesNothing(w, d, issue)
    case NoMatchField(_) => MergesNothing(w, d, issue)
    case BadPromptRegex => d.kind == "prompt" && "validate" in d.attrs && !w.validRegex(d.attrs["validate"], Attr(d, "flags"))
    case BadFlags => d.kind == "prompt" && "validate" !in d.attrs && "flags" in d.attrs && !w.validRegex("", Some(d.attrs["flags"]))
    case RemovedAttr(name) => Removed(d, name)
    case BadNormalize => d.kind == "prompt" && "normalize" in d.attrs && d.attrs["normalize"] !in {"trim", "rstrip-slash", "lower"}
    case BadReuse => d.kind == "prompt" && "reuse" in d.attrs && !IsIdent(d.attrs["reuse"])
    case _ => false
  }

  /** The document deserves the issue at its `i`-th directive. */
  ghost predicate Deserves(w: World, ds: seq<Directive>, i: nat, issue: Issue, chat: string)
    requires i < |ds|
  {
    var d := ds[i];
    match issue
    case Retired => d.kind == "env-sync"
    case UnknownDirective =>
      d.kind !in {"copy", "append", "dep", "run", "prompt", "operator", "env-set", "json-merge", "env-sync"}
    case RemovedAttr(name) => (name in {"label", "on-fail"} && name in d.attrs) || OfItsKind(w, d, issue, chat)
    case UndefinedRef(name) => Mentioned(d.body, name) && !Introduced(ds, i, name)
    case MalformedGuard => "when" in d.attrs && !exists name :: GuardNames(d, name)
    case UndefinedGuard(name) => GuardNames(d, name) && !Introduced(ds, i, name)
    case BadCaptureRegex => d.kind == "run" && "validate" in d.attrs && !w.validRegex(d.attrs["validate"], None)
    case _ => OfItsKind(w, d, issue, chat)
  }

  /** Some body line holds a reference to the name. */
  ghost predicate Mentioned(body: seq<string>, name: string) {
    exists k, i, j | 0 <= k < |body| && 0 <= i <= j <= |body[k]| :: IsReference(body[k][i..j], name)
  }

  lemma {:induction false} DepIssuesAre(specs: seq<string>, chat: string, issue: Issue)
    ensures issue in DepIssues(specs, chat) <==> exists k | 0 <= k < |specs| :: issue in DepIssue(specs[k], chat)
  {
    hide DepIssue;
    if specs != [] {
      DepIssuesAre(specs[1..], chat, issue);
      assert DepIssues(specs, chat) == DepIssue(specs[0], chat) + DepIssues(specs[1..], chat);
      if k :| 0 <= k < |specs[1..]| && issue in DepIssue(specs[1..][k], chat) { assert issue in DepIssue(specs[k + 1], chat); }
      if k :| 0 <= k < |specs| && issue in DepIssue(specs[k], chat) && k > 0 { assert issue in DepIssue(specs[1..][k - 1], chat); }
    }
  }

  /** The issues of one spec. */
  lemma DepIssueIs(spec: string, chat: string, issue: Issue)
    ensures issue in DepIssue(spec, chat) <==>
      || (issue == InexactDep(spec) && !PinsExactly(spec))
      || (issue == ChatMismatch(spec) && chat != "" && "@chat-adapter/" <= spec && !Pins(spec, chat))
  {
    hide PinsExactly, Pins, ExactSemver, PinVersion, PinName;
    PinsExactlyIff(spec);
    AdapterIs(spec);
    if chat != "" { PinIs(spec, chat); }
  }

  lemma {:induction false} RefIssuesAre(refs: seq<string>, defined: set<string>, issue: Issue)
    ensures issue in RefIssues(refs, defined) <==> issue.UndefinedRef? && issue.name in refs && issue.name !in defined
  {
    if refs != [] {
      RefIssuesAre(refs[1..], defined, issue);
      assert refs == [refs[0]] + refs[1..];
    }
  }

  lemma {:induction false} LineRefsAre(body: seq<string>, name: string)
    ensures name in LineRefs(body) <==> exists k | 0 <= k < |body| :: name in Refs(body[k])
  {
    hide Refs;
    if body != [] {
      LineRefsAre(body[1..], name);
      assert LineRefs(body) == Refs(body[0]) + LineRefs(body[1..]);
      if k :| 0 <= k < |body[1..]| && name in Refs(body[1..][k]) { assert name in Refs(body[k + 1]); }
      if k :| 0 <= k < |body| && name in Refs(body[k]) && k > 0 { assert name in Refs(body[1..][k - 1]); }
    }
  }

  lemma MentionedIff(body: seq<string>, name: string)
    ensures name in LineRefs(body) <==> Mentioned(body, name)
  {
    hide Refs, IsReference;
    LineRefsAre(body, name);
    if k :| 0 <= k < |body| && name in Refs(body[k]) { MentionIff(body[k], name); }
    if k, i, j :| 0 <= k < |body| && 0 <= i <= j <= |body[k]| && IsReference(body[k][i..j], name) { MentionIff(body[k], name); }
  }

  lemma GuardIff(d: Directive, name: string)
    ensures GuardNames(d, name) <==> "when" in d.attrs && GuardOf(d).Some? && GuardOf(d).value.name == name
  {
    hide Trim;
    if "when" in d.attrs {
      var when := d.attrs["when"];
      var eq := IndexOf(when, '=');
      if eq >= 1 { assert when[eq] == '=' && '=' !in when[..eq]; }
      forall k | 0 < k < |when| && when[k] == '=' && '=' !in when[..k] ensures k == eq {
        assert forall m | 0 <= m < k :: when[m] == when[..k][m] != '=';
      }
    }
  }

  lemma NamelessIs(args: seq<string>)
    ensures Nameless(args) <==> FirstName(args).None? || FirstName(args) == Some("")
  {
    hide FirstName;
    if FirstName(args).Some? { FirstNameIff(args, FirstName(args).value); }
    if !Nameless(args) {
      var k :| 0 <= k < |args| && (forall m | 0 <= m < k :: args[m] == "secret") && args[k] !in {"secret", ""};
      FirstNameIff(args, args[k]);
    }
  }

  lemma MergeIssuesAre(w: World, d: Directive, issue: Issue)
    requires d.kind == "json-merge"
    ensures issue in MergeIssues(w, d) <==> MergesNothing(w, d, issue) || (issue.Missing? && Lacks(d, issue.what))
  {
    hide JoinLines;
  }

  lemma PromptIssuesAre(w: World, d: Directive, issue: Issue)
    requires d.kind == "prompt"
    ensures issue in PromptIssues(w, d) <==>
      || (issue.Missing? && Lacks(d, issue.what))
      || (issue.BadPromptRegex? && "validate" in d.attrs && !w.validRegex(d.attrs["validate"], Attr(d, "flags")))
      || (issue.BadFlags? && "validate" !in d.attrs && "flags" in d.attrs && !w.validRegex("", Some(d.attrs["flags"])))
      || (issue.RemovedAttr? && issue.name in {"min", "error"} && issue.name in d.attrs)
      || (issue.BadNormalize? && "normalize" in d.attrs && d.attrs["normalize"] !in {"trim", "rstrip-slash", "lower"})
      || (issue.BadReuse? && "reuse" in d.attrs && !IsIdent(d.attrs["reuse"]))
  {
    hide Nameless, Lacks, IsIdent, PromptNeeds, PromptAttrs;
    PromptNeedsAre(w, d, issue);
    PromptAttrsAre(d, issue);
  }

  lemma PromptNeedsAre(w: World, d: Directive, issue: Issue)
    requires d.kind == "prompt"
    ensures issue in PromptNeeds(w, d) <==>
      || (issue.Missing? && Lacks(d, issue.what))
      || (issue.BadPromptRegex? && "validate" in d.attrs && !w.validRegex(d.attrs["validate"], Attr(d, "flags")))
      || (issue.BadFlags? && "validate" !in d.attrs && "flags" in d.attrs && !w.validRegex("", Some(d.attrs["flags"])))
  {
    hide Nameless, FirstName;
    NamelessIs(d.args);
  }

  lemma PromptAttrsAre(d: Directive, issue: Issue)
    ensures issue in PromptAttrs(d) <==>
      || (issue.RemovedAttr? && issue.name in {"min", "error"} && issue.name in d.attrs)
      || (issue.BadNormalize? && "normalize" in d.attrs && d.attrs["normalize"] !in {"trim", "rstrip-slash", "lower"})
      || (issue.BadReuse? && "reuse" in d.attrs && !IsIdent(d.attrs["reuse"]))
  {
    hide IsIdent;
  }

  lemma DepKind(w: World, d: Directive, chat: string, issue: Issue)
    requires d.kind == "dep"
    ensures issue in DepIssues(d.body, chat) <==> OfItsKind(w, d, issue, chat)
  {
    hide DepIssue, DepIssues, PinsExactly, Pins;
    DepIssuesAre(d.body, chat, issue);
    forall k | 0 <= k < |d.body|
      ensures issue in DepIssue(d.body[k], chat) <==>
        || (issue == InexactDep(d.body[k]) && !PinsExactly(d.body[k]))
        || (issue == ChatMismatch(d.body[k]) && chat != "" && "@chat-adapter/" <= d.body[k] && !Pins(d.body[k], chat))
    {
      DepIssueIs(d.body[k], chat, issue);
    }
  }

  lemma OperatorKind(w: World, d: Directive, chat: string, issue: Issue)
    requires d.kind == "operator"
    ensures issue in KindIssues(w, d, chat) <==> OfItsKind(w, d, issue, chat)
  {
  }

  lemma PlainKind(w: World, d: Directive, chat: string, issue: Issue)
    requires d.kind !in {"dep", "json-merge", "prompt", "operator"}
    ensures issue in KindIssues(w, d, chat) <==> OfItsKind(w, d, issue, chat)
  {
  }

  lemma KindIssuesAre(w: World, d: Directive, chat: string, issue: Issue)
    ensures issue in KindIssues(w, d, chat) <==> OfItsKind(w, d, issue, chat)
  {
    hide DepIssues, MergeIssues, PromptIssues, PinsExactly, Pins, Nameless, IsIdent, Require, Refuse;
    match d.kind
    case "dep" => DepKind(w, d, chat, issue);
    case "json-merge" => MergeIssuesAre(w, d, issue);
    case "prompt" => PromptIssuesAre(w, d, issue);
    case "operator" => OperatorKind(w, d, chat, issue);
    case _ => PlainKind(w, d, chat, issue);
  }

  lemma GuardIssuesAre(ds: seq<Directive>, i: nat, issue: Issue)
    requires i < |ds|
    ensures issue in GuardIssues(ds[i], Defined(ds, i)) <==>
      || (issue.MalformedGuard? && "when" in ds[i].attrs && !exists name :: GuardNames(ds[i], name))
      || (issue.UndefinedGuard? && GuardNames(ds[i], issue.name) && !Introduced(ds, i, issue.name))
  {
    hide GuardNames, Defined, Introduced, GuardOf;
    var d := ds[i];
    forall name { GuardIff(d, name); }
    if "when" in d.attrs && GuardOf(d).Some? {
      assert GuardNames(d, GuardOf(d).value.name);
      DefinedIff(ds, i, GuardOf(d).value.name);
    }
  }

  lemma InSum(a: seq<Issue>, b: seq<Issue>, c: seq<Issue>, d: seq<Issue>, e: seq<Issue>, f: seq<Issue>, g: seq<Issue>, issue: Issue)
    ensures issue in a + b + c + d + e + f + g <==>
            issue in a || issue in b || issue in c || issue in d || issue in e || issue in f || issue in g
  {
  }

  lemma RefuseIs(d: Directive, name: string, issue: Issue)
    ensures issue in Refuse(d, name) <==> issue == RemovedAttr(name) && name in d.attrs
  {
  }

  lemma IssuesAre(w: World, ds: seq<Directive>, i: nat, chat: string, issue: Issue)
    requires i < |ds|
    ensures issue in Issues(w, ds[i], Defined(ds, i), chat) <==> Deserves(w, ds, i, issue, chat)
  {
    hide KindIssues, RefIssues, LineRefs, GuardIssues, Mentioned, GuardNames, Defined, Introduced, OfItsKind, Issues;
    var d, defined := ds[i], Defined(ds, i);
    IssuePieces(w, d, defined, chat, issue);
    KindIssuesAre(w, d, chat, issue);
    RefIssuesAre(LineRefs(d.body), defined, issue);
    GuardIssuesAre(ds, i, issue);
    KindOnly(w, d, issue, chat);
    if issue.UndefinedRef? {
      MentionedIff(d.body, issue.name);
      DefinedIff(ds, i, issue.name);
    }
  }

  lemma IssuePieces(w: World, d: Directive, defined: set<string>, chat: string, issue: Issue)
    ensures issue in Issues(w, d, defined, chat) <==>
      || (issue.Retired? && d.kind == "env-sync")
      || (issue.UnknownDirective?
          && d.kind !in {"copy", "append", "dep", "run", "prompt", "operator", "env-set", "json-merge", "env-sync"})
      || issue in KindIssues(w, d, chat)
      || (issue.RemovedAttr? && issue.name in {"label", "on-fail"} && issue.name in d.attrs)
      || issue in RefIssues(LineRefs(d.body), defined)
      || issue in GuardIssues(d, defined)
      || (issue.BadCaptureRegex? && d.kind == "run" && "validate" in d.attrs && !w.validRegex(d.attrs["validate"], None))
  {
    hide KindIssues, RefIssues, LineRefs, GuardIssues, Refuse;
    RefuseIs(d, "label", issue);
    RefuseIs(d, "on-fail", issue);
    InSum(
      if d.kind == "env-sync" then [Retired] else if Known(d.kind) then [] else [UnknownDirective], KindIssues(w, d, chat),
      Refuse(d, "label"), Refuse(d, "on-fail"), RefIssues(LineRefs(d.body), defined), GuardIssues(d, defined),
      if d.kind == "run" && "validate" in d.attrs && !w.validRegex(d.attrs["validate"], None) then [BadCaptureRegex] else [], issue);
  }

  lemma KindOnly(w: World, d: Directive, issue: Issue, chat: string)
    ensures OfItsKind(w, d, issue, chat) ==>
      !(issue.Retired? || issue.UnknownDirective? || issue.UndefinedRef? || issue.MalformedGuard? || issue.UndefinedGuard? || issue.BadCaptureRegex?)
  {
  }

  /** A problem is reported exactly when a directive on its line, of its kind, deserves it. */
  lemma ReportedIff(w: World, ds: seq<Directive>, chat: string, p: Problem)
    ensures p in Problems(w, ds, chat, |ds|) <==>
            exists i | 0 <= i < |ds| :: ds[i].line == p.line && ds[i].kind == p.kind && Deserves(w, ds, i, p.issue, chat)
  {
    ReportedBefore(w, ds, chat, |ds|, p);
  }

  lemma {:induction false} ReportedBefore(w: World, ds: seq<Directive>, chat: string, n: nat, p: Problem)
    requires n <= |ds|
    ensures p in Problems(w, ds, chat, n) <==>
            exists i | 0 <= i < n :: ds[i].line == p.line && ds[i].kind == p.kind && Deserves(w, ds, i, p.issue, chat)
  {
    hide Issues, Deserves, Defined;
    if n > 0 {
      ReportedBefore(w, ds, chat, n - 1, p);
      IssuesAre(w, ds, n - 1, chat, p.issue);
      var issues := Issues(w, ds[n - 1], Defined(ds, n - 1), chat);
      var here := Located(ds[n - 1], issues);
      assert Problems(w, ds, chat, n) == Problems(w, ds, chat, n - 1) + here;
      if p.issue in issues && ds[n - 1].line == p.line && ds[n - 1].kind == p.kind {
        var k :| 0 <= k < |issues| && issues[k] == p.issue;
        assert here[k] == p;
      }
      if p in here {
        var k :| 0 <= k < |here| && here[k] == p;
        assert issues[k] == p.issue;
      }
    }
  }
}
