/** The authoring linter for directive lists. */
module Lint {
  import opened Text
  import opened Directives
  import opened Vars
  import opened Engine

  datatype Issue =
    | Retired
    | UnknownDirective
    | InexactDep(spec: string)
    | ChatMismatch(spec: string)
    | Missing(what: string)
    | UnparseableObject
    | NotAnObject
    | NoMatchField(key: string)
    | BadPromptRegex
    | BadFlags
    | RemovedAttr(name: string)
    | BadNormalize
    | BadReuse
    | UndefinedRef(name: string)
    | MalformedGuard
    | UndefinedGuard(name: string)
    | BadCaptureRegex

  datatype Problem = Problem(line: nat, kind: string, issue: Issue)

  // ---------------------------------------------------------------------------
  // Dependency pins
  // ---------------------------------------------------------------------------

  function SkipDigits(s: string, i: nat): (k: nat)
    requires i <= |s|
    ensures i <= k <= |s|
    ensures forall j | i <= j < k :: IsDigit(s[j])
    ensures k < |s| ==> !IsDigit(s[k])
    decreases |s| - i
  {
    if i < |s| && IsDigit(s[i]) then SkipDigits(s, i + 1) else i
  }

  /** The end of `digits '.'` at `i`, if there. */
  function SkipNumberDot(s: string, i: nat): (k: nat)
    requires i <= |s|
    ensures k <= |s|
  {
    var e := SkipDigits(s, i);
    if e > i && e < |s| && s[e] == '.' then e + 1 else 0
  }

  predicate IsSuffixChar(c: char) { IsLetter(c) || IsDigit(c) || c == '.' || c == '-' }

  /** `1.2.3`, optionally followed by `-` or `+` and a suffix. */
  predicate ExactSemver(s: string) {
    var a := SkipNumberDot(s, 0);
    var b := SkipNumberDot(s, a);
    var c := SkipDigits(s, b);
    && a > 0 && b > a && c > b
    && (c == |s| || ((s[c] == '-' || s[c] == '+') && c + 1 < |s| && forall k | c < k < |s| :: IsSuffixChar(s[k])))
  }

  function PinName(spec: string): string {
    var at := LastIndexOf(spec, '@');
    if at > 0 then spec[..at] else spec
  }

  function PinVersion(spec: string): string {
    var at := LastIndexOf(spec, '@');
    if at > 0 then spec[at + 1..] else ""
  }

  function DepIssue(spec: string, chat: string): seq<Issue> {
    (if ExactSemver(PinVersion(spec)) then [] else [InexactDep(spec)])
    + (if chat != "" && StartsWith(PinName(spec), "@chat-adapter/") && PinVersion(spec) != chat then [ChatMismatch(spec)] else [])
  }

  function DepIssues(specs: seq<string>, chat: string): seq<Issue> {
    if specs == [] then [] else DepIssue(specs[0], chat) + DepIssues(specs[1..], chat)
  }

  // ---------------------------------------------------------------------------
  // Names a directive references and defines
  // ---------------------------------------------------------------------------

  /** References line by line. */
  function LineRefs(body: seq<string>): seq<string> {
    if body == [] then [] else Refs(body[0]) + LineRefs(body[1..])
  }

  /** The name before the `=`; without one, all but the last character. */
  function LintName(pair: string): string {
    var eq := IndexOf(pair, '=');
    Trim(if eq >= 0 then pair[..eq] else if pair == "" then "" else pair[..|pair| - 1])
  }

  function LintNames(pairs: seq<string>): set<string> {
    if pairs == [] then {}
    else (if LintName(pairs[0]) == "" then {} else {LintName(pairs[0])}) + LintNames(pairs[1..])
  }

  function CaptureVars(spec: string): set<string> {
    if IndexOf(spec, '=') < 0 then {spec} else LintNames(SplitAt(spec, ','))
  }

  function Defines(d: Directive): set<string> {
    if d.kind == "prompt" then
      match PromptVar(d) case Some(v) => {v} case None => {}
    else if d.kind == "run" && "capture" in d.attrs then CaptureVars(d.attrs["capture"])
    else {}
  }

  /** The names the linter takes to be defined before directive `n`. */
  function Defined(ds: seq<Directive>, n: nat): set<string>
    requires n <= |ds|
  {
    if n == 0 then {} else Defined(ds, n - 1) + Defines(ds[n - 1])
  }

  function RefIssues(refs: seq<string>, defined: set<string>): seq<Issue> {
    if refs == [] then []
    else (if refs[0] in defined then [] else [UndefinedRef(refs[0])]) + RefIssues(refs[1..], defined)
  }

  // ---------------------------------------------------------------------------
  // Issues of one directive
  // ---------------------------------------------------------------------------

  predicate Known(kind: string) {
    kind in {"copy", "append", "dep", "run", "prompt", "operator", "env-set", "json-merge"}
  }

  function Require(ok: bool, what: string): seq<Issue> { if ok then [] else [Missing(what)] }

  function Refuse(d: Directive, name: string): seq<Issue> { if name in d.attrs then [RemovedAttr(name)] else [] }

  function MergeIssues(w: World, d: Directive): seq<Issue> {
    Require(OrEmpty(d, "into") != "", "into")
    + Require(OrEmpty(d, "key") != "", "key")
    + if d.body == [] then [Missing("object")]
      else
        match w.parse(JoinLines(d.body))
        case None => [UnparseableObject]
        case Some(obj) =>
          if !obj.Obj? then [NotAnObject]
          else if "key" in d.attrs && d.attrs["key"] !in obj.fields then [NoMatchField(d.attrs["key"])]
          else []
  }

  /** What a prompt asks, and whether its patterns can be compiled. */
  function PromptNeeds(w: World, d: Directive): seq<Issue> {
    Require(PromptVar(d).Some? && PromptVar(d) != Some(""), "variable")
    + Require(d.body != [], "question")
    + (match (Attr(d, "validate"), Attr(d, "flags"))
       case (Some(v), flags) => if w.validRegex(v, flags) then [] else [BadPromptRegex]
       case (None, Some(flags)) => if w.validRegex("", Some(flags)) then [] else [BadFlags]
       case (None, None) => [])
  }

  /** Attributes a prompt may not have, or not with this value. */
  function PromptAttrs(d: Directive): seq<Issue> {
    Refuse(d, "min") + Refuse(d, "error")
    + (if "normalize" in d.attrs && d.attrs["normalize"] !in {"trim", "rstrip-slash", "lower"} then [BadNormalize] else [])
    + (if "reuse" in d.attrs && !IsIdent(d.attrs["reuse"]) then [BadReuse] else [])
  }

  function PromptIssues(w: World, d: Directive): seq<Issue> { PromptNeeds(w, d) + PromptAttrs(d) }

  function KindIssues(w: World, d: Directive, chat: string): seq<Issue> {
    if d.kind == "dep" then DepIssues(d.body, chat)
    else if d.kind == "append" then Require(OrEmpty(d, "to") != "", "to") + Require(d.body != [], "line")
    else if d.kind == "copy" then Require(d.body != [], "path")
    else if d.kind == "json-merge" then MergeIssues(w, d)
    else if d.kind == "prompt" then PromptIssues(w, d)
    else if d.kind == "operator" then
      Require(d.body != [], "instructions")
      + Refuse(d, "open")
      + (if "gate" in d.args || "gate" in d.attrs then [RemovedAttr("gate")] else [])
    else []
  }

  function GuardIssues(d: Directive, defined: set<string>): seq<Issue> {
    if "when" !in d.attrs then []
    else
      match GuardOf(d)
      case None => [MalformedGuard]
      case Some(g) => if g.name in defined then [] else [UndefinedGuard(g.name)]
  }

  function Issues(w: World, d: Directive, defined: set<string>, chat: string): seq<Issue> {
    (if d.kind == "env-sync" then [Retired] else if Known(d.kind) then [] else [UnknownDirective])
    + KindIssues(w, d, chat)
    + Refuse(d, "label") + Refuse(d, "on-fail")
    + RefIssues(LineRefs(d.body), defined)
    + GuardIssues(d, defined)
    + (if d.kind == "run" && "validate" in d.attrs && !w.validRegex(d.attrs["validate"], None) then [BadCaptureRegex] else [])
  }

  function Located(d: Directive, issues: seq<Issue>): seq<Problem> {
    seq(|issues|, k requires 0 <= k < |issues| => Problem(d.line, d.kind, issues[k]))
  }

  /** The problems of the first `n` directives. */
  function Problems(w: World, ds: seq<Directive>, chat: string, n: nat): seq<Problem>
    requires n <= |ds|
  {
    if n == 0 then []
    else Problems(w, ds, chat, n - 1) + Located(ds[n - 1], Issues(w, ds[n - 1], Defined(ds, n - 1), chat))
  }

  // ---------------------------------------------------------------------------
  // The linter's loops
  // ---------------------------------------------------------------------------

  method CheckDeps(specs: seq<string>, chat: string) returns (out: seq<Issue>)
    ensures out == DepIssues(specs, chat)
  {
    hide DepIssue;
    out := [];
    for i := 0 to |specs|
      invariant out + DepIssues(specs[i..], chat) == DepIssues(specs, chat)
    {
      assert specs[i..][1..] == specs[i + 1..];
      out := out + DepIssue(specs[i], chat);
    }
  }

  method CheckRefs(body: seq<string>, defined: set<string>) returns (out: seq<Issue>)
    ensures out == RefIssues(LineRefs(body), defined)
  {
    hide *;
    out := [];
    for i := 0 to |body|
      invariant out + RefIssues(LineRefs(body[i..]), defined) == RefIssues(LineRefs(body), defined)
    {
      var refs := Refs(body[i]);
      var found := CheckNames(refs, defined);
      LineRefsUnfold(body, i);
      RefIssuesSplit(refs, LineRefs(body[i + 1..]), defined);
      Regroup(out, found, RefIssues(LineRefs(body[i + 1..]), defined));
      out := out + found;
    }
    NoLineRefs(body[|body|..], defined);
  }

  method CheckNames(refs: seq<string>, defined: set<string>) returns (found: seq<Issue>)
    ensures found == RefIssues(refs, defined)
  {
    found := [];
    for k := 0 to |refs|
      invariant found + RefIssues(refs[k..], defined) == RefIssues(refs, defined)
    {
      assert refs[k..][1..] == refs[k + 1..];
      if refs[k] !in defined { found := found + [UndefinedRef(refs[k])]; }
    }
  }

  lemma LineRefsUnfold(body: seq<string>, i: nat)
    requires i < |body|
    ensures LineRefs(body[i..]) == Refs(body[i]) + LineRefs(body[i + 1..])
  {
    assert body[i..][1..] == body[i + 1..];
  }

  lemma NoLineRefs(body: seq<string>, defined: set<string>)
    requires body == []
    ensures RefIssues(LineRefs(body), defined) == []
  {
  }

  lemma RefIssuesFirst(name: string, rest: seq<string>, defined: set<string>)
    ensures RefIssues([name] + rest, defined) == (if name in defined then [] else [UndefinedRef(name)]) + RefIssues(rest, defined)
  {
    assert ([name] + rest)[1..] == rest;
  }

  lemma {:induction false} RefIssuesSplit(a: seq<string>, b: seq<string>, defined: set<string>)
    ensures RefIssues(a + b, defined) == RefIssues(a, defined) + RefIssues(b, defined)
  {
    hide *;
    if a == [] {
      assert a + b == b;
      NoRefs(defined);
    } else {
      assert a == [a[0]] + a[1..];
      Regroup([a[0]], a[1..], b);
      RefIssuesFirst(a[0], a[1..] + b, defined);
      RefIssuesFirst(a[0], a[1..], defined);
      RefIssuesSplit(a[1..], b, defined);
      Regroup(if a[0] in defined then [] else [UndefinedRef(a[0])], RefIssues(a[1..], defined), RefIssues(b, defined));
    }
  }

  lemma NoRefs(defined: set<string>)
    ensures RefIssues([], defined) == []
  {
  }

  /** The linter: one pass in document order with the set of names defined so far. */
  method Validate(w: World, ds: seq<Directive>, chat: string) returns (problems: seq<Problem>)
    ensures problems == Problems(w, ds, chat, |ds|)
  {
    hide *;
    problems := [];
    var defined: set<string> := {};
    LintStarts(w, ds, chat);
    for i := 0 to |ds|
      invariant problems == Problems(w, ds, chat, i) && defined == Defined(ds, i)
    {
      var d := ds[i];
      var issues := CheckDirective(w, d, defined, chat);
      problems := problems + Located(d, issues);
      defined := defined + Defines(d);
      LintUnfolds(w, ds, chat, i);
    }
  }

  lemma LintStarts(w: World, ds: seq<Directive>, chat: string)
    ensures Problems(w, ds, chat, 0) == [] && Defined(ds, 0) == {}
  {
  }

  lemma LintUnfolds(w: World, ds: seq<Directive>, chat: string, i: nat)
    requires i < |ds|
    ensures Problems(w, ds, chat, i + 1) == Problems(w, ds, chat, i) + Located(ds[i], Issues(w, ds[i], Defined(ds, i), chat))
    ensures Defined(ds, i + 1) == Defined(ds, i) + Defines(ds[i])
  {
  }

  /** The checks that depend on the directive's kind. */
  method CheckKind(w: World, d: Directive, chat: string) returns (out: seq<Issue>)
    ensures out == KindIssues(w, d, chat)
  {
    hide MergeIssues, PromptIssues, DepIssues, Require, Refuse;
    match d.kind
    case "dep" => out := CheckDeps(d.body, chat);
    case "append" => out := Require(OrEmpty(d, "to") != "", "to") + Require(d.body != [], "line");
    case "copy" => out := Require(d.body != [], "path");
    case "json-merge" => out := MergeIssues(w, d);
    case "prompt" => out := PromptIssues(w, d);
    case "operator" =>
      out := Require(d.body != [], "instructions")
             + Refuse(d, "open")
             + (if "gate" in d.args || "gate" in d.attrs then [RemovedAttr("gate")] else []);
    case _ => out := [];
  }

  method CheckGuard(d: Directive, defined: set<string>) returns (out: seq<Issue>)
    ensures out == GuardIssues(d, defined)
  {
    hide GuardOf;
    out := [];
    if "when" in d.attrs {
      match GuardOf(d)
      case None => out := [MalformedGuard];
      case Some(g) => if g.name !in defined { out := [UndefinedGuard(g.name)]; }
    }
  }

  method CheckDirective(w: World, d: Directive, defined: set<string>, chat: string) returns (out: seq<Issue>)
    ensures out == Issues(w, d, defined, chat)
  {
    hide KindIssues, RefIssues, LineRefs, Refuse, GuardIssues, Known;
    var kind := CheckKind(w, d, chat);
    var refs := CheckRefs(d.body, defined);
    var guard := CheckGuard(d, defined);
    out := if d.kind == "env-sync" then [Retired] else if Known(d.kind) then [] else [UnknownDirective];
    out := out + kind + Refuse(d, "label") + Refuse(d, "on-fail") + refs + guard;
    if d.kind == "run" && "validate" in d.attrs && !w.validRegex(d.attrs["validate"], None) {
      out := out + [BadCaptureRegex];
    } else {
      out := out + [];
    }
  }
}
