/**
 * What the tagging codemod counts, tags and writes, from the decorators of the
 * classes and methods alone.
 */
module CodemodEffects {
  import opened Prelude
  import opened Codemod

  // ---------------------------------------------------------------- decorators

  ghost predicate HttpDecorator(name: string) {
    name in ["Get", "Post", "Put", "Patch", "Delete", "All", "Head", "Options", "Search"]
  }

  ghost predicate MarksHandler(name: string) {
    name in ["Public", "RequirePermission", "RequirePermissions", "AuthenticatedOnly", "LegacyUnclassified"]
  }

  ghost predicate MarksClass(name: string) {
    name in ["Public", "RequirePermission", "AuthenticatedOnly", "LegacyUnclassified"]
  }

  /** A named class with a Controller decorator. */
  ghost predicate Controller(s: Stmt) {
    s.Class? && s.name.Some? && exists i :: 0 <= i < |s.decorators| && s.decorators[i].name == "Controller"
  }

  ghost predicate ClassMarked(s: Stmt)
    requires s.Class?
  {
    exists i :: 0 <= i < |s.decorators| && MarksClass(s.decorators[i].name)
  }

  ghost predicate Handler(m: Member) {
    m.isMethod && exists i :: 0 <= i < |m.decorators| && HttpDecorator(m.decorators[i])
  }

  ghost predicate HandlerMarked(m: Member) {
    exists i :: 0 <= i < |m.decorators| && MarksHandler(m.decorators[i])
  }

  /** A handler without a marker of its own, in a class without one. */
  ghost predicate BareHandler(s: Stmt, m: Member)
    requires s.Class?
  {
    Handler(m) && !HandlerMarked(m) && !ClassMarked(s)
  }

  /** The class carries a marker, or each of its handlers does. */
  ghost predicate Classified(s: Stmt)
    requires s.Class?
  {
    ClassMarked(s) || forall k :: 0 <= k < |s.members| && Handler(s.members[k]) ==> HandlerMarked(s.members[k])
  }

  lemma ClassMarkedIs(s: Stmt)
    requires s.Class?
    ensures AnyOf(Codemod.Names(s.decorators), CLASS_MARKERS) <==> ClassMarked(s)
  {
    var names := Codemod.Names(s.decorators);
    assert forall i :: 0 <= i < |names| ==> (names[i] in CLASS_MARKERS <==> MarksClass(s.decorators[i].name));
  }

  lemma ControllerIs(s: Stmt)
    ensures IsController(s) <==> Controller(s)
  {
    if s.Class? {
      var names := Codemod.Names(s.decorators);
      if i :| 0 <= i < |s.decorators| && s.decorators[i].name == "Controller" { assert names[i] == "Controller"; }
    }
  }

  lemma HandlerIs(m: Member)
    ensures IsRoute(m) <==> Handler(m)
    ensures AnyOf(m.decorators, HANDLER_MARKERS) <==> HandlerMarked(m)
  {
    assert forall i :: 0 <= i < |m.decorators| ==>
      (m.decorators[i] in HTTP_METHODS <==> HttpDecorator(m.decorators[i])) &&
      (m.decorators[i] in HANDLER_MARKERS <==> MarksHandler(m.decorators[i]));
  }

  lemma BareIs(s: Stmt, m: Member)
    requires s.Class?
    ensures IsBare(s, m) <==> BareHandler(s, m)
  {
    HandlerIs(m);
    ClassMarkedIs(s);
  }

  /** `ks` are, in order, the chosen indices below `n`. */
  ghost predicate Places(ks: seq<nat>, n: nat, chosen: set<nat>) {
    && (forall k, l :: 0 <= k < l < |ks| ==> ks[k] < ks[l])
    && (forall k :: 0 <= k < |ks| ==> ks[k] < n)
    && (forall i: nat :: i < n ==> (i in ks <==> i in chosen))
  }

  lemma PlacesOn(ks: seq<nat>, n: nat, chosen: set<nat>)
    requires Places(ks, n, chosen)
    ensures Places(if n in chosen then ks + [n] else ks, n + 1, chosen)
  {
    if n in chosen {
      var more := ks + [n];
      assert more[|ks|] == n;
      forall i: nat | i < n + 1 ensures i in more <==> i in chosen {
        if i < n { assert i in more <==> i in ks; }
      }
    } else {
      assert n !in ks;
    }
  }

  lemma {:induction false} PlacesCount(ks: seq<nat>, chosen: set<nat>)
    requires forall k, l :: 0 <= k < l < |ks| ==> ks[k] < ks[l]
    requires forall i: nat :: i in ks <==> i in chosen
    ensures |ks| == |chosen|
  {
    if |ks| == 0 {
      assert chosen == {};
    } else {
      var n := |ks| - 1;
      assert ks == ks[..n] + [ks[n]];
      PlacesCount(ks[..n], chosen - {ks[n]});
    }
  }

  ghost function Handlers(s: Stmt): set<nat>
    requires s.Class?
  {
    set k: nat | k < |s.members| && Handler(s.members[k])
  }

  ghost function BareHandlers(s: Stmt): set<nat>
    requires s.Class?
  {
    set k: nat | k < |s.members| && BareHandler(s, s.members[k])
  }

  ghost function Controllers(f: File): set<nat> {
    set i: nat | i < |f| && Controller(f[i])
  }

  ghost function AllDue(f: File): set<nat> {
    set i: nat | i < |f| && Due(f[i])
  }

  /** The routes that are counted are exactly the handlers of the class. */
  lemma {:induction false} RoutesAre(s: Stmt, n: nat) returns (ks: seq<nat>)
    requires s.Class? && n <= |s.members|
    ensures Places(ks, n, Handlers(s)) && CountRoutes(s.members[..n]) == |ks|
  {
    ks := [];
    if n > 0 {
      ks := RoutesAre(s, n - 1);
      assert s.members[..n][..n - 1] == s.members[..n - 1];
      HandlerIs(s.members[n - 1]);
      PlacesOn(ks, n - 1, Handlers(s));
      if Handler(s.members[n - 1]) { ks := ks + [n - 1]; }
    }
  }

  /** The bare routes that are counted are exactly the bare handlers of the class. */
  lemma {:induction false} BareAre(s: Stmt, n: nat) returns (ks: seq<nat>)
    requires s.Class? && n <= |s.members|
    ensures Places(ks, n, BareHandlers(s)) && CountBare(s, s.members[..n]) == |ks|
  {
    ks := [];
    if n > 0 {
      ks := BareAre(s, n - 1);
      assert s.members[..n][..n - 1] == s.members[..n - 1];
      BareIs(s, s.members[n - 1]);
      PlacesOn(ks, n - 1, BareHandlers(s));
      if BareHandler(s, s.members[n - 1]) { ks := ks + [n - 1]; }
    }
  }

  /** No bare route is counted exactly when the class carries one of the four class markers or every handler one of the five. */
  lemma BareIff(s: Stmt)
    requires s.Class?
    ensures CountBare(s, s.members) == 0 <==> Classified(s)
  {
    var bare := BareAre(s, |s.members|);
    assert s.members[..|s.members|] == s.members;
    if CountBare(s, s.members) > 0 {
      assert bare[0] in bare;
      assert BareHandler(s, s.members[bare[0]]);
    }
    forall k: nat | k < |s.members| && BareHandler(s, s.members[k]) ensures CountBare(s, s.members) > 0 {
      assert k in BareHandlers(s) && k in bare;
    }
  }

  // ------------------------------------------------------------------ analysis

  /** The controller is to be tagged. */
  ghost predicate Due(s: Stmt) {
    Controller(s) && !Classified(s)
  }

  lemma UntaggedIs(s: Stmt)
    ensures Untagged(s) <==> Due(s)
  {
    ControllerIs(s);
    if s.Class? { BareIff(s); }
  }

  /** What the analysis says of the controller at place `i`. */
  ghost predicate Reports(a: Analysis, f: File, i: nat)
    requires i < |f| && f[i].Class?
  {
    && f[i].name == Some(a.className)
    && a.insertPos == |Print(f[..i])| + |f[i].lead|
    && (a.classClassified <==> ClassMarked(f[i]))
    && (a.alreadyTagged <==> exists d :: 0 <= d < |f[i].decorators| && f[i].decorators[d].name == "LegacyUnclassified")
    && a.routes == |Handlers(f[i])| && a.bareRoutes == |BareHandlers(f[i])|
  }

  lemma AnalysisReports(f: File, i: nat)
    requires i < |f| && IsController(f[i])
    ensures Reports(AnalysisOf(f[i], |Print(f[..i])|), f, i)
  {
    var s := f[i];
    var routes := RoutesAre(s, |s.members|);
    var bare := BareAre(s, |s.members|);
    assert s.members[..|s.members|] == s.members;
    PlacesCount(routes, Handlers(s));
    PlacesCount(bare, BareHandlers(s));
    ClassMarkedIs(s);
    var names := Codemod.Names(s.decorators);
    if d :| 0 <= d < |s.decorators| && s.decorators[d].name == "LegacyUnclassified" { assert names[d] == "LegacyUnclassified"; }
  }

  /** The analyses are those of the controllers at the places `ks`. */
  ghost predicate AllReport(as_: seq<Analysis>, f: File, ks: seq<nat>) {
    |as_| == |ks| && forall k :: 0 <= k < |ks| ==> ks[k] < |f| && f[ks[k]].Class? && Reports(as_[k], f, ks[k])
  }

  lemma ReportsOn(f: File, n: nat, as_: seq<Analysis>, ks: seq<nat>)
    requires n < |f| && Places(ks, n, Controllers(f)) && AllReport(as_, f, ks)
    ensures Places(if Controller(f[n]) then ks + [n] else ks, n + 1, Controllers(f))
    ensures AllReport(as_ + (if IsController(f[n]) then [AnalysisOf(f[n], |Print(f[..n])|)] else []), f,
                      if Controller(f[n]) then ks + [n] else ks)
  {
    ControllerIs(f[n]);
    PlacesOn(ks, n, Controllers(f));
    if IsController(f[n]) {
      AnalysisReports(f, n);
      ReportMore(as_, AnalysisOf(f[n], |Print(f[..n])|), f, ks, n);
    } else {
      assert as_ + [] == as_;
    }
  }

  /** The analysis lists exactly the controllers, in order. */
  lemma {:induction false} AnalysesAre(f: File, n: nat) returns (ks: seq<nat>)
    requires n <= |f|
    ensures Places(ks, n, Controllers(f)) && AllReport(Analyze(f[..n]), f, ks)
  {
    ks := [];
    if n > 0 {
      ks := AnalysesAre(f, n - 1);
      AnalyzeOn(f, n);
      ReportsOn(f, n - 1, Analyze(f[..n - 1]), ks);
      ks := if Controller(f[n - 1]) then ks + [n - 1] else ks;
    }
  }

  lemma AnalyzeOn(f: File, n: nat)
    requires 0 < n <= |f|
    ensures Analyze(f[..n]) ==
            Analyze(f[..n - 1]) + (if IsController(f[n - 1]) then [AnalysisOf(f[n - 1], |Print(f[..n - 1])|)] else [])
  {
    assert f[..n][..n - 1] == f[..n - 1] && f[..n][n - 1] == f[n - 1];
  }

  lemma ReportMore(as_: seq<Analysis>, a: Analysis, f: File, ks: seq<nat>, i: nat)
    requires AllReport(as_, f, ks) && i < |f| && f[i].Class? && Reports(a, f, i)
    ensures AllReport(as_ + [a], f, ks + [i])
  {
  }

  /** The controllers to tag, in order. */
  lemma {:induction false} ToTagAre(f: File, n: nat) returns (ks: seq<nat>)
    requires n <= |f|
    ensures Places(ks, n, AllDue(f)) && |ToTag(Analyze(f[..n]))| == |ks|
  {
    if n == 0 {
      ks := [];
    } else {
      ks := ToTagAre(f, n - 1);
      assert f[..n][..n - 1] == f[..n - 1];
      UntaggedIs(f[n - 1]);
      PlacesOn(ks, n - 1, AllDue(f));
      AnalyzeOn(f, n);
      TagCount(Analyze(f[..n - 1]), f[n - 1], |Print(f[..n - 1])|);
      if Due(f[n - 1]) { ks := ks + [n - 1]; }
    }
  }

  /** As many controllers are tagged as are due. */
  lemma TaggedCountIs(f: File)
    ensures |ToTag(Analyze(f))| == |AllDue(f)|
  {
    var ks := ToTagAre(f, |f|);
    assert f[..|f|] == f;
    PlacesCount(ks, AllDue(f));
  }

  lemma TagCount(as_: seq<Analysis>, s: Stmt, p: nat)
    ensures var more := if IsController(s) then [AnalysisOf(s, p)] else [];
            |ToTag(as_ + more)| == |ToTag(as_)| + (if Untagged(s) then 1 else 0)
  {
    if IsController(s) {
      NeedsTagIff(s, p);
      InitOfConcat(as_, [AnalysisOf(s, p)]);
    } else {
      assert as_ + [] == as_;
    }
  }

  // ---------------------------------------------------------------------- edit

  /** A due controller gets one decorator, in front; everything else stays. */
  ghost predicate StmtAfter(s: Stmt, t: Stmt) {
    if Due(s)
    then t == Class(s.name, s.lead, [Decorator("LegacyUnclassified", "@LegacyUnclassified()\n")] + s.decorators,
                    s.header, s.members, s.footer)
    else t == s
  }

  /** The first `n` statements end with the last import, or there is none. */
  ghost predicate ImportsEndAt(f: File, n: nat) {
    n <= |f| && (n > 0 ==> f[n - 1].Import?) && forall i :: n <= i < |f| ==> !f[i].Import?
  }

  ghost predicate ImportsTag(f: File) {
    exists i :: 0 <= i < |f| && f[i].Import? && IsSuffix("legacy-unclassified.decorator", f[i].specifier)
  }

  ghost predicate IsSuffix(suffix: string, s: string) {
    exists prefix :: s == prefix + suffix
  }

  lemma SuffixIs(suffix: string, s: string)
    ensures EndsWith(s, suffix) <==> IsSuffix(suffix, s)
  {
    if EndsWith(s, suffix) { assert s == s[..|s| - |suffix|] + suffix; }
    if prefix :| s == prefix + suffix { assert s[|prefix|..] == suffix; }
  }

  lemma HasTagImportIs(f: File)
    ensures HasTagImport(f) <==> ImportsTag(f)
  {
    forall i | 0 <= i < |f| && f[i].Import?
      ensures IsTagImport(f[i]) <==> IsSuffix("legacy-unclassified.decorator", f[i].specifier)
    {
      SuffixIs("legacy-unclassified.decorator", f[i].specifier);
    }
  }

  ghost predicate NoneDue(f: File) {
    forall i :: 0 <= i < |f| ==> !Due(f[i])
  }

  lemma AnyDue(f: File)
    ensures ToTag(Analyze(f)) == [] <==> NoneDue(f)
  {
    ClassifiedReports(f);
    forall i | 0 <= i < |f| ensures Due(f[i]) <==> IsController(f[i]) && CountBare(f[i], f[i].members) > 0 {
      UntaggedIs(f[i]);
    }
  }

  lemma TagStmtIs(s: Stmt)
    ensures StmtAfter(s, TagStmt(s))
  {
    UntaggedIs(s);
  }

  /** The tree after a run, statement by statement, with the import after the last one. */
  lemma TaggedIs(f: File, rel: string, n: nat)
    requires ImportsEndAt(f, n)
    ensures var g := Tagged(f, rel);
            if NoneDue(f) then g == f
            else if ImportsTag(f) then |g| == |f| && forall i :: 0 <= i < |f| ==> StmtAfter(f[i], g[i])
            else && |g| == |f| + 1
                 && g[n] == Import(rel, "\nimport { LegacyUnclassified } from '" + rel + "';")
                 && (forall i :: 0 <= i < n ==> StmtAfter(f[i], g[i]))
                 && (forall i :: n <= i < |f| ==> StmtAfter(f[i], g[i + 1]))
  {
    AnyDue(f);
    HasTagImportIs(f);
    assert ImportsEnd(f) == n;
    forall i | 0 <= i < |f| ensures StmtAfter(f[i], TagStmt(f[i])) && TagStmts(f)[i] == TagStmt(f[i]) {
      TagStmtIs(f[i]);
    }
    if ToTag(Analyze(f)) != [] && !HasTagImport(f) {
      forall i | 0 <= i < |f| ensures StmtAfter(f[i], Tagged(f, rel)[if i >= n then i + 1 else i]) {
        ImportPut(f, n, TagImport(rel), i);
      }
    }
  }

  // ----------------------------------------------------------------------- run

  /** What the run writes, file by file: nothing for a file without a due controller, nor when only checking. */
  lemma WrittenIs(files: seq<File>, rels: seq<string>, checkOnly: bool, i: nat)
    requires |rels| == |files| && i < |files|
    ensures |WrittenAll(files, rels, checkOnly)| == |files|
    ensures WrittenAll(files, rels, checkOnly)[i] ==
            if checkOnly || NoneDue(files[i]) then None
            else Some(Print(Tagged(files[i], rels[i])))
  {
    AnyDue(files[i]);
  }

  /** Bare routes are reported exactly when some controller is due, so a classified one is neither counted nor tagged. */
  lemma BareReportedIff(files: seq<File>)
    ensures SumBare(files) == 0 <==> forall i :: 0 <= i < |files| ==> NoneDue(files[i])
  {
    NoBareAnywhere(files);
    forall i | 0 <= i < |files|
      ensures BareRoutes(Analyze(files[i])) == 0 <==> NoneDue(files[i])
    {
      ClassifiedReports(files[i]);
      AnyDue(files[i]);
    }
  }
}
