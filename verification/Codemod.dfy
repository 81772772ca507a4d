/**
 * The codemod that tags every controller with an unclassified route. Files are
 * syntax trees that keep their text; the edit is made on the text, by offsets,
 * and means the tree with one decorator more per tagged controller.
 */
module Codemod {
  import opened Prelude
  import opened Splice

  const TAG := "LegacyUnclassified"
  const TAG_TEXT := "@LegacyUnclassified()\n"
  const TAG_MODULE := "legacy-unclassified.decorator"
  const HTTP_METHODS := ["Get", "Post", "Put", "Patch", "Delete", "All", "Head", "Options", "Search"]
  const HANDLER_MARKERS := ["Public", "RequirePermission", "RequirePermissions", "AuthenticatedOnly", TAG]
  const CLASS_MARKERS := ["Public", "RequirePermission", "AuthenticatedOnly", TAG]

  datatype Decorator = Decorator(name: string, text: string)

  datatype Member = Member(isMethod: bool, decorators: seq<string>, text: string)

  /** `lead` is all the text of a class before its first decorator. */
  datatype Stmt =
    | Import(specifier: string, text: string)
    | Class(name: Option<string>, lead: string, decorators: seq<Decorator>, header: string, members: seq<Member>, footer: string)
    | Other(text: string)

  type File = seq<Stmt>

  // ------------------------------------------------------------------- text

  function ShowDecorators(ds: seq<Decorator>): string {
    if |ds| == 0 then "" else ds[0].text + ShowDecorators(ds[1..])
  }

  function ShowMembers(ms: seq<Member>): string {
    if |ms| == 0 then "" else ms[0].text + ShowMembers(ms[1..])
  }

  function Show(s: Stmt): string {
    match s
    case Import(_, text) => text
    case Other(text) => text
    case Class(_, lead, decorators, header, members, footer) =>
      lead + (ShowDecorators(decorators) + (header + ShowMembers(members) + footer))
  }

  function Print(f: File): string {
    if |f| == 0 then "" else Print(f[..|f| - 1]) + Show(f[|f| - 1])
  }

  // --------------------------------------------------------------- analysis

  datatype Analysis = Analysis(className: string, insertPos: nat, routes: nat, bareRoutes: nat,
                               classClassified: bool, alreadyTagged: bool)

  function Names(ds: seq<Decorator>): seq<string> {
    seq(|ds|, i requires 0 <= i < |ds| => ds[i].name)
  }

  predicate AnyOf(names: seq<string>, markers: seq<string>) {
    exists i :: 0 <= i < |names| && names[i] in markers
  }

  predicate IsController(s: Stmt) {
    s.Class? && s.name.Some? && "Controller" in Names(s.decorators)
  }

  predicate IsRoute(m: Member) {
    m.isMethod && AnyOf(m.decorators, HTTP_METHODS)
  }

  function CountRoutes(ms: seq<Member>): nat {
    if |ms| == 0 then 0 else CountRoutes(ms[..|ms| - 1]) + (if IsRoute(ms[|ms| - 1]) then 1 else 0)
  }

  /** A route the guard would find no marker for. */
  predicate IsBare(s: Stmt, m: Member)
    requires s.Class?
  {
    IsRoute(m) && !AnyOf(m.decorators, HANDLER_MARKERS) && !AnyOf(Names(s.decorators), CLASS_MARKERS)
  }

  function CountBare(s: Stmt, ms: seq<Member>): nat
    requires s.Class?
  {
    if |ms| == 0 then 0 else CountBare(s, ms[..|ms| - 1]) + (if IsBare(s, ms[|ms| - 1]) then 1 else 0)
  }

  function AnalysisOf(s: Stmt, offset: nat): Analysis
    requires IsController(s)
  {
    Analysis(s.name.value, offset + |s.lead|, CountRoutes(s.members), CountBare(s, s.members),
             AnyOf(Names(s.decorators), CLASS_MARKERS), TAG in Names(s.decorators))
  }

  function Analyze(f: File): seq<Analysis> {
    if |f| == 0 then []
    else
      var init, s := f[..|f| - 1], f[|f| - 1];
      Analyze(init) + (if IsController(s) then [AnalysisOf(s, |Print(init)|)] else [])
  }

  method AnalyzeClass(s: Stmt, offset: nat) returns (a: Analysis)
    requires IsController(s)
    ensures a == AnalysisOf(s, offset)
  {
    var classified := AnyOf(Names(s.decorators), CLASS_MARKERS);
    var routes, bare := 0, 0;
    for k := 0 to |s.members|
      invariant routes == CountRoutes(s.members[..k]) && bare == CountBare(s, s.members[..k])
    {
      assert s.members[..k + 1][..k] == s.members[..k];
      if IsRoute(s.members[k]) {
        routes := routes + 1;
        if !AnyOf(s.members[k].decorators, HANDLER_MARKERS) && !classified { bare := bare + 1; }
      }
    }
    assert s.members[..|s.members|] == s.members;
    a := Analysis(s.name.value, offset + |s.lead|, routes, bare, classified, TAG in Names(s.decorators));
  }

  method AnalyzeControllers(f: File) returns (result: seq<Analysis>)
    ensures result == Analyze(f)
  {
    result := [];
    var offset := 0;
    for i := 0 to |f|
      invariant result == Analyze(f[..i]) && offset == |Print(f[..i])|
    {
      assert f[..i + 1][..i] == f[..i];
      if IsController(f[i]) {
        var a := AnalyzeClass(f[i], offset);
        result := result + [a];
      }
      offset := offset + |Show(f[i])|;
    }
    assert f[..|f|] == f;
  }

  predicate NeedsTag(a: Analysis) {
    !a.alreadyTagged && !a.classClassified && a.routes > 0 && a.bareRoutes > 0
  }

  function ToTag(as_: seq<Analysis>): seq<Analysis> {
    if |as_| == 0 then []
    else ToTag(as_[..|as_| - 1]) + (if NeedsTag(as_[|as_| - 1]) then [as_[|as_| - 1]] else [])
  }

  function BareRoutes(as_: seq<Analysis>): nat {
    if |as_| == 0 then 0 else BareRoutes(as_[..|as_| - 1]) + as_[|as_| - 1].bareRoutes
  }

  // ------------------------------------------------------------------- edit

  predicate EndsWith(s: string, suffix: string) {
    |suffix| <= |s| && s[|s| - |suffix|..] == suffix
  }

  predicate IsTagImport(s: Stmt) {
    s.Import? && EndsWith(s.specifier, TAG_MODULE)
  }

  predicate HasTagImport(f: File) {
    exists i :: 0 <= i < |f| && IsTagImport(f[i])
  }

  /** How many statements reach up to and including the last import. */
  function ImportsEnd(f: File): (n: nat)
    ensures n <= |f|
    ensures n > 0 ==> f[n - 1].Import?
    ensures forall i :: n <= i < |f| ==> !f[i].Import?
  {
    if |f| == 0 then 0 else if f[|f| - 1].Import? then |f| else ImportsEnd(f[..|f| - 1])
  }

  function TagImport(rel: string): Stmt {
    Import(rel, "\nimport { LegacyUnclassified } from '" + rel + "';")
  }

  function TagInserts(as_: seq<Analysis>): seq<Insert<char>> {
    seq(|as_|, i requires 0 <= i < |as_| => Insert(as_[i].insertPos, TAG_TEXT))
  }

  function Inserts(f: File, rel: string): seq<Insert<char>> {
    TagInserts(ToTag(Analyze(f))) +
    (if HasTagImport(f) then [] else [Insert(|Print(f[..ImportsEnd(f)])|, TagImport(rel).text)])
  }

  /** A controller with a route that has no marker. */
  predicate Untagged(s: Stmt) {
    IsController(s) && CountBare(s, s.members) > 0
  }

  /** What the splice makes of the text of a file. */
  function EditedFile(f: File, rel: string): string {
    Simultaneous(Print(f), Inserts(f, rel), 0)
  }

  /** Tagging one statement: a decorator in front. */
  function TagStmt(s: Stmt): Stmt {
    if Untagged(s)
    then s.(decorators := [Decorator(TAG, TAG_TEXT)] + s.decorators)
    else s
  }

  function TagStmts(f: File): File {
    seq(|f|, i requires 0 <= i < |f| => TagStmt(f[i]))
  }

  /** The tree that the edited file stands for. */
  function Tagged(f: File, rel: string): File {
    if ToTag(Analyze(f)) == [] then f
    else if HasTagImport(f) then TagStmts(f)
    else TagStmts(f[..ImportsEnd(f)]) + [TagImport(rel)] + TagStmts(f[ImportsEnd(f)..])
  }

  /** A class with decorators has some text there. */
  ghost predicate WellFormed(f: File) {
    forall i :: 0 <= i < |f| && f[i].Class? && |f[i].decorators| > 0 ==> |ShowDecorators(f[i].decorators)| > 0
  }

  // ----------------------------------------------------- completeness on trees

  lemma {:induction false} BareIsRoute(s: Stmt, ms: seq<Member>)
    requires s.Class?
    ensures CountBare(s, ms) <= CountRoutes(ms)
    ensures CountBare(s, ms) > 0 ==> !AnyOf(Names(s.decorators), CLASS_MARKERS)
  {
    if |ms| == 0 {
    } else {
      BareIsRoute(s, ms[..|ms| - 1]);
    }
  }

  lemma {:induction false} ClassifiedHasNoBare(s: Stmt, ms: seq<Member>)
    requires s.Class? && AnyOf(Names(s.decorators), CLASS_MARKERS)
    ensures CountBare(s, ms) == 0
  {
    if |ms| == 0 {
    } else {
      ClassifiedHasNoBare(s, ms[..|ms| - 1]);
    }
  }

  /** The filter of the script asks more than it needs to: a bare route alone decides. */
  lemma {:induction false} NeedsTagIff(s: Stmt, offset: nat)
    requires IsController(s)
    ensures NeedsTag(AnalysisOf(s, offset)) <==> CountBare(s, s.members) > 0
  {
    BareIsRoute(s, s.members);
    if TAG in Names(s.decorators) {
      var i :| 0 <= i < |Names(s.decorators)| && Names(s.decorators)[i] == TAG;
      assert AnyOf(Names(s.decorators), CLASS_MARKERS);
    }
  }

  lemma TagStmtClassifies(s: Stmt)
    ensures IsController(TagStmt(s)) == IsController(s)
    ensures IsController(s) ==> CountBare(TagStmt(s), TagStmt(s).members) == 0
    ensures TagStmt(TagStmt(s)) == TagStmt(s)
  {
    if Untagged(s) {
      var t := TagStmt(s);
      assert Names(t.decorators) == [TAG] + Names(s.decorators);
      assert Names(t.decorators)[0] in CLASS_MARKERS;
      ClassifiedHasNoBare(t, t.members);
    }
  }

  ghost predicate AllClassified(f: File) {
    forall i :: 0 <= i < |f| && IsController(f[i]) ==> CountBare(f[i], f[i].members) == 0
  }

  lemma {:induction false} ClassifiedReports(f: File)
    ensures AllClassified(f) <==> ToTag(Analyze(f)) == []
    ensures AllClassified(f) <==> BareRoutes(Analyze(f)) == 0
  {
    if |f| == 0 {
    } else {
      var init, s := f[..|f| - 1], f[|f| - 1];
      ClassifiedReports(init);
      assert AllClassified(f) <==> AllClassified(init) && (IsController(s) ==> CountBare(s, s.members) == 0) by {
        assert forall i :: 0 <= i < |init| ==> init[i] == f[i];
      }
      if IsController(s) {
        NeedsTagIff(s, |Print(init)|);
        var a := AnalysisOf(s, |Print(init)|);
        assert Analyze(f) == Analyze(init) + [a];
        assert Analyze(f)[..|Analyze(f)| - 1] == Analyze(init);
      } else {
        assert Analyze(f) == Analyze(init);
      }
    }
  }

  /** Where a statement of the tagged file comes from, if it is not the import. */
  lemma TaggedFrom(f: File, rel: string, i: nat) returns (k: nat)
    requires ToTag(Analyze(f)) != [] && i < |Tagged(f, rel)|
    ensures Tagged(f, rel)[i] == TagImport(rel) || (k < |f| && Tagged(f, rel)[i] == TagStmt(f[k]))
  {
    k := if HasTagImport(f) || i < ImportsEnd(f) then i else if i > 0 then i - 1 else 0;
  }

  lemma TaggedClassified(f: File, rel: string)
    ensures AllClassified(Tagged(f, rel))
  {
    ClassifiedReports(f);
    var g := Tagged(f, rel);
    if ToTag(Analyze(f)) != [] {
      forall i | 0 <= i < |g| && IsController(g[i]) ensures CountBare(g[i], g[i].members) == 0 {
        var k := TaggedFrom(f, rel, i);
        TagStmtClassifies(f[k]);
      }
    }
  }

  /** After tagging no controller has a bare route, and a second pass finds nothing to tag. */
  lemma {:induction false} TaggingIsComplete(f: File, rel: string)
    ensures var g := Tagged(f, rel);
            BareRoutes(Analyze(g)) == 0 && ToTag(Analyze(g)) == [] && Tagged(g, rel) == g
  {
    TaggedClassified(f, rel);
    ClassifiedReports(Tagged(f, rel));
  }

  lemma UntaggedReported(f: File)
    requires ToTag(Analyze(f)) == []
    ensures TagStmts(f) == f
  {
    ClassifiedReports(f);
  }

  /** Where statement `i` of the file is after tagging. */
  function NewPlace(f: File, i: nat): nat {
    if ToTag(Analyze(f)) != [] && !HasTagImport(f) && i >= ImportsEnd(f) then i + 1 else i
  }

  lemma ImportPut(f: File, n: nat, imp: Stmt, i: nat)
    requires n <= |f| && i < |f|
    ensures var g := TagStmts(f[..n]) + [imp] + TagStmts(f[n..]);
            |g| == |f| + 1 && g[if i >= n then i + 1 else i] == TagStmt(f[i])
  {
    if i >= n { assert f[n..][i - n] == f[i]; }
  }

  /** Nothing else moves: controllers without a bare route, imports and all other statements are as they were, in order. */
  lemma {:induction false} TaggingTouchesNothingElse(f: File, rel: string, i: nat)
    requires i < |f|
    ensures |Tagged(f, rel)| == NewPlace(f, |f|)
    ensures Tagged(f, rel)[NewPlace(f, i)] == TagStmt(f[i])
    ensures !Untagged(f[i]) ==> Tagged(f, rel)[NewPlace(f, i)] == f[i]
  {
    if ToTag(Analyze(f)) == [] {
      UntaggedReported(f);
      assert TagStmts(f)[i] == TagStmt(f[i]);
    } else if !HasTagImport(f) {
      ImportPut(f, ImportsEnd(f), TagImport(rel), i);
    }
  }

  // --------------------------------------------------- the edit means the tree

  /** A statement with its tag, if it gets one. */
  function PieceOf(s: Stmt): Piece<char> {
    Piece(Show(s), if Untagged(s) then Some(Insert(|s.lead|, TAG_TEXT)) else None)
  }

  function Pieces(f: File): seq<Piece<char>> {
    seq(|f|, i requires 0 <= i < |f| => PieceOf(f[i]))
  }

  lemma EditedPiece(s: Stmt)
    ensures Inside([PieceOf(s)]) && Edited(PieceOf(s)) == Show(TagStmt(s))
  {
    assert [PieceOf(s)][0] == PieceOf(s);
    if Untagged(s) {
      var rest := s.header + ShowMembers(s.members) + s.footer;
      var ds := ShowDecorators(s.decorators);
      TagFirst(s.decorators);
      Regroup(TAG_TEXT, ds, rest);
      InsertMiddle(s.lead, Insert(|s.lead|, TAG_TEXT), ds + rest);
    }
  }

  lemma TagFirst(ds: seq<Decorator>)
    ensures ShowDecorators([Decorator(TAG, TAG_TEXT)] + ds) == TAG_TEXT + ShowDecorators(ds)
  {
    assert ([Decorator(TAG, TAG_TEXT)] + ds)[1..] == ds;
  }

  lemma InitOfPieces(f: File)
    requires |f| > 0
    ensures var n := |f| - 1;
            Pieces(f)[..n] == Pieces(f[..n]) && TagStmts(f)[..n] == TagStmts(f[..n])
  {
  }

  lemma {:induction false} PiecesPrint(f: File)
    ensures Text(Pieces(f)) == Print(f) && EditedText(Pieces(f)) == Print(TagStmts(f)) && Inside(Pieces(f))
  {
    PiecesInside(f);
    if |f| == 0 {
    } else {
      var n := |f| - 1;
      PiecesPrint(f[..n]);
      InitOfPieces(f);
      EditedPiece(f[n]);
    }
  }

  lemma PiecesInside(f: File)
    ensures Inside(Pieces(f))
  {
    forall i | 0 <= i < |f| ensures Inside([PieceOf(f[i])]) && [PieceOf(f[i])][0] == Pieces(f)[i] {
      EditedPiece(f[i]);
    }
  }

  lemma {:induction false} TagsOfAnalysis(f: File)
    ensures TagInserts(ToTag(Analyze(f))) == Edits(Pieces(f), 0)
  {
    if |f| == 0 {
    } else {
      var init, s := f[..|f| - 1], f[|f| - 1];
      TagsOfAnalysis(init);
      MoreToTag(Analyze(init), s, |Print(init)|);
      PiecesPrint(init);
      assert Pieces(f)[..|f| - 1] == Pieces(init);
    }
  }

  lemma MoreToTag(as_: seq<Analysis>, s: Stmt, p: nat)
    ensures var more := if IsController(s) then [AnalysisOf(s, p)] else [];
            TagInserts(ToTag(as_ + more)) == TagInserts(ToTag(as_)) + EditAt(PieceOf(s), p)
  {
    if IsController(s) {
      NeedsTagIff(s, p);
      var a := AnalysisOf(s, p);
      var all := as_ + [a];
      assert all[..|all| - 1] == as_ && all[|all| - 1] == a;
      assert ToTag(all) == ToTag(as_) + (if NeedsTag(a) then [a] else []);
    } else {
      assert as_ + [] == as_;
    }
  }

  lemma TagsInside(f: File)
    requires WellFormed(f)
    ensures StrictlyInside(Pieces(f))
  {
    forall i | 0 <= i < |f| && Untagged(f[i])
      ensures |f[i].lead| < |Show(f[i])|
    {
      LeadInside(f[i]);
    }
  }

  lemma LeadInside(s: Stmt)
    requires Untagged(s) && (|s.decorators| > 0 ==> |ShowDecorators(s.decorators)| > 0)
    ensures |s.lead| < |Show(s)|
  {
    assert |Names(s.decorators)| > 0;
  }

  lemma {:induction false} PrintConcat(f: File, g: File)
    ensures Print(f + g) == Print(f) + Print(g)
  {
    if |g| == 0 {
      assert f + g == f;
    } else {
      var n := |g| - 1;
      PrintConcat(f, g[..n]);
      InitOfConcat(f, g);
      Regroup(Print(f), Print(g[..n]), Show(g[n]));
    }
  }

  /**
   * The splice by offsets is the edit of the tree: what the script writes is the
   * text of the file with one decorator per tagged controller and, when missing,
   * one import after the last; ties of the two positions included.
   */
  lemma {:induction false} SpliceIsTagging(f: File, rel: string)
    requires WellFormed(f) && ToTag(Analyze(f)) != []
    ensures Within(Inserts(f, rel), |Print(f)|) && EditedFile(f, rel) == Print(Tagged(f, rel))
  {
    TagsOfAnalysis(f);
    PiecesPrint(f);
    var all := Inserts(f, rel);
    if HasTagImport(f) {
      TagsInside(f);
      EditsAscend(Pieces(f), 0);
      assert all == Edits(Pieces(f), 0);
      SortAscending(all);
      PiecesSplice(Pieces(f), "");
      assert "" + Print(f) == Print(f) && "" + Print(TagStmts(f)) == Print(TagStmts(f));
      SpliceIsSimultaneous(Print(f), all);
    } else {
      var n := ImportsEnd(f);
      HalvesWellFormed(f, n);
      SpliceWithImport(f[..n], f[n..], rel);
    }
  }

  lemma HalvesWellFormed(f: File, n: nat)
    requires n <= |f| && WellFormed(f)
    ensures WellFormed(f[..n]) && WellFormed(f[n..]) && f[..n] + f[n..] == f
  {
  }

  lemma PiecesConcat(head: File, tail: File)
    ensures Pieces(head + tail) == Pieces(head) + Pieces(tail)
  {
  }

  lemma {:induction false} InsertsSplit(head: File, tail: File)
    ensures TagInserts(ToTag(Analyze(head + tail))) == Edits(Pieces(head), 0) + Edits(Pieces(tail), |Print(head)|)
  {
    TagsOfAnalysis(head + tail);
    PiecesConcat(head, tail);
    EditsConcat(Pieces(head), Pieces(tail), 0);
    PiecesPrint(head);
  }

  lemma SpliceWithImport(head: File, tail: File, rel: string)
    requires WellFormed(head) && WellFormed(tail)
    ensures var imp := Insert(|Print(head)|, TagImport(rel).text);
            var all := TagInserts(ToTag(Analyze(head + tail))) + [imp];
            && Within(all, |Print(head + tail)|)
            && Simultaneous(Print(head + tail), all, 0)
            == Print(TagStmts(head) + [TagImport(rel)] + TagStmts(tail))
  {
    var imp := Insert(|Print(head)|, TagImport(rel).text);
    TagsInside(head);
    TagsInside(tail);
    PiecesPrint(head);
    PiecesPrint(tail);
    InsertsSplit(head, tail);
    PrintConcat(head, tail);
    SpliceAround(Pieces(head), Pieces(tail), imp);
    SpliceIsSimultaneous(Print(head) + Print(tail), Edits(Pieces(head), 0) + Edits(Pieces(tail), imp.pos) + [imp]);
    TaggedText(head, tail, rel);
  }

  lemma PrintOne(s: Stmt)
    requires s.Import? || s.Other?
    ensures Print([s]) == s.text
  {
    assert [s][..0] == [];
  }

  lemma TaggedText(head: File, tail: File, rel: string)
    ensures Print(TagStmts(head) + [TagImport(rel)] + TagStmts(tail))
         == Print(TagStmts(head)) + (TagImport(rel).text + Print(TagStmts(tail)))
  {
    var one := [TagImport(rel)];
    PrintOne(TagImport(rel));
    PrintConcat(TagStmts(head), one);
    PrintConcat(TagStmts(head) + one, TagStmts(tail));
    Regroup(Print(TagStmts(head)), TagImport(rel).text, Print(TagStmts(tail)));
  }

  // -------------------------------------------------------------- the script

  /** What the tree of a file is after the run. */
  function OnDisk(f: File, rel: string, checkOnly: bool): File {
    if checkOnly then f else Tagged(f, rel)
  }

  function SumBare(files: seq<File>): nat {
    if |files| == 0 then 0 else SumBare(files[..|files| - 1]) + BareRoutes(Analyze(files[|files| - 1]))
  }

  function SumTagged(files: seq<File>): nat {
    if |files| == 0 then 0 else SumTagged(files[..|files| - 1]) + |ToTag(Analyze(files[|files| - 1]))|
  }

  lemma {:induction false} NoBareAnywhere(files: seq<File>)
    ensures SumBare(files) == 0 <==> forall i :: 0 <= i < |files| ==> BareRoutes(Analyze(files[i])) == 0
  {
    if |files| == 0 {
    } else {
      var init := files[..|files| - 1];
      NoBareAnywhere(init);
      assert forall i :: 0 <= i < |init| ==> init[i] == files[i];
    }
  }

  /** What the run writes for a file, if anything. */
  function Written(f: File, rel: string, checkOnly: bool): Option<string> {
    if checkOnly || ToTag(Analyze(f)) == [] then None else Some(Print(Tagged(f, rel)))
  }

  /** The same for all files, in order. */
  function WrittenAll(files: seq<File>, rels: seq<string>, checkOnly: bool): seq<Option<string>>
    requires |rels| == |files|
  {
    seq(|files|, i requires 0 <= i < |files| => Written(files[i], rels[i], checkOnly))
  }

  /** One file: its new text, or nothing when no controller needs a tag. */
  method TagFile(f: File, rel: string, checkOnly: bool) returns (bare: nat, tagged: nat, text: Option<string>)
    requires WellFormed(f)
    ensures bare == BareRoutes(Analyze(f)) && tagged == |ToTag(Analyze(f))|
    ensures text == Written(f, rel, checkOnly)
  {
    var controllers := AnalyzeControllers(f);
    var toTag := ToTag(controllers);
    bare, tagged, text := BareRoutes(controllers), |toTag|, None;
    if tagged > 0 && !checkOnly {
      SpliceIsTagging(f, rel);
      var updated := SpliceAll(Print(f), Inserts(f, rel));
      text := Some(updated);
    }
  }

  ghost predicate AllWellFormed(files: seq<File>) {
    forall i :: 0 <= i < |files| ==> WellFormed(files[i])
  }

  lemma SumsOn(files: seq<File>, i: nat)
    requires i < |files|
    ensures SumBare(files[..i + 1]) == SumBare(files[..i]) + BareRoutes(Analyze(files[i]))
    ensures SumTagged(files[..i + 1]) == SumTagged(files[..i]) + |ToTag(Analyze(files[i]))|
  {
    assert files[..i + 1][..i] == files[..i];
  }

  lemma WrittenOn(files: seq<File>, rels: seq<string>, checkOnly: bool, i: nat)
    requires |rels| == |files| && i < |files|
    ensures var all := WrittenAll(files, rels, checkOnly);
            |all| == |files| && all[..i + 1] == all[..i] + [Written(files[i], rels[i], checkOnly)]
  {
    PrefixOn(WrittenAll(files, rels, checkOnly), i);
  }

  method TagFiles(files: seq<File>, rels: seq<string>, checkOnly: bool)
      returns (written: seq<Option<string>>, bareBefore: nat, tagged: nat)
    requires |rels| == |files| && AllWellFormed(files)
    ensures written == WrittenAll(files, rels, checkOnly)
    ensures bareBefore == SumBare(files) && tagged == SumTagged(files)
  {
    ghost var all := WrittenAll(files, rels, checkOnly);
    written, bareBefore, tagged := [], 0, 0;
    for i := 0 to |files|
      invariant written == all[..i]
      invariant bareBefore == SumBare(files[..i]) && tagged == SumTagged(files[..i])
    {
      SumsOn(files, i);
      WrittenOn(files, rels, checkOnly, i);
      var bare, toTag, text := TagFile(files[i], rels[i], checkOnly);
      bareBefore, tagged, written := bareBefore + bare, tagged + toTag, written + [text];
    }
    assert files[..|files|] == files && all[..|files|] == all;
  }

  /** The re-read of the files after the run. */
  method CountBareAfter(files: seq<File>, rels: seq<string>, checkOnly: bool) returns (bareAfter: nat)
    requires |rels| == |files|
    ensures bareAfter == if checkOnly then SumBare(files) else 0
  {
    bareAfter := 0;
    for i := 0 to |files|
      invariant bareAfter == if checkOnly then SumBare(files[..i]) else 0
    {
      assert files[..i + 1][..i] == files[..i];
      TaggingIsComplete(files[i], rels[i]);
      var controllers := AnalyzeControllers(OnDisk(files[i], rels[i], checkOnly));
      bareAfter := bareAfter + BareRoutes(controllers);
    }
    assert files[..|files|] == files;
  }

  /**
   * The whole run. An applying run always passes its own verification; a
   * checking run writes nothing and passes exactly when no route is bare.
   */
  method Run(files: seq<File>, rels: seq<string>, checkOnly: bool)
      returns (written: seq<Option<string>>, bareBefore: nat, tagged: nat, pass: bool)
    requires |rels| == |files| && AllWellFormed(files)
    ensures written == WrittenAll(files, rels, checkOnly)
    ensures bareBefore == SumBare(files) && tagged == SumTagged(files)
    ensures pass <==> !checkOnly || forall i :: 0 <= i < |files| ==> BareRoutes(Analyze(files[i])) == 0
  {
    written, bareBefore, tagged := TagFiles(files, rels, checkOnly);
    var bareAfter := CountBareAfter(files, rels, checkOnly);
    NoBareAnywhere(files);
    pass := bareAfter == 0;
  }
}
