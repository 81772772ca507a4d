/** Role grants as the guard reads them: flat rows with parallel scopes, and path grants. */
module Permissions {
  import opened Prelude

  datatype Scope = Self | All

  /** `scopes` may be missing, shorter or longer than `actions`, and may hold null entries. */
  datatype Row = Row(mod: string, actions: seq<string>, scopes: Option<seq<Option<Scope>>>)

  datatype PathGrant = PathGrant(path: string, scope: Scope)

  datatype Role = Role(name: string, isSystem: bool, permissions: seq<Row>, paths: seq<PathGrant>)

  /** `actionScopes?.[i]`. */
  function ScopeAt(row: Row, i: nat): Option<Scope> {
    if row.scopes.Some? && i < |row.scopes.value| then row.scopes.value[i] else None
  }

  /** `indexOf`, with the length for "not found". */
  function FirstIndex(s: seq<string>, x: string): (i: nat)
    ensures i <= |s| && (i < |s| ==> s[i] == x)
    ensures forall j :: 0 <= j < i ==> s[j] != x
  {
    if |s| == 0 then 0 else if s[0] == x then 0 else 1 + FirstIndex(s[1..], x)
  }

  predicate RowSatisfies(row: Row, mod: string, action: string, required: Option<Scope>) {
    var k := FirstIndex(row.actions, action);
    && row.mod == mod
    && k < |row.actions|
    && (required == Some(All) ==> ScopeAt(row, k).GetOr(Self) == All)
  }

  /** The guard on flat rows: any row suffices, a missing scope means self. */
  predicate Satisfies(rows: seq<Row>, mod: string, action: string, required: Option<Scope>) {
    exists i :: 0 <= i < |rows| && RowSatisfies(rows[i], mod, action, required)
  }

  /** The guard on paths: the first grant of the path decides. */
  predicate PathSatisfies(grants: seq<PathGrant>, path: string, required: Option<Scope>) {
    |grants| > 0 &&
    if grants[0].path == path then required == Some(All) ==> grants[0].scope == All
    else PathSatisfies(grants[1..], path, required)
  }

  /** Is `cur` at least as wide as `want`? */
  predicate Covers(cur: Option<Scope>, want: Scope) {
    cur.Some? && (cur.value == All || want == Self)
  }

  function Join(a: Option<Scope>, b: Option<Scope>): Option<Scope> {
    if a == Some(All) || b == Some(All) then Some(All)
    else if a.Some? then a else b
  }

  /** The last entry for `path`, which is what a Map built from the grants keeps. */
  function LastScope(grants: seq<PathGrant>, path: string): Option<Scope> {
    if |grants| == 0 then None
    else if grants[|grants| - 1].path == path then Some(grants[|grants| - 1].scope)
    else LastScope(grants[..|grants| - 1], path)
  }

  /** The widest entry for `path`. */
  function WidestScope(grants: seq<PathGrant>, path: string): Option<Scope> {
    if |grants| == 0 then None
    else
      var g := grants[|grants| - 1];
      Join(WidestScope(grants[..|grants| - 1], path), if g.path == path then Some(g.scope) else None)
  }

  ghost predicate UniquePaths(grants: seq<PathGrant>) {
    forall i, j :: 0 <= i < j < |grants| ==> grants[i].path != grants[j].path
  }

  /** Each (module, action) pair is granted at most once in the whole role. */
  ghost predicate UniquePairs(rows: seq<Row>) {
    forall i, p, j, q ::
      (0 <= i < |rows| && 0 <= p < |rows[i].actions| && 0 <= j < |rows| && 0 <= q < |rows[j].actions| &&
       rows[i].mod == rows[j].mod && rows[i].actions[p] == rows[j].actions[q]) ==> i == j && p == q
  }

  /** `Array.isArray(actionScopes) ? actionScopes : []`. */
  function ScopesOf(row: Row): seq<Option<Scope>> {
    row.scopes.GetOr([])
  }

  /** `actions` and `actionScopes` in lockstep, every scope explicit. */
  predicate Explicit(row: Row) {
    |ScopesOf(row)| == |row.actions| && None !in ScopesOf(row)
  }

  ghost predicate AllExplicit(rows: seq<Row>) {
    forall i :: 0 <= i < |rows| ==> Explicit(rows[i])
  }

  lemma {:induction false} PathSatisfiesAt(grants: seq<PathGrant>, path: string, required: Option<Scope>, k: nat)
    requires k < |grants| && grants[k].path == path && forall j :: 0 <= j < k ==> grants[j].path != path
    ensures PathSatisfies(grants, path, required) <==> (required == Some(All) ==> grants[k].scope == All)
  {
    if k == 0 {
    } else {
      PathSatisfiesAt(grants[1..], path, required, k - 1);
    }
  }

  lemma {:induction false} PathUnsatisfied(grants: seq<PathGrant>, path: string, required: Option<Scope>)
    requires forall j :: 0 <= j < |grants| ==> grants[j].path != path
    ensures !PathSatisfies(grants, path, required)
  {
    if |grants| == 0 {
    } else {
      PathUnsatisfied(grants[1..], path, required);
    }
  }

  lemma {:induction false} UniqueLast(grants: seq<PathGrant>, path: string, required: Option<Scope>)
    requires UniquePaths(grants)
    ensures PathSatisfies(grants, path, required) <==>
            LastScope(grants, path).Some? && (required == Some(All) ==> LastScope(grants, path) == Some(All))
    ensures WidestScope(grants, path) == LastScope(grants, path)
  {
    var k := LastOccurrence(grants, path);
    if k < |grants| {
      PathSatisfiesAt(grants, path, required, k);
    } else {
      PathUnsatisfied(grants, path, required);
    }
  }

  lemma {:induction false} LastOccurrence(grants: seq<PathGrant>, path: string) returns (k: nat)
    ensures k <= |grants|
    ensures k < |grants| ==> grants[k].path == path && LastScope(grants, path) == Some(grants[k].scope)
    ensures forall j :: k < j < |grants| ==> grants[j].path != path
    ensures k == |grants| ==> LastScope(grants, path).None? && WidestScope(grants, path).None? &&
                              forall j :: 0 <= j < |grants| ==> grants[j].path != path
    ensures k < |grants| && UniquePaths(grants) ==> WidestScope(grants, path) == LastScope(grants, path)
  {
    if |grants| == 0 {
      return 0;
    }
    var n := |grants| - 1;
    k := LastOccurrence(grants[..n], path);
    if grants[n].path == path {
      k := n;
    } else if k == n {
      k := |grants|;
    }
  }
}
