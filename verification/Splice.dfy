/**
 * Inserting texts at offsets of an original: the one-by-one splice in
 * descending order of position, against the simultaneous insertion it stands for.
 */
module Splice {
  import opened Prelude

  datatype Insert<T> = Insert(pos: nat, text: seq<T>)

  function InsertAt<T>(t: seq<T>, ins: Insert<T>): seq<T>
    requires ins.pos <= |t|
  {
    t[..ins.pos] + ins.text + t[ins.pos..]
  }

  /** Array.prototype.sort by descending position: stable. */
  function Place<T>(sorted: seq<Insert<T>>, ins: Insert<T>): seq<Insert<T>> {
    if |sorted| == 0 then [ins]
    else if sorted[0].pos >= ins.pos then [sorted[0]] + Place(sorted[1..], ins)
    else [ins] + sorted
  }

  function SortDescending<T>(inserts: seq<Insert<T>>): seq<Insert<T>> {
    if |inserts| == 0 then []
    else Place(SortDescending(inserts[..|inserts| - 1]), inserts[|inserts| - 1])
  }

  ghost predicate Within<T>(inserts: seq<Insert<T>>, n: nat) {
    forall i :: 0 <= i < |inserts| ==> inserts[i].pos <= n
  }

  ghost predicate Descending<T>(inserts: seq<Insert<T>>) {
    forall i, j :: 0 <= i < j < |inserts| ==> inserts[i].pos >= inserts[j].pos
  }

  function ApplyAll<T>(t: seq<T>, inserts: seq<Insert<T>>): (r: seq<T>)
    requires Within(inserts, |t|)
    ensures |r| >= |t|
    decreases |inserts|
  {
    if |inserts| == 0 then t else ApplyAll(InsertAt(t, inserts[0]), inserts[1..])
  }

  /** Everything inserted at `p`: of several texts at one position, the one listed last comes first. */
  function Gather<T>(inserts: seq<Insert<T>>, p: nat): seq<T> {
    if |inserts| == 0 then []
    else
      var last := inserts[|inserts| - 1];
      (if last.pos == p then last.text else []) + Gather(inserts[..|inserts| - 1], p)
  }

  /** The single pass over the original from offset `p` on. */
  function Simultaneous<T>(t: seq<T>, inserts: seq<Insert<T>>, p: nat): seq<T>
    requires p <= |t|
    decreases |t| - p
  {
    Gather(inserts, p) + (if p == |t| then [] else [t[p]] + Simultaneous(t, inserts, p + 1))
  }

  // ------------------------------------------------------------- stable sort

  lemma {:induction false} PlaceSorted<T>(sorted: seq<Insert<T>>, ins: Insert<T>, n: nat)
    requires Descending(sorted) && Within(sorted, n) && ins.pos <= n
    ensures var r := Place(sorted, ins); Descending(r) && Within(r, n) && |r| == |sorted| + 1
  {
    if |sorted| > 0 && sorted[0].pos >= ins.pos {
      PlaceSorted(sorted[1..], ins, sorted[0].pos);
    }
  }

  lemma {:induction false} PlaceGather<T>(sorted: seq<Insert<T>>, ins: Insert<T>, p: nat)
    requires Descending(sorted)
    ensures Gather(Place(sorted, ins), p) == (if ins.pos == p then ins.text else []) + Gather(sorted, p)
  {
    if |sorted| > 0 && sorted[0].pos >= ins.pos {
      PlaceGather(sorted[1..], ins, p);
      var head, rest := [sorted[0]], sorted[1..];
      assert sorted == head + rest;
      GatherSplit(head, Place(rest, ins), p);
      GatherSplit(head, rest, p);
      Regroup(if ins.pos == p then ins.text else [], Gather(rest, p), Gather(head, p));
    } else {
      GatherSplit([ins], sorted, p);
      if ins.pos == p { GatherNone(sorted, p); }
    }
  }

  lemma {:induction false} GatherSplit<T>(a: seq<Insert<T>>, b: seq<Insert<T>>, p: nat)
    ensures Gather(a + b, p) == Gather(b, p) + Gather(a, p)
  {
    if |b| == 0 {
      assert a + b == a;
    } else {
      var n := |b| - 1;
      InitOfConcat(a, b);
      GatherSplit(a, b[..n], p);
    }
  }

  lemma {:induction false} GatherNone<T>(inserts: seq<Insert<T>>, p: nat)
    requires forall i :: 0 <= i < |inserts| ==> inserts[i].pos != p
    ensures Gather(inserts, p) == []
  {
    if |inserts| == 0 {
    } else {
      GatherNone(inserts[..|inserts| - 1], p);
    }
  }

  /** The sort keeps, at every position, the texts in their order. */
  lemma {:induction false} SortIsStable<T>(inserts: seq<Insert<T>>, n: nat)
    requires Within(inserts, n)
    ensures var s := SortDescending(inserts);
            && Descending(s) && Within(s, n) && |s| == |inserts|
            && (forall p :: Gather(s, p) == Gather(inserts, p))
  {
    if |inserts| == 0 {
    } else {
      var k := |inserts| - 1;
      var init, last := inserts[..k], inserts[k];
      SortIsStable(init, n);
      PlaceSorted(SortDescending(init), last, n);
      forall p ensures Gather(SortDescending(inserts), p) == Gather(inserts, p) {
        PlaceGather(SortDescending(init), last, p);
      }
    }
  }

  // -------------------------------------------------- one by one == all at once

  /** The single pass copies what lies before the first insert, from wherever it starts. */
  lemma {:induction false} CopyBefore<T>(t: seq<T>, inserts: seq<Insert<T>>, p: nat, q: nat)
    requires p <= q <= |t| && forall i :: 0 <= i < |inserts| ==> inserts[i].pos >= q
    ensures Simultaneous(t, inserts, p) == t[p..q] + Simultaneous(t, inserts, q)
    decreases q - p
  {
    if p < q {
      GatherNone(inserts, p);
      CopyBefore(t, inserts, p + 1, q);
      assert t[p..q] == [t[p]] + t[p + 1..q];
      assert Simultaneous(t, inserts, p) == [t[p]] + Simultaneous(t, inserts, p + 1);
      Regroup([t[p]], t[p + 1..q], Simultaneous(t, inserts, q));
    }
  }

  lemma {:induction false} SameGather<T>(t: seq<T>, a: seq<Insert<T>>, b: seq<Insert<T>>, p: nat)
    requires p <= |t| && forall q :: q >= p ==> Gather(a, q) == Gather(b, q)
    ensures Simultaneous(t, a, p) == Simultaneous(t, b, p)
    decreases |t| - p
  {
    if p < |t| { SameGather(t, a, b, p + 1); }
  }

  lemma {:induction false} NoInserts<T>(t: seq<T>, p: nat)
    requires p <= |t|
    ensures Simultaneous(t, [], p) == t[p..]
    decreases |t| - p
  {
    if p < |t| {
      NoInserts(t, p + 1);
      assert t[p..] == [t[p]] + t[p + 1..];
    }
  }

  lemma {:induction false} ApplyLast<T>(t: seq<T>, inserts: seq<Insert<T>>)
    requires |inserts| > 0 && Within(inserts, |t|)
    ensures Within(inserts[..|inserts| - 1], |t|)
    ensures var r := ApplyAll(t, inserts[..|inserts| - 1]);
            ApplyAll(t, inserts) == InsertAt(r, inserts[|inserts| - 1])
    decreases |inserts|
  {
    var n := |inserts| - 1;
    if n == 0 {
    } else {
      var t' := InsertAt(t, inserts[0]);
      var rest := inserts[1..];
      ApplyLast(t', rest);
      assert inserts[..n][1..] == rest[..n - 1];
      assert inserts[..n][0] == inserts[0];
    }
  }

  lemma InsertBetween<T>(a: seq<T>, b: seq<T>, ins: Insert<T>)
    requires ins.pos == |a|
    ensures InsertAt(a + b, ins) == a + (ins.text + b)
  {
  }

  lemma {:induction false} DescendingApply<T>(t: seq<T>, inserts: seq<Insert<T>>)
    requires Within(inserts, |t|) && Descending(inserts)
    ensures ApplyAll(t, inserts) == Simultaneous(t, inserts, 0)
  {
    if |inserts| == 0 {
      NoInserts(t, 0);
    } else {
      var n := |inserts| - 1;
      var init, last := inserts[..n], inserts[n];
      assert init + [last] == inserts;
      var left, right := t[0..last.pos], Simultaneous(t, init, last.pos);
      calc {
        ApplyAll(t, inserts);
        { ApplyLast(t, inserts); }
        InsertAt(ApplyAll(t, init), last);
        { DescendingApply(t, init); CopyBefore(t, init, 0, last.pos); }
        InsertAt(left + right, last);
        { InsertBetween(left, right, last); }
        left + (last.text + right);
        { LastInFront(t, init, last); }
        left + Simultaneous(t, inserts, last.pos);
        { CopyBefore(t, inserts, 0, last.pos); }
        Simultaneous(t, inserts, 0);
      }
    }
  }

  lemma LastInFront<T>(t: seq<T>, init: seq<Insert<T>>, last: Insert<T>)
    requires last.pos <= |t|
    ensures Simultaneous(t, init + [last], last.pos) == last.text + Simultaneous(t, init, last.pos)
  {
    var all, p := init + [last], last.pos;
    assert all[..|all| - 1] == init;
    if p < |t| {
      OnlyAt(t, all, p + 1);
      Unfold(t, init, p);
      Unfold(t, all, p);
      Regroup(last.text, Gather(init, p), [t[p]] + Simultaneous(t, init, p + 1));
    } else {
      assert Simultaneous(t, all, p) == Gather(all, p);
    }
  }

  lemma Unfold<T>(t: seq<T>, inserts: seq<Insert<T>>, p: nat)
    requires p < |t|
    ensures Simultaneous(t, inserts, p) == Gather(inserts, p) + ([t[p]] + Simultaneous(t, inserts, p + 1))
  {
  }

  lemma AtEnd<T>(t: seq<T>, inserts: seq<Insert<T>>)
    ensures Simultaneous(t, inserts, |t|) == Gather(inserts, |t|)
  {
  }

  lemma NotHere<T>(inserts: seq<Insert<T>>, p: nat)
    requires |inserts| > 0 && inserts[|inserts| - 1].pos != p
    ensures Gather(inserts, p) == Gather(inserts[..|inserts| - 1], p)
  {
  }

  lemma {:induction false} OnlyAt<T>(t: seq<T>, inserts: seq<Insert<T>>, p: nat)
    requires |inserts| > 0 && inserts[|inserts| - 1].pos < p <= |t|
    ensures Simultaneous(t, inserts, p) == Simultaneous(t, inserts[..|inserts| - 1], p)
    decreases |t| - p
  {
    var init := inserts[..|inserts| - 1];
    NotHere(inserts, p);
    if p < |t| {
      OnlyAt(t, inserts, p + 1);
      Unfold(t, inserts, p);
      Unfold(t, init, p);
    } else {
      AtEnd(t, inserts);
      AtEnd(t, init);
    }
  }

  /** Splicing the stably sorted inserts one by one is the simultaneous insertion at the original offsets. */
  lemma {:induction false} SpliceIsSimultaneous<T>(t: seq<T>, inserts: seq<Insert<T>>)
    requires Within(inserts, |t|)
    ensures Within(SortDescending(inserts), |t|)
    ensures ApplyAll(t, SortDescending(inserts)) == Simultaneous(t, inserts, 0)
  {
    SortIsStable(inserts, |t|);
    DescendingApply(t, SortDescending(inserts));
    SameGather(t, SortDescending(inserts), inserts, 0);
  }

  method SpliceAll<T>(original: seq<T>, inserts: seq<Insert<T>>) returns (updated: seq<T>)
    requires Within(inserts, |original|)
    ensures updated == Simultaneous(original, inserts, 0)
  {
    SortIsStable(inserts, |original|);
    var sorted := SortDescending(inserts);
    updated := original;
    assert sorted[0..] == sorted;
    for i := 0 to |sorted|
      invariant |updated| >= |original|
      invariant ApplyAll(updated, sorted[i..]) == ApplyAll(original, sorted)
    {
      assert sorted[i..][1..] == sorted[i + 1..];
      updated := updated[..sorted[i].pos] + sorted[i].text + updated[sorted[i].pos..];
    }
    SpliceIsSimultaneous(original, inserts);
  }

  // -------------------------------------------------------------- taking out

  /** Every element with a mark: was it inserted? */
  function Mark<T>(t: seq<T>, inserted: bool): seq<(T, bool)> {
    seq(|t|, i requires 0 <= i < |t| => (t[i], inserted))
  }

  function MarkAll<T>(inserts: seq<Insert<T>>): seq<Insert<(T, bool)>> {
    seq(|inserts|, i requires 0 <= i < |inserts| => Insert(inserts[i].pos, Mark(inserts[i].text, true)))
  }

  function Unmark<T>(t: seq<(T, bool)>): seq<T> {
    seq(|t|, i requires 0 <= i < |t| => t[i].0)
  }

  function Originals<T>(t: seq<(T, bool)>): seq<T> {
    if |t| == 0 then [] else (if t[0].1 then [] else [t[0].0]) + Originals(t[1..])
  }

  lemma {:induction false} OriginalsConcat<T>(a: seq<(T, bool)>, b: seq<(T, bool)>)
    ensures Originals(a + b) == Originals(a) + Originals(b)
  {
    if |a| == 0 {
      assert a + b == b;
    } else {
      assert (a + b)[1..] == a[1..] + b;
      OriginalsConcat(a[1..], b);
    }
  }

  lemma {:induction false} OriginalsOfMark<T>(t: seq<T>, inserted: bool)
    ensures Originals(Mark(t, inserted)) == if inserted then [] else t
  {
    if |t| == 0 {
    } else {
      assert Mark(t, inserted)[1..] == Mark(t[1..], inserted);
      OriginalsOfMark(t[1..], inserted);
    }
  }

  lemma {:induction false} MarkedApply<T>(t: seq<T>, m: seq<(T, bool)>, inserts: seq<Insert<T>>)
    requires Within(inserts, |t|) && Unmark(m) == t
    ensures Within(MarkAll(inserts), |m|)
    ensures Unmark(ApplyAll(m, MarkAll(inserts))) == ApplyAll(t, inserts)
    ensures Originals(ApplyAll(m, MarkAll(inserts))) == Originals(m)
    decreases |inserts|
  {
    if |inserts| == 0 {
    } else {
      MarkedInsert(t, m, inserts[0]);
      assert MarkAll(inserts)[1..] == MarkAll(inserts[1..]);
      MarkedApply(InsertAt(t, inserts[0]), InsertAt(m, MarkAll(inserts)[0]), inserts[1..]);
    }
  }

  lemma MarkedInsert<T>(t: seq<T>, m: seq<(T, bool)>, ins: Insert<T>)
    requires ins.pos <= |t| && Unmark(m) == t
    ensures var m' := InsertAt(m, Insert(ins.pos, Mark(ins.text, true)));
            Unmark(m') == InsertAt(t, ins) && Originals(m') == Originals(m)
  {
    var text := Mark(ins.text, true);
    OriginalsConcat(m[..ins.pos] + text, m[ins.pos..]);
    OriginalsConcat(m[..ins.pos], text);
    OriginalsConcat(m[..ins.pos], m[ins.pos..]);
    OriginalsOfMark(ins.text, true);
    assert m[..ins.pos] + m[ins.pos..] == m;
  }

  /** Deleting the inserted spans from the spliced text gives back the original, whatever the order of the inserts. */
  lemma {:induction false} TakingOutInserts<T>(t: seq<T>, inserts: seq<Insert<T>>)
    requires Within(inserts, |t|)
    ensures Within(MarkAll(inserts), |t|)
    ensures var r := ApplyAll(Mark(t, false), MarkAll(inserts));
            Unmark(r) == ApplyAll(t, inserts) && Originals(r) == t
  {
    MarkedApply(t, Mark(t, false), inserts);
    OriginalsOfMark(t, false);
  }

  // ------------------------------------------------------- text made of pieces

  /** A stretch of text with at most one insert, positioned relative to its start. */
  datatype Piece<T> = Piece(text: seq<T>, edit: Option<Insert<T>>)

  ghost predicate Inside<T>(ps: seq<Piece<T>>) {
    forall i :: 0 <= i < |ps| && ps[i].edit.Some? ==> ps[i].edit.value.pos <= |ps[i].text|
  }

  function Edited<T>(p: Piece<T>): seq<T> {
    if p.edit.Some? && p.edit.value.pos <= |p.text| then InsertAt(p.text, p.edit.value) else p.text
  }

  function EditAt<T>(p: Piece<T>, x: nat): seq<Insert<T>> {
    if p.edit.Some? then [Insert(x + p.edit.value.pos, p.edit.value.text)] else []
  }

  function Text<T>(ps: seq<Piece<T>>): seq<T> {
    if |ps| == 0 then [] else Text(ps[..|ps| - 1]) + ps[|ps| - 1].text
  }

  function EditedText<T>(ps: seq<Piece<T>>): seq<T> {
    if |ps| == 0 then [] else EditedText(ps[..|ps| - 1]) + Edited(ps[|ps| - 1])
  }

  /** The inserts at absolute offsets, when the text starts at `x`. */
  function Edits<T>(ps: seq<Piece<T>>, x: nat): seq<Insert<T>> {
    if |ps| == 0 then []
    else Edits(ps[..|ps| - 1], x) + EditAt(ps[|ps| - 1], x + |Text(ps[..|ps| - 1])|)
  }

  lemma {:induction false} TextConcat<T>(ps: seq<Piece<T>>, qs: seq<Piece<T>>)
    ensures Text(ps + qs) == Text(ps) + Text(qs)
  {
    if |qs| == 0 {
      assert ps + qs == ps;
    } else {
      var n := |qs| - 1;
      assert (ps + qs)[..|ps + qs| - 1] == ps + qs[..n];
      TextConcat(ps, qs[..n]);
      Regroup(Text(ps), Text(qs[..n]), qs[n].text);
    }
  }

  lemma {:induction false} EditsConcat<T>(ps: seq<Piece<T>>, qs: seq<Piece<T>>, x: nat)
    ensures Edits(ps + qs, x) == Edits(ps, x) + Edits(qs, x + |Text(ps)|)
  {
    if |qs| == 0 {
      assert ps + qs == ps;
    } else {
      var n := |qs| - 1;
      var y := x + |Text(ps)|;
      InitOfConcat(ps, qs);
      EditsConcat(ps, qs[..n], x);
      TextConcat(ps, qs[..n]);
      Regroup(Edits(ps, x), Edits(qs[..n], y), EditAt(qs[n], y + |Text(qs[..n])|));
    }
  }

  function Reversed<T>(s: seq<T>): (r: seq<T>)
    ensures |r| == |s| && forall i :: 0 <= i < |s| ==> r[i] == s[|s| - 1 - i]
  {
    if |s| == 0 then [] else [s[|s| - 1]] + Reversed(s[..|s| - 1])
  }

  ghost predicate Between<T>(es: seq<Insert<T>>, lo: nat, hi: nat) {
    forall i :: 0 <= i < |es| ==> lo <= es[i].pos <= hi
  }

  /** Every insert of the pieces falls within their text. */
  lemma {:induction false} EditsInside<T>(ps: seq<Piece<T>>, x: nat)
    requires Inside(ps)
    ensures Between(Edits(ps, x), x, x + |Text(ps)|)
  {
    if |ps| == 0 {
    } else {
      var n := |ps| - 1;
      assert forall i :: 0 <= i < n ==> ps[..n][i] == ps[i];
      EditsInside(ps[..n], x);
    }
  }

  lemma PiecesWithin<T>(ps: seq<Piece<T>>, x: nat, n: nat)
    requires Inside(ps) && n >= x + |Text(ps)|
    ensures Within(Reversed(Edits(ps, x)), n)
  {
    EditsInside(ps, x);
  }

  /** Text behind all inserts is carried along. */
  lemma {:induction false} TextBehind<T>(t: seq<T>, y: seq<T>, es: seq<Insert<T>>)
    requires Within(es, |t|)
    ensures ApplyAll(t + y, es) == ApplyAll(t, es) + y
    decreases |es|
  {
    if |es| == 0 {
    } else {
      var t' := InsertAt(t, es[0]);
      assert InsertAt(t + y, es[0]) == t' + y by { InsertBefore(t, y, es[0]); }
      TextBehind(t', y, es[1..]);
    }
  }

  lemma InsertBefore<T>(t: seq<T>, y: seq<T>, e: Insert<T>)
    requires e.pos <= |t|
    ensures InsertAt(t + y, e) == InsertAt(t, e) + y
  {
  }

  lemma InsertBehind<T>(x: seq<T>, t: seq<T>, e: Insert<T>)
    requires e.pos <= |t|
    ensures InsertAt(x + t, Insert(|x| + e.pos, e.text)) == x + InsertAt(t, e)
  {
  }

  /** Splicing the inserts of the pieces, the last one first, edits every piece; the text in front stays. */
  lemma {:induction false} PiecesSplice<T>(ps: seq<Piece<T>>, x: seq<T>)
    requires Inside(ps)
    ensures Within(Reversed(Edits(ps, |x|)), |x + Text(ps)|)
    ensures ApplyAll(x + Text(ps), Reversed(Edits(ps, |x|))) == x + EditedText(ps)
  {
    if |ps| == 0 {
      assert x + Text(ps) == x == x + EditedText(ps);
    } else {
      InsideInit(ps);
      PiecesSplice(ps[..|ps| - 1], x);
      PiecesSpliceLast(ps, x);
    }
  }

  lemma {:induction false} PiecesSpliceLast<T>(ps: seq<Piece<T>>, x: seq<T>)
    requires |ps| > 0 && Inside(ps[..|ps| - 1]) && Inside([ps[|ps| - 1]])
    requires var init := ps[..|ps| - 1];
             && Within(Reversed(Edits(init, |x|)), |x + Text(init)|)
             && ApplyAll(x + Text(init), Reversed(Edits(init, |x|))) == x + EditedText(init)
    ensures Within(Reversed(Edits(ps, |x|)), |x + Text(ps)|)
         && ApplyAll(x + Text(ps), Reversed(Edits(ps, |x|))) == x + EditedText(ps)
  {
    var init, p := ps[..|ps| - 1], ps[|ps| - 1];
    var es, t, t' := Edits(init, |x|), Text(init), EditedText(init);
    LastPiece(ps, |x|);
    MorePieces(es, p, x, t, t');
    assert Edits(ps, |x|) == es + EditAt(p, |x| + |t|) && Text(ps) == t + p.text && EditedText(ps) == t' + Edited(p);
  }

  lemma LastPiece<T>(ps: seq<Piece<T>>, x: nat)
    requires |ps| > 0
    ensures var init, p := ps[..|ps| - 1], ps[|ps| - 1];
            && Text(ps) == Text(init) + p.text && EditedText(ps) == EditedText(init) + Edited(p)
            && Edits(ps, x) == Edits(init, x) + EditAt(p, x + |Text(init)|)
  {
  }

  lemma InsideInit<T>(ps: seq<Piece<T>>)
    requires |ps| > 0 && Inside(ps)
    ensures Inside(ps[..|ps| - 1]) && Inside([ps[|ps| - 1]])
  {
    assert forall i :: 0 <= i < |ps| - 1 ==> ps[..|ps| - 1][i] == ps[i];
  }

  lemma MorePieces<T>(es: seq<Insert<T>>, p: Piece<T>, x: seq<T>, t: seq<T>, t': seq<T>)
    requires Inside([p]) && Within(Reversed(es), |x + t|) && ApplyAll(x + t, Reversed(es)) == x + t'
    ensures var r := Reversed(es + EditAt(p, |x| + |t|));
            && Within(r, |x + (t + p.text)|)
            && ApplyAll(x + (t + p.text), r) == x + (t' + Edited(p))
  {
    var more := EditAt(p, |x + t|);
    ReversedConcat(es, more);
    ReversedOne(p, |x + t|);
    assert [p][0] == p;
    Regroup(x, t, p.text);
    Regroup(x, t', Edited(p));
    OnePiece(Reversed(es), p, x + t, x + t');
  }

  lemma ReversedOne<T>(p: Piece<T>, n: nat)
    ensures Reversed(EditAt(p, n)) == EditAt(p, n)
  {
  }

  /** The edit of a last piece goes first, and leaves the inserts before it to what they did. */
  lemma OnePiece<T>(rest: seq<Insert<T>>, p: Piece<T>, t: seq<T>, t': seq<T>)
    requires Inside([p]) && [p][0] == p && Within(rest, |t|) && ApplyAll(t, rest) == t'
    ensures var r := EditAt(p, |t|) + rest;
            Within(r, |t + p.text|) && ApplyAll(t + p.text, r) == t' + Edited(p)
  {
    var r := EditAt(p, |t|) + rest;
    TextBehind(t, Edited(p), rest);
    if p.edit.Some? {
      InsertBehind(t, p.text, p.edit.value);
      assert r[1..] == rest;
    } else {
      assert r == rest;
    }
  }

  /** Strictly ascending inserts sort into their reverse. */
  lemma {:induction false} SortAscending<T>(s: seq<Insert<T>>)
    requires forall i, j :: 0 <= i < j < |s| ==> s[i].pos < s[j].pos
    ensures SortDescending(s) == Reversed(s)
  {
    if |s| == 0 {
    } else {
      var n := |s| - 1;
      SortAscending(s[..n]);
      var r := Reversed(s[..n]);
      assert |r| > 0 ==> r[0].pos < s[n].pos;
    }
  }

  /** An insert goes behind everything at or after its position and before the rest. */
  lemma {:induction false} PlaceBetween<T>(a: seq<Insert<T>>, b: seq<Insert<T>>, ins: Insert<T>)
    requires forall i :: 0 <= i < |a| ==> a[i].pos >= ins.pos
    requires forall i :: 0 <= i < |b| ==> b[i].pos < ins.pos
    ensures Place(a + b, ins) == a + [ins] + b
  {
    if |a| == 0 {
      assert a + b == b;
    } else {
      assert (a + b)[1..] == a[1..] + b;
      PlaceBetween(a[1..], b, ins);
    }
  }

  lemma ReversedConcat<T>(a: seq<T>, b: seq<T>)
    ensures Reversed(a + b) == Reversed(b) + Reversed(a)
  {
    assert forall i :: 0 <= i < |a + b| ==> Reversed(a + b)[i] == (Reversed(b) + Reversed(a))[i];
  }

  ghost predicate Ascending<T>(es: seq<Insert<T>>) {
    forall i, j :: 0 <= i < j < |es| ==> es[i].pos < es[j].pos
  }

  /** Every insert comes before the end of its piece. */
  ghost predicate StrictlyInside<T>(ps: seq<Piece<T>>) {
    forall i :: 0 <= i < |ps| && ps[i].edit.Some? ==> ps[i].edit.value.pos < |ps[i].text|
  }

  ghost predicate Before<T>(es: seq<Insert<T>>, n: nat) {
    forall i :: 0 <= i < |es| ==> es[i].pos < n
  }

  ghost predicate Behind<T>(es: seq<Insert<T>>, n: nat) {
    forall i :: 0 <= i < |es| ==> es[i].pos >= n
  }

  lemma AscendingConcat<T>(a: seq<Insert<T>>, b: seq<Insert<T>>, lo: nat, n: nat, hi: nat)
    requires Ascending(a) && Ascending(b) && lo <= n <= hi
    requires Behind(a, lo) && Before(a, n) && Behind(b, n) && Before(b, hi)
    ensures Ascending(a + b) && Behind(a + b, lo) && Before(a + b, hi)
  {
  }

  lemma {:induction false} EditsAscend<T>(ps: seq<Piece<T>>, x: nat)
    requires StrictlyInside(ps)
    ensures Inside(ps) && Ascending(Edits(ps, x)) && Behind(Edits(ps, x), x) && Before(Edits(ps, x), x + |Text(ps)|)
  {
    if |ps| == 0 {
    } else {
      var init, last := ps[..|ps| - 1], ps[|ps| - 1];
      assert forall i :: 0 <= i < |init| ==> init[i] == ps[i];
      EditsAscend(init, x);
      AscendingMore(Edits(init, x), last, x, x + |Text(init)|);
    }
  }

  lemma AscendingMore<T>(a: seq<Insert<T>>, p: Piece<T>, lo: nat, n: nat)
    requires Ascending(a) && Behind(a, lo) && Before(a, n) && lo <= n
    requires p.edit.Some? ==> p.edit.value.pos < |p.text|
    ensures var r := a + EditAt(p, n); Ascending(r) && Behind(r, lo) && Before(r, n + |p.text|)
  {
    AscendingConcat(a, EditAt(p, n), lo, n, n + |p.text|);
  }

  /** Of two runs of edits and one insert between them, the sort takes the later run, the insert, the earlier run. */
  lemma SortedAround<T>(a: seq<Insert<T>>, b: seq<Insert<T>>, e: Insert<T>)
    requires Ascending(a) && Ascending(b) && Before(a, e.pos) && Behind(b, e.pos)
    ensures SortDescending(a + b + [e]) == Reversed(b) + [e] + Reversed(a)
  {
    var hi := if |b| > 0 then b[|b| - 1].pos + 1 else e.pos;
    AscendingConcat(a, b, 0, e.pos, hi);
    SortAscending(a + b);
    ReversedConcat(a, b);
    assert (a + b + [e])[..|a + b + [e]| - 1] == a + b;
    PlaceBetween(Reversed(b), Reversed(a), e);
  }

  lemma {:induction false} ApplyConcat<T>(t: seq<T>, a: seq<Insert<T>>, b: seq<Insert<T>>)
    requires Within(a + b, |t|) && Within(a, |t|) && Within(b, |t|)
    ensures ApplyAll(t, a + b) == ApplyAll(ApplyAll(t, a), b)
    decreases |a|
  {
    if |a| == 0 {
      assert a + b == b;
    } else {
      assert (a + b)[1..] == a[1..] + b;
      ApplyConcat(InsertAt(t, a[0]), a[1..], b);
    }
  }

  /** Edits of two runs of pieces with one more insert between them, whatever its ties. */
  lemma {:induction false} SpliceAround<T>(ps: seq<Piece<T>>, qs: seq<Piece<T>>, e: Insert<T>)
    requires StrictlyInside(ps) && StrictlyInside(qs) && e.pos == |Text(ps)|
    ensures var all := Edits(ps, 0) + Edits(qs, e.pos) + [e];
            && Within(all, |Text(ps) + Text(qs)|)
            && Within(SortDescending(all), |Text(ps) + Text(qs)|)
            && ApplyAll(Text(ps) + Text(qs), SortDescending(all)) == EditedText(ps) + (e.text + EditedText(qs))
  {
    var a, b, t := Edits(ps, 0), Edits(qs, e.pos), Text(ps) + Text(qs);
    EditsAscend(ps, 0);
    EditsAscend(qs, e.pos);
    AllWithin(a, b, e, |t|);
    SortIsStable(a + b + [e], |t|);
    SortedAround(a, b, e);
    PiecesSplice(qs, Text(ps));
    InsertMiddle(Text(ps), e, EditedText(qs));
    SpliceFront(ps, e.text + EditedText(qs));
    ThreeStages(t, Reversed(b), e, Reversed(a));
  }

  lemma AllWithin<T>(a: seq<Insert<T>>, b: seq<Insert<T>>, e: Insert<T>, n: nat)
    requires Before(a, e.pos) && Before(b, n) && e.pos <= n
    ensures Within(a + b + [e], n) && Within(Reversed(b), n) && Within(Reversed(a), n)
  {
  }

  lemma InsertMiddle<T>(x: seq<T>, e: Insert<T>, y: seq<T>)
    requires e.pos == |x|
    ensures InsertAt(x + y, e) == x + (e.text + y)
  {
  }

  lemma SpliceFront<T>(ps: seq<Piece<T>>, y: seq<T>)
    requires Inside(ps)
    ensures Within(Reversed(Edits(ps, 0)), |Text(ps) + y|)
    ensures ApplyAll(Text(ps) + y, Reversed(Edits(ps, 0))) == EditedText(ps) + y
  {
    PiecesWithin(ps, 0, |Text(ps)|);
    PiecesSplice(ps, []);
    assert [] + Text(ps) == Text(ps) && [] + EditedText(ps) == EditedText(ps);
    TextBehind(Text(ps), y, Reversed(Edits(ps, 0)));
  }

  lemma ThreeStages<T>(t: seq<T>, b: seq<Insert<T>>, e: Insert<T>, a: seq<Insert<T>>)
    requires Within(b, |t|) && e.pos <= |t| && Within(a, |t|)
    ensures Within(b + [e] + a, |t|)
    ensures ApplyAll(t, b + [e] + a) == ApplyAll(InsertAt(ApplyAll(t, b), e), a)
  {
    assert [e][1..] == [];
    var mid := ApplyAll(t, b);
    assert ApplyAll(mid, [e]) == ApplyAll(InsertAt(mid, e), []);
    ApplyConcat(t, b + [e], a);
    ApplyConcat(t, b, [e]);
  }
}
