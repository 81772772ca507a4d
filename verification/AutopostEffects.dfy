/** One turn of the poster and one run of it, from the files alone. */
module AutopostEffects {
  import opened Prelude
  import opened Autopost

  // -------------------------------------------------------------------- bodies

  ghost predicate Blank(c: char) {
    c == ' ' || c == '\t' || c == '\n' || c == '\r'
  }

  ghost predicate AllBlank(s: string) {
    forall i :: 0 <= i < |s| ==> Blank(s[i])
  }

  /** `body` is `s` without the blanks at its two ends. */
  ghost predicate TrimmedTo(s: string, body: string) {
    && (exists before, after :: AllBlank(before) && AllBlank(after) && s == before + body + after)
    && (body != "" ==> !Blank(body[0]) && !Blank(body[|body| - 1]))
  }

  lemma BlankFront(c: char, s: string)
    requires Blank(c) && AllBlank(s)
    ensures AllBlank([c] + s) && AllBlank(s + [c])
  {
  }

  lemma {:induction false} TrimCuts(s: string) returns (before: string, after: string)
    ensures AllBlank(before) && AllBlank(after) && s == before + Trim(s) + after
    ensures Trim(s) != "" ==> !Blank(Trim(s)[0]) && !Blank(Trim(s)[|Trim(s)| - 1])
  {
    before, after := "", "";
    if |s| > 0 {
      if IsBlank(s[0]) {
        before, after := TrimCuts(s[1..]);
        BlankFront(s[0], before);
        before := [s[0]] + before;
      } else if IsBlank(s[|s| - 1]) {
        before, after := TrimCuts(s[..|s| - 1]);
        BlankFront(s[|s| - 1], after);
        InitAndLast(s);
        Regroup(before + Trim(s), after, [s[|s| - 1]]);
        after := after + [s[|s| - 1]];
      }
    }
  }

  lemma TrimIs(s: string)
    ensures TrimmedTo(s, Trim(s))
    ensures Trim(s) == "" ==> AllBlank(s)
  {
    var before, after := TrimCuts(s);
  }

  // -------------------------------------------------------------------- topics

  /** The topic was not used in the ten days before `now`. */
  ghost predicate Free(recent: seq<Use>, topic: string, now: nat) {
    forall i :: 0 <= i < |recent| && recent[i].topic == topic ==> recent[i].at + 864_000_000 <= now
  }

  lemma FreeIs(recent: seq<Use>, topic: string, now: nat)
    ensures UsedRecently(recent, topic, now) <==> !Free(recent, topic, now)
  {
    if UsedRecently(recent, topic, now) {
      var i :| 0 <= i < |recent| && recent[i].topic == topic && InWindow(recent[i].at, now);
      assert recent[i].at + 864_000_000 > now;
    }
    if !Free(recent, topic, now) {
      var i :| 0 <= i < |recent| && recent[i].topic == topic && recent[i].at + 864_000_000 > now;
      assert InWindow(recent[i].at, now);
    }
  }

  /** `ks` are the places, in order, of the free ones among the first `n` topics. */
  ghost predicate FreeAt(topics: seq<string>, recent: seq<Use>, now: nat, n: nat, pool: seq<string>, ks: seq<nat>)
    requires n <= |topics|
  {
    && |ks| == |pool|
    && (forall k :: 0 <= k < |ks| ==> ks[k] < n && pool[k] == topics[ks[k]])
    && (forall k, l :: 0 <= k < l < |ks| ==> ks[k] < ks[l])
    && (forall i: nat :: i < n ==> (i in ks <==> Free(recent, topics[i], now)))
  }

  lemma FreeOn(topics: seq<string>, recent: seq<Use>, now: nat, n: nat, pool: seq<string>, ks: seq<nat>)
    requires n < |topics| && FreeAt(topics, recent, now, n, pool, ks)
    ensures if Free(recent, topics[n], now) then FreeAt(topics, recent, now, n + 1, pool + [topics[n]], ks + [n])
            else FreeAt(topics, recent, now, n + 1, pool, ks)
  {
    var more := ks + [n];
    assert more[|ks|] == n && n !in ks;
    assert forall i: nat :: i < n ==> (i in more <==> i in ks);
  }

  lemma {:induction false} PoolIs(topics: seq<string>, recent: seq<Use>, now: nat, n: nat) returns (ks: seq<nat>)
    requires n <= |topics|
    ensures FreeAt(topics, recent, now, n, Pool(topics[..n], recent, now), ks)
  {
    ks := [];
    if n > 0 {
      ks := PoolIs(topics, recent, now, n - 1);
      assert topics[..n][..n - 1] == topics[..n - 1];
      FreeIs(recent, topics[n - 1], now);
      FreeOn(topics, recent, now, n - 1, Pool(topics[..n - 1], recent, now), ks);
      if Free(recent, topics[n - 1], now) { ks := ks + [n - 1]; }
    }
  }

  // --------------------------------------------------------------------- turns

  /** The topic in turn: of the free ones if there are any, else of all. */
  ghost predicate InTurn(topics: seq<string>, recent: seq<Use>, now: nat, runCount: nat, topic: string, ks: seq<nat>) {
    && |topics| > 0
    && (forall k, l :: 0 <= k < l < |ks| ==> ks[k] < ks[l])
    && (forall k :: 0 <= k < |ks| ==> ks[k] < |topics|)
    && (forall i: nat :: i < |topics| ==> (i in ks <==> Free(recent, topics[i], now)))
    && topic == if |ks| > 0 then topics[ks[runCount % |ks|]] else topics[runCount % |topics|]
  }

  /** The use in front of what was remembered, forty in all at most. */
  ghost predicate Remembered(before: seq<Use>, after: seq<Use>, use: Use) {
    && |after| == (if |before| + 1 <= 40 then |before| + 1 else 40)
    && after[0] == use
    && forall i :: 0 < i < |after| ==> after[i] == before[i - 1]
  }

  /** What one turn makes of the memory, and what it posts. */
  ghost predicate TurnMakes(m: Memory, topics: seq<string>, pick: nat, record: nat, next: Memory, post: Post) {
    && next.runCount == m.runCount + 1
    && next.inbox == (if |m.inbox| == 0 then [] else m.inbox[1..])
    && match post
       case FromInbox(body) =>
         && |m.inbox| > 0 && m.inbox[0].Some? && body != "" && TrimmedTo(m.inbox[0].value, body) && next.recent == m.recent
       case Rotated(topic, at) =>
         && (|m.inbox| > 0 && m.inbox[0].Some? ==> AllBlank(m.inbox[0].value)) && at == record
         && (exists ks :: InTurn(topics, m.recent, pick, m.runCount, topic, ks))
         && Remembered(m.recent, next.recent, Use(topic, record))
  }

  lemma ChoiceIs(m: Memory, topics: seq<string>, pick: nat) returns (ks: seq<nat>)
    requires |topics| > 0
    ensures var choices := Choices(topics, m.recent, pick);
            InTurn(topics, m.recent, pick, m.runCount, choices[m.runCount % |choices|], ks)
  {
    ks := PoolIs(topics, m.recent, pick, |topics|);
    assert topics[..|topics|] == topics;
  }

  lemma NewestIs(recent: seq<Use>, use: Use)
    ensures Remembered(recent, Newest([use] + recent), use)
  {
  }

  /**
   * One turn: an inbox item that is not blank is posted trimmed; otherwise the
   * topic in turn among those free for ten days, or among all if none is, and the
   * use is remembered. Either way the item is gone and the count moves on.
   */
  lemma TurnIs(m: Memory, topics: seq<string>, pick: nat, record: nat)
    requires |topics| > 0
    ensures var (next, post) := Turn(m, topics, pick, record); TurnMakes(m, topics, pick, record, next, post)
  {
    var (next, post) := Turn(m, topics, pick, record);
    if |m.inbox| > 0 && m.inbox[0].Some? { TrimIs(m.inbox[0].value); }
    if post.Rotated? {
      var ks := ChoiceIs(m, topics, pick);
      NewestIs(m.recent, Use(post.topic, record));
      assert next.recent == Newest([Use(post.topic, record)] + m.recent);
    }
  }

  /** A chain of turns: `ms[k]` is the memory before turn `k`. */
  ghost predicate TurnsMake(h: History, topics: seq<string>, ts: seq<Times>, end: History, ms: seq<Memory>) {
    && |ms| == |ts| + 1 && ms[0] == h.memory && ms[|ts|] == end.memory
    && |end.log| == |h.log| + |ts| && end.log[..|h.log|] == h.log
    && forall k :: 0 <= k < |ts| ==> TurnMakes(ms[k], topics, ts[k].pick, ts[k].record, ms[k + 1], end.log[|h.log| + k])
  }

  lemma TurnsOn(h: History, topics: seq<string>, ts: seq<Times>, mid: History, end: History, ms: seq<Memory>)
    requires |ts| > 0 && TurnsMake(h, topics, ts[..|ts| - 1], mid, ms)
    requires |end.log| == |mid.log| + 1 && end.log[..|mid.log|] == mid.log
    requires TurnMakes(mid.memory, topics, ts[|ts| - 1].pick, ts[|ts| - 1].record, end.memory, end.log[|mid.log|])
    ensures TurnsMake(h, topics, ts, end, ms + [end.memory])
  {
    var n, all := |ts| - 1, ms + [end.memory];
    assert end.log[..|h.log|] == mid.log[..|h.log|];
    forall k | 0 <= k < |ts|
      ensures TurnMakes(all[k], topics, ts[k].pick, ts[k].record, all[k + 1], end.log[|h.log| + k])
    {
      if k < n { assert ts[..n][k] == ts[k] && end.log[|h.log| + k] == mid.log[|h.log| + k]; }
    }
  }

  lemma {:induction false} TurnsAre(h: History, topics: seq<string>, ts: seq<Times>) returns (ms: seq<Memory>)
    requires |topics| > 0
    ensures TurnsMake(h, topics, ts, Turns(h, topics, ts), ms)
  {
    if |ts| == 0 {
      ms := [h.memory];
    } else {
      var n := |ts| - 1;
      ms := TurnsAre(h, topics, ts[..n]);
      TurnIs(ms[n], topics, ts[n].pick, ts[n].record);
      TurnsOn(h, topics, ts, Turns(h, topics, ts[..n]), Turns(h, topics, ts), ms);
      ms := ms + [Turns(h, topics, ts).memory];
    }
  }

  /**
   * One run: a dry one changes nothing; a dying one has posted its turns so far
   * and left both files; any other has posted all its turns and written the
   * state, and the inbox unless it was cut before that.
   */
  lemma RunIs(h: History, topics: seq<string>, r: Session) returns (ms: seq<Memory>)
    requires |topics| > 0
    ensures var end := After(h, topics, r);
            var taken := if r.dryRun then [] else if r.dies <= |r.ts| then r.ts[..r.dies] else r.ts;
            && |ms| > 0 && TurnsMake(h, topics, taken, History(ms[|ms| - 1], end.log), ms)
            && (r.dryRun || r.dies <= |r.ts| ==> end.memory == h.memory)
            && (!r.dryRun && r.dies > |r.ts| ==>
                  end.memory == Memory(ms[|ms| - 1].recent, ms[|ms| - 1].runCount, if r.cut then h.memory.inbox else ms[|ms| - 1].inbox))
  {
    ms := TurnsAre(h, topics, Posting(r));
  }
}
