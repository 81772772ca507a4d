/**
 * The scheduled poster: an inbox drained first, then a rotation of topics that
 * avoids what the last forty rotation posts used within ten days.
 */
module Autopost {
  import opened Prelude

  const COOLDOWN := 10 * 86_400_000
  const KEPT := 40

  datatype Use = Use(topic: string, at: nat)

  /** The two files, as read at the start of a run. */
  datatype Memory = Memory(recent: seq<Use>, runCount: nat, inbox: seq<Option<string>>)

  datatype Post = FromInbox(body: string) | Rotated(topic: string, at: nat)

  predicate IsBlank(c: char) {
    c == ' ' || c == '\t' || c == '\n' || c == '\r'
  }

  function Trim(s: string): string {
    if |s| == 0 then ""
    else if IsBlank(s[0]) then Trim(s[1..])
    else if IsBlank(s[|s| - 1]) then Trim(s[..|s| - 1])
    else s
  }

  /** The body of an inbox item that can be posted. */
  function Postable(item: Option<string>): Option<string> {
    if item.Some? && Trim(item.value) != "" then Some(Trim(item.value)) else None
  }

  predicate InWindow(at: nat, now: nat) {
    at + COOLDOWN > now
  }

  predicate UsedRecently(recent: seq<Use>, topic: string, now: nat) {
    exists i :: 0 <= i < |recent| && recent[i].topic == topic && InWindow(recent[i].at, now)
  }

  function Pool(topics: seq<string>, recent: seq<Use>, now: nat): seq<string> {
    if |topics| == 0 then []
    else Pool(topics[..|topics| - 1], recent, now) +
         (if UsedRecently(recent, topics[|topics| - 1], now) then [] else [topics[|topics| - 1]])
  }

  function Choices(topics: seq<string>, recent: seq<Use>, now: nat): (cs: seq<string>)
    requires |topics| > 0
    ensures |cs| > 0
  {
    var pool := Pool(topics, recent, now);
    if |pool| > 0 then pool else topics
  }

  /** One turn of the loop: chosen at `pick`, recorded at `record`. */
  function Turn(m: Memory, topics: seq<string>, pick: nat, record: nat): (Memory, Post)
    requires |topics| > 0
  {
    var rest := if |m.inbox| > 0 then m.inbox[1..] else [];
    var body := if |m.inbox| > 0 then Postable(m.inbox[0]) else None;
    if body.Some? then
      (Memory(m.recent, m.runCount + 1, rest), FromInbox(body.value))
    else
      var choices := Choices(topics, m.recent, pick);
      var topic := choices[m.runCount % |choices|];
      var more := [Use(topic, record)] + m.recent;
      (Memory(if |more| > KEPT then more[..KEPT] else more, m.runCount + 1, rest), Rotated(topic, record))
  }

  /** Clock readings of one turn. */
  datatype Times = Times(pick: nat, record: nat)

  datatype History = History(memory: Memory, log: seq<Post>)

  function Next(h: History, topics: seq<string>, t: Times): History
    requires |topics| > 0
  {
    var r := Turn(h.memory, topics, t.pick, t.record);
    History(r.0, h.log + [r.1])
  }

  function Turns(h: History, topics: seq<string>, ts: seq<Times>): History
    requires |topics| > 0
  {
    if |ts| == 0 then h
    else Next(Turns(h, topics, ts[..|ts| - 1]), topics, ts[|ts| - 1])
  }

  /**
   * A run of `|ts|` posts. It may die after `dies` of them (never, when that
   * exceeds their number), or after all of them between the two file writes.
   */
  datatype Session = Session(ts: seq<Times>, dryRun: bool, dies: nat, cut: bool)

  predicate Died(r: Session) {
    r.dies <= |r.ts|
  }

  /** The turns that post: none in a dry run, those before its death in a dying one. */
  function Posting(r: Session): seq<Times> {
    if r.dryRun then [] else if Died(r) then r.ts[..r.dies] else r.ts
  }

  /** Files and log after one run. */
  function After(h: History, topics: seq<string>, r: Session): History
    requires |topics| > 0
  {
    var end := Turns(h, topics, Posting(r));
    History(if r.dryRun || Died(r) then h.memory
            else if r.cut then end.memory.(inbox := h.memory.inbox)
            else end.memory,
            end.log)
  }

  function AfterAll(h: History, topics: seq<string>, rs: seq<Session>): History
    requires |topics| > 0
  {
    if |rs| == 0 then h else After(AfterAll(h, topics, rs[..|rs| - 1]), topics, rs[|rs| - 1])
  }

  class Poster {
    const topics: seq<string>
    var files: Memory
    var log: seq<Post>

    constructor (topics: seq<string>, files: Memory)
      ensures this.topics == topics && this.files == files && log == []
    {
      this.topics, this.files, this.log := topics, files, [];
    }

    method NextContent(m: Memory, pick: nat, record: nat) returns (post: Post, rest: seq<Option<string>>)
      requires |topics| > 0
      ensures post == Turn(m, topics, pick, record).1 && rest == Turn(m, topics, pick, record).0.inbox
    {
      rest := if |m.inbox| > 0 then m.inbox[1..] else [];
      if |m.inbox| > 0 && m.inbox[0].Some? && Trim(m.inbox[0].value) != "" {
        return FromInbox(Trim(m.inbox[0].value)), rest;
      }
      var pool: seq<string> := [];
      for i := 0 to |topics|
        invariant pool == Pool(topics[..i], m.recent, pick)
      {
        assert topics[..i + 1][..i] == topics[..i];
        if !UsedRecently(m.recent, topics[i], pick) { pool := pool + [topics[i]]; }
      }
      assert topics[..|topics|] == topics;
      var choices := if |pool| > 0 then pool else topics;
      post := Rotated(choices[m.runCount % |choices|], record);
    }

    /** The bookkeeping after a post: rotation topics are remembered, forty at most. */
    method Record(m: Memory, post: Post, rest: seq<Option<string>>) returns (next: Memory)
      ensures next.inbox == rest && next.runCount == m.runCount + 1
      ensures post.FromInbox? ==> next.recent == m.recent
      ensures post.Rotated? ==> next.recent == Newest([Use(post.topic, post.at)] + m.recent)
    {
      var recent := m.recent;
      if post.Rotated? {
        recent := [Use(post.topic, post.at)] + recent;
        recent := if |recent| > KEPT then recent[..KEPT] else recent;
      }
      next := Memory(recent, m.runCount + 1, rest);
    }

    method TakeTurn(m: Memory, t: Times) returns (next: Memory, post: Post)
      requires |topics| > 0
      ensures (next, post) == Turn(m, topics, t.pick, t.record)
    {
      var rest;
      post, rest := NextContent(m, t.pick, t.record);
      next := Record(m, post, rest);
    }

    method Run(r: Session)
      requires |topics| > 0
      modifies this
      ensures History(files, log) == After(History(old(files), old(log)), topics, r)
    {
      var m := files;
      ghost var h := History(files, log);
      ghost var posted := log;
      for n := 0 to |r.ts|
        invariant files == h.memory && n <= r.dies
        invariant History(m, posted) == Turns(h, topics, r.ts[..n])
        invariant log == if r.dryRun then h.log else posted
      {
        if n == r.dies {
          return;
        }
        TurnsNext(h, topics, r.ts, n);
        var next, post := TakeTurn(m, r.ts[n]);
        if !r.dryRun {
          log := log + [post];
        }
        m, posted := next, posted + [post];
      }
      assert r.ts[..|r.ts|] == r.ts;
      if !r.dryRun && r.dies > |r.ts| {
        files := m.(inbox := files.inbox);
        if !r.cut {
          files := m;
        }
      }
    }
  }

  lemma TurnsNext(h: History, topics: seq<string>, ts: seq<Times>, n: nat)
    requires |topics| > 0 && n < |ts|
    ensures Turns(h, topics, ts[..n + 1]) == Next(Turns(h, topics, ts[..n]), topics, ts[n])
  {
    assert ts[..n + 1][..n] == ts[..n];
  }

  // ---------------------------------------------------------------- the inbox

  /** The body an inbox item is posted with, if any. */
  function BodyOf(item: Option<string>): seq<string> {
    var b := Postable(item);
    if b.Some? then [b.value] else []
  }

  function PostableBodies(items: seq<Option<string>>): seq<string> {
    if |items| == 0 then [] else PostableBodies(items[..|items| - 1]) + BodyOf(items[|items| - 1])
  }

  function InboxBody(p: Post): seq<string> {
    if p.FromInbox? then [p.body] else []
  }

  function InboxPosts(log: seq<Post>): seq<string> {
    if |log| == 0 then [] else InboxPosts(log[..|log| - 1]) + InboxBody(log[|log| - 1])
  }

  lemma InboxPostsMore(log: seq<Post>, p: Post)
    ensures InboxPosts(log + [p]) == InboxPosts(log) + InboxBody(p)
  {
    assert (log + [p])[..|log|] == log;
  }

  lemma TurnDrains(m: Memory, topics: seq<string>, t: Times)
    requires |topics| > 0
    ensures var r := Turn(m, topics, t.pick, t.record);
            && r.0.runCount == m.runCount + 1
            && (if |m.inbox| > 0 then r.0.inbox == m.inbox[1..] && InboxBody(r.1) == BodyOf(m.inbox[0])
                else r.0.inbox == [] && InboxBody(r.1) == [])
  {
  }

  function Taken(m: Memory, n: nat): (taken: nat)
    ensures taken <= |m.inbox|
  {
    if n <= |m.inbox| then n else |m.inbox|
  }

  /** With `n` turns over, one more takes the next item, if there is one. */
  lemma TakeNext(inbox: seq<Option<string>>, n: nat, left: seq<Option<string>>, posted: seq<string>, got: seq<string>)
    requires n < |inbox| && left == inbox[n..] && got == posted + PostableBodies(inbox[..n])
    ensures |left| > 0 && left[1..] == inbox[n + 1..]
    ensures got + BodyOf(left[0]) == posted + PostableBodies(inbox[..n + 1])
  {
    assert inbox[..n + 1][..n] == inbox[..n];
    Regroup(posted, PostableBodies(inbox[..n]), BodyOf(left[0]));
  }

  /** `end` is `n` turns after `h`. */
  ghost predicate Drained(h: History, n: nat, end: History) {
    var taken := Taken(h.memory, n);
    && end.memory.inbox == h.memory.inbox[taken..] && end.memory.runCount == h.memory.runCount + n
    && |end.log| == |h.log| + n
    && InboxPosts(end.log) == InboxPosts(h.log) + PostableBodies(h.memory.inbox[..taken])
  }

  lemma DrainNext(h: History, n: nat, mid: History, topics: seq<string>, t: Times)
    requires |topics| > 0 && Drained(h, n, mid)
    ensures Drained(h, n + 1, Next(mid, topics, t))
  {
    TurnDrains(mid.memory, topics, t);
    InboxPostsMore(mid.log, Turn(mid.memory, topics, t.pick, t.record).1);
    if n < |h.memory.inbox| {
      TakeNext(h.memory.inbox, n, mid.memory.inbox, InboxPosts(h.log), InboxPosts(mid.log));
    }
  }

  /** Every turn takes one item off the inbox and posts once; the postable ones appear once each, in order. */
  lemma {:induction false} InboxDrained(h: History, topics: seq<string>, ts: seq<Times>)
    requires |topics| > 0
    ensures Drained(h, |ts|, Turns(h, topics, ts))
  {
    if |ts| == 0 {
      assert InboxPosts(h.log) + PostableBodies(h.memory.inbox[..0]) == InboxPosts(h.log);
    } else {
      var n := |ts| - 1;
      InboxDrained(h, topics, ts[..n]);
      DrainNext(h, n, Turns(h, topics, ts[..n]), topics, ts[n]);
    }
  }

  /** The inbox bodies a run posts from these files. */
  function Posts(m: Memory, r: Session): seq<string> {
    PostableBodies(m.inbox[..Taken(m, |Posting(r)|)])
  }

  /** Does the run take the items it posts off the inbox file? */
  predicate Drains(r: Session) {
    !r.dryRun && !Died(r) && !r.cut
  }

  /** Every run of the history that posted from the inbox also drained it. */
  ghost predicate AllDrain(h: History, topics: seq<string>, rs: seq<Session>)
    requires |topics| > 0
  {
    forall k :: 0 <= k < |rs| ==> Drains(rs[k]) || Posts(AfterAll(h, topics, rs[..k]).memory, rs[k]) == []
  }

  lemma {:induction false} BodiesConcat(a: seq<Option<string>>, b: seq<Option<string>>)
    ensures PostableBodies(a + b) == PostableBodies(a) + PostableBodies(b)
  {
    if |b| == 0 {
      assert a + b == a;
    } else {
      var n := |b| - 1;
      InitOfConcat(a, b);
      BodiesConcat(a, b[..n]);
      Regroup(PostableBodies(a), PostableBodies(b[..n]), BodyOf(b[n]));
    }
  }

  lemma AfterInbox(h: History, topics: seq<string>, r: Session)
    requires |topics| > 0
    ensures var end := After(h, topics, r);
            && InboxPosts(end.log) == InboxPosts(h.log) + Posts(h.memory, r)
            && end.memory.inbox == if Drains(r) then h.memory.inbox[Taken(h.memory, |r.ts|)..] else h.memory.inbox
  {
    InboxDrained(h, topics, Posting(r));
  }

  /** What is known of the inbox after a history: `taken` items are off the file, and `clean` decides the posts. */
  ghost predicate Accounts(inbox: seq<Option<string>>, taken: nat, left: seq<Option<string>>, posted: seq<string>, clean: bool) {
    && taken <= |inbox| && left == inbox[taken..]
    && (if clean then posted == PostableBodies(inbox[..taken]) else |posted| > |PostableBodies(inbox[..taken])|)
  }

  /** A run that drains what it posts: the bodies taken so far and posted so far grow alike. */
  lemma AccountsDrained(inbox: seq<Option<string>>, taken: nat, left: seq<Option<string>>, posted: seq<string>, clean: bool, more: nat)
    requires Accounts(inbox, taken, left, posted, clean) && more <= |left|
    ensures Accounts(inbox, taken + more, left[more..], posted + PostableBodies(left[..more]), clean)
  {
    assert inbox[..taken + more] == inbox[..taken] + left[..more];
    BodiesConcat(inbox[..taken], left[..more]);
  }

  /** Any other run: what it posts from the inbox is posted too often. */
  lemma AccountsKept(inbox: seq<Option<string>>, taken: nat, left: seq<Option<string>>, posted: seq<string>, clean: bool, new': seq<string>)
    requires Accounts(inbox, taken, left, posted, clean)
    ensures Accounts(inbox, taken, left, posted + new', clean && new' == [])
  {
    if new' == [] { assert posted + new' == posted; }
  }

  lemma InboxOneMore(inbox: seq<Option<string>>, taken: nat, mid: History, end: History, clean: bool, drains: bool, n: nat, new': seq<string>)
      returns (taken': nat)
    requires Accounts(inbox, taken, mid.memory.inbox, InboxPosts(mid.log), clean) && n <= |mid.memory.inbox|
    requires InboxPosts(end.log) == InboxPosts(mid.log) + new'
    requires end.memory.inbox == (if drains then mid.memory.inbox[n..] else mid.memory.inbox)
    requires drains ==> new' == PostableBodies(mid.memory.inbox[..n])
    ensures Accounts(inbox, taken', end.memory.inbox, InboxPosts(end.log), clean && (drains || new' == []))
  {
    if drains {
      AccountsDrained(inbox, taken, mid.memory.inbox, InboxPosts(mid.log), clean, n);
      taken' := taken + n;
    } else {
      AccountsKept(inbox, taken, mid.memory.inbox, InboxPosts(mid.log), clean, new');
      taken' := taken;
    }
  }

  lemma {:induction false} InboxHistory(m: Memory, topics: seq<string>, rs: seq<Session>) returns (taken: nat)
    requires |topics| > 0
    ensures var end := AfterAll(History(m, []), topics, rs);
            Accounts(m.inbox, taken, end.memory.inbox, InboxPosts(end.log), AllDrain(History(m, []), topics, rs))
  {
    var h := History(m, []);
    if |rs| == 0 {
      assert m.inbox[0..] == m.inbox;
      return 0;
    }
    var init, r := rs[..|rs| - 1], rs[|rs| - 1];
    taken := InboxHistory(m, topics, init);
    AllDrainMore(h, topics, rs);
    var mid, end := AfterAll(h, topics, init), AfterAll(h, topics, rs);
    AfterInbox(mid, topics, r);
    taken := InboxOneMore(m.inbox, taken, mid, end, AllDrain(h, topics, init), Drains(r), Taken(mid.memory, |r.ts|), Posts(mid.memory, r));
  }

  lemma AllDrainMore(h: History, topics: seq<string>, rs: seq<Session>)
    requires |topics| > 0 && |rs| > 0
    ensures var n := |rs| - 1;
            AllDrain(h, topics, rs) <==>
              AllDrain(h, topics, rs[..n]) && (Drains(rs[n]) || Posts(AfterAll(h, topics, rs[..n]).memory, rs[n]) == [])
  {
    var n := |rs| - 1;
    assert forall k :: 0 <= k < n ==> rs[..n][..k] == rs[..k] && rs[..n][k] == rs[k];
  }

  /**
   * Over all histories of runs, dying ones included: the inbox file is always
   * what is left behind the items taken, and the inbox posts are the postable
   * ones among those, each once and in order, exactly when no run posted from
   * the inbox without draining it (it died, or was cut between the file writes).
   */
  lemma InboxOnceIff(m: Memory, topics: seq<string>, rs: seq<Session>)
    requires |topics| > 0
    ensures var end := AfterAll(History(m, []), topics, rs);
            var taken := |m.inbox| - |end.memory.inbox|;
            && 0 <= taken && end.memory.inbox == m.inbox[taken..]
            && (InboxPosts(end.log) == PostableBodies(m.inbox[..taken]) <==> AllDrain(History(m, []), topics, rs))
  {
    var taken := InboxHistory(m, topics, rs);
  }

  // ------------------------------------------------------------- the rotation

  /** The rotation posts of a log, newest first. */
  function Uses(log: seq<Post>): seq<Use> {
    if |log| == 0 then []
    else
      var p := log[|log| - 1];
      (if p.Rotated? then [Use(p.topic, p.at)] else []) + Uses(log[..|log| - 1])
  }

  function Newest(uses: seq<Use>): seq<Use> {
    if |uses| > KEPT then uses[..KEPT] else uses
  }

  /** The clock of a history: readings never go back. */
  ghost predicate Monotone(ts: seq<Times>) {
    && (forall i :: 0 <= i < |ts| ==> ts[i].pick <= ts[i].record)
    && (forall i, j :: 0 <= i < j < |ts| ==> ts[i].record <= ts[j].pick)
  }

  ghost predicate Descends(uses: seq<Use>) {
    forall i, j :: 0 <= i < j < |uses| ==> uses[i].at >= uses[j].at
  }

  ghost predicate UpTo(uses: seq<Use>, t: nat) {
    forall i :: 0 <= i < |uses| ==> uses[i].at <= t
  }

  lemma MoreUses(log: seq<Post>, p: Post)
    ensures Uses(log + [p]) == (if p.Rotated? then [Use(p.topic, p.at)] else []) + Uses(log)
  {
    assert (log + [p])[..|log|] == log;
  }

  lemma TurnRemembers(m: Memory, topics: seq<string>, uses: seq<Use>, pick: nat, record: nat)
    requires |topics| > 0 && m.recent == Newest(uses) && Descends(uses) && UpTo(uses, pick) && pick <= record
    ensures var r := Turn(m, topics, pick, record);
            var more := (if r.1.Rotated? then [Use(r.1.topic, r.1.at)] else []) + uses;
            r.0.recent == Newest(more) && Descends(more) && UpTo(more, record)
  {
    var r := Turn(m, topics, pick, record);
    if r.1.Rotated? {
      var u := Use(r.1.topic, r.1.at);
      assert Newest([u] + Newest(uses)) == Newest([u] + uses);
    } else {
      assert [] + uses == uses;
    }
  }

  lemma UsesConcat(a: seq<Post>, b: seq<Post>)
    ensures Uses(a + b) == Uses(b) + Uses(a)
    decreases |b|
  {
    if |b| == 0 {
      assert a + b == a;
    } else {
      var n := |b| - 1;
      assert a + b == (a + b[..n]) + [b[n]] && b == b[..n] + [b[n]];
      UsesConcat(a, b[..n]);
      MoreUses(a + b[..n], b[n]);
      MoreUses(b[..n], b[n]);
      Regroup(if b[n].Rotated? then [Use(b[n].topic, b[n].at)] else [], Uses(b[..n]), Uses(a));
    }
  }

  /** The posts of a session, and the memory after it, do not depend on the log before it. */
  lemma {:induction false} LogCarried(h: History, topics: seq<string>, ts: seq<Times>)
    requires |topics| > 0
    ensures var new' := Turns(History(h.memory, []), topics, ts);
            Turns(h, topics, ts) == History(new'.memory, h.log + new'.log)
  {
    if |ts| == 0 {
      assert h.log + [] == h.log;
    } else {
      LogCarried(h, topics, ts[..|ts| - 1]);
      var before := Turns(History(h.memory, []), topics, ts[..|ts| - 1]);
      Regroup(h.log, before.log, [Turn(before.memory, topics, ts[|ts| - 1].pick, ts[|ts| - 1].record).1]);
    }
  }

  /** `uses` is remembered: the memory holds its newest forty, times descend and are not after `t`. */
  ghost predicate Knows(m: Memory, uses: seq<Use>, t: nat) {
    m.recent == Newest(uses) && Descends(uses) && UpTo(uses, t)
  }

  function LastTime(ts: seq<Times>, t: nat): nat {
    if |ts| == 0 then t else ts[|ts| - 1].record
  }

  ghost predicate From(ts: seq<Times>, t: nat) {
    Monotone(ts) && (|ts| > 0 ==> t <= ts[0].pick)
  }

  lemma {:induction false} TurnsRemember(m: Memory, topics: seq<string>, ts: seq<Times>, uses: seq<Use>, t: nat)
    requires |topics| > 0 && Knows(m, uses, t) && From(ts, t)
    ensures var end := Turns(History(m, []), topics, ts);
            Knows(end.memory, Uses(end.log) + uses, LastTime(ts, t))
  {
    if |ts| == 0 {
      assert Uses([]) + uses == uses;
    } else {
      var n := |ts| - 1;
      assert forall i :: 0 <= i < n ==> ts[..n][i] == ts[i];
      TurnsRemember(m, topics, ts[..n], uses, t);
      var mid := Turns(History(m, []), topics, ts[..n]);
      assert LastTime(ts[..n], t) <= ts[n].pick;
      TurnRemembers(mid.memory, topics, Uses(mid.log) + uses, ts[n].pick, ts[n].record);
      var post := Turn(mid.memory, topics, ts[n].pick, ts[n].record).1;
      MoreUses(mid.log, post);
      Regroup(if post.Rotated? then [Use(post.topic, post.at)] else [], Uses(mid.log), uses);
    }
  }

  /** What a run posts. */
  function Posted(m: Memory, topics: seq<string>, r: Session): seq<Post>
    requires |topics| > 0
  {
    Turns(History(m, []), topics, Posting(r)).log
  }

  /** The posts of the runs that wrote the state file. */
  function KeptLog(h: History, topics: seq<string>, rs: seq<Session>): seq<Post>
    requires |topics| > 0
  {
    if |rs| == 0 then []
    else
      var init, r := rs[..|rs| - 1], rs[|rs| - 1];
      KeptLog(h, topics, init) + (if r.dryRun || Died(r) then [] else Posted(AfterAll(h, topics, init).memory, topics, r))
  }

  function EndTime(rs: seq<Session>): nat {
    if |rs| == 0 then 0 else LastTime(rs[|rs| - 1].ts, EndTime(rs[..|rs| - 1]))
  }

  /** The clock never goes back, over all runs. */
  ghost predicate ClockOk(rs: seq<Session>) {
    |rs| > 0 ==> ClockOk(rs[..|rs| - 1]) && From(rs[|rs| - 1].ts, EndTime(rs[..|rs| - 1]))
  }

  /** Over all histories the state file holds exactly the newest forty rotation posts of the runs that wrote it. */
  lemma {:induction false} Remembers(m: Memory, topics: seq<string>, rs: seq<Session>)
    requires |topics| > 0 && m.recent == [] && ClockOk(rs)
    ensures Knows(AfterAll(History(m, []), topics, rs).memory, Uses(KeptLog(History(m, []), topics, rs)), EndTime(rs))
  {
    var h := History(m, []);
    if |rs| == 0 {
      assert Uses([]) == [];
    } else {
      var init, r := rs[..|rs| - 1], rs[|rs| - 1];
      Remembers(m, topics, init);
      var mid, kept := AfterAll(h, topics, init), KeptLog(h, topics, init);
      LogCarried(mid, topics, Posting(r));
      if r.dryRun || Died(r) {
        assert kept + [] == kept;
        LaterUpTo(Uses(kept), r.ts, EndTime(init));
      } else {
        TurnsRemember(mid.memory, topics, r.ts, Uses(kept), EndTime(init));
        UsesConcat(kept, Posted(mid.memory, topics, r));
      }
    }
  }

  lemma LaterUpTo(uses: seq<Use>, ts: seq<Times>, t: nat)
    requires UpTo(uses, t) && From(ts, t)
    ensures UpTo(uses, LastTime(ts, t))
  {
  }

  lemma {:induction false} KeptIsPosted(h: History, topics: seq<string>, rs: seq<Session>, u: Use)
    requires |topics| > 0 && u in Uses(KeptLog(h, topics, rs))
    ensures u in Uses(AfterAll(h, topics, rs).log)
  {
    if |rs| == 0 {
    } else {
      var init, r := rs[..|rs| - 1], rs[|rs| - 1];
      var mid := AfterAll(h, topics, init);
      LogCarried(mid, topics, Posting(r));
      UsesConcat(mid.log, Posted(mid.memory, topics, r));
      UsesConcat(KeptLog(h, topics, init), if r.dryRun || Died(r) then [] else Posted(mid.memory, topics, r));
      if u in Uses(KeptLog(h, topics, init)) {
        KeptIsPosted(h, topics, init, u);
      }
    }
  }

  function CountInWindow(uses: seq<Use>, now: nat): nat {
    if |uses| == 0 then 0 else (if InWindow(uses[0].at, now) then 1 else 0) + CountInWindow(uses[1..], now)
  }

  /** Descending times: what is in the window comes first. */
  lemma {:induction false} WindowIsPrefix(uses: seq<Use>, now: nat, i: nat)
    requires i < |uses| && InWindow(uses[i].at, now) && Descends(uses)
    ensures CountInWindow(uses, now) > i
    decreases i
  {
    if i == 0 {
    } else {
      WindowIsPrefix(uses[1..], now, i - 1);
    }
  }

  lemma {:induction false} PoolHas(topics: seq<string>, recent: seq<Use>, now: nat, topic: string)
    ensures topic in Pool(topics, recent, now) <==> topic in topics && !UsedRecently(recent, topic, now)
  {
    if |topics| == 0 {
    } else {
      InitAndLast(topics);
      PoolHas(topics[..|topics| - 1], recent, now, topic);
    }
  }

  lemma PoolIsEmptyIff(topics: seq<string>, recent: seq<Use>, now: nat)
    ensures |Pool(topics, recent, now)| == 0 <==> AllUsed(topics, recent, now)
  {
    var pool := Pool(topics, recent, now);
    if |pool| > 0 {
      PoolHas(topics, recent, now, pool[0]);
      var i :| 0 <= i < |topics| && topics[i] == pool[0];
    }
    forall i | 0 <= i < |topics| && |pool| == 0 ensures UsedRecently(recent, topics[i], now) {
      PoolHas(topics, recent, now, topics[i]);
    }
  }

  /** With at most forty of the remembered posts in the window, the memory answers for all of them. */
  lemma MemoryAnswers(uses: seq<Use>, topic: string, now: nat)
    requires Descends(uses) && CountInWindow(uses, now) <= KEPT
    ensures UsedRecently(Newest(uses), topic, now) <==> UsedRecently(uses, topic, now)
  {
    var recent := Newest(uses);
    if UsedRecently(uses, topic, now) {
      var i :| 0 <= i < |uses| && uses[i].topic == topic && InWindow(uses[i].at, now);
      WindowIsPrefix(uses, now, i);
      assert recent[i] == uses[i];
    }
    if UsedRecently(recent, topic, now) {
      var i :| 0 <= i < |recent| && recent[i].topic == topic && InWindow(recent[i].at, now);
      assert uses[i] == recent[i];
    }
  }

  /** What a pick says about the memory: the topic was remembered in the window exactly when all were. */
  lemma PickIsFair(m: Memory, topics: seq<string>, pick: nat, record: nat)
    requires |topics| > 0 && Turn(m, topics, pick, record).1.Rotated?
    ensures UsedRecently(m.recent, Turn(m, topics, pick, record).1.topic, pick) <==> AllUsed(topics, m.recent, pick)
  {
    PoolIsEmptyIff(topics, m.recent, pick);
    var choices := Choices(topics, m.recent, pick);
    var topic := choices[m.runCount % |choices|];
    assert topic in choices;
    PoolHas(topics, m.recent, pick, topic);
  }

  predicate AllUsed(topics: seq<string>, uses: seq<Use>, now: nat) {
    forall i :: 0 <= i < |topics| ==> UsedRecently(uses, topics[i], now)
  }

  /** The topic was posted in the last ten days, and the state file does not know. */
  predicate Forgotten(topic: string, posted: seq<Use>, remembered: seq<Use>, now: nat) {
    UsedRecently(posted, topic, now) && !UsedRecently(remembered, topic, now)
  }

  /** The next inbox item, if there is one, cannot be posted, so the turn rotates. */
  predicate Rotates(m: Memory) {
    |m.inbox| == 0 || Postable(m.inbox[0]).None?
  }

  /** The turn posts a topic of the last ten days while another has not been posted in them. */
  predicate RepeatsEarly(m: Memory, topics: seq<string>, posted: seq<Use>, pick: nat, record: nat)
    requires |topics| > 0
  {
    var p := Turn(m, topics, pick, record).1;
    p.Rotated? && UsedRecently(posted, p.topic, pick) && !AllUsed(topics, posted, pick)
  }

  /** Whether this turn does: the run count must point at a forgotten topic among those the state file offers. */
  lemma TurnRepeatsEarlyIff(m: Memory, topics: seq<string>, posted: seq<Use>, pick: nat, record: nat)
    requires |topics| > 0 && forall u :: u in m.recent ==> u in posted
    ensures RepeatsEarly(m, topics, posted, pick, record) <==>
              var pool := Pool(topics, m.recent, pick);
              && Rotates(m) && !AllUsed(topics, posted, pick)
              && |pool| > 0 && Forgotten(pool[m.runCount % |pool|], posted, m.recent, pick)
  {
    var pool := Pool(topics, m.recent, pick);
    PoolIsEmptyIff(topics, m.recent, pick);
    if AllUsed(topics, m.recent, pick) {
      forall i | 0 <= i < |topics| ensures UsedRecently(posted, topics[i], pick) {
        UsedIn(m.recent, posted, topics[i], pick);
      }
    } else {
      PoolHas(topics, m.recent, pick, pool[m.runCount % |pool|]);
    }
  }

  /** Whether some run count does: exactly when a topic is forgotten and another is unused. */
  lemma {:induction false} MemoryRepeatsEarlyIff(m: Memory, topics: seq<string>, posted: seq<Use>, pick: nat, record: nat)
    requires |topics| > 0 && forall u :: u in m.recent ==> u in posted
    ensures (exists count: nat :: RepeatsEarly(m.(runCount := count), topics, posted, pick, record)) <==>
              && Rotates(m) && !AllUsed(topics, posted, pick)
              && exists i :: 0 <= i < |topics| && Forgotten(topics[i], posted, m.recent, pick)
  {
    if count: nat :| RepeatsEarly(m.(runCount := count), topics, posted, pick, record) {
      var i := EarlyRepeatForgotten(m.(runCount := count), topics, posted, pick, record);
    }
    if i :| 0 <= i < |topics| && Forgotten(topics[i], posted, m.recent, pick) && Rotates(m) && !AllUsed(topics, posted, pick) {
      var count := ForgottenCanRepeat(m, topics, posted, pick, record, i);
    }
  }

  lemma {:induction false} EarlyRepeatForgotten(m: Memory, topics: seq<string>, posted: seq<Use>, pick: nat, record: nat)
      returns (i: nat)
    requires |topics| > 0 && (forall u :: u in m.recent ==> u in posted) && RepeatsEarly(m, topics, posted, pick, record)
    ensures Rotates(m) && !AllUsed(topics, posted, pick) && i < |topics| && Forgotten(topics[i], posted, m.recent, pick)
  {
    TurnRepeatsEarlyIff(m, topics, posted, pick, record);
    var pool := Pool(topics, m.recent, pick);
    PoolHas(topics, m.recent, pick, pool[m.runCount % |pool|]);
    i :| 0 <= i < |topics| && topics[i] == pool[m.runCount % |pool|];
  }

  lemma {:induction false} ForgottenCanRepeat(m: Memory, topics: seq<string>, posted: seq<Use>, pick: nat, record: nat, i: nat)
      returns (count: nat)
    requires |topics| > 0 && (forall u :: u in m.recent ==> u in posted) && Rotates(m) && !AllUsed(topics, posted, pick)
    requires i < |topics| && Forgotten(topics[i], posted, m.recent, pick)
    ensures RepeatsEarly(m.(runCount := count), topics, posted, pick, record)
  {
    var pool := Pool(topics, m.recent, pick);
    PoolHas(topics, m.recent, pick, topics[i]);
    count :| 0 <= count < |pool| && pool[count] == topics[i];
    var m' := m.(runCount := count);
    assert pool[count % |pool|] == topics[i] by { SmallModulo(count, |pool|); }
    assert Pool(topics, m'.recent, pick) == pool;
    TurnRepeatsEarlyIff(m', topics, posted, pick, record);
  }

  lemma SmallModulo(k: nat, n: nat)
    requires k < n
    ensures k % n == k
  {
  }

  /** What the state file holds in the middle of a run, over all histories: the newest forty kept posts, all of them posted. */
  lemma RemembersMidRun(m: Memory, topics: seq<string>, rs: seq<Session>, ts: seq<Times>)
    requires |topics| > 0 && m.recent == [] && ClockOk(rs) && From(ts, EndTime(rs))
    ensures var h := AfterAll(History(m, []), topics, rs);
            var now := Turns(History(h.memory, []), topics, ts);
            var kept := Uses(now.log) + Uses(KeptLog(History(m, []), topics, rs));
            && Knows(now.memory, kept, LastTime(ts, EndTime(rs)))
            && forall u :: u in kept ==> u in Uses(now.log) + Uses(h.log)
  {
    var h0 := History(m, []);
    var h := AfterAll(h0, topics, rs);
    var now := Turns(History(h.memory, []), topics, ts);
    var kept := Uses(now.log) + Uses(KeptLog(h0, topics, rs));
    Remembers(m, topics, rs);
    TurnsRemember(h.memory, topics, ts, Uses(KeptLog(h0, topics, rs)), EndTime(rs));
    forall u | u in kept ensures u in Uses(now.log) + Uses(h.log) {
      if u in Uses(KeptLog(h0, topics, rs)) { KeptIsPosted(h0, topics, rs, u); }
    }
  }

  /**
   * Exactly when a turn posts a topic of the last ten days with others unused,
   * over all histories and in the middle of a run: for some run count, when a
   * topic was posted in those days by runs that died or before forty kept posts;
   * for the run count at hand, when it points at such a topic.
   */
  lemma {:induction false} RepeatsEarlyIff(m: Memory, topics: seq<string>, rs: seq<Session>, ts: seq<Times>, pick: nat, record: nat)
    requires |topics| > 0 && m.recent == [] && ClockOk(rs) && From(ts, EndTime(rs))
    ensures var h := AfterAll(History(m, []), topics, rs);
            var now := Turns(History(h.memory, []), topics, ts);
            var posted, kept := Uses(now.log) + Uses(h.log), Uses(now.log) + Uses(KeptLog(History(m, []), topics, rs));
            var open := Rotates(now.memory) && !AllUsed(topics, posted, pick);
            var pool := Pool(topics, Newest(kept), pick);
            && ((exists count: nat :: RepeatsEarly(now.memory.(runCount := count), topics, posted, pick, record)) <==>
                  open && exists i :: 0 <= i < |topics| && Forgotten(topics[i], posted, Newest(kept), pick))
            && (RepeatsEarly(now.memory, topics, posted, pick, record) <==>
                  open && |pool| > 0 && Forgotten(pool[now.memory.runCount % |pool|], posted, Newest(kept), pick))
  {
    RemembersMidRun(m, topics, rs, ts);
    var h := AfterAll(History(m, []), topics, rs);
    var now := Turns(History(h.memory, []), topics, ts);
    MemoryRepeatsEarlyIff(now.memory, topics, Uses(now.log) + Uses(h.log), pick, record);
    TurnRepeatsEarlyIff(now.memory, topics, Uses(now.log) + Uses(h.log), pick, record);
  }

  /** It happens: a first run dies right after its post, and the next one posts the same topic, though another is unused. */
  lemma {:induction false} DeadRunRepeats(m: Memory, topics: seq<string>, t: Times, pick: nat, record: nat, other: nat)
    requires m.recent == [] && m.inbox == [] && other < |topics| && topics[other] != topics[m.runCount % |topics|]
    requires t.pick <= t.record <= pick < t.record + COOLDOWN
    ensures var dead := Session([t], false, 1, false);
            var h := AfterAll(History(m, []), topics, [dead]);
            && Died(dead) && h.memory == m && Uses(h.log) == [Use(topics[m.runCount % |topics|], t.record)]
            && Turn(h.memory, topics, pick, record).1 == Rotated(topics[m.runCount % |topics|], record)
            && RepeatsEarly(h.memory, topics, Uses(h.log), pick, record)
  {
    FirstTurn(m, topics, t.pick, t.record);
    FirstTurn(m, topics, pick, record);
    AfterDeadRun(History(m, []), topics, t);
    OneUse(topics, m.runCount % |topics|, other, t.record, pick);
  }

  lemma {:induction false} AfterDeadRun(h: History, topics: seq<string>, t: Times)
    requires |topics| > 0
    ensures AfterAll(h, topics, [Session([t], false, 1, false)]) == History(h.memory, Next(h, topics, t).log)
  {
    var dead := Session([t], false, 1, false);
    assert [dead][..0] == [] && [t][..1] == [t] && [t][..0] == [];
    assert Turns(h, topics, [t]) == Next(h, topics, t);
  }

  /** With nothing remembered and nothing in the inbox every topic is on offer. */
  lemma {:induction false} FirstTurn(m: Memory, topics: seq<string>, pick: nat, record: nat)
    requires |topics| > 0 && m.recent == [] && m.inbox == []
    ensures Turn(m, topics, pick, record).1 == Rotated(topics[m.runCount % |topics|], record)
  {
    UnusedAll(topics, pick);
  }

  lemma {:induction false} OneUse(topics: seq<string>, k: nat, other: nat, at: nat, now: nat)
    requires k < |topics| && other < |topics| && topics[other] != topics[k] && InWindow(at, now)
    ensures Uses([Rotated(topics[k], at)]) == [Use(topics[k], at)]
    ensures UsedRecently([Use(topics[k], at)], topics[k], now) && !AllUsed(topics, [Use(topics[k], at)], now)
  {
    var uses := [Use(topics[k], at)];
    assert [Rotated(topics[k], at)][..0] == [];
    assert uses[0].topic == topics[k];
    assert !UsedRecently(uses, topics[other], now);
  }

  lemma {:induction false} UnusedAll(topics: seq<string>, now: nat)
    ensures Pool(topics, [], now) == topics
  {
    if |topics| == 0 {
    } else {
      InitAndLast(topics);
      UnusedAll(topics[..|topics| - 1], now);
    }
  }

  lemma UsedIn(some: seq<Use>, all: seq<Use>, topic: string, now: nat)
    requires UsedRecently(some, topic, now) && forall u :: u in some ==> u in all
    ensures UsedRecently(all, topic, now)
  {
    var i :| 0 <= i < |some| && some[i].topic == topic && InWindow(some[i].at, now);
    assert some[i] in some;
    var j :| 0 <= j < |all| && all[j] == some[i];
  }

  /** No rotation post of the window was lost by a run that died before it wrote the state file. */
  ghost predicate NothingForgotten(posted: seq<Use>, kept: seq<Use>, now: nat) {
    forall u :: u in posted && InWindow(u.at, now) ==> u in kept
  }

  /**
   * Cooldown over all histories, dying runs included, and in the middle of a run
   * (after its turns `ts`): with at most forty remembered rotation posts in the
   * last ten days, and none of those days forgotten, the topic a turn picks was
   * posted in them exactly when every topic was.
   */
  lemma RepeatsOnlyWhenExhausted(m: Memory, topics: seq<string>, rs: seq<Session>, ts: seq<Times>, pick: nat, record: nat)
    requires |topics| > 0 && m.recent == [] && ClockOk(rs) && From(ts, EndTime(rs)) && LastTime(ts, EndTime(rs)) <= pick
    requires var h := AfterAll(History(m, []), topics, rs);
             var now := Turns(History(h.memory, []), topics, ts);
             var kept := Uses(now.log) + Uses(KeptLog(History(m, []), topics, rs));
             && CountInWindow(kept, pick) <= KEPT && NothingForgotten(Uses(now.log) + Uses(h.log), kept, pick)
             && Turn(now.memory, topics, pick, record).1.Rotated?
    ensures var h := AfterAll(History(m, []), topics, rs);
            var now := Turns(History(h.memory, []), topics, ts);
            var posted := Uses(now.log) + Uses(h.log);
            UsedRecently(posted, Turn(now.memory, topics, pick, record).1.topic, pick) <==> AllUsed(topics, posted, pick)
  {
    var h0 := History(m, []);
    var h := AfterAll(h0, topics, rs);
    var now := Turns(History(h.memory, []), topics, ts);
    var posted, kept := Uses(now.log) + Uses(h.log), Uses(now.log) + Uses(KeptLog(h0, topics, rs));
    RemembersMidRun(m, topics, rs, ts);
    PickIsFair(now.memory, topics, pick, record);
    forall topic ensures UsedRecently(now.memory.recent, topic, pick) <==> UsedRecently(posted, topic, pick) {
      MemoryAnswers(kept, topic, pick);
      SameUsed(posted, kept, topic, pick);
    }
  }

  lemma SameUsed(posted: seq<Use>, kept: seq<Use>, topic: string, now: nat)
    requires NothingForgotten(posted, kept, now) && forall u :: u in kept ==> u in posted
    ensures UsedRecently(posted, topic, now) <==> UsedRecently(kept, topic, now)
  {
    if UsedRecently(posted, topic, now) {
      var i :| 0 <= i < |posted| && posted[i].topic == topic && InWindow(posted[i].at, now);
      assert posted[i] in posted;
      var j :| 0 <= j < |kept| && kept[j] == posted[i];
    }
    if UsedRecently(kept, topic, now) {
      UsedIn(kept, posted, topic, now);
    }
  }
}
