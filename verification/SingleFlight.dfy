/**
 * The single-flight claim that makes runs of the migration runner exclusive: a
 * lock set only when absent, with a time to live, released by compare-and-delete
 * on the claimant's token.
 */
module SingleFlight {
  import opened Prelude

  type Token = nat

  /** `held` is the token stored under the lock key; `inside` the workers executing the guarded function. */
  datatype Flight = Flight(held: Option<Token>, inside: set<Token>, issued: set<Token>)

  /** A worker arrives with a fresh token, returns or throws, dies, or the key's time to live runs out. */
  datatype Event =
    | Claim(token: Token)
    | Leave(token: Token, released: bool)
    | Die(token: Token)
    | Expire

  predicate Enabled(f: Flight, e: Event) {
    match e
    case Claim(t) => t !in f.issued
    case Leave(t, _) => t in f.inside
    case Die(t) => t in f.inside
    case Expire => f.held.Some?
  }

  function Step(f: Flight, e: Event): Flight
    requires Enabled(f, e)
  {
    match e
    case Claim(t) =>
      if f.held.None? then Flight(Some(t), f.inside + {t}, f.issued + {t})
      else f.(issued := f.issued + {t})
    case Leave(t, released) =>
      Flight(if released && f.held == Some(t) then None else f.held, f.inside - {t}, f.issued)
    case Die(t) => f.(inside := f.inside - {t})
    case Expire => f.(held := None)
  }

  ghost predicate Possible(f: Flight, events: seq<Event>)
    decreases |events|
  {
    |events| == 0 || (Enabled(f, events[0]) && Possible(Step(f, events[0]), events[1..]))
  }

  ghost function After(f: Flight, events: seq<Event>): Flight
    requires Possible(f, events)
    decreases |events|
  {
    if |events| == 0 then f else After(Step(f, events[0]), events[1..])
  }

  /** Somewhere along the way the key expires under a worker that is still inside. */
  ghost predicate Overruns(f: Flight, events: seq<Event>)
    requires Possible(f, events)
    decreases |events|
  {
    |events| > 0 &&
    ((events[0].Expire? && f.held.value in f.inside) || Overruns(Step(f, events[0]), events[1..]))
  }

  ghost predicate Exclusive(f: Flight) {
    && (forall t :: t in f.inside ==> f.held == Some(t))
    && (f.held.Some? ==> f.held.value in f.issued)
  }

  /** As long as every run ends within the time to live, at most one worker is ever inside, and it holds the lock. */
  lemma {:induction false} AtMostOneInside(f: Flight, events: seq<Event>)
    requires Exclusive(f) && Possible(f, events) && !Overruns(f, events)
    ensures Exclusive(After(f, events)) && |After(f, events).inside| <= 1
    decreases |events|
  {
    if |events| == 0 {
      if f.inside != {} {
        assert f.inside <= {f.held.value};
        assert f.inside == {f.held.value};
      }
    } else {
      AtMostOneInside(Step(f, events[0]), events[1..]);
    }
  }

  /** Conversely, from every exclusive state with a worker inside, an overrun lets a second one in. */
  lemma OverrunAdmitsSecond(f: Flight, t: Token, t': Token)
    requires Exclusive(f) && t in f.inside && t' !in f.issued
    ensures Possible(f, [Expire, Claim(t')]) && Overruns(f, [Expire, Claim(t')])
    ensures {t, t'} <= After(f, [Expire, Claim(t')]).inside && t != t'
  {
    var f1 := Step(f, Expire);
    var f2 := Step(f1, Claim(t'));
    assert [Expire, Claim(t')][1..] == [Claim(t')];
    assert [Claim(t')][0] == Claim(t') && [Claim(t')][1..] == [];
    assert Possible(f2, []) && After(f2, []) == f2;
    assert Possible(f1, [Claim(t')]) && After(f1, [Claim(t')]) == f2;
    assert [Expire, Claim(t')][0] == Expire;
  }

  /**
   * Who gets in, one claim after the other: the first; not a second one while the
   * key is there, released or not by the time the first is gone; and a late
   * release takes the key from nobody else.
   */
  lemma WhoGetsIn(f: Flight, t: Token, t': Token)
    requires f.held == None && t !in f.issued && t' !in f.issued && t != t' && f.inside <= f.issued
    ensures var one := Step(f, Claim(t));
            && t in one.inside && one.held == Some(t)
            && t' !in Step(one, Claim(t')).inside && Step(one, Claim(t')).held == Some(t)
            && (forall released :: t !in Step(one, Leave(t, released)).inside)
            && t' in Step(Step(one, Leave(t, true)), Claim(t')).inside
            && t' !in Step(Step(one, Leave(t, false)), Claim(t')).inside
            && t' in Step(Step(Step(one, Leave(t, false)), Expire), Claim(t')).inside
            && t' !in Step(Step(one, Die(t)), Claim(t')).inside
            && t' in Step(Step(Step(one, Die(t)), Expire), Claim(t')).inside
            && Step(Step(Step(one, Expire), Claim(t')), Leave(t, true)).held == Some(t')
  {
  }
}
