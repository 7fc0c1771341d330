/** The idempotency lock: `SET key NX EX ttl` on arrival, `DEL` when the response
    finishes with a server error. Redis is taken to answer every command; times
    are milliseconds. */
module Idempotency {
  import opened Common

  type LockKey = string

  /** A request as the middleware sees it: `lockKey` is None for a method that
      writes nothing or a request without the idempotency header. */
  datatype Event =
    | Request(id: nat, lockKey: Option<LockKey>, now: int)
    | Finish(id: nat, status: int, now: int)

  datatype State = State(locks: map<LockKey, int>, holders: map<nat, LockKey>)

  const START := State(map[], map[])

  predicate Held(s: State, key: LockKey, now: int) {
    key in s.locks && now < s.locks[key]
  }

  predicate Admitted(s: State, ev: Event) {
    ev.Request? && (ev.lockKey.Some? ==> !Held(s, ev.lockKey.value, ev.now))
  }

  /** An admitted request whose response ends with status >= 500. */
  predicate Releases(s: State, ev: Event, key: LockKey) {
    ev.Finish? && ev.status >= 500 && ev.id in s.holders && s.holders[ev.id] == key
  }

  function Step(s: State, ev: Event, ttl: int): State {
    match ev
    case Request(id, lockKey, now) =>
      if lockKey.Some? && Admitted(s, ev)
      then State(s.locks[lockKey.value := now + ttl], s.holders[id := lockKey.value])
      else s
    case Finish(id, status, _) =>
      if status >= 500 && id in s.holders then s.(locks := s.locks - {s.holders[id]}) else s
  }

  function Run(s: State, evs: seq<Event>, ttl: int): State
    decreases |evs|
  {
    if evs == [] then s else Run(Step(s, evs[0], ttl), evs[1..], ttl)
  }

  predicate InTime(from: int, evs: seq<Event>)
    decreases |evs|
  {
    evs == [] || (from <= evs[0].now && InTime(evs[0].now, evs[1..]))
  }

  class IdempotencyMiddleware {
    const ttlMs: int
    var locks: map<LockKey, int>
    var holders: map<nat, LockKey>

    constructor (ttlSeconds: int)
      ensures ttlMs == ttlSeconds * 1000 && Now() == START
    {
      ttlMs := ttlSeconds * 1000;
      locks, holders := map[], map[];
    }

    ghost function Now(): State
      reads this
    {
      State(locks, holders)
    }

    /** `set lockKey 1 NX EX ttl`: true for the reply 'OK'. */
    method SetNx(key: LockKey, now: int) returns (ok: bool)
      modifies `locks
      ensures ok == !Held(old(Now()), key, now)
      ensures locks == if ok then old(locks)[key := now + ttlMs] else old(locks)
    {
      ok := key !in locks || locks[key] <= now;
      if ok {
        locks := locks[key := now + ttlMs];
      }
    }

    method Handle(id: nat, lockKey: Option<LockKey>, now: int) returns (admitted: bool)
      modifies this
      ensures Now() == Step(old(Now()), Request(id, lockKey, now), ttlMs)
      ensures admitted == Admitted(old(Now()), Request(id, lockKey, now))
    {
      if lockKey.None? {
        return true;
      }
      var ok := SetNx(lockKey.value, now);
      if !ok {
        return false;
      }
      holders := holders[id := lockKey.value];
      return true;
    }

    method OnFinish(id: nat, status: int, now: int)
      modifies this
      ensures Now() == Step(old(Now()), Finish(id, status, now), ttlMs)
    {
      if id in holders && status >= 500 {
        locks := locks - {holders[id]};
      }
    }
  }

  /** Somewhere in the run a response released the lock `key`. */
  predicate ReleasedIn(s: State, evs: seq<Event>, ttl: int, key: LockKey)
    decreases |evs|
  {
    evs != [] && (Releases(s, evs[0], key) || ReleasedIn(Step(s, evs[0], ttl), evs[1..], ttl, key))
  }

  /** While nobody releases it, a lock held until `until` stays held. */
  lemma {:induction false} LockStays(s: State, evs: seq<Event>, ttl: int, key: LockKey, until: int, last: int)
    requires InTime(last, evs) && key in s.locks && s.locks[key] >= until && ttl >= 0
    requires !ReleasedIn(s, evs, ttl, key)
    ensures key in Run(s, evs, ttl).locks
    ensures Run(s, evs, ttl).locks[key] >= until
    decreases |evs|
  {
    if evs != [] {
      var t := Step(s, evs[0], ttl);
      assert key in t.locks && t.locks[key] >= until;
      LockStays(t, evs[1..], ttl, key, until, evs[0].now);
    }
  }

  /** Two requests admitted on one key: the lock's whole lifetime passed between
      them, or some admitted request on that key failed in between. */
  lemma AdmittedTwice(s: State, first: Event, between: seq<Event>, second: Event, ttl: int, key: LockKey)
    requires ttl >= 0 && first.Request? && second.Request?
    requires first.lockKey == second.lockKey == Some(key)
    requires InTime(first.now, between + [second])
    requires Admitted(s, first)
    requires Admitted(Run(Step(s, first, ttl), between, ttl), second)
    ensures second.now - first.now >= ttl || ReleasedIn(Step(s, first, ttl), between, ttl, key)
  {
    if !ReleasedIn(Step(s, first, ttl), between, ttl, key) {
      InTimePrefix(first.now, between, second);
      LockStays(Step(s, first, ttl), between, ttl, key, first.now + ttl, first.now);
    }
  }

  lemma {:induction false} InTimePrefix(from: int, evs: seq<Event>, last: Event)
    requires InTime(from, evs + [last])
    ensures InTime(from, evs)
    decreases |evs|
  {
    if evs != [] {
      assert (evs + [last])[1..] == evs[1..] + [last];
      InTimePrefix(evs[0].now, evs[1..], last);
    }
  }

  /** Only requests admitted earlier on a key can release it. */
  lemma {:induction false} HoldersWereAdmitted(evs: seq<Event>, ttl: int, id: nat)
    requires id in Run(START, evs, ttl).holders
    ensures exists k :: 0 <= k < |evs| && evs[k].Request? && evs[k].id == id
                        && evs[k].lockKey == Some(Run(START, evs, ttl).holders[id])
                        && Admitted(Run(START, evs[..k], ttl), evs[k])
  {
    var last := |evs| - 1;
    if evs != [] {
      var s := Run(START, evs[..last], ttl);
      RunAppend(START, evs[..last], evs[last], ttl);
      assert evs == evs[..last] + [evs[last]];
      if evs[last].Request? && evs[last].id == id && evs[last].lockKey.Some? && Admitted(s, evs[last]) {
      } else {
        HoldersWereAdmitted(evs[..last], ttl, id);
        var k :| 0 <= k < last && evs[k].Request? && evs[k].id == id
                 && evs[k].lockKey == Some(s.holders[id]) && Admitted(Run(START, evs[..last][..k], ttl), evs[k]);
        assert evs[..last][..k] == evs[..k];
      }
    }
  }

  lemma {:induction false} RunAppend(s: State, evs: seq<Event>, ev: Event, ttl: int)
    ensures Run(s, evs + [ev], ttl) == Step(Run(s, evs, ttl), ev, ttl)
    decreases |evs|
  {
    if evs == [] {
      assert [] + [ev] == [ev];
    } else {
      assert (evs + [ev])[1..] == evs[1..] + [ev];
      RunAppend(Step(s, evs[0], ttl), evs[1..], ev, ttl);
    }
  }

  // ----- Who releases a lock ---------------------------------------------------------------

  /** The state with, for each key, the request last admitted on it, for each
      admitted request, the end of its own lock, and the responses that are out. */
  datatype Log = Log(state: State, owners: map<LockKey, nat>, ends: map<nat, int>, answered: set<nat>)

  const NO_REQUESTS := Log(START, map[], map[], {})

  function LogNext(log: Log, ev: Event, ttl: int): Log {
    var state := Step(log.state, ev, ttl);
    match ev
    case Request(id, lockKey, now) =>
      if lockKey.Some? && Admitted(log.state, ev)
      then log.(state := state, owners := log.owners[lockKey.value := id], ends := log.ends[id := now + ttl])
      else log.(state := state)
    case Finish(id, _, _) => log.(state := state, answered := log.answered + {id})
  }

  function LogRun(log: Log, evs: seq<Event>, ttl: int): Log
    decreases |evs|
  {
    if evs == [] then log else LogRun(LogNext(log, evs[0], ttl), evs[1..], ttl)
  }

  /** Each request has an id of its own and is answered once, after it came. */
  predicate AnsweredOnce(log: Log, evs: seq<Event>, ttl: int)
    decreases |evs|
  {
    evs == [] || (&& evs[0].id !in log.answered && (evs[0].Request? ==> evs[0].id !in log.ends)
                  && AnsweredOnce(LogNext(log, evs[0], ttl), evs[1..], ttl))
  }

  /** If the step deletes a live lock, it is the lock of the request that failed. */
  predicate DeletesOwn(log: Log, ev: Event) {
    forall key :: key in log.owners && Releases(log.state, ev, key) && Held(log.state, key, ev.now) ==> log.owners[key] == ev.id
  }

  predicate OnlyOwnDeleted(log: Log, evs: seq<Event>, ttl: int)
    decreases |evs|
  {
    evs == [] || (DeletesOwn(log, evs[0]) && OnlyOwnDeleted(LogNext(log, evs[0], ttl), evs[1..], ttl))
  }

  /** A response fails after its request's lock has run out, while the key is locked. */
  predicate FailsLate(log: Log, ev: Event) {
    && ev.Finish? && ev.status >= 500 && ev.id in log.state.holders && ev.id in log.ends
    && Held(log.state, log.state.holders[ev.id], ev.now) && ev.now >= log.ends[ev.id]
  }

  predicate NoneFailsLate(log: Log, evs: seq<Event>, ttl: int)
    decreases |evs|
  {
    evs == [] || (!FailsLate(log, evs[0]) && NoneFailsLate(LogNext(log, evs[0], ttl), evs[1..], ttl))
  }

  /** The request is under way and its lock has not run out. */
  predicate Running(log: Log, id: nat, now: int) {
    id in log.state.holders && id in log.ends && id !in log.answered && now < log.ends[id]
  }

  /** A lock is its owner's, and a request that is running owns its key's lock. */
  ghost predicate Kept(log: Log, now: int) {
    && (forall id :: id in log.state.holders <==> id in log.ends)
    && (forall key :: key in log.state.locks ==>
          && key in log.owners && log.owners[key] in log.ends && log.state.locks[key] == log.ends[log.owners[key]])
    && (forall id :: Running(log, id, now) ==>
          var key := log.state.holders[id];
          key in log.state.locks && key in log.owners && log.owners[key] == id)
  }

  lemma {:induction false} DeletesOwnIff(log: Log, ev: Event)
    requires Kept(log, ev.now) && ev.id !in log.answered
    ensures DeletesOwn(log, ev) <==> !FailsLate(log, ev)
  {
    if ev.Finish? && ev.status >= 500 && ev.id in log.state.holders {
      var key := log.state.holders[ev.id];
      assert Releases(log.state, ev, key);
      if ev.now < log.ends[ev.id] {
        assert Running(log, ev.id, ev.now);
      }
    }
  }

  lemma {:induction false} KeptLater(log: Log, from: int, now: int)
    requires Kept(log, from) && from <= now
    ensures Kept(log, now)
  {
    forall id | Running(log, id, now)
      ensures var key := log.state.holders[id]; key in log.state.locks && key in log.owners && log.owners[key] == id
    {
      assert Running(log, id, from);
    }
  }

  lemma {:induction false} StepKeeps(log: Log, ev: Event, ttl: int)
    requires Kept(log, ev.now) && ev.id !in log.answered && (ev.Request? ==> ev.id !in log.ends) && DeletesOwn(log, ev)
    ensures Kept(LogNext(log, ev, ttl), ev.now)
  {
    var next := LogNext(log, ev, ttl);
    forall id | Running(next, id, ev.now)
      ensures var key := next.state.holders[id]; key in next.state.locks && key in next.owners && next.owners[key] == id
    {
      if id != ev.id {
        assert Running(log, id, ev.now);
      }
    }
  }

  /** Over any run, failing responses delete no live lock but their own request's if
      and only if none fails after its lock has run out while the key is locked. */
  lemma {:induction false} OnlyOwnDeletedIff(log: Log, evs: seq<Event>, ttl: int, from: int)
    requires Kept(log, from) && InTime(from, evs) && AnsweredOnce(log, evs, ttl)
    ensures OnlyOwnDeleted(log, evs, ttl) <==> NoneFailsLate(log, evs, ttl)
    decreases |evs|
  {
    hide Kept, LogNext, DeletesOwn, FailsLate;
    if evs != [] {
      KeptLater(log, from, evs[0].now);
      DeletesOwnIff(log, evs[0]);
      if DeletesOwn(log, evs[0]) {
        StepKeeps(log, evs[0], ttl);
        OnlyOwnDeletedIff(LogNext(log, evs[0], ttl), evs[1..], ttl, evs[0].now);
      }
    }
  }

  lemma {:induction false} RunKeeps(log: Log, evs: seq<Event>, ttl: int, from: int, now: int)
    requires Kept(log, from) && InTime(from, evs) && AnsweredOnce(log, evs, ttl) && NoneFailsLate(log, evs, ttl)
    requires from <= now && forall k :: 0 <= k < |evs| ==> evs[k].now <= now
    ensures Kept(LogRun(log, evs, ttl), now)
    decreases |evs|
  {
    hide Kept, LogNext, DeletesOwn, FailsLate;
    if evs == [] {
      KeptLater(log, from, now);
    } else {
      KeptLater(log, from, evs[0].now);
      DeletesOwnIff(log, evs[0]);
      StepKeeps(log, evs[0], ttl);
      RunKeeps(LogNext(log, evs[0], ttl), evs[1..], ttl, evs[0].now, now);
    }
  }

  /** Then no two requests on one key are ever under way within their lifetimes. */
  lemma {:induction false} OneRunsPerKey(evs: seq<Event>, ttl: int, from: int, now: int, i: nat, j: nat)
    requires InTime(from, evs) && AnsweredOnce(NO_REQUESTS, evs, ttl) && NoneFailsLate(NO_REQUESTS, evs, ttl)
    requires from <= now && forall k :: 0 <= k < |evs| ==> evs[k].now <= now
    requires var log := LogRun(NO_REQUESTS, evs, ttl);
             Running(log, i, now) && Running(log, j, now) && log.state.holders[i] == log.state.holders[j]
    ensures i == j
  {
    RunKeeps(NO_REQUESTS, evs, ttl, from, now);
  }

  lemma {:induction false} LogFollowsRun(log: Log, evs: seq<Event>, ttl: int)
    ensures LogRun(log, evs, ttl).state == Run(log.state, evs, ttl)
    decreases |evs|
  {
    if evs != [] {
      LogFollowsRun(LogNext(log, evs[0], ttl), evs[1..], ttl);
    }
  }

  lemma {:induction false} Unfold(log: Log, ev: Event, rest: seq<Event>, ttl: int)
    ensures LogRun(log, [ev] + rest, ttl) == LogRun(LogNext(log, ev, ttl), rest, ttl)
    ensures OnlyOwnDeleted(log, [ev] + rest, ttl) <==> DeletesOwn(log, ev) && OnlyOwnDeleted(LogNext(log, ev, ttl), rest, ttl)
    ensures AnsweredOnce(log, [ev] + rest, ttl)
            <==> && ev.id !in log.answered && (ev.Request? ==> ev.id !in log.ends)
                 && AnsweredOnce(LogNext(log, ev, ttl), rest, ttl)
  {
    hide LogNext, DeletesOwn;
    assert ([ev] + rest)[1..] == rest;
  }

  function LateFailure(key: LockKey): seq<Event> {
    [Request(1, Some(key), 0), Request(2, Some(key), 60), Finish(1, 500, 61), Request(3, Some(key), 62)]
  }

  /** The logs after each of these events, with a lifetime of 60. */
  lemma {:induction false} LateFailureSteps(key: LockKey, two: Log, three: Log, four: Log)
    requires two == Log(State(map[key := 120], map[1 := key, 2 := key]), map[key := 2], map[1 := 60, 2 := 120], {})
    requires three == two.(state := State(map[], two.state.holders), answered := {1})
    requires four == Log(State(map[key := 122], two.state.holders[3 := key]), map[key := 3], two.ends[3 := 122], {1})
    ensures LogRun(NO_REQUESTS, LateFailure(key), 60) == four && AnsweredOnce(NO_REQUESTS, LateFailure(key), 60)
    ensures OnlyOwnDeleted(NO_REQUESTS, LateFailure(key), 60) ==> DeletesOwn(two, Finish(1, 500, 61))
  {
    var evs := LateFailure(key);
    var one := Log(State(map[key := 60], map[1 := key]), map[key := 1], map[1 := 60], {});
    assert LogNext(NO_REQUESTS, evs[0], 60) == one && LogNext(one, evs[1], 60) == two;
    assert LogNext(two, evs[2], 60) == three && LogNext(three, evs[3], 60) == four;
    hide LogNext, DeletesOwn;
    assert evs == [evs[0]] + [evs[1], evs[2], evs[3]] && [evs[1], evs[2], evs[3]] == [evs[1]] + [evs[2], evs[3]];
    assert [evs[2], evs[3]] == [evs[2]] + [evs[3]] && [evs[3]] == [evs[3]] + [];
    Unfold(NO_REQUESTS, evs[0], [evs[1], evs[2], evs[3]], 60);
    Unfold(one, evs[1], [evs[2], evs[3]], 60);
    Unfold(two, evs[2], [evs[3]], 60);
    Unfold(three, evs[3], [], 60);
  }

  /** Request 1 outlives its lock, request 2 takes the key, request 1 then fails: a
      third request is admitted while the second is running. */
  lemma {:induction false} LateFailureLetsThirdIn(key: LockKey)
    ensures var evs, log := LateFailure(key), LogRun(NO_REQUESTS, LateFailure(key), 60);
            && AnsweredOnce(NO_REQUESTS, evs, 60) && !OnlyOwnDeleted(NO_REQUESTS, evs, 60)
            && Running(log, 2, 62) && Running(log, 3, 62) && log.state.holders[2] == log.state.holders[3] == key
  {
    var two := Log(State(map[key := 120], map[1 := key, 2 := key]), map[key := 2], map[1 := 60, 2 := 120], {});
    var three := two.(state := State(map[], two.state.holders), answered := {1});
    var four := Log(State(map[key := 122], two.state.holders[3 := key]), map[key := 3], two.ends[3 := 122], {1});
    LateFailureSteps(key, two, three, four);
    assert Releases(two.state, Finish(1, 500, 61), key) && Held(two.state, key, 61);
    hide LogRun, AnsweredOnce, OnlyOwnDeleted, LateFailure;
  }
}
