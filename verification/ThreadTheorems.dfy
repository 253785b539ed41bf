/** What the thread system promises over whole runs: no starvation, one death per thread and
    after the last use of its stack, mutual exclusion in queueing order, no lost wakeup. */
module ThreadTheorems {
  import opened Threads
  import opened ThreadSteps
  import opened ThreadLocks
  import opened ThreadRuns

  // ---- no starvation ----

  function Position(q: seq<nat>, t: nat): (k: nat)
    requires t in q
    ensures k < |q| && q[k] == t
  {
    if q[0] == t then 0 else 1 + Position(q[1..], t)
  }

  lemma {:induction false} PositionAppend(q: seq<nat>, x: nat, t: nat)
    requires t in q
    ensures t in q + [x] && Position(q + [x], t) == Position(q, t)
  {
    if q[0] != t {
      assert (q + [x])[1..] == q[1..] + [x];
      PositionAppend(q[1..], x, t);
    }
  }

  function Max(a: nat, b: nat): nat {
    if a < b then b else a
  }

  /** Preemptible ticks that can pass before `t` runs. */
  function Rank(s: State, t: nat): nat {
    if t == s.current || t !in s.ready then 0 else Position(s.ready, t) * TIMESLICE + Max(s.remained, 1)
  }

  /** From `s` to `u` the thread `t` was reached or came at least `d` ticks nearer. */
  predicate Nearer(s: State, u: State, t: nat, d: nat) {
    t == u.current || (t in u.ready && Rank(u, t) + d <= Rank(s, t))
  }

  lemma AppendNearer(s: State, u: State, t: nat, x: nat)
    requires t in s.ready && t != s.current && u.current == s.current && u.remained == s.remained
    requires u.ready == s.ready || u.ready == s.ready + [x]
    ensures Nearer(s, u, t, 0)
  {
    PositionAppend(s.ready, x, t);
  }

  lemma PlaceQueue(s: State, me: nat) returns (tail: seq<nat>)
    ensures Place(s, me).current == me && Place(s, me).remained == TIMESLICE
    ensures |tail| <= 1 && Place(s, me).ready == s.ready + tail
  {
    tail := if Stat(s, s.current) == Finished && Waiters(s, OfThread(s.current)) != []
    then [Waiters(s, OfThread(s.current))[0]] else [];
    hide Stat;
  }

  /** A switch brings every thread of the queue one place nearer, with a fresh time slice. */
  lemma SwitchNearer(s: State, t: nat)
    requires Core(s) && t in s.ready
    ensures Nearer(s, Schedule(s), t, 1)
  {
    NotRunning(s, t);
    hide *;
    var u, a, b := SwitchIs(s);
    if t != s.ready[0] {
      PositionSwitched(s.ready, a, b, t);
      RankSwitched(s, u, t);
    }
    NearerIs(s, u, t, 1);
  }

  lemma NearerIs(s: State, u: State, t: nat, d: nat)
    requires t == u.current || (t in u.ready && Rank(u, t) + d <= Rank(s, t))
    ensures Nearer(s, u, t, d)
  {}

  /** Off with the head, and at most two more at the tail: everyone else is one place nearer. */
  lemma PositionSwitched(q: seq<nat>, a: seq<nat>, b: seq<nat>, t: nat)
    requires t in q && q[0] != t && |a| <= 1 && |b| <= 1
    ensures t in q[1..] + a + b && Position(q, t) == 1 + Position(q[1..] + a + b, t)
  {
    PositionNext(q, t);
    PositionTail(q[1..], a, t);
    PositionTail(q[1..] + a, b, t);
  }

  lemma PositionTail(q: seq<nat>, a: seq<nat>, t: nat)
    requires t in q && |a| <= 1
    ensures t in q + a && Position(q + a, t) == Position(q, t)
  {
    if a == [] { assert q + a == q; } else { PositionAppend(q, a[0], t); assert a == [a[0]]; }
  }

  /** Behind those that stay, the old thread and a woken joiner may queue up. */
  lemma SwitchIs(s: State) returns (u: State, a: seq<nat>, b: seq<nat>)
    requires s.preempt == 0 && s.ready != []
    ensures u == Schedule(s) && u.current == s.ready[0] && u.remained == TIMESLICE
    ensures u.ready == s.ready[1..] + a + b && |a| <= 1 && |b| <= 1
  {
    hide Stat, Place;
    u := Schedule(s);
    a := if Stat(s, s.current) == Active && s.current != s.idle then [s.current] else [];
    assert a == [] ==> s.ready[1..] + a == s.ready[1..];
    b := PlaceQueue(s.(ready := s.ready[1..] + a), s.ready[0]);
  }

  lemma NotRunning(s: State, t: nat)
    requires Core(s) && t in s.ready
    ensures t != s.current && s.preempt == 0
  {
    hide MutexOk, WaitOk, HistoryOk, Stat, At;
  }

  lemma PositionNext(q: seq<nat>, t: nat)
    requires t in q
    ensures q[0] != t ==> t in q[1..] && Position(q, t) == 1 + Position(q[1..], t)
  {}

  lemma RankSwitched(s: State, u: State, t: nat)
    requires t in s.ready && t in u.ready && t != s.current && u.remained == TIMESLICE
    requires Position(s.ready, t) == 1 + Position(u.ready, t)
    ensures Rank(u, t) + 1 <= Rank(s, t)
  {
    hide Position;
  }

  lemma TickNearer(s: State, t: nat)
    requires Core(s) && t in s.ready
    ensures Nearer(s, Tick(s), t, 1)
  {
    hide Schedule, Stat, MutexOk, WaitOk, HistoryOk, At;
    assert t != s.current;
    var n := if s.remained > 0 then s.remained - 1 else s.remained;
    var r := s.(remained := n);
    if n == 0 {
      RemainedKeeps(s, 0);
      SwitchNearer(r, t);
    }
  }

  /** No step moves a ready thread away from running, and a tick brings it one tick nearer. */
  lemma StepNearer(s: State, a: Action, t: nat)
    requires Inv(s) && Can(s, a) && t in s.ready
    ensures Nearer(s, Do(s, a), t, if a.ATick? then 1 else 0)
  {
    hide Schedule, MutexOk, WaitOk, HistoryOk, At, StatusOk, JoinOk;
    assert t != s.current;
    if a.ATick? {
      TickNearer(s, t);
    } else if a.AYield? {
      SwitchNearer(s, t);
    } else if a.ATickBusy? {
      BusyIs(s);
    } else {
      OthersAppend(s, a);
      var u := Do(s, a);
      if u.ready != s.ready {
        var x :| u.ready == s.ready + [x];
        AppendNearer(s, u, t, x);
      }
    }
  }

  /** The queue only grew at its tail; running thread and time slice are the same. */
  ghost predicate Grown(s: State, u: State) {
    u.current == s.current && u.remained == s.remained && (u.ready == s.ready || exists x :: u.ready == s.ready + [x])
  }

  lemma WakeGrown(s: State, t: nat)
    ensures Grown(s, Wake(s, t))
  {}

  lemma LockGrown(s: State, m: nat)
    ensures Lock(s, m).current == s.current && Lock(s, m).remained == s.remained && Lock(s, m).ready == s.ready
  {
    hide Queue, Queued, Inside, Block;
    BlockRet(s.(wait := s.wait[m := Queue(s, m) + [s.current]], queued := s.queued[m := Queued(s, m) + [s.current]]),
             Locking(m));
  }

  lemma RelockGrown(s: State, m: nat)
    requires MutexOk(s) && Awake(s) && At(s, s.current) == Locking(m)
    ensures Grown(s, Relock(s, m))
  {
    OneTurn(s, m);
    hide Queue, Inside, RemoveAll, Block, MutexOk;
  }

  lemma UnlockGrown(s: State, m: nat)
    ensures Grown(s, Unlock(s, m))
  {
    hide Wake, Queue, Handed, Inside;
    var out := s.(inside := s.inside[m := Inside(s, m) - {s.current}]);
    if Queue(s, m) != [] {
      var w := Queue(s, m)[0];
      var r := out.(owner := s.owner[m := w], handed := s.handed[m := Handed(s, m) + [w]]);
      WakeGrown(r, w);
    }
  }

  lemma WaitGrown(s: State, c: Cv, relock: Option<nat>)
    ensures Grown(s, Wait(s, c, relock))
  {
    var t := Block(s.(cond := s.cond[c := Waiters(s, c) + [s.current]]), Waiting(c, relock));
    BlockGrown(s, c, relock);
    hide Unlock, Waiters, Block;
    if relock.Some? { UnlockGrown(t, relock.value); }
  }

  lemma JoinGrown(s: State, t: nat)
    ensures Grown(s, Join(s, t))
  {
    hide Wait, Stat;
    WaitGrown(s, OfThread(t), None);
  }

  lemma BlockGrown(s: State, c: Cv, relock: Option<nat>)
    ensures var t := Block(s.(cond := s.cond[c := Waiters(s, c) + [s.current]]), Waiting(c, relock));
            t.current == s.current && t.remained == s.remained && t.ready == s.ready
  {}

  lemma WokenGrown(s: State)
    requires At(s, s.current).Waiting?
    ensures Grown(s, Woken(s))
  {
    hide Lock, Join;
    var t := s.(pc := s.pc[s.current := Running]);
    if At(s, s.current).c.OfThread? {
      JoinGrown(t, At(s, s.current).c.thread);
    } else if At(s, s.current).relock.Some? {
      LockGrown(t, At(s, s.current).relock.value);
    }
  }

  lemma NotifyGrown(s: State, c: Cv)
    ensures Grown(s, NotifyOne(s, c)) && Grown(s, NotifyAll(s, c))
  {}

  lemma WakeNextGrown(s: State)
    requires At(s, s.current).Waking?
    ensures Grown(s, WakeNext(s))
  {
    hide Wake;
    var rest := At(s, s.current).rest;
    if rest != [] { WakeGrown(s.(pc := s.pc[s.current := Waking(rest[1..])]), rest[0]); }
  }

  /** No step but a tick or a call of schedule touches the queue other than at its tail. */
  lemma OthersAppend(s: State, a: Action)
    requires MutexOk(s) && Can(s, a) && !a.ATick? && !a.ATickBusy? && !a.AYield?
    ensures Grown(s, Do(s, a))
  {
    hide MutexOk, Stat, At, Queue, Waiters, Wake, Lock, Relock, Unlock, Wait, Join, Woken, NotifyOne, NotifyAll;
    hide WakeNext;
    match a
    case AStart(t) => WakeGrown(s, t);
    case ALock(m) => LockGrown(s, m);
    case ARelock => RelockGrown(s, At(s, s.current).m);
    case AUnlock(m) => UnlockGrown(s, m);
    case AWait(c, relock) => WaitGrown(s, c, relock);
    case AJoin(t) => JoinGrown(s, t);
    case AWoken => WokenGrown(s);
    case ANotifyOne(c) => NotifyGrown(s, c);
    case AInterrupt(c) => NotifyGrown(s, c);
    case ANotifyAll(c) => NotifyGrown(s, c);
    case AWakeNext => WakeNextGrown(s);
    case _ =>
  }

  /** Ticks that find preemption enabled. */
  function Ticks(acts: seq<Action>): nat {
    if acts == [] then 0 else (if acts[0].ATick? then 1 else 0) + Ticks(acts[1..])
  }

  /** `t` is never running, from `s` through the run. */
  predicate NeverRuns(s: State, acts: seq<Action>, t: nat)
    decreases |acts|
  {
    s.current != t && (acts != [] && Can(s, acts[0]) ==> NeverRuns(Do(s, acts[0]), acts[1..], t))
  }

  lemma {:induction false} TicksBounded(s: State, acts: seq<Action>, end: State, t: nat)
    requires Inv(s) && Run(s, acts, end) && t in s.ready && NeverRuns(s, acts, t)
    ensures Ticks(acts) < Rank(s, t)
    decreases |acts|
  {
    hide Inv, Can, Do, Nearer, Rank;
    if acts == [] {
      RankPositive(s, t);
    } else {
      var u := Do(s, acts[0]);
      StepKeeps(s, acts[0]);
      StepNearer(s, acts[0], t);
      assert u.current != t;
      NearerParts(s, u, t, if acts[0].ATick? then 1 else 0);
      TicksBounded(u, acts[1..], end, t);
    }
  }

  lemma RankPositive(s: State, t: nat)
    requires t in s.ready && t != s.current
    ensures Rank(s, t) > 0
  {}

  lemma NearerParts(s: State, u: State, t: nat, d: nat)
    requires Nearer(s, u, t, d) && t != u.current
    ensures t in u.ready && Rank(u, t) + d <= Rank(s, t)
  {}

  /** A thread at position k of the ready queue runs before (k + 1) * TIMESLICE preemptible
      ticks have passed, whatever wakeups, exits and locks happen meanwhile. */
  lemma NoStarvation(s: State, acts: seq<Action>, end: State, k: nat)
    requires Inv(s) && Run(s, acts, end) && k < |s.ready| && NeverRuns(s, acts, s.ready[k])
    ensures Ticks(acts) < (k + 1) * TIMESLICE
  {
    hide Run, NeverRuns, MutexOk, WaitOk, HistoryOk, JoinOk;
    var t := s.ready[k];
    TicksBounded(s, acts, end, t);
    assert Position(s.ready, t) == k;
  }

  // ---- death and join ----

  /** schedule, seen from one thread's status. */
  lemma ScheduleStat(s: State, t: nat)
    requires Core(s)
    ensures var u := Schedule(s);
            && (Stat(u, t) == Dead && Stat(s, t) != Dead ==> t == s.current && Stat(s, t) == Finished && u.current != t)
            && (Stat(s, t) == Dead ==> Stat(u, t) == Dead)
            && (Stat(s, t) == Finished ==> Stat(u, t) == Finished || Stat(u, t) == Dead)
            && u.retval == s.retval
  {
    hide At, Queue, Waiters, MutexOk, HistoryOk, WaitOk, Place;
    if s.ready == [] && Stat(s, s.current) == Active {
      SamePlace(s);
    } else {
      Requeue(s);
      var next := if s.ready != [] then s.ready[0] else s.idle;
      var rest := if s.ready != [] then s.ready[1..] else [];
      var r := s.(ready := if Stat(s, s.current) == Active && s.current != s.idle then rest + [s.current] else rest);
      PlaceStatQueue(s, r, next, t);
      var tail := PlaceQueue(r, next);
    }
  }

  lemma PlaceStatQueue(s: State, r: State, me: nat, t: nat)
    requires Core(s) && r == s.(ready := r.ready)
    ensures Stat(Place(r, me), t) == Dead && Stat(s, t) != Dead ==> t == s.current && Stat(s, t) == Finished
    ensures Stat(s, t) == Dead ==> Stat(Place(r, me), t) == Dead
    ensures Stat(s, t) == Finished ==> Stat(Place(r, me), t) == Finished || Stat(Place(r, me), t) == Dead
    ensures Place(r, me).retval == s.retval
  {
    hide At, Queue, ReadyOk, MutexOk, HistoryOk;
    if Stat(s, s.current) == Finished && Waiters(s, OfThread(s.current)) != [] { HeadWaits(s, OfThread(s.current)); }
  }

  /** Nobody but the running thread stopped, and only a live thread was woken. */
  ghost predicate Quiet(s: State, u: State, t: nat) {
    && (Stat(u, t) == Dead <==> Stat(s, t) == Dead) && (Stat(s, t) == Finished ==> Stat(u, t) == Finished)
    && (Stat(s, t) == Finished || Stat(s, t) == Dead ==>
          (t in u.retval <==> t in s.retval) && (t in s.retval ==> u.retval[t] == s.retval[t]))
  }

  lemma SetQuiet(s: State, u: State, x: nat, st: Status, t: nat)
    requires SetStat(s, u, x, st) && (st == Active || st == Blocked) && Stat(s, x) != Dead && Stat(s, x) != Finished
    requires u.retval == s.retval
    ensures Quiet(s, u, t)
  {
    hide Stat;
  }

  lemma SameQuiet(s: State, u: State, t: nat)
    requires SameStat(s, u) && u.retval == s.retval
    ensures Quiet(s, u, t)
  {
    hide Stat;
  }

  lemma QuietTrans(s: State, u: State, v: State, t: nat)
    requires Quiet(s, u, t) && Quiet(u, v, t)
    ensures Quiet(s, v, t)
  {
    hide Stat;
  }

  lemma LockQuiet(s: State, m: nat, t: nat)
    requires Awake(s)
    ensures Quiet(s, Lock(s, m), t)
  {
    LockRet(s, m);
    if m !in s.owner {
      LockFastIs(s, m);
      hide Lock;
      SameQuiet(s, Lock(s, m), t);
    } else if s.owner[m] != s.current {
      LockSlowIs(s, m);
      hide Lock;
      SetQuiet(s, Lock(s, m), s.current, Blocked, t);
    }
  }

  lemma UnlockQuiet(s: State, m: nat, t: nat)
    requires MutexOk(s) && Owns(s, m, s.current) && !At(s, s.current).Locking?
    ensures Quiet(s, Unlock(s, m), t)
  {
    UnlockRet(s, m);
    if Queue(s, m) != [] {
      HeadBlocked(s, m);
      UnlockIs(s, m);
      hide Unlock;
      SetQuiet(s, Unlock(s, m), Queue(s, m)[0], Active, t);
    } else {
      UnlockFreeIs(s, m);
      hide Unlock;
      SameQuiet(s, Unlock(s, m), t);
    }
  }

  lemma WaitQuiet(s: State, c: Cv, relock: Option<nat>, t: nat)
    requires Core(s) && AtRest(s) && s.current != s.idle && (relock.Some? ==> Owns(s, relock.value, s.current))
    ensures Quiet(s, Wait(s, c, relock), t)
  {
    var r := Block(s.(cond := s.cond[c := Waiters(s, c) + [s.current]]), Waiting(c, relock));
    EnqueueIs(s, c, relock);
    EnqueueKeeps(s, c, relock);
    BlockRetval(s, c, relock);
    hide Unlock, Block, Waiters, Core, Quiet;
    SetQuiet(s, r, s.current, Blocked, t);
    if relock.Some? {
      InvMutex(r);
      UnlockQuiet(r, relock.value, t);
      QuietTrans(s, r, Unlock(r, relock.value), t);
    }
  }

  lemma InvMutex(s: State)
    requires Core(s)
    ensures MutexOk(s) && WaitOk(s)
  {}

  lemma BlockRetval(s: State, c: Cv, relock: Option<nat>)
    ensures Block(s.(cond := s.cond[c := Waiters(s, c) + [s.current]]), Waiting(c, relock)).retval == s.retval
  {}

  lemma JoinQuiet(s: State, x: nat, t: nat)
    requires Core(s) && AtRest(s) && s.current != s.idle
    ensures Quiet(s, Join(s, x), t)
  {
    if Stat(s, x) == Dead {
      JoinedIs(s, Join(s, x));
      hide Stat, Core;
      SameQuiet(s, Join(s, x), t);
    } else {
      WaitQuiet(s, OfThread(x), None, t);
    }
  }

  lemma WokenQuiet(s: State, t: nat)
    requires Core(s) && Awake(s) && At(s, s.current).Waiting?
    ensures Quiet(s, Woken(s), t)
  {
    var r := s.(pc := s.pc[s.current := Running]);
    PcIs(s, Running);
    OutOfWait(s);
    hide Lock, Join, Quiet, Core;
    SameQuiet(s, r, t);
    if At(s, s.current).c.OfThread? {
      JoinQuiet(r, At(s, s.current).c.thread, t);
      QuietTrans(s, r, Woken(s), t);
    } else if At(s, s.current).relock.Some? {
      LockQuiet(r, At(s, s.current).relock.value, t);
      QuietTrans(s, r, Woken(s), t);
    }
  }

  lemma NotifyQuiet(s: State, c: Cv, t: nat)
    requires WaitOk(s)
    ensures Quiet(s, NotifyOne(s, c), t)
  {
    if Waiters(s, c) != [] {
      HeadWaits(s, c);
      NotifyIs(s, c);
      hide NotifyOne;
      SetQuiet(s, NotifyOne(s, c), Waiters(s, c)[0], Active, t);
    }
  }

  lemma WakeNextQuiet(s: State, t: nat)
    requires WaitOk(s) && Awake(s) && At(s, s.current).Waking?
    ensures Quiet(s, WakeNext(s), t)
  {
    var rest := At(s, s.current).rest;
    WakeNextCases(s, rest);
    PcIs(s, Running);
    if rest != [] {
      WakeNextIs(s, rest);
      assert InRest(s, s.current, rest[0]) && Stat(s, rest[0]) == Blocked;
    }
    hide WakeNext, Wake, WaitOk, At, Quiet;
    if rest == [] {
      SameQuiet(s, WakeNext(s), t);
    } else {
      SetQuiet(s, WakeNext(s), rest[0], Active, t);
    }
  }

  /** Every step but a tick or a call of schedule leaves dead and finished threads as they are. */
  lemma OthersQuiet(s: State, a: Action, t: nat)
    requires Core(s) && Can(s, a) && !a.ATick? && !a.ATickBusy? && !a.AYield? && a != ADestroy(t)
    ensures Stat(Do(s, a), t) == Dead <==> Stat(s, t) == Dead
    ensures Stat(s, t) == Finished || Stat(s, t) == Dead ==> Quiet(s, Do(s, a), t)
  {
    hide Core, Can, Do, Stat;
    if a.ACreate? || a.AStart? || a.AExit? || a.ADestroy? { ThreadQuiet(s, a, t); } else { SyncQuiet(s, a, t); }
  }

  lemma ThreadQuiet(s: State, a: Action, t: nat)
    requires Core(s) && Can(s, a) && (a.ACreate? || a.AStart? || a.AExit? || a.ADestroy?) && a != ADestroy(t)
    ensures Stat(Do(s, a), t) == Dead <==> Stat(s, t) == Dead
    ensures Stat(s, t) == Finished || Stat(s, t) == Dead ==> Quiet(s, Do(s, a), t)
  {
    hide Exit, Wake, Core, Stat, At, Quiet;
    match a
    case ACreate(x) => CreateQuiet(s, x, t);
    case AStart(x) => WakeIs(s, x); SetQuiet(s, Wake(s, x), x, Active, t)
    by { WakeRet(s, x); } QuietDead(s, Wake(s, x), t);
    case AExit(ret) => ExitQuiet(s, ret, t);
    case ADestroy(x) => DestroyQuiet(s, x, t);
    case _ =>
  }

  lemma QuietDead(s: State, u: State, t: nat)
    requires Quiet(s, u, t)
    ensures Stat(u, t) == Dead <==> Stat(s, t) == Dead
  {
    hide Stat;
  }

  lemma CreateQuiet(s: State, x: nat, t: nat)
    requires Stat(s, x) == Gone
    ensures var u := s.(status := s.status[x := New]); (Stat(u, t) == Dead <==> Stat(s, t) == Dead) && Quiet(s, u, t)
  {
    CreateIs(s, x);
    hide Stat;
  }

  lemma ExitQuiet(s: State, ret: int, t: nat)
    requires Stat(s, s.current) == Active
    ensures var u := Exit(s, ret);
            (Stat(u, t) == Dead <==> Stat(s, t) == Dead)
            && (Stat(s, t) == Finished || Stat(s, t) == Dead ==> Quiet(s, u, t))
  {
    ExitIs(s, ret);
    ExitRetval(s, ret);
    hide Exit, Stat;
  }

  lemma DestroyQuiet(s: State, x: nat, t: nat)
    requires x != t
    ensures var u := s.(status := s.status - {x}); (Stat(u, t) == Dead <==> Stat(s, t) == Dead) && Quiet(s, u, t)
  {
    DestroyIs(s, x);
    hide Stat;
  }

  lemma SyncQuiet(s: State, a: Action, t: nat)
    requires Core(s) && Can(s, a) && !a.ATick? && !a.ATickBusy? && !a.AYield?
    requires !(a.ACreate? || a.AStart? || a.AExit? || a.ADestroy?)
    ensures Quiet(s, Do(s, a), t)
  {
    CoreParts(s);
    hide Lock, Relock, Unlock, Wait, Join, Woken, NotifyOne, NotifyAll, WakeNext, Core, MutexOk, WaitOk, StatusOk;
    hide Stat, At, Queue, Waiters, Quiet;
    match a
    case ALock(m) => LockQuiet(s, m, t);
    case ARelock => RelockQuiet(s, At(s, s.current).m, t);
    case AUnlock(m) => UnlockQuiet(s, m, t);
    case AWait(c, relock) => WaitQuiet(s, c, relock, t);
    case AJoin(x) => JoinQuiet(s, x, t);
    case AWoken => WokenQuiet(s, t);
    case ANotifyOne(c) => NotifyQuiet(s, c, t);
    case AInterrupt(c) => NotifyQuiet(s, c, t);
    case ANotifyAll(c) => NotifyAllIs(s, c); AllRet(s, c); SameQuiet(s, NotifyAll(s, c), t);
    case AWakeNext => WakeNextQuiet(s, t);
    case _ =>
  }

  lemma RelockQuiet(s: State, m: nat, t: nat)
    requires MutexOk(s) && Awake(s) && At(s, s.current) == Locking(m)
    ensures Quiet(s, Relock(s, m), t)
  {
    OneTurn(s, m);
    RelockIs(s, m);
    RelockRet(s, m);
    hide Relock;
    SameQuiet(s, Relock(s, m), t);
  }

  lemma ExitRetval(s: State, ret: int)
    ensures Exit(s, ret).retval == s.retval[s.current := ret]
  {}

  lemma TickQuiet(s: State, t: nat)
    requires Core(s)
    ensures var u := Tick(s);
            && (Stat(u, t) == Dead && Stat(s, t) != Dead ==> t == s.current && Stat(s, t) == Finished && u.current != t)
            && (Stat(s, t) == Dead ==> Stat(u, t) == Dead)
            && (Stat(s, t) == Finished ==> Stat(u, t) == Finished || Stat(u, t) == Dead)
            && u.retval == s.retval
  {
    hide Core, Schedule;
    var n := if s.remained > 0 then s.remained - 1 else s.remained;
    RemainedBound(s);
    RemainedKeeps(s, n);
    RemainedIs(s, n);
    hide Stat;
    ScheduleStat(s.(remained := n), t);
  }

  /** A thread dies only when it had finished on the CPU, and by the hand of a successor that
      already runs on another stack. */
  lemma DeathBySuccessor(s: State, a: Action, t: nat)
    requires Inv(s) && Can(s, a) && Stat(s, t) != Dead && Stat(Do(s, a), t) == Dead
    ensures Stat(s, t) == Finished && s.current == t && Do(s, a).current != t
  {
    hide Core, Schedule, Tick, Lock, Relock, Unlock, Wait, Join, Woken, NotifyOne, NotifyAll, WakeNext, Exit, Wake;
    match a
    case ATick => TickQuiet(s, t);
    case ATickBusy => BusyIs(s);
    case AYield => ScheduleStat(s, t);
    case ADestroy(x) => DestroyIs(s, x);
    case _ => if a != ADestroy(t) { OthersQuiet(s, a, t); }
  }

  /** From its exit on, a thread is finished or dead and its return value stands, until it is
      destroyed. */
  predicate Over(s: State, t: nat, ret: int) {
    (Stat(s, t) == Finished || Stat(s, t) == Dead) && t in s.retval && s.retval[t] == ret
  }

  lemma OverStep(s: State, a: Action, t: nat, ret: int)
    requires Inv(s) && Can(s, a) && Over(s, t, ret) && a != ADestroy(t)
    ensures Over(Do(s, a), t, ret) && (Stat(s, t) == Dead ==> Stat(Do(s, a), t) == Dead)
  {
    hide Core, Schedule, Tick, Lock, Relock, Unlock, Wait, Join, Woken, NotifyOne, NotifyAll, WakeNext, Exit, Wake;
    match a
    case ATick => TickQuiet(s, t);
    case ATickBusy => BusyIs(s);
    case AYield => ScheduleStat(s, t);
    case _ => OthersQuiet(s, a, t);
  }

  lemma {:induction false} OverRun(s: State, acts: seq<Action>, end: State, t: nat, ret: int)
    requires Inv(s) && Run(s, acts, end) && Over(s, t, ret) && ADestroy(t) !in acts
    ensures Inv(end) && Over(end, t, ret) && (Stat(s, t) == Dead ==> Stat(end, t) == Dead)
    decreases |acts|
  {
    hide Core, JoinOk, Can, Do, Over, Stat;
    if acts != [] {
      assert acts[0] in acts && forall x :: x in acts[1..] ==> x in acts;
      StepKeeps(s, acts[0]);
      OverStep(s, acts[0], t, ret);
      OverRun(Do(s, acts[0]), acts[1..], end, t, ret);
    }
  }

  /** The step is the running thread's loop test in thread_join(t): the first, or after a wait. */
  predicate Tests(s: State, a: Action, t: nat) {
    a == AJoin(t) || (a == AWoken && Joining(s, s.current, t))
  }

  /** The running thread has returned from thread_join with this value. */
  predicate Returned(s: State, ret: int) {
    AtRest(s) && s.current in s.joined && s.joined[s.current] == ret
  }

  lemma TestsJoin(s: State, a: Action, t: nat)
    requires Can(s, a) && Tests(s, a, t)
    ensures a == AJoin(t) ==> AtRest(s) && Do(s, a) == Join(s, t)
    ensures a != AJoin(t) ==> Awake(s) && Joining(s, s.current, t)
    ensures a != AJoin(t) ==>
              var u := s.(pc := s.pc[s.current := Running]); AtRest(u) && Stat(u, t) == Stat(s, t)
                                                             && Do(s, a) == Join(u, t)
  {
    hide Join;
  }

  lemma JoinReturns(s: State, t: nat)
    requires AtRest(s) && Stat(s, t) == Dead && t in s.retval
    ensures Returned(Join(s, t), s.retval[t])
  {}

  /** What thread_exit left, every later thread_join returns: its test goes through exactly when
      the thread is dead, and a test after a wait always does. */
  lemma JoinValue(s: State, acts: seq<Action>, end: State, t: nat, ret: int, a: Action)
    requires Inv(s) && Run(s, acts, end) && Over(s, t, ret) && ADestroy(t) !in acts
    requires Can(end, a) && Tests(end, a, t)
    ensures Stat(end, t) == Dead ==> Returned(Do(end, a), ret)
    ensures Stat(end, t) != Dead ==> a == AJoin(t) && end.current in Waiters(Do(end, a), OfThread(t))
  {
    hide *;
    OverRun(s, acts, end, t, ret);
    OverIs(end, t, ret);
    TestsJoin(end, a, t);
    if Stat(end, t) == Dead {
      var u := if a == AJoin(t) then end else end.(pc := end.pc[end.current := Running]);
      JoinReturns(u, t);
    } else {
      if a != AJoin(t) { JoinOnce(end, t); }
      JoinWaits(end, t);
    }
  }

  lemma OverIs(s: State, t: nat, ret: int)
    requires Over(s, t, ret)
    ensures t in s.retval && s.retval[t] == ret
  {}

  lemma JoinWaits(s: State, t: nat)
    requires Stat(s, t) != Dead
    ensures s.current in Waiters(Join(s, t), OfThread(t))
  {
    EnqueueIs(s, OfThread(t), None);
    hide Waiters, Block;
  }

  /** A joiner that runs again finds its thread dead: the loop of thread_join never waits twice. */
  lemma JoinOnce(s: State, t: nat)
    requires Inv(s) && Awake(s) && Joining(s, s.current, t)
    ensures Stat(s, t) == Dead
  {
    hide Core, At, Waiters;
  }

  /** The death of a thread wakes whoever is in thread_join for it. */
  lemma DeathWakesJoiner(s: State, a: Action, t: nat, x: nat)
    requires Inv(s) && Can(s, a) && Stat(s, t) != Dead && Stat(Do(s, a), t) == Dead && Joining(s, x, t)
    ensures Stat(s, x) == Blocked && x in Waiters(s, OfThread(t))
    ensures Stat(Do(s, a), x) == Active && Waiters(Do(s, a), OfThread(t)) == []
  {
    hide Core, JoinOk, Can, Do, Stat, At, Waiters;
    JoinerWaits(s, x, t);
    StepKeeps(s, a);
    DeadEmpty(Do(s, a), t);
    DeathPc(s, a, t);
    SameJoin(s, Do(s, a), x, t);
    JoinerWaits(Do(s, a), x, t);
  }

  lemma SameJoin(s: State, u: State, x: nat, t: nat)
    requires u.pc == s.pc
    ensures Joining(u, x, t) == Joining(s, x, t)
  {}

  /** A joiner is queued for its thread, or runs again. */
  lemma JoinerWaits(s: State, x: nat, t: nat)
    requires Inv(s) && Joining(s, x, t)
    ensures Stat(s, x) == Active || (Stat(s, x) == Blocked && x in Waiters(s, OfThread(t)))
    ensures Stat(s, x) == Active ==> Stat(s, t) == Dead
  {
    hide Stat, At, Waiters, MutexOk, HistoryOk, ReadyOk;
    NotPending(s, x, t);
  }

  lemma NotPending(s: State, x: nat, t: nat)
    requires JoinOk(s) && Joining(s, x, t)
    ensures !Pending(s, x)
  {
    hide Stat, At, Waiters;
  }

  /** A thread dies in a switch, which moves no program counter. */
  lemma DeathPc(s: State, a: Action, t: nat)
    requires Inv(s) && Can(s, a) && Stat(s, t) != Dead && Stat(Do(s, a), t) == Dead
    ensures Do(s, a).pc == s.pc
  {
    DeathInSwitch(s, a, t);
    SwitchPc(s);
    SwitchPc(s.(remained := if s.remained > 0 then s.remained - 1 else s.remained));
    hide Inv, Schedule, Stat;
  }

  lemma DeathInSwitch(s: State, a: Action, t: nat)
    requires Inv(s) && Can(s, a) && Stat(s, t) != Dead && Stat(Do(s, a), t) == Dead
    ensures a.ATick? || a.AYield?
  {
    hide Core, Stat, At, Waiters, Schedule, Tick, Lock, Relock, Unlock, Wait, Join, Woken, NotifyOne, NotifyAll;
    hide WakeNext, Exit, Wake;
    match a
    case ATick =>
    case ATickBusy => BusyIs(s); RemainedIs(s, if s.remained > 0 then s.remained - 1 else s.remained);
    case AYield =>
    case ADestroy(x) => DestroyIs(s, x);
    case _ => OthersQuiet(s, a, t);
  }

  lemma SwitchPc(s: State)
    ensures Schedule(s).pc == s.pc
  {
    hide Schedule, Stat, Waiters;
    var r, next := ScheduleIs(s);
  }

  lemma ExitIsOver(s: State, ret: int)
    requires Inv(s) && Can(s, AExit(ret))
    ensures Over(Do(s, AExit(ret)), s.current, ret)
  {}

  /** Freeing a dead thread's stack is safe: the thread is not running, not queued anywhere,
      not about to be woken, owns no mutex, and nobody sleeps in a join for it. */
  lemma DeadIsGone(s: State, t: nat)
    requires Inv(s) && Stat(s, t) == Dead
    ensures t != s.current && t !in s.ready && (forall m :: t !in Queue(s, m)) && (forall c :: t !in Waiters(s, c))
    ensures !Pending(s, t) && forall m :: m in s.owner ==> s.owner[m] != t
    ensures Waiters(s, OfThread(t)) == []
  {
    hide Core, JoinOk, Queue, Waiters, Stat, At;
    DeadElsewhere(s, t);
    DeadEmpty(s, t);
  }

  lemma DeadElsewhere(s: State, t: nat)
    requires Core(s) && Stat(s, t) == Dead
    ensures t != s.current && t !in s.ready && (forall m :: t !in Queue(s, m)) && (forall c :: t !in Waiters(s, c))
    ensures !Pending(s, t) && forall m :: m in s.owner ==> s.owner[m] != t
  {
    hide Queue, Waiters, Stat, At, HistoryOk;
    if n :| InRest(s, n, t) {}
  }

  lemma HeadIn(q: seq<nat>)
    ensures q == [] || q[0] in q
  {}

  lemma DeadEmpty(s: State, t: nat)
    requires JoinOk(s) && Stat(s, t) == Dead
    ensures Waiters(s, OfThread(t)) == []
  {
    hide Stat, Waiters;
    HeadIn(Waiters(s, OfThread(t)));
  }

  // ---- mutual exclusion and wakeups ----

  /** At most one thread is past mutex_lock, and it is the owner. */
  lemma MutualExclusion(s: State, m: nat, t: nat, u: nat)
    requires Inv(s) && t in Inside(s, m) && u in Inside(s, m)
    ensures t == u && Owns(s, m, t)
  {
    hide Queue, Inside, Queued, Handed, MutexOk, WaitOk, ReadyOk, StatusOk;
  }

  /** Unlock hands the mutex over in the order in which mutex_lock queued the waiters. */
  lemma HandoffInOrder(s: State, m: nat)
    requires Inv(s)
    ensures Handed(s, m) <= Queued(s, m)
    ensures Queue(s, m) != [] && !Owns(s, m, Queue(s, m)[0]) ==> Queued(s, m) == Handed(s, m) + Queue(s, m)
  {
    hide Queue, Inside, Queued, Handed, MutexOk, WaitOk, ReadyOk, StatusOk;
  }

  /** A blocked thread is where exactly one future event finds it: in the queue of a mutex that a
      live thread owns, in a condition's queue, waiting for a thread that is still to die, or on
      the list of a notifier that is still running. */
  lemma NoLostWakeup(s: State, t: nat)
    requires Inv(s) && Stat(s, t) == Blocked
    ensures t !in s.ready
    ensures OnMutex(s, t) || OnCondition(s, t) || OnThread(s, t) || OnNotifier(s, t)
    ensures !(OnMutex(s, t) && (OnCondition(s, t) || OnThread(s, t) || OnNotifier(s, t)))
    ensures !(OnNotifier(s, t) && (OnCondition(s, t) || OnThread(s, t))) && !(OnCondition(s, t) && OnThread(s, t))
  {
    hide Queue, Waiters, Stat, HistoryOk, At;
    if At(s, t).Locking? {
      var m := At(s, t).m;
      assert t in Queue(s, m);
      assert m in s.owner && s.owner[m] != t;
    } else if Pending(s, t) {
      var n :| InRest(s, n, t);
      assert Stat(s, n) == Active;
    } else {
      var c := At(s, t).c;
      assert t in Waiters(s, c);
      if c.OfThread? {
        assert Joining(s, t, c.thread);
        assert t in Waiters(s, OfThread(c.thread));
      } else {
        assert t in Waiters(s, Own(c.id));
      }
    }
  }

  /** Its owner, who is alive, will hand the mutex on. */
  ghost predicate OnMutex(s: State, t: nat) {
    exists m :: t in Queue(s, m) && m in s.owner && s.owner[m] != t
                && (Stat(s, s.owner[m]) == Active || Stat(s, s.owner[m]) == Blocked)
  }

  ghost predicate OnCondition(s: State, t: nat) {
    exists k :: t in Waiters(s, Own(k))
  }

  ghost predicate OnThread(s: State, t: nat) {
    exists x :: t in Waiters(s, OfThread(x)) && Stat(s, x) != Dead && Stat(s, x) != Gone
  }

  ghost predicate OnNotifier(s: State, t: nat) {
    exists n :: InRest(s, n, t) && Stat(s, n) == Active
  }
}
