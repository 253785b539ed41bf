/** Joining threads, and every step and run of the thread system together. */
module ThreadRuns {
  import opened Threads
  import opened ThreadSteps
  import opened ThreadLocks

  // ---- what a step does to the joiners ----

  ghost predicate SameJoiners(s: State, u: State) { forall t :: Waiters(u, OfThread(t)) == Waiters(s, OfThread(t)) }

  /** Thread `x` changes its status and thread `y` moves on; nobody begins or ends a join, dies
      or is destroyed. */
  lemma JoinFrame(s: State, u: State, x: nat, st: Status, y: nat, pc: Pc)
    requires JoinOk(s) && SetStat(s, u, x, st) && SetPc(s, u, y, pc) && SameJoiners(s, u)
    requires st == Stat(s, x)
             || (st != Dead && st != Gone && Stat(s, x) != Dead && (st == Blocked || forall t :: !Joining(u, x, t)))
    requires pc == At(s, y) || (forall t :: !(pc.Waiting? && pc.c == OfThread(t)))
    requires pc == At(s, y) || (pc.Waking? ==> forall r, t :: r in pc.rest && r != y ==> !Joining(s, r, t))
    requires s.retval.Keys <= u.retval.Keys && (st == Finished || st == Dead ==> x in u.retval)
    ensures JoinOk(u)
  {
    hide Stat, At, Waiters;
    forall r, t | Joining(u, r, t) ensures Joining(s, r, t) {}
    forall n, r, t | InRest(u, n, r) ensures !Joining(u, r, t) {
      if n != y || pc == At(s, y) { assert InRest(s, n, r); }
    }
  }

  /** Nothing about threads and joiners changes. */
  lemma JoinSame(s: State, u: State)
    requires JoinOk(s) && SameStat(s, u) && SamePc(s, u) && SameJoiners(s, u) && u.retval == s.retval
    ensures JoinOk(u)
  {
    hide Stat, At, Waiters;
    forall n, r ensures InRest(u, n, r) == InRest(s, n, r) {}
    forall r, t ensures Joining(u, r, t) == Joining(s, r, t) {}
  }

  lemma AtSelf(s: State, u: State)
    requires SamePc(s, u)
    ensures SetPc(s, u, s.current, At(s, s.current))
  {}

  lemma OwnJoiners(s: State, u: State, c: Cv, q: seq<nat>)
    requires c.Own? && SetWaiters(s, u, c, q)
    ensures SameJoiners(s, u)
  {
    hide Waiters;
  }

  // ---- death ----

  /** At most one thread is queued for a join. */
  lemma OneJoiner(s: State, t: nat)
    requires WaitOk(s) && JoinOk(s)
    ensures |Waiters(s, OfThread(t))| <= 1
    ensures forall x :: x in Waiters(s, OfThread(t)) ==> Joining(s, x, t)
  {
    var q := Waiters(s, OfThread(t));
    hide Stat, At, Waiters;
    forall x | x in q ensures Joining(s, x, t) {}
    if |q| > 1 { JoinersEqual(s, t, q); }
  }

  lemma JoinersEqual(s: State, t: nat, q: seq<nat>)
    requires JoinOk(s) && |q| > 1 && forall x :: x in q ==> Joining(s, x, t)
    ensures q[0] == q[1]
  {
    assert q[0] in q && q[1] in q;
    assert Joining(s, q[0], t) && Joining(s, q[1], t);
  }

  /** The death step: the thread's only joiner, if any, is woken. */
  lemma DeathJoin(s: State, d: State, u: State, x: nat)
    requires WaitOk(s) && JoinOk(s) && Stat(s, x) == Finished && At(s, x) == Running
    requires SetStat(s, d, x, Dead) && SamePc(s, d) && SameWaiters(s, d) && d.retval == s.retval
    requires Waiters(s, OfThread(x)) == [] ==> SameStat(d, u) && SameWaiters(d, u)
    requires Waiters(s, OfThread(x)) != [] ==>
               SetStat(d, u, Waiters(s, OfThread(x))[0], Active)
               && SetWaiters(d, u, OfThread(x), Waiters(s, OfThread(x))[1..])
    requires SamePc(d, u) && u.retval == s.retval
    ensures JoinOk(u) && Waiters(u, OfThread(x)) == []
  {
    OneJoiner(s, x);
    var q := Waiters(s, OfThread(x));
    hide Stat, At, Waiters;
    forall n, r ensures InRest(u, n, r) == InRest(s, n, r) {}
    forall r, t ensures Joining(u, r, t) == Joining(s, r, t) {}
    if q != [] {
      assert q[0] in q && q[1..] == [];
      assert Stat(s, q[0]) == Blocked;
    }
  }

  lemma PlaceJoin(s: State, r: State, next: nat)
    requires Core(s) && JoinOk(s) && r == s.(ready := r.ready)
    ensures JoinOk(Place(r, next))
    ensures Stat(s, s.current) == Finished ==> Waiters(Place(r, next), OfThread(s.current)) == []
  {
    hide Stat, At, Queue, Waiters, Queued, Handed, Inside, ReadyOk, MutexOk, HistoryOk, WaitOk, NotifyOne, Place;
    hide JoinOk;
    PlaceIs(r, next);
    ReadyIs(s, r.ready);
    var x := s.current;
    if Stat(s, x) != Finished {
      CurrentIs(r, next);
      JoinersSame(s, r, Place(r, next));
      JoinSame(s, Place(r, next));
    } else {
      var d := r.(status := r.status[x := Dead]);
      DeadIs(r, x);
      var v := NotifyOne(d, OfThread(x));
      var u := v.(current := next, remained := TIMESLICE);
      assert Place(r, next) == u;
      NotifyHere(d, OfThread(x));
      CurrentIs(v, next);
      SameTwice(s, r, d);
      DeathJoin(s, d, v, x);
      JoinersSame(v, v, u);
      JoinSame(v, u);
    }
  }

  lemma JoinersSame(s: State, r: State, u: State)
    requires SameStat(s, r) && SamePc(s, r) && SameWaiters(s, r) && SameStat(r, u) && SamePc(r, u) && SameWaiters(r, u)
    ensures SameStat(s, u) && SamePc(s, u) && SameJoiners(s, u) && SameWaiters(s, u)
  {
    hide Stat, At, Waiters;
  }

  lemma SameTwice(s: State, r: State, d: State)
    requires SameStat(s, r) && SamePc(s, r) && SameWaiters(s, r)
    requires SetStat(r, d, s.current, Dead) && SamePc(r, d) && SameWaiters(r, d)
    ensures SetStat(s, d, s.current, Dead) && SamePc(s, d) && SameWaiters(s, d)
  {
    hide Stat, At, Waiters;
  }

  lemma NotifyHere(s: State, c: Cv)
    ensures var u := NotifyOne(s, c);
            && SamePc(s, u) && u.retval == s.retval
            && (Waiters(s, c) == [] ==> SameStat(s, u) && SameWaiters(s, u))
            && (Waiters(s, c) != [] ==>
                  SetStat(s, u, Waiters(s, c)[0], Active) && SetWaiters(s, u, c, Waiters(s, c)[1..]))
  {
    if Waiters(s, c) != [] { NotifyIs(s, c); }
  }

  lemma ScheduleJoin(s: State)
    requires Core(s) && JoinOk(s)
    ensures JoinOk(Schedule(s))
  {
    hide Core, JoinOk, Place, Stat, Schedule;
    var r, next := ScheduleIs(s);
    PlaceJoin(s, r, next);
  }

  lemma ScheduleIs(s: State) returns (r: State, next: nat)
    ensures r == s.(ready := r.ready) && (Schedule(s) == s || Schedule(s) == Place(r, next))
  {
    hide Place, Stat;
    if s.ready == [] && Stat(s, s.current) == Active {
      r, next := s, s.current;
    } else {
      next := if s.ready != [] then s.ready[0] else s.idle;
      var rest := if s.ready != [] then s.ready[1..] else [];
      r := s.(ready := if Stat(s, s.current) == Active && s.current != s.idle then rest + [s.current] else rest);
    }
  }

  lemma RemainedJoin(s: State, n: nat)
    requires JoinOk(s)
    ensures JoinOk(s.(remained := n))
  {
    RemainedIs(s, n);
    hide Stat, At, Waiters, JoinOk;
    JoinSame(s, s.(remained := n));
  }

  lemma TickJoin(s: State)
    requires Core(s) && JoinOk(s)
    ensures JoinOk(Tick(s))
  {
    hide Core, Schedule, JoinOk;
    var n := if s.remained > 0 then s.remained - 1 else s.remained;
    CoreParts(s);
    RemainedKeeps(s, n);
    RemainedJoin(s, n);
    ScheduleJoin(s.(remained := n));
  }

  lemma CoreParts(s: State)
    requires Core(s)
    ensures s.remained <= TIMESLICE && MutexOk(s) && WaitOk(s) && StatusOk(s)
  {}

  // ---- threads ----

  lemma CreateJoin(s: State, t: nat)
    requires Core(s) && JoinOk(s) && Stat(s, t) == Gone
    ensures JoinOk(s.(status := s.status[t := New]))
  {
    var u := s.(status := s.status[t := New]);
    CreateIs(s, t);
    AtSelf(s, u);
    CoreParts(s);
    GoneRests(s, t);
    hide At, Waiters, Core, WaitOk, MutexOk;
    JoinFrame(s, u, t, New, s.current, At(s, s.current));
  }

  lemma GoneRests(s: State, t: nat)
    requires StatusOk(s) && Stat(s, t) in {Gone, New, Finished, Dead}
    ensures forall x :: !Joining(s, t, x)
  {}

  lemma StartJoin(s: State, t: nat)
    requires Core(s) && JoinOk(s) && Stat(s, t) == New
    ensures JoinOk(Wake(s, t))
  {
    var u := Wake(s, t);
    WakeIs(s, t);
    AtSelf(s, u);
    CoreParts(s);
    GoneRests(s, t);
    hide At, Waiters, Core, WaitOk, MutexOk;
    JoinFrame(s, u, t, Active, s.current, At(s, s.current));
  }

  lemma ExitJoin(s: State, ret: int)
    requires JoinOk(s) && AtRest(s)
    ensures JoinOk(Exit(s, ret))
  {
    var u := Exit(s, ret);
    ExitIs(s, ret);
    AtSelf(s, u);
    hide At, Waiters;
    JoinFrame(s, u, s.current, Finished, s.current, At(s, s.current));
  }

  lemma DestroyJoin(s: State, t: nat)
    requires WaitOk(s) && JoinOk(s) && Stat(s, t) == Dead && NobodyJoins(s, t)
    ensures JoinOk(s.(status := s.status - {t}))
  {
    var u := s.(status := s.status - {t});
    DestroyIs(s, t);
    NobodyIs(s, t);
    hide Stat, At, Waiters, NobodyJoins;
    forall n, r ensures InRest(u, n, r) == InRest(s, n, r) {}
    forall r, x ensures Joining(u, r, x) == Joining(s, r, x) {}
    forall r, x | Joining(u, r, x) ensures Stat(u, x) != Gone && (Stat(u, r) == Blocked || Stat(u, x) == Dead) {
      assert x != t;
      assert Stat(s, r) == Blocked || Stat(s, x) == Dead;
      if r == t { assert Stat(s, r) == Dead; }
    }
  }

  lemma NobodyIs(s: State, t: nat)
    ensures NobodyJoins(s, t) <==> forall x :: !Joining(s, x, t)
  {}

  // ---- locks ----

  lemma LockJoin(s: State, m: nat)
    requires JoinOk(s) && AtRest(s)
    ensures JoinOk(Lock(s, m))
  {
    var u, t := Lock(s, m), s.current;
    LockRet(s, m);
    if m !in s.owner {
      LockFastIs(s, m);
      hide At, Waiters, Lock, Queue, Queued, Handed, Inside;
      SetSame(s, u, t, Active);
      JoinFrame(s, u, t, Active, t, Running);
    } else if s.owner[m] != t {
      LockSlowIs(s, m);
      hide At, Waiters, Lock, Queue, Queued, Handed, Inside;
      JoinFrame(s, u, t, Blocked, t, Locking(m));
    }
  }

  lemma LockRet(s: State, m: nat)
    ensures Lock(s, m).retval == s.retval
  {
    hide Queue, Queued, Inside, Block;
    BlockRet(s.(wait := s.wait[m := Queue(s, m) + [s.current]], queued := s.queued[m := Queued(s, m) + [s.current]]),
             Locking(m));
  }

  lemma BlockRet(s: State, pc: Pc)
    ensures var u := Block(s, pc);
            u.retval == s.retval && u.current == s.current && u.remained == s.remained && u.ready == s.ready
  {}

  lemma RelockRet(s: State, m: nat)
    requires Owns(s, m, s.current)
    ensures Relock(s, m).retval == s.retval
  {
    hide Queue, Inside, RemoveAll, Block;
  }

  lemma RelockJoin(s: State, m: nat)
    requires Core(s) && JoinOk(s) && Awake(s) && At(s, s.current) == Locking(m)
    ensures JoinOk(Relock(s, m))
  {
    var u, t := Relock(s, m), s.current;
    CoreParts(s);
    OneTurn(s, m);
    RelockIs(s, m);
    RelockRet(s, m);
    hide At, Waiters, Relock, Queue, Queued, Handed, Inside, Core, MutexOk, WaitOk;
    SetSame(s, u, t, Active);
    JoinFrame(s, u, t, Active, t, Running);
  }

  lemma UnlockRet(s: State, m: nat)
    ensures Unlock(s, m).retval == s.retval
  {
    hide Queue, Handed, Inside, Wake;
    var out := s.(inside := s.inside[m := Inside(s, m) - {s.current}]);
    if Queue(s, m) != [] {
      var w := Queue(s, m)[0];
      WakeRet(out.(owner := s.owner[m := w], handed := s.handed[m := Handed(s, m) + [w]]), w);
    }
  }

  lemma UnlockJoin(s: State, m: nat)
    requires MutexOk(s) && JoinOk(s) && Owns(s, m, s.current) && !At(s, s.current).Locking?
    ensures JoinOk(Unlock(s, m))
  {
    var u := Unlock(s, m);
    UnlockRet(s, m);
    if Queue(s, m) != [] {
      HeadBlocked(s, m);
      UnlockIs(s, m);
      AtSelf(s, u);
      hide At, Waiters, Unlock, Queue, Queued, Handed, Inside, MutexOk;
      JoinFrame(s, u, Queue(s, m)[0], Active, s.current, At(s, s.current));
    } else {
      UnlockFreeIs(s, m);
      hide At, Waiters, Unlock, Queue, Queued, Handed, Inside, MutexOk;
      JoinSame(s, u);
    }
  }

  // ---- conditions ----

  lemma EnqueueRet(s: State, c: Cv, relock: Option<nat>)
    ensures Block(s.(cond := s.cond[c := Waiters(s, c) + [s.current]]), Waiting(c, relock)).retval == s.retval
  {}

  lemma WaitJoin(s: State, c: Cv, relock: Option<nat>)
    requires Core(s) && JoinOk(s) && AtRest(s) && s.current != s.idle
    requires (relock.Some? ==> Owns(s, relock.value, s.current)) && c.Own?
    ensures JoinOk(Wait(s, c, relock))
  {
    var u, t := Block(s.(cond := s.cond[c := Waiters(s, c) + [s.current]]), Waiting(c, relock)), s.current;
    EnqueueIs(s, c, relock);
    EnqueueKeeps(s, c, relock);
    EnqueueRet(s, c, relock);
    CoreParts(u);
    hide At, Waiters, Unlock, Block, Core, MutexOk, WaitOk;
    OwnJoiners(s, u, c, Waiters(s, c) + [t]);
    JoinFrame(s, u, t, Blocked, t, Waiting(c, relock));
    if relock.Some? { UnlockJoin(u, relock.value); }
  }

  lemma RunnerNotInRest(s: State)
    requires WaitOk(s) && AtRest(s)
    ensures forall n :: !InRest(s, n, s.current)
  {}

  /** A thread begins to wait for `t`, which is not dead and for which nobody else waits. */
  lemma JoinEnqueue(s: State, u: State, t: nat)
    requires WaitOk(s) && JoinOk(s) && AtRest(s) && Stat(s, t) != Dead && Stat(s, t) != Gone
    requires forall x :: !Joining(s, x, t)
    requires SetStat(s, u, s.current, Blocked) && SetPc(s, u, s.current, Waiting(OfThread(t), None))
    requires SetWaiters(s, u, OfThread(t), Waiters(s, OfThread(t)) + [s.current]) && u.retval == s.retval
    ensures JoinOk(u)
  {
    hide Stat, At, Waiters;
    var me := s.current;
    RunnerNotInRest(s);
    forall n, r ensures InRest(u, n, r) ==> InRest(s, n, r) && r != me {}
    forall r, x ensures Joining(u, r, x) <==> Joining(s, r, x) || (r == me && x == t) {}
    forall x, k | x in Waiters(u, OfThread(k)) ensures Stat(u, k) != Dead {
      if x != me || k != t { assert x in Waiters(s, OfThread(k)); }
    }
  }

  lemma JoinJoin(s: State, t: nat)
    requires Core(s) && JoinOk(s) && AtRest(s) && Stat(s, t) != Gone && forall x :: !Joining(s, x, t)
    ensures JoinOk(Join(s, t))
  {
    if Stat(s, t) == Dead {
      var u := Join(s, t);
      JoinedIs(s, u);
      hide Stat, At, Waiters, Core;
      JoinSame(s, u);
    } else {
      EnqueueIs(s, OfThread(t), None);
      EnqueueRet(s, OfThread(t), None);
      CoreParts(s);
      hide Stat, At, Waiters, Core, Block, WaitOk, MutexOk;
      JoinEnqueue(s, Wait(s, OfThread(t), None), t);
    }
  }

  lemma WokenJoin(s: State)
    requires Core(s) && JoinOk(s) && Awake(s) && At(s, s.current).Waiting?
    ensures JoinOk(Woken(s))
  {
    var u, me := s.(pc := s.pc[s.current := Running]), s.current;
    OutOfWait(s);
    PcIs(s, Running);
    SetSame(s, u, me, Active);
    JoinFrame(s, u, me, Active, me, Running);
    hide Core, JoinOk, Lock, Join, Awake, Stat;
    if At(s, me).c.OfThread? {
      JoinLeft(s, u);
      JoinJoin(u, At(s, me).c.thread);
    } else if At(s, me).relock.Some? {
      LockJoin(u, At(s, me).relock.value);
    }
  }

  lemma JoinLeft(s: State, u: State)
    requires JoinOk(s) && SetPc(s, u, s.current, Running) && SameStat(s, u) && At(s, s.current).Waiting?
    requires At(s, s.current).c.OfThread?
    ensures var t := At(s, s.current).c.thread; Stat(u, t) != Gone && forall x :: !Joining(u, x, t)
  {
    hide Stat, At, Waiters;
    var t := At(s, s.current).c.thread;
    assert Joining(s, s.current, t);
    forall x ensures !Joining(u, x, t) {
      assert Joining(u, x, t) ==> Joining(s, x, t);
    }
  }

  lemma NotifyJoin(s: State, c: Cv)
    requires WaitOk(s) && JoinOk(s) && c.Own?
    ensures JoinOk(NotifyOne(s, c))
  {
    if Waiters(s, c) != [] {
      var u, h := NotifyOne(s, c), Waiters(s, c)[0];
      NotifyIs(s, c);
      HeadWaits(s, c);
      AtSelf(s, u);
      assert h in Waiters(s, c);
      OwnJoiners(s, u, c, Waiters(s, c)[1..]);
      hide NotifyOne, Waiters, Stat, At;
      JoinFrame(s, u, h, Active, s.current, At(s, s.current));
    }
  }

  lemma NotifyAllJoin(s: State, c: Cv)
    requires WaitOk(s) && JoinOk(s) && c.Own? && AtRest(s)
    ensures JoinOk(NotifyAll(s, c))
  {
    var u, t := NotifyAll(s, c), s.current;
    NotifyAllIs(s, c);
    OwnJoiners(s, u, c, []);
    AllRet(s, c);
    hide NotifyAll, Waiters, At;
    SetSame(s, u, t, Active);
    JoinFrame(s, u, t, Active, t, Waking(Waiters(s, c)));
  }

  lemma AllRet(s: State, c: Cv)
    ensures NotifyAll(s, c).retval == s.retval
  {}

  lemma WakeNextJoin(s: State)
    requires WaitOk(s) && JoinOk(s) && Awake(s) && At(s, s.current).Waking?
    ensures JoinOk(WakeNext(s))
  {
    var u, t, rest := WakeNext(s), s.current, At(s, s.current).rest;
    WakeNextCases(s, rest);
    PcIs(s, Running);
    if rest != [] {
      WakeNextIs(s, rest);
      assert InRest(s, t, rest[0]) && Stat(s, rest[0]) == Blocked;
    }
    hide WakeNext, Wake, WaitOk, At, Waiters;
    if rest == [] {
      SetSame(s, u, t, Active);
      JoinFrame(s, u, t, Active, t, Running);
    } else {
      forall x ensures !Joining(u, rest[0], x) { assert !Joining(s, rest[0], x); }
      forall r | r in rest[1..] ensures InRest(s, t, r) {}
      JoinFrame(s, u, rest[0], Active, t, Waking(rest[1..]));
    }
  }

  // ---- every step, every run ----

  /** The running thread is in no condition's queue. */
  lemma RunnerNotWaiting(s: State, c: Cv)
    requires WaitOk(s) && Awake(s)
    ensures Waiters(s, c) != [] ==> Waiters(s, c)[0] != s.current
  {
    if Waiters(s, c) != [] { HeadWaits(s, c); }
  }

  lemma StepCore(s: State, a: Action)
    requires Core(s) && Can(s, a)
    ensures Core(Do(s, a))
  {
    hide Core, Schedule, Tick, Lock, Relock, Unlock, Wait, Join, Woken, NotifyOne, NotifyAll, WakeNext, Wake, Exit;
    match a
    case ATick => TickKeeps(s);
    case ATickBusy =>
      BusyIs(s);
      RemainedBound(s);
      RemainedKeeps(s, if s.remained > 0 then s.remained - 1 else s.remained);
    case AYield => ScheduleKeeps(s);
    case ACreate(t) => CreateKeeps(s, t);
    case AStart(t) => StartKeeps(s, t);
    case AExit(ret) => ExitKeeps(s, ret);
    case ADestroy(t) => DestroyKeeps(s, t);
    case ALock(m) => LockKeeps(s, m);
    case ARelock => RelockKeeps(s, At(s, s.current).m);
    case AUnlock(m) => UnlockKeeps(s, m);
    case AWait(c, relock) => WaitKeeps(s, c, relock);
    case AJoin(t) => JoinKeeps(s, t);
    case AWoken => WokenKeeps(s);
    case ANotifyOne(c) => NotifyAwake(s, c);
    case AInterrupt(c) => NotifyKeeps(s, c);
    case ANotifyAll(c) => NotifyAllKeeps(s, c);
    case AWakeNext => WakeNextKeeps(s);
  }

  lemma StepJoin(s: State, a: Action)
    requires Core(s) && JoinOk(s) && Can(s, a)
    ensures JoinOk(Do(s, a))
  {
    hide Core, JoinOk, Can, Do;
    if a.ATick? || a.ATickBusy? || a.AYield? || a.ACreate? || a.AStart? || a.AExit? || a.ADestroy? {
      ThreadJoin(s, a);
    } else {
      SyncJoin(s, a);
    }
  }

  lemma ThreadJoin(s: State, a: Action)
    requires Core(s) && JoinOk(s) && Can(s, a)
    requires a.ATick? || a.ATickBusy? || a.AYield? || a.ACreate? || a.AStart? || a.AExit? || a.ADestroy?
    ensures JoinOk(Do(s, a))
  {
    CoreParts(s);
    hide Core, JoinOk, MutexOk, WaitOk, StatusOk, Schedule, Tick, Wake, Exit, Stat;
    match a
    case ATick => TickJoin(s);
    case ATickBusy => BusyIs(s); RemainedJoin(s, if s.remained > 0 then s.remained - 1 else s.remained);
    case AYield => ScheduleJoin(s);
    case ACreate(t) => CreateJoin(s, t);
    case AStart(t) => StartJoin(s, t);
    case AExit(ret) => ExitJoin(s, ret);
    case ADestroy(t) => DestroyJoin(s, t);
    case _ =>
  }

  lemma SyncJoin(s: State, a: Action)
    requires Core(s) && JoinOk(s) && Can(s, a)
    requires !(a.ATick? || a.ATickBusy? || a.AYield? || a.ACreate? || a.AStart? || a.AExit? || a.ADestroy?)
    ensures JoinOk(Do(s, a))
  {
    CoreParts(s);
    hide Core, JoinOk, MutexOk, WaitOk, StatusOk, Lock, Relock, Unlock, Wait, Join, Woken, NotifyOne, NotifyAll;
    hide WakeNext, Stat, At;
    match a
    case ALock(m) => LockJoin(s, m);
    case ARelock => RelockJoin(s, At(s, s.current).m);
    case AUnlock(m) => UnlockJoin(s, m);
    case AWait(c, relock) => WaitJoin(s, c, relock);
    case AJoin(t) => NobodyIs(s, t); JoinJoin(s, t);
    case AWoken => WokenJoin(s);
    case ANotifyOne(c) => NotifyJoin(s, c);
    case AInterrupt(c) => NotifyJoin(s, c);
    case ANotifyAll(c) => NotifyAllJoin(s, c);
    case AWakeNext => WakeNextJoin(s);
    case _ =>
  }

  /** Whatever step is taken, all invariants stay. */
  lemma StepKeeps(s: State, a: Action)
    requires Inv(s) && Can(s, a)
    ensures Inv(Do(s, a))
  {
    hide Core, JoinOk, Can, Do;
    StepCore(s, a);
    StepJoin(s, a);
  }

  lemma NotifyAwake(s: State, c: Cv)
    requires Core(s) && Awake(s)
    ensures Core(NotifyOne(s, c))
  {
    RunnerNotWaiting(s, c);
    NotifyKeeps(s, c);
  }

  /** scheduler_setup: only the idle thread exists, and it is running. */
  function Boot(idle: nat): State {
    State(map[idle := Active], map[], map[], map[], map[], idle, idle, [], 0, 0, map[], map[], map[], map[], map[])
  }

  lemma BootInv(idle: nat)
    ensures Inv(Boot(idle))
  {}

  /** The actions in order take `s` to `t`. */
  predicate Run(s: State, acts: seq<Action>, t: State)
    decreases |acts|
  {
    if acts == [] then s == t else Can(s, acts[0]) && Run(Do(s, acts[0]), acts[1..], t)
  }

  lemma {:induction false} RunKeeps(s: State, acts: seq<Action>, t: State)
    requires Inv(s) && Run(s, acts, t)
    ensures Inv(t)
    decreases |acts|
  {
    hide Inv, Can, Do;
    if acts != [] {
      StepKeeps(s, acts[0]);
      RunKeeps(Do(s, acts[0]), acts[1..], t);
    }
  }
}
