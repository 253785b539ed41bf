/** The steps of mutex.c and condition.c keep the invariants, and every run does. */
module ThreadLocks {
  import opened Threads
  import opened ThreadSteps

  /** The running thread's program counter moves between points that hold no waiter. */
  lemma WaitStep(s: State, u: State, t: nat, st: Status, pc: Pc)
    requires WaitOk(s) && SetPc(s, u, t, pc) && SetStat(s, u, t, st) && SameWaiters(s, u)
    requires Stat(s, t) == Active && !(At(s, t).Waking? && At(s, t).rest != [])
    requires !pc.Waiting? && !pc.Waking? && (st == Blocked ==> pc.Locking?)
    ensures WaitOk(u)
  {
    hide Stat, At, Waiters;
    forall n, x ensures InRest(u, n, x) == InRest(s, n, x) {
      if n == t && At(s, n).Waking? { assert At(s, n).rest == []; }
    }
    forall x ensures Pending(u, x) == Pending(s, x) {
      if n :| InRest(s, n, x) { assert InRest(u, n, x); }
      if n :| InRest(u, n, x) { assert InRest(s, n, x); }
    }
  }

  lemma SetSame(s: State, u: State, t: nat, st: Status)
    requires SameStat(s, u) && Stat(s, t) == st
    ensures SetStat(s, u, t, st)
  {}

  /** The running thread blocks or goes on: the ready queue is not concerned. */
  lemma RunnerStep(s: State, u: State, st: Status, pc: Pc)
    requires ReadyOk(s) && StatusOk(s) && Stat(s, s.current) == Active
    requires (s.current != s.idle || (st == Active && !pc.Locking? && !pc.Waiting?))
    requires SetStat(s, u, s.current, st) && SetPc(s, u, s.current, pc) && SameRest(s, u) && u.ready == s.ready
    requires u.current == s.current
    requires st == Active || (st == Blocked && !pc.Waking?)
    ensures ReadyOk(u) && StatusOk(u)
  {
    hide Stat, At;
  }

  // ---- mutex_lock ----

  lemma LockFastIs(s: State, m: nat)
    requires m !in s.owner
    ensures var u := Lock(s, m);
            && SameStat(s, u) && SetPc(s, u, s.current, Running) && SameQueues(s, u) && SameWaiters(s, u)
            && SameRest(s, u)
            && u.owner == s.owner[m := s.current] && u.ready == s.ready && u.current == s.current
    ensures forall x :: Queued(Lock(s, m), x) == Queued(s, x) && Handed(Lock(s, m), x) == Handed(s, x)
    ensures forall x :: Inside(Lock(s, m), x) == if x == m then Inside(s, m) + {s.current} else Inside(s, x)
  {}

  lemma LockFastKeeps(s: State, m: nat)
    requires Core(s) && AtRest(s) && m !in s.owner
    ensures Core(Lock(s, m))
  {
    LockFastIs(s, m);
    var u := Lock(s, m);
    hide Stat, At, Queue, Waiters, Queued, Handed, Inside, WaitOk, Lock, MutexOk, HistoryOk, ReadyOk, StatusOk;
    SetSame(s, u, s.current, Active);
    RunnerStep(s, u, Active, Running);
    WaitStep(s, u, s.current, Active, Running);
    LockFastMutex(s, u, m);
    LockFastHistory(s, u, m);
  }

  lemma LockFastMutex(s: State, u: State, m: nat)
    requires MutexOk(s) && Stat(s, s.current) == Active && At(s, s.current) == Running && m !in s.owner
    requires SameStat(s, u) && SetPc(s, u, s.current, Running) && SameQueues(s, u) && u.owner == s.owner[m := s.current]
    ensures MutexOk(u)
  {
    hide Stat, At, Queue;
  }

  lemma LockFastHistory(s: State, u: State, m: nat)
    requires HistoryOk(s) && MutexOk(s) && m !in s.owner && SameQueues(s, u) && u.owner == s.owner[m := s.current]
    requires forall x :: Queued(u, x) == Queued(s, x) && Handed(u, x) == Handed(s, x)
    requires forall x :: Inside(u, x) == if x == m then Inside(s, m) + {s.current} else Inside(s, x)
    ensures HistoryOk(u)
  {
    hide Stat, At, Queue, Queued, Handed, Inside;
  }

  lemma LockSlowIs(s: State, m: nat)
    requires m in s.owner && s.owner[m] != s.current
    ensures var u := Lock(s, m);
            && SetStat(s, u, s.current, Blocked) && SetPc(s, u, s.current, Locking(m))
            && SetQueue(s, u, m, Queue(s, m) + [s.current])
            && SameWaiters(s, u) && SameRest(s, u) && u.owner == s.owner && u.ready == s.ready && u.current == s.current
    ensures forall x :: Queued(Lock(s, m), x) == if x == m then Queued(s, m) + [s.current] else Queued(s, x)
    ensures forall x :: Handed(Lock(s, m), x) == Handed(s, x) && Inside(Lock(s, m), x) == Inside(s, x)
  {}

  lemma LockSlowKeeps(s: State, m: nat)
    requires Core(s) && AtRest(s) && m in s.owner && s.owner[m] != s.current && s.current != s.idle
    ensures Core(Lock(s, m))
  {
    LockSlowIs(s, m);
    var u, t := Lock(s, m), s.current;
    hide Stat, At, Queue, Waiters, Queued, Handed, Inside, WaitOk, Lock, HistoryOk, MutexOk, ReadyOk, StatusOk;
    RunnerStep(s, u, Blocked, Locking(m));
    WaitStep(s, u, t, Blocked, Locking(m));
    LockSlowMutex(s, u, m);
    LockSlowHistory(s, u, m);
  }

  lemma LockSlowMutex(s: State, u: State, m: nat)
    requires MutexOk(s) && At(s, s.current) == Running && Stat(s, s.current) == Active && m in s.owner
    requires s.owner[m] != s.current
    requires SetStat(s, u, s.current, Blocked) && SetPc(s, u, s.current, Locking(m))
    requires SetQueue(s, u, m, Queue(s, m) + [s.current])
    requires u.owner == s.owner
    ensures MutexOk(u)
  {
    hide Stat, At, Queue;
    var t := s.current;
    assert t !in Queue(s, m);
    AppendNew(Queue(s, m), t);
    forall x, k | x in Queue(u, k)
      ensures if Owns(u, k, x) then x == Queue(u, k)[0] && Stat(u, x) == Active else Stat(u, x) == Blocked
    {
      if x != t { assert x in Queue(s, k); }
    }
  }

  lemma LockSlowHistory(s: State, u: State, m: nat)
    requires HistoryOk(s) && m in s.owner && s.owner[m] != s.current && u.owner == s.owner
    requires SetQueue(s, u, m, Queue(s, m) + [s.current])
    requires forall x :: Queued(u, x) == if x == m then Queued(s, m) + [s.current] else Queued(s, x)
    requires forall x :: Handed(u, x) == Handed(s, x) && Inside(u, x) == Inside(s, x)
    ensures HistoryOk(u)
  {
    hide Queue, Queued, Handed, Inside;
    QueueGrows(Handed(s, m), Queue(s, m), s.current, Queue(s, m) != [] && Owns(s, m, Queue(s, m)[0]));
    assert !Owns(s, m, s.current);
  }

  lemma QueueGrows(handed: seq<nat>, q: seq<nat>, t: nat, head: bool)
    ensures (handed + if q != [] && head then q[1..] else q) + [t] == handed + if q != [] && head then (q + [t])[1..]
                                                                      else q + [t]
    ensures (q + [t])[0] == if q != [] then q[0] else t
  {}

  // ---- mutex_lock, woken ----

  lemma RemoveHead(q: seq<nat>)
    requires q != []
    ensures RemoveAll(q, q[0]) == q[1..]
  {}

  /** A thread that is running again in mutex_lock owns the mutex and heads its queue, so the
      loop never blocks it a second time. */
  lemma OneTurn(s: State, m: nat)
    requires MutexOk(s) && Stat(s, s.current) == Active && At(s, s.current) == Locking(m)
    ensures Owns(s, m, s.current) && Queue(s, m) != [] && Queue(s, m)[0] == s.current
  {
    assert s.current in Queue(s, m);
  }

  lemma RelockIs(s: State, m: nat)
    requires Owns(s, m, s.current) && Queue(s, m) != [] && Queue(s, m)[0] == s.current
    ensures var u := Relock(s, m);
            && SameStat(s, u) && SetPc(s, u, s.current, Running) && SetQueue(s, u, m, Queue(s, m)[1..])
            && SameWaiters(s, u)
            && SameRest(s, u) && u.owner == s.owner && u.ready == s.ready && u.current == s.current
    ensures forall x :: Queued(Relock(s, m), x) == Queued(s, x) && Handed(Relock(s, m), x) == Handed(s, x)
    ensures forall x :: Inside(Relock(s, m), x) == if x == m then Inside(s, m) + {s.current} else Inside(s, x)
  {
    RemoveHead(Queue(s, m));
  }

  lemma RelockKeeps(s: State, m: nat)
    requires Core(s) && Awake(s) && At(s, s.current) == Locking(m)
    ensures Core(Relock(s, m))
  {
    OneTurn(s, m);
    RelockIs(s, m);
    var u, t := Relock(s, m), s.current;
    hide Stat, At, Queue, Waiters, Queued, Handed, Inside, WaitOk, Relock, HistoryOk, MutexOk, ReadyOk, StatusOk;
    IdleNotLocking(s);
    SetSame(s, u, t, Active);
    RunnerStep(s, u, Active, Running);
    WaitStep(s, u, t, Active, Running);
    RelockMutex(s, u, m);
    RelockHistory(s, u, m);
  }

  lemma IdleNotLocking(s: State)
    requires StatusOk(s)
    ensures !At(s, s.idle).Locking?
  {}

  lemma RelockMutex(s: State, u: State, m: nat)
    requires MutexOk(s) && Owns(s, m, s.current) && Queue(s, m) != [] && Queue(s, m)[0] == s.current
    requires At(s, s.current) == Locking(m)
    requires SameStat(s, u) && SetPc(s, u, s.current, Running) && SetQueue(s, u, m, Queue(s, m)[1..])
    requires u.owner == s.owner
    ensures MutexOk(u)
  {
    hide Stat, At, Queue;
    TailOf(Queue(s, m));
    forall x, k ensures x in Queue(u, k) <==> At(u, x) == Locking(k) {
      assert x in Queue(s, k) <==> At(s, x) == Locking(k);
      if k == m { assert x in Queue(s, m)[1..] <==> x in Queue(s, m) && x != s.current; }
    }
    forall x, k | x in Queue(u, k)
      ensures if Owns(u, k, x) then x == Queue(u, k)[0] && Stat(u, x) == Active else Stat(u, x) == Blocked
    {
      assert x in Queue(s, k) && (k == m ==> x != s.current);
    }
  }

  lemma RelockHistory(s: State, u: State, m: nat)
    requires HistoryOk(s) && Owns(s, m, s.current) && Queue(s, m) != [] && Queue(s, m)[0] == s.current
    requires NoDuplicates(Queue(s, m))
    requires SetQueue(s, u, m, Queue(s, m)[1..]) && u.owner == s.owner
    requires forall x :: Queued(u, x) == Queued(s, x) && Handed(u, x) == Handed(s, x)
    requires forall x :: Inside(u, x) == if x == m then Inside(s, m) + {s.current} else Inside(s, x)
    ensures HistoryOk(u)
  {
    hide Queue, Queued, Handed, Inside;
    TailOf(Queue(s, m));
    var q := Queue(s, m)[1..];
    if q != [] { assert q[0] in q; }
  }

  // ---- mutex_unlock ----

  lemma UnlockIs(s: State, m: nat)
    requires Owns(s, m, s.current) && Queue(s, m) != []
    ensures var u, w := Unlock(s, m), Queue(s, m)[0];
            && SetStat(s, u, w, Active) && SamePc(s, u) && SameQueues(s, u) && SameWaiters(s, u) && SameRest(s, u)
            && u.owner == s.owner[m := w] && u.ready == s.ready + [w] && u.current == s.current
    ensures forall x :: Handed(Unlock(s, m), x) == if x == m then Handed(s, m) + [Queue(s, m)[0]] else Handed(s, x)
    ensures forall x :: Queued(Unlock(s, m), x) == Queued(s, x)
    ensures forall x :: Inside(Unlock(s, m), x) == if x == m then Inside(s, m) - {s.current} else Inside(s, x)
  {}

  lemma UnlockFreeIs(s: State, m: nat)
    requires Owns(s, m, s.current) && Queue(s, m) == []
    ensures var u := Unlock(s, m);
            && SameStat(s, u) && SamePc(s, u) && SameQueues(s, u) && SameWaiters(s, u) && SameRest(s, u)
            && u.owner == s.owner - {m} && u.ready == s.ready && u.current == s.current
    ensures forall x :: Queued(Unlock(s, m), x) == Queued(s, x) && Handed(Unlock(s, m), x) == Handed(s, x)
    ensures forall x :: Inside(Unlock(s, m), x) == if x == m then Inside(s, m) - {s.current} else Inside(s, x)
  {}

  /** Unlocking wakes only a thread that is blocked and off the CPU. */
  lemma HeadBlocked(s: State, m: nat)
    requires MutexOk(s) && Owns(s, m, s.current) && !At(s, s.current).Locking? && Queue(s, m) != []
    ensures Stat(s, Queue(s, m)[0]) == Blocked && Queue(s, m)[0] != s.current && At(s, Queue(s, m)[0]) == Locking(m)
  {
    assert Queue(s, m)[0] in Queue(s, m);
  }

  lemma UnlockKeeps(s: State, m: nat)
    requires Core(s) && Owns(s, m, s.current) && !At(s, s.current).Locking?
    ensures Core(Unlock(s, m))
  {
    hide Stat, At, Queue, Waiters, Queued, Handed, Inside, WaitOk, Unlock, HistoryOk, MutexOk, Wake;
    var u := Unlock(s, m);
    if Queue(s, m) != [] {
      UnlockIs(s, m);
      HeadBlocked(s, m);
      WaitKept(s, u);
      AppendNew(s.ready, Queue(s, m)[0]);
      UnlockMutex(s, u, m);
      UnlockHistory(s, u, m);
    } else {
      UnlockFreeIs(s, m);
      WaitKept(s, u);
      UnlockFreeMutex(s, u, m);
      UnlockFreeHistory(s, u, m);
    }
  }

  lemma UnlockMutex(s: State, u: State, m: nat)
    requires MutexOk(s) && Owns(s, m, s.current) && Queue(s, m) != []
    requires Stat(s, Queue(s, m)[0]) == Blocked && At(s, Queue(s, m)[0]) == Locking(m) && At(s, s.current) != Locking(m)
    requires SetStat(s, u, Queue(s, m)[0], Active) && SamePc(s, u) && SameQueues(s, u)
    requires u.owner == s.owner[m := Queue(s, m)[0]]
    ensures MutexOk(u)
  {
    hide Stat, At, Queue;
    var w := Queue(s, m)[0];
    forall x, k | x in Queue(u, k)
      ensures if Owns(u, k, x) then x == Queue(u, k)[0] && Stat(u, x) == Active else Stat(u, x) == Blocked
    {
      assert x in Queue(s, k) && At(s, x) == Locking(k);
      if k != m { assert Owns(u, k, x) == Owns(s, k, x) && x != w; } else { assert x != s.current; }
    }
  }

  lemma UnlockHistory(s: State, u: State, m: nat)
    requires HistoryOk(s) && MutexOk(s) && Owns(s, m, s.current) && Queue(s, m) != [] && At(s, s.current) != Locking(m)
    requires SameQueues(s, u) && u.owner == s.owner[m := Queue(s, m)[0]]
    requires forall x :: Handed(u, x) == if x == m then Handed(s, m) + [Queue(s, m)[0]] else Handed(s, x)
    requires forall x :: Queued(u, x) == Queued(s, x)
    requires forall x :: Inside(u, x) == if x == m then Inside(s, m) - {s.current} else Inside(s, x)
    ensures HistoryOk(u)
  {
    hide Stat, At, Queue, Queued, Handed, Inside;
    var q := Queue(s, m);
    assert s.current !in q;
    hide MutexOk;
    HandOver(Handed(s, m), q);
  }

  lemma HandOver(handed: seq<nat>, q: seq<nat>)
    requires q != []
    ensures q[0] in q && handed + q == (handed + [q[0]]) + q[1..]
  {}

  lemma UnlockFreeMutex(s: State, u: State, m: nat)
    requires MutexOk(s) && Queue(s, m) == [] && SameStat(s, u) && SamePc(s, u) && SameQueues(s, u)
    requires u.owner == s.owner - {m}
    ensures MutexOk(u)
  {
    hide Stat, At, Queue;
  }

  lemma UnlockFreeHistory(s: State, u: State, m: nat)
    requires HistoryOk(s) && Owns(s, m, s.current) && Queue(s, m) == [] && SameQueues(s, u) && u.owner == s.owner - {m}
    requires forall x :: Queued(u, x) == Queued(s, x) && Handed(u, x) == Handed(s, x)
    requires forall x :: Inside(u, x) == if x == m then Inside(s, m) - {s.current} else Inside(s, x)
    ensures HistoryOk(u)
  {
    hide Queue, Queued, Handed, Inside;
  }

  // ---- __wait ----

  lemma EnqueueIs(s: State, c: Cv, relock: Option<nat>)
    ensures var u := Block(s.(cond := s.cond[c := Waiters(s, c) + [s.current]]), Waiting(c, relock));
            && SetStat(s, u, s.current, Blocked) && SetPc(s, u, s.current, Waiting(c, relock)) && SameQueues(s, u)
            && SetWaiters(s, u, c, Waiters(s, c) + [s.current]) && SameHistory(s, u) && SameRest(s, u)
            && u.owner == s.owner && u.ready == s.ready && u.current == s.current
  {}

  lemma EnqueueWait(s: State, u: State, c: Cv, relock: Option<nat>)
    requires WaitOk(s) && Stat(s, s.current) == Active && At(s, s.current) == Running
    requires SetStat(s, u, s.current, Blocked) && SetPc(s, u, s.current, Waiting(c, relock))
    requires SetWaiters(s, u, c, Waiters(s, c) + [s.current])
    ensures WaitOk(u)
  {
    hide Stat, At, Waiters;
    var t := s.current;
    assert t !in Waiters(s, c);
    AppendNew(Waiters(s, c), t);
    forall n, x ensures InRest(u, n, x) == InRest(s, n, x) && (InRest(u, n, x) ==> x != t) {}
    forall x ensures Pending(u, x) == Pending(s, x) {
      if n :| InRest(s, n, x) { assert InRest(u, n, x); }
      if n :| InRest(u, n, x) { assert InRest(s, n, x); }
    }
    forall x, k | x in Waiters(u, k) ensures x in Waiters(s, k) || (k == c && x == t) {}
  }

  lemma EnqueueKeeps(s: State, c: Cv, relock: Option<nat>)
    requires Core(s) && AtRest(s) && s.current != s.idle
    ensures Core(Block(s.(cond := s.cond[c := Waiters(s, c) + [s.current]]), Waiting(c, relock)))
  {
    EnqueueIs(s, c, relock);
    var u := Block(s.(cond := s.cond[c := Waiters(s, c) + [s.current]]), Waiting(c, relock));
    hide Stat, At, Queue, Waiters, Queued, Handed, Inside, WaitOk, HistoryOk, MutexOk, Block;
    EnqueueWait(s, u, c, relock);
    HistoryKept(s, u);
    OwnerAlive(s);
    MutexKept(s, u);
  }

  lemma WaitKeeps(s: State, c: Cv, relock: Option<nat>)
    requires Core(s) && AtRest(s) && s.current != s.idle && (relock.Some? ==> Owns(s, relock.value, s.current))
    ensures Core(Wait(s, c, relock))
  {
    EnqueueKeeps(s, c, relock);
    EnqueueIs(s, c, relock);
    hide Core, Unlock, Stat, Waiters, Queue, Block;
    if relock.Some? {
      UnlockKeeps(Block(s.(cond := s.cond[c := Waiters(s, c) + [s.current]]), Waiting(c, relock)), relock.value);
    }
  }

  lemma PcIs(s: State, pc: Pc)
    ensures var u := s.(pc := s.pc[s.current := pc]);
            && SameStat(s, u) && SetPc(s, u, s.current, pc) && SameQueues(s, u) && SameWaiters(s, u)
            && SameHistory(s, u) && SameRest(s, u)
  {}

  /** Moving on from a point outside mutex_lock keeps everything but the wait condition. */
  lemma PcKeeps(s: State, pc: Pc)
    requires Core(s) && Awake(s) && !At(s, s.current).Locking? && (pc == Running || pc.Waking?)
    requires WaitOk(s.(pc := s.pc[s.current := pc]))
    ensures Core(s.(pc := s.pc[s.current := pc]))
  {
    PcIs(s, pc);
    var u := s.(pc := s.pc[s.current := pc]);
    hide Stat, At, Queue, Waiters, Queued, Handed, Inside, WaitOk, HistoryOk, MutexOk;
    HistoryKept(s, u);
    OwnerAlive(s);
    MutexKept(s, u);
  }

  lemma LockKeeps(s: State, m: nat)
    requires Core(s) && AtRest(s) && s.current != s.idle
    ensures Core(Lock(s, m))
  {
    if m !in s.owner { LockFastKeeps(s, m); } else if s.owner[m] != s.current { LockSlowKeeps(s, m); }
  }

  /** A woken waiter is past __wait. */
  lemma OutOfWait(s: State)
    requires Core(s) && Awake(s) && At(s, s.current).Waiting?
    ensures var u := s.(pc := s.pc[s.current := Running]); Core(u) && AtRest(u) && u.current == s.current != u.idle
  {
    var u := s.(pc := s.pc[s.current := Running]);
    PcIs(s, Running);
    SetSame(s, u, s.current, Active);
    WaitStep(s, u, s.current, Active, Running);
    PcKeeps(s, Running);
  }

  lemma WokenKeeps(s: State)
    requires Core(s) && Awake(s) && At(s, s.current).Waiting?
    ensures Core(Woken(s))
  {
    OutOfWait(s);
    var u := s.(pc := s.pc[s.current := Running]);
    hide Core, Lock, Join, Awake;
    if At(s, s.current).c.OfThread? {
      JoinKeeps(u, At(s, s.current).c.thread);
    } else if At(s, s.current).relock.Some? {
      LockKeeps(u, At(s, s.current).relock.value);
    }
  }

  // ---- thread_join ----

  lemma JoinKeeps(s: State, t: nat)
    requires Core(s) && AtRest(s) && s.current != s.idle
    ensures Core(Join(s, t))
  {
    if Stat(s, t) == Dead {
      JoinedKeeps(s, Join(s, t));
    } else {
      WaitKeeps(s, OfThread(t), None);
    }
  }

  /** What thread_join returned is in no invariant. */
  lemma JoinedKeeps(s: State, u: State)
    requires Core(s) && u == s.(joined := u.joined)
    ensures Core(u)
  {
    JoinedIs(s, u);
    hide Stat, At, Queue, Waiters, Queued, Handed, Inside, MutexOk, HistoryOk, WaitOk;
    HistoryKept(s, u);
    OwnerAlive(s);
    MutexKept(s, u);
    WaitKept(s, u);
  }

  lemma JoinedIs(s: State, u: State)
    requires u == s.(joined := u.joined)
    ensures SameStat(s, u) && SamePc(s, u) && SameQueues(s, u) && SameWaiters(s, u) && SameHistory(s, u)
    ensures SameRest(s, u)
  {}

  // ---- notify_all ----

  lemma NotifyAllIs(s: State, c: Cv)
    ensures var u := NotifyAll(s, c);
            && SameStat(s, u) && SetPc(s, u, s.current, Waking(Waiters(s, c))) && SameQueues(s, u)
            && SetWaiters(s, u, c, [])
            && SameHistory(s, u) && SameRest(s, u) && u.owner == s.owner && u.ready == s.ready && u.current == s.current
  {}

  lemma NotifyAllWait(s: State, u: State, c: Cv)
    requires WaitOk(s) && At(s, s.current) == Running && Stat(s, s.current) == Active
    requires SameStat(s, u) && SetPc(s, u, s.current, Waking(Waiters(s, c))) && SetWaiters(s, u, c, [])
    ensures WaitOk(u)
  {
    hide Stat, At, Waiters;
    forall n, x ensures InRest(u, n, x) <==> InRest(s, n, x) || (n == s.current && x in Waiters(s, c)) {}
    forall x ensures Pending(u, x) <==> Pending(s, x) || x in Waiters(s, c) {
      if n :| InRest(s, n, x) { assert InRest(u, n, x); }
      if n :| InRest(u, n, x) { assert InRest(s, n, x) || x in Waiters(s, c); }
      if x in Waiters(s, c) { assert InRest(u, s.current, x); }
    }
    forall n, k, x | InRest(u, n, x) && InRest(u, k, x) ensures n == k {
      if x in Waiters(s, c) { assert At(s, x).c == c; }
    }
    forall x | Stat(u, x) == Blocked
      ensures At(u, x).Locking? || (At(u, x).Waiting? && (x in Waiters(u, At(u, x).c) || Pending(u, x))) {
      assert x != s.current;
    }
  }

  lemma NotifyAllKeeps(s: State, c: Cv)
    requires Core(s) && AtRest(s)
    ensures Core(NotifyAll(s, c))
  {
    NotifyAllIs(s, c);
    var u := NotifyAll(s, c);
    hide Stat, At, Queue, Waiters, Queued, Handed, Inside, WaitOk, HistoryOk, MutexOk, NotifyAll;
    NotifyAllWait(s, u, c);
    HistoryKept(s, u);
    OwnerAlive(s);
    MutexKept(s, u);
  }

  lemma WakeNextIs(s: State, rest: seq<nat>)
    requires rest != []
    ensures var u := Wake(s.(pc := s.pc[s.current := Waking(rest[1..])]), rest[0]);
            && SetStat(s, u, rest[0], Active) && SetPc(s, u, s.current, Waking(rest[1..])) && SameQueues(s, u)
            && SameWaiters(s, u)
            && SameHistory(s, u) && SameRest(s, u) && u.owner == s.owner && u.ready == s.ready + [rest[0]]
            && u.current == s.current
  {}

  lemma WakeNextCases(s: State, rest: seq<nat>)
    requires At(s, s.current) == Waking(rest)
    ensures rest == [] ==> WakeNext(s) == s.(pc := s.pc[s.current := Running])
    ensures rest != [] ==> WakeNext(s) == Wake(s.(pc := s.pc[s.current := Waking(rest[1..])]), rest[0])
    ensures WakeNext(s).retval == s.retval
  {
    if rest != [] { WakeRet(s.(pc := s.pc[s.current := Waking(rest[1..])]), rest[0]); }
    hide At, Wake;
  }

  lemma WakeRet(s: State, t: nat)
    ensures Wake(s, t).retval == s.retval
  {}

  lemma WakeNextWait(s: State, u: State, rest: seq<nat>)
    requires WaitOk(s) && Stat(s, s.current) == Active && At(s, s.current) == Waking(rest) && rest != []
    requires SetStat(s, u, rest[0], Active) && SetPc(s, u, s.current, Waking(rest[1..])) && SameWaiters(s, u)
    ensures Stat(s, rest[0]) == Blocked && At(s, rest[0]).Waiting? && rest[0] != s.current
    ensures WaitOk(u)
  {
    hide Stat, At, Waiters;
    var t, h := s.current, rest[0];
    TailOf(rest);
    assert InRest(s, t, h);
    forall n, x ensures InRest(u, n, x) <==> InRest(s, n, x) && x != h {
      if n == t { assert x in rest[1..] <==> x in rest && x != h; }
      if InRest(s, n, h) { assert n == t; }
    }
    forall x | x != h ensures Pending(u, x) == Pending(s, x) {
      if n :| InRest(s, n, x) { assert InRest(u, n, x); }
      if n :| InRest(u, n, x) { assert InRest(s, n, x); }
    }
    forall x, c | x in Waiters(u, c) ensures x in Waiters(s, c) && x != h {}
  }

  lemma WakeNextKeeps(s: State)
    requires Core(s) && Awake(s) && At(s, s.current).Waking?
    ensures Core(WakeNext(s))
  {
    var rest := At(s, s.current).rest;
    if rest == [] {
      var u := s.(pc := s.pc[s.current := Running]);
      PcIs(s, Running);
      SetSame(s, u, s.current, Active);
      WaitStep(s, u, s.current, Active, Running);
      PcKeeps(s, Running);
    } else {
      WakeNextIs(s, rest);
      var u := WakeNext(s);
      hide Stat, At, Queue, Waiters, Queued, Handed, Inside, WaitOk, HistoryOk, MutexOk, WakeNext, Wake;
      WakeNextWait(s, u, rest);
      HistoryKept(s, u);
      OwnerAlive(s);
      MutexKept(s, u);
      AppendNew(s.ready, rest[0]);
    }
  }
}
