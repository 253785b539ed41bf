/** Every step of the thread system keeps its invariants. */
module ThreadSteps {
  import opened Threads

  /** What a step leaves alone, variable by variable. */
  ghost predicate SameStat(s: State, u: State) { forall x :: Stat(u, x) == Stat(s, x) }
  ghost predicate SetStat(s: State, u: State, t: nat, st: Status) {
    forall x :: Stat(u, x) == if x == t then st else Stat(s, x)
  }
  ghost predicate SamePc(s: State, u: State) { forall x :: At(u, x) == At(s, x) }
  ghost predicate SetPc(s: State, u: State, t: nat, pc: Pc) {
    forall x :: At(u, x) == if x == t then pc else At(s, x)
  }
  ghost predicate SameQueues(s: State, u: State) { forall m :: Queue(u, m) == Queue(s, m) }
  ghost predicate SetQueue(s: State, u: State, m: nat, q: seq<nat>) {
    forall x :: Queue(u, x) == if x == m then q else Queue(s, x)
  }
  ghost predicate SameWaiters(s: State, u: State) { forall c :: Waiters(u, c) == Waiters(s, c) }
  ghost predicate SetWaiters(s: State, u: State, c: Cv, q: seq<nat>) {
    forall x :: Waiters(u, x) == if x == c then q else Waiters(s, x)
  }
  ghost predicate SameHistory(s: State, u: State) {
    forall m :: Queued(u, m) == Queued(s, m) && Handed(u, m) == Handed(s, m) && Inside(u, m) == Inside(s, m)
  }
  predicate SameRest(s: State, u: State) {
    u.idle == s.idle && u.preempt == s.preempt && (u.remained == s.remained || u.remained == TIMESLICE)
  }

  lemma AppendNew(q: seq<nat>, t: nat)
    requires NoDuplicates(q) && t !in q
    ensures NoDuplicates(q + [t]) && forall x :: x in q + [t] <==> x in q || x == t
  {}

  lemma TailOf(q: seq<nat>)
    requires NoDuplicates(q) && q != []
    ensures NoDuplicates(q[1..]) && forall x :: x in q[1..] <==> x in q && x != q[0]
  {}

  // ---- waking ----

  lemma WakeIs(s: State, t: nat)
    ensures SetStat(s, Wake(s, t), t, Active) && SamePc(s, Wake(s, t)) && SameQueues(s, Wake(s, t))
    ensures SameWaiters(s, Wake(s, t))
    ensures SameHistory(s, Wake(s, t)) && SameRest(s, Wake(s, t)) && Wake(s, t).owner == s.owner
    ensures Wake(s, t).current == s.current && Wake(s, t).ready == s.ready + [t]
  {}

  lemma WaitKept(s: State, u: State)
    requires WaitOk(s) && SameWaiters(s, u) && SamePc(s, u)
    requires forall t :: Stat(s, t) == Blocked ==> Stat(u, t) == Blocked || !At(u, t).Waiting?
    requires forall t :: Stat(u, t) == Blocked ==> Stat(s, t) == Blocked
    ensures WaitOk(u)
  {
    hide Stat, At, Waiters;
    forall t ensures Pending(u, t) == Pending(s, t) {
      if n :| InRest(s, n, t) { assert InRest(u, n, t); }
      if n :| InRest(u, n, t) { assert InRest(s, n, t); }
    }
    forall n, t ensures InRest(u, n, t) == InRest(s, n, t) {}
  }

  lemma HistoryKept(s: State, u: State)
    requires HistoryOk(s) && SameQueues(s, u) && SameHistory(s, u) && u.owner == s.owner
    ensures HistoryOk(u)
  {
    hide Queue, Queued, Handed, Inside;
  }

  lemma MutexKept(s: State, u: State)
    requires MutexOk(s) && SameQueues(s, u) && u.owner == s.owner
    requires forall t :: At(u, t).Locking? || At(s, t).Locking? ==> At(u, t) == At(s, t) && Stat(u, t) == Stat(s, t)
    requires forall m :: m in s.owner ==> Stat(u, s.owner[m]) == Active || Stat(u, s.owner[m]) == Blocked
    ensures MutexOk(u)
  {
    hide Stat, At, Queue;
  }

  // ---- notify_one ----

  lemma NotifyIs(s: State, c: Cv)
    requires Waiters(s, c) != []
    ensures var u, h := NotifyOne(s, c), Waiters(s, c)[0];
            && SetStat(s, u, h, Active) && SamePc(s, u) && SameQueues(s, u) && SetWaiters(s, u, c, Waiters(s, c)[1..])
            && SameHistory(s, u) && SameRest(s, u) && u.owner == s.owner && u.current == s.current
            && u.ready == s.ready + [h]
            && u.retval == s.retval && u.remained == s.remained
  {}

  lemma NotifyWait(s: State, u: State, c: Cv)
    requires WaitOk(s) && Waiters(s, c) != []
    requires SetStat(s, u, Waiters(s, c)[0], Active) && SamePc(s, u) && SetWaiters(s, u, c, Waiters(s, c)[1..])
    ensures WaitOk(u)
  {
    hide Stat, At, Waiters;
    TailOf(Waiters(s, c));
    var h := Waiters(s, c)[0];
    assert h in Waiters(s, c);
    forall n, t ensures InRest(u, n, t) == InRest(s, n, t) {}
    forall t ensures Pending(u, t) == Pending(s, t) {
      if n :| InRest(s, n, t) { assert InRest(u, n, t); }
      if n :| InRest(u, n, t) { assert InRest(s, n, t); }
    }
    forall t, x | t in Waiters(u, x) ensures t in Waiters(s, x) && t != h {
      if x == c { assert t in Waiters(s, c)[1..]; } else { assert At(s, h).c == c && At(s, t).c == x; }
    }
  }

  lemma HeadWaits(s: State, c: Cv)
    requires WaitOk(s) && Waiters(s, c) != []
    ensures Stat(s, Waiters(s, c)[0]) == Blocked && At(s, Waiters(s, c)[0]).Waiting?
  {
    assert Waiters(s, c)[0] in Waiters(s, c);
  }

  /** notify_one wakes only a thread that is blocked and off the CPU. */
  lemma NotifyKeeps(s: State, c: Cv)
    requires Core(s) && (Waiters(s, c) != [] ==> Waiters(s, c)[0] != s.current)
    ensures Core(NotifyOne(s, c))
  {
    hide Stat, At, Waiters, Queue, ReadyOk, StatusOk, MutexOk, WaitOk, HistoryOk, NotifyOne;
    if Waiters(s, c) == [] {
      NotifyNone(s, c);
    } else {
      NotifyIs(s, c);
      HeadWaits(s, c);
      NotifyWait(s, NotifyOne(s, c), c);
      NotifyOthers(s, NotifyOne(s, c), Waiters(s, c)[0]);
    }
  }

  lemma NotifyNone(s: State, c: Cv)
    requires Waiters(s, c) == []
    ensures NotifyOne(s, c) == s
  {}

  /** Waking a blocked waiter keeps what does not speak of the condition queues. */
  lemma NotifyOthers(s: State, u: State, h: nat)
    requires ReadyOk(s) && StatusOk(s) && MutexOk(s) && HistoryOk(s)
    requires SetStat(s, u, h, Active) && SamePc(s, u) && SameQueues(s, u) && SameHistory(s, u) && SameRest(s, u)
    requires u.owner == s.owner && u.current == s.current && u.ready == s.ready + [h]
    requires Stat(s, h) == Blocked && !At(s, h).Locking? && h != s.current
    ensures ReadyOk(u) && StatusOk(u) && MutexOk(u) && HistoryOk(u)
  {
    hide Stat, At, Queue, Queued, Handed, Inside, MutexOk, HistoryOk;
    HistoryKept(s, u);
    OwnerAlive(s);
    MutexKept(s, u);
    AppendNew(s.ready, h);
  }

  lemma OwnerAlive(s: State)
    requires MutexOk(s)
    ensures forall m :: m in s.owner ==> Stat(s, s.owner[m]) == Active || Stat(s, s.owner[m]) == Blocked
  {}

  // ---- the context switch ----

  /** The state between leaving the old thread and thread_place: `next` is off the queue,
      the old thread is on it if it can go on. */
  ghost predicate Switching(s: State, u: State, next: nat) {
    && u == s.(ready := u.ready)
    && NoDuplicates(u.ready) && Stat(s, next) == Active
    && forall t :: t in u.ready <==> Stat(s, t) == Active && t != next && t != s.idle
  }

  lemma Requeue(s: State)
    requires ReadyOk(s) && StatusOk(s) && !(s.ready == [] && Stat(s, s.current) == Active)
    ensures var next := if s.ready != [] then s.ready[0] else s.idle;
            var rest := if s.ready != [] then s.ready[1..] else [];
            var queue := if Stat(s, s.current) == Active && s.current != s.idle then rest + [s.current] else rest;
            Switching(s, s.(ready := queue), next)
  {
    hide Stat, At;
    if s.ready != [] {
      TailOf(s.ready);
      assert s.ready[0] in s.ready;
      var rest := s.ready[1..];
      if Stat(s, s.current) == Active && s.current != s.idle { AppendNew(rest, s.current); }
    }
  }

  lemma PlaceIs(s: State, me: nat)
    ensures Stat(s, s.current) != Finished ==> Place(s, me) == s.(current := me, remained := TIMESLICE)
    ensures Stat(s, s.current) == Finished ==>
              Place(s, me) == NotifyOne(s.(status := s.status[s.current := Dead]),
                                        OfThread(s.current)).(current := me, remained := TIMESLICE)
  {}

  lemma DeadIs(s: State, t: nat)
    ensures var u := s.(status := s.status[t := Dead]);
            && SetStat(s, u, t, Dead) && SamePc(s, u) && SameQueues(s, u) && SameWaiters(s, u) && SameHistory(s, u)
            && SameRest(s, u)
  {}

  lemma ReadyIs(s: State, q: seq<nat>)
    ensures var u := s.(ready := q);
            SameStat(s, u) && SamePc(s, u) && SameQueues(s, u) && SameWaiters(s, u) && SameHistory(s, u)
            && SameRest(s, u)
  {}

  lemma CurrentIs(s: State, me: nat)
    ensures var u := s.(current := me, remained := TIMESLICE);
            SameStat(s, u) && SamePc(s, u) && SameQueues(s, u) && SameWaiters(s, u) && SameHistory(s, u)
            && SameRest(s, u)
  {}

  /** A switch away from a thread that goes on or blocks. */
  lemma PlainSwitch(s: State, r: State, u: State, next: nat)
    requires Core(s) && Switching(s, r, next) && Stat(s, s.current) != Finished
    requires u == r.(current := next, remained := TIMESLICE)
    ensures Core(u)
  {
    ReadyIs(s, r.ready);
    CurrentIs(r, next);
    hide Stat, At, Queue, Waiters, Queued, Handed, Inside, MutexOk, HistoryOk, WaitOk;
    HistoryKept(s, u);
    OwnerAlive(s);
    MutexKept(s, u);
    WaitKept(s, u);
  }

  /** The old thread has finished: its successor, on another stack, declares it dead. */
  lemma LastSwitch(s: State, r: State, d: State, next: nat)
    requires Core(s) && Switching(s, r, next) && Stat(s, s.current) == Finished
    requires d == r.(status := s.status[s.current := Dead])
    ensures Core(d.(current := next))
    ensures d.(current := next).current != s.current
  {
    ReadyIs(s, r.ready);
    DeadIs(r, s.current);
    var u := d.(current := next);
    DeadCurrent(d, next);
    hide Stat, At, Queue, Waiters, Queued, Handed, Inside, MutexOk, HistoryOk, WaitOk;
    HistoryKept(s, u);
    OwnerAlive(s);
    MutexKept(s, u);
    WaitKept(s, u);
  }

  lemma DeadCurrent(s: State, me: nat)
    ensures var u := s.(current := me);
            SameStat(s, u) && SamePc(s, u) && SameQueues(s, u) && SameWaiters(s, u) && SameHistory(s, u)
            && SameRest(s, u)
  {}

  /** The running thread never appears in its own condition's queue, so the notification
      commutes with the change of the running thread. */
  lemma NotifyCurrent(d: State, c: Cv, me: nat)
    ensures NotifyOne(d, c).(current := me, remained := TIMESLICE)
         == NotifyOne(d.(current := me), c).(remained := TIMESLICE)
  {
    assert Waiters(d.(current := me), c) == Waiters(d, c);
    hide Waiters;
  }

  lemma RemainedIs(s: State, n: nat)
    ensures var u := s.(remained := n);
            SameStat(s, u) && SamePc(s, u) && SameQueues(s, u) && SameWaiters(s, u) && SameHistory(s, u)
  {}

  lemma RemainedKeeps(s: State, n: nat)
    requires Core(s) && n <= TIMESLICE
    ensures Core(s.(remained := n))
  {
    var u := s.(remained := n);
    RemainedIs(s, n);
    hide Stat, At, Queue, Waiters, Queued, Handed, Inside, MutexOk, HistoryOk, WaitOk;
    HistoryKept(s, u);
    OwnerAlive(s);
    MutexKept(s, u);
    WaitKept(s, u);
  }

  /** Whoever is switched to, the switch keeps the invariants. */
  lemma SwitchKeeps(s: State, r: State, next: nat)
    requires Core(s) && Switching(s, r, next)
    ensures Core(Place(r, next))
  {
    hide Stat, At, Queue, Waiters, Queued, Handed, Inside, ReadyOk, MutexOk, HistoryOk, WaitOk, StatusOk, NotifyOne;
    hide Place;
    ReadyIs(s, r.ready);
    PlaceIs(r, next);
    if Stat(s, s.current) != Finished {
      PlainSwitch(s, r, Place(r, next), next);
    } else {
      var d := r.(status := s.status[s.current := Dead]);
      LastSwitch(s, r, d, next);
      var c := OfThread(s.current);
      NotifyCurrent(d, c, next);
      SwitchedActive(s, r, d, next, c);
      NotifyKeeps(d.(current := next), c);
      RemainedKeeps(NotifyOne(d.(current := next), c), TIMESLICE);
    }
  }

  /** The thread switched to is active, so it is not the joiner that is woken. */
  lemma SwitchedActive(s: State, r: State, d: State, next: nat, c: Cv)
    requires Switching(s, r, next) && Stat(s, s.current) == Finished && d == r.(status := s.status[s.current := Dead])
    requires Core(d.(current := next))
    ensures Waiters(d.(current := next), c) != [] ==> Waiters(d.(current := next), c)[0] != next
  {
    var u := d.(current := next);
    if Waiters(u, c) != [] { HeadWaits(u, c); }
  }

  lemma SamePlace(s: State)
    requires Stat(s, s.current) == Active
    ensures Place(s, s.current) == s.(remained := TIMESLICE)
  {}

  lemma ScheduleKeeps(s: State)
    requires Core(s)
    ensures Core(Schedule(s))
  {
    hide Stat, At, Queue, Waiters, Queued, Handed, Inside, MutexOk, HistoryOk, WaitOk, NotifyOne, Place;
    if s.ready == [] && Stat(s, s.current) == Active {
      SamePlace(s);
      RemainedKeeps(s, TIMESLICE);
    } else {
      Requeue(s);
      var next := if s.ready != [] then s.ready[0] else s.idle;
      var rest := if s.ready != [] then s.ready[1..] else [];
      var queue := if Stat(s, s.current) == Active && s.current != s.idle then rest + [s.current] else rest;
      SwitchKeeps(s, s.(ready := queue), next);
    }
  }

  lemma RemainedBound(s: State)
    requires Core(s)
    ensures s.remained <= TIMESLICE
  {}

  lemma TickKeeps(s: State)
    requires Core(s)
    ensures Core(Tick(s))
  {
    hide Core, Schedule;
    var n := if s.remained > 0 then s.remained - 1 else s.remained;
    RemainedBound(s);
    RemainedKeeps(s, n);
    ScheduleKeeps(s.(remained := n));
  }

  lemma BusyIs(s: State)
    ensures TickBusy(s) == s.(remained := if s.remained > 0 then s.remained - 1 else s.remained)
  {}

  // ---- starting, ending and destroying threads ----

  lemma CreateKeeps(s: State, t: nat)
    requires Core(s) && Stat(s, t) == Gone
    ensures Core(s.(status := s.status[t := New]))
  {
    var u := s.(status := s.status[t := New]);
    CreateIs(s, t);
    NewQuiet(s, t);
    hide Stat, At, Queue, Waiters, Queued, Handed, Inside, MutexOk, HistoryOk, WaitOk, ReadyOk, StatusOk;
    HistoryKept(s, u);
    OwnerAlive(s);
    MutexKept(s, u);
    WaitKept(s, u);
    NewReady(s, u, t);
  }

  lemma NewReady(s: State, u: State, t: nat)
    requires ReadyOk(s) && StatusOk(s) && Stat(s, t) == Gone && t != s.current && t != s.idle && At(s, t) == Running
    requires SetStat(s, u, t, New) && SamePc(s, u) && SameRest(s, u) && u.ready == s.ready && u.current == s.current
    ensures ReadyOk(u) && StatusOk(u)
  {
    hide Stat, At;
  }

  lemma NewQuiet(s: State, t: nat)
    requires StatusOk(s) && Stat(s, t) == Gone
    ensures At(s, t) == Running && t != s.current && t != s.idle
  {}

  lemma CreateIs(s: State, t: nat)
    requires Stat(s, t) == Gone
    ensures var u := s.(status := s.status[t := New]);
            SetStat(s, u, t, New) && SamePc(s, u) && SameQueues(s, u) && SameWaiters(s, u) && SameHistory(s, u)
            && SameRest(s, u)
  {}

  lemma StartKeeps(s: State, t: nat)
    requires Core(s) && Stat(s, t) == New
    ensures Core(Wake(s, t))
  {
    WakeIs(s, t);
    var u := Wake(s, t);
    hide Stat, At, Queue, Waiters, Queued, Handed, Inside, MutexOk, HistoryOk, WaitOk, Wake;
    HistoryKept(s, u);
    OwnerAlive(s);
    MutexKept(s, u);
    WaitKept(s, u);
    AppendNew(s.ready, t);
  }

  lemma ExitIs(s: State, ret: int)
    ensures var u := Exit(s, ret);
            && SetStat(s, u, s.current, Finished) && SamePc(s, u) && SameQueues(s, u) && SameWaiters(s, u)
            && SameHistory(s, u)
            && SameRest(s, u) && u.owner == s.owner && u.ready == s.ready && u.current == s.current
  {}

  lemma ExitKeeps(s: State, ret: int)
    requires Core(s) && AtRest(s) && s.current != s.idle && forall m :: m in s.owner ==> s.owner[m] != s.current
    ensures Core(Exit(s, ret))
  {
    ExitIs(s, ret);
    var u := Exit(s, ret);
    hide Stat, At, Queue, Waiters, Queued, Handed, Inside, MutexOk, HistoryOk, WaitOk, Exit;
    HistoryKept(s, u);
    OwnerAlive(s);
    MutexKept(s, u);
    WaitKept(s, u);
  }

  lemma DestroyIs(s: State, t: nat)
    ensures var u := s.(status := s.status - {t});
            && SetStat(s, u, t, Gone) && SamePc(s, u) && SameQueues(s, u) && SameWaiters(s, u) && SameHistory(s, u)
            && SameRest(s, u)
  {}

  lemma DestroyKeeps(s: State, t: nat)
    requires Core(s) && Stat(s, t) == Dead
    ensures Core(s.(status := s.status - {t}))
  {
    DestroyIs(s, t);
    var u := s.(status := s.status - {t});
    hide Stat, At, Queue, Waiters, Queued, Handed, Inside, MutexOk, HistoryOk, WaitOk;
    HistoryKept(s, u);
    OwnerAlive(s);
    MutexKept(s, u);
    WaitKept(s, u);
  }
}
