/** What follows from the table of effects: a waiter gives its mutex up and comes back with it, a
    time slice is used up, wakeups come in order and none is forgotten. */
module ThreadPromises {
  import opened Threads
  import opened ThreadSteps
  import opened ThreadLocks
  import opened ThreadRuns
  import opened ThreadTheorems
  import opened ThreadEffects

  // ---- no sleeper owns its mutex ----

  lemma FollowsParts(s: State, a: Action)
    requires Inv(s) && SleepOk(s) && Can(s, a)
    ensures var u := Do(s, a);
            && (forall m :: OwnerOf(u, m) == OwnerAfter(s, a, m)) && (forall t :: Stat(u, t) == StatAfter(s, a, t))
            && (forall t :: At(u, t) == PcAfter(s, a, t)) && (forall m :: Queue(u, m) == QueueAfter(s, a, m))
            && (forall c :: Waiters(u, c) == WaitersAfter(s, a, c))
            && u.ready == ReadyAfter(s, a) && u.current == CurrentAfter(s, a) && u.remained == RemainedAfter(s, a)
  {
    StepFollows(s, a);
    hide Inv, SleepOk, Can, Do, OwnerOf, OwnerAfter, StatAfter, PcAfter, QueueAfter, WaitersAfter, ReadyAfter;
    hide CurrentAfter, RemainedAfter, Stat, At, Queue, Waiters;
  }

  lemma SleepKeeps(s: State, a: Action)
    requires Inv(s) && SleepOk(s) && Can(s, a)
    ensures SleepOk(Do(s, a))
  {
    hide *;
    var u := Do(s, a);
    FollowsParts(s, a);
    StepMutex(s, a);
    SleepTable(s, a, u);
  }

  /** What a step needs of its state, as far as mutexes go. */
  predicate Grounded(s: State, a: Action) {
    && (a.AWait? || a.ALock? || a.AUnlock? || a.AJoin? ==> At(s, s.current) == Running)
    && (a.ARelock? ==> At(s, s.current).Locking?) && (a.AWoken? ==> At(s, s.current).Waiting?)
    && (a.ANotifyAll? || a.ANotifyOne? ==> At(s, s.current) == Running) && (a.AWakeNext? ==> At(s, s.current).Waking?)
    && (Released(s, a).Some? ==> Owns(s, Released(s, a).value, s.current))
  }

  lemma StepMutex(s: State, a: Action)
    requires Inv(s) && Can(s, a)
    ensures Grounded(s, a) && MutexOk(s) && (a.ARelock? ==> Awake(s))
  {
    hide *;
    InvPreempt(s);
    CanGrounds(s, a);
  }

  lemma CanGrounds(s: State, a: Action)
    requires Can(s, a)
    ensures Grounded(s, a) && (a.ARelock? ==> Awake(s))
  {
    hide Stat, At, Waiters, NobodyJoins;
  }

  lemma SleepTable(s: State, a: Action, u: State)
    requires SleepOk(s) && MutexOk(s) && Grounded(s, a)
    requires forall m :: OwnerOf(u, m) == OwnerAfter(s, a, m)
    requires forall t :: At(u, t) == PcAfter(s, a, t)
    ensures SleepOk(u)
  {
    hide Stat, At, Queue, Waiters;
    forall t | At(u, t).Waiting? && At(u, t).relock.Some? ensures !Owns(u, At(u, t).relock.value, t) {
      var m := At(u, t).relock.value;
      assert OwnerOf(u, m) == OwnerAfter(s, a, m);
      if Released(s, a) == Some(m) && Queue(s, m) != [] { assert Queue(s, m)[0] in Queue(s, m); }
    }
  }

  /** In every state of every run, whoever sleeps in condition_wait does not own its mutex. */
  lemma {:induction false} SleepRun(s: State, acts: seq<Action>, end: State)
    requires Inv(s) && SleepOk(s) && Run(s, acts, end)
    ensures Inv(end) && SleepOk(end)
    decreases |acts|
  {
    hide Inv, SleepOk, Can, Do;
    if acts != [] {
      StepKeeps(s, acts[0]);
      SleepKeeps(s, acts[0]);
      SleepRun(Do(s, acts[0]), acts[1..], end);
    }
  }

  /** In every state of every run from setup a thread that sleeps in condition_wait does not own its mutex. */
  lemma BootSleeps(idle: nat, acts: seq<Action>, end: State)
    requires Run(Boot(idle), acts, end)
    ensures Inv(end) && SleepOk(end)
    ensures forall t, c, m :: At(end, t) == Waiting(c, Some(m)) ==> !Owns(end, m, t)
  {
    BootInv(idle);
    NobodySleeps(idle);
    SleepRun(Boot(idle), acts, end);
    hide Inv, Run, At, Stat;
  }

  lemma NobodySleeps(idle: nat)
    ensures SleepOk(Boot(idle))
  {}

  /** condition_wait gives the mutex up: to the head of its queue, who can run again, or else it
      is free; the caller sleeps at the tail of the condition's queue. */
  lemma WaitReleases(s: State, c: Cv, m: nat)
    requires Inv(s) && SleepOk(s) && Can(s, AWait(c, Some(m)))
    ensures var u, me := Do(s, AWait(c, Some(m))), s.current;
            && Waiters(u, c) == Waiters(s, c) + [me] && Stat(u, me) == Blocked && !Owns(u, m, me) && me !in Inside(u, m)
            && (Queue(s, m) == [] ==> m !in u.owner && u.ready == s.ready)
            && (Queue(s, m) != [] ==>
                  var h := Queue(s, m)[0];
                  h != me && Owns(u, m, h) && Stat(u, h) == Active && u.ready == s.ready + [h])
  {
    hide *;
    var a, u := AWait(c, Some(m)), Do(s, AWait(c, Some(m)));
    FollowsParts(s, a);
    StepMutex(s, a);
    StepKeeps(s, a);
    WaitTableIs(s, c, m, u);
    NotInside(u, m, s.current);
  }

  lemma WaitTableIs(s: State, c: Cv, m: nat, u: State)
    requires MutexOk(s) && Grounded(s, AWait(c, Some(m)))
    requires var a := AWait(c, Some(m));
             && (forall k :: OwnerOf(u, k) == OwnerAfter(s, a, k)) && (forall t :: Stat(u, t) == StatAfter(s, a, t))
             && (forall k :: Waiters(u, k) == WaitersAfter(s, a, k)) && u.ready == ReadyAfter(s, a)
    ensures var me := s.current;
            && Waiters(u, c) == Waiters(s, c) + [me] && Stat(u, me) == Blocked && !Owns(u, m, me)
            && (Queue(s, m) == [] ==> m !in u.owner && u.ready == s.ready)
            && (Queue(s, m) != [] ==>
                  var h := Queue(s, m)[0];
                  h != me && Owns(u, m, h) && Stat(u, h) == Active && u.ready == s.ready + [h])
  {
    hide Stat, At, Queue, Waiters;
    assert OwnerOf(u, m) == OwnerAfter(s, AWait(c, Some(m)), m);
    if Queue(s, m) != [] { assert Queue(s, m)[0] in Queue(s, m); }
  }

  lemma NotInside(s: State, m: nat, t: nat)
    requires Inv(s) && !Owns(s, m, t)
    ensures t !in Inside(s, m)
  {
    if t in Inside(s, m) { MutualExclusion(s, m, t, t); }
    hide Inv, Inside;
  }

  /** Nobody returns from mutex_lock or condition_wait without the mutex. */
  lemma MutexReturn(s: State, a: Action, t: nat, m: nat)
    requires Inv(s) && SleepOk(s) && Can(s, a)
    requires At(s, t) == Locking(m) || (At(s, t).Waiting? && At(s, t).c.Own? && At(s, t).relock == Some(m))
    requires At(Do(s, a), t) == Running
    ensures t == s.current && Owns(Do(s, a), m, t) && t in Inside(Do(s, a), m)
  {
    hide *;
    var u := Do(s, a);
    FollowsParts(s, a);
    StepMutex(s, a);
    if a.ARelock? && t == s.current { RelockOwner(s, t, m); }
    ReturnTable(s, a, u, t, m);
    StepKeeps(s, a);
    OwnerInside(u, m, t);
  }

  lemma RelockOwner(s: State, t: nat, m: nat)
    requires MutexOk(s) && Awake(s) && t == s.current && (At(s, t) == Locking(m) || At(s, t).Waiting?)
    ensures At(s, t) == Locking(m) ==> Owns(s, m, t)
  {
    if At(s, t) == Locking(m) { OneTurn(s, m); }
    hide MutexOk, At, Stat;
  }

  lemma ReturnTable(s: State, a: Action, u: State, t: nat, m: nat)
    requires Grounded(s, a) && (a.ARelock? && t == s.current && At(s, t) == Locking(m) ==> Owns(s, m, t))
    requires At(s, t) == Locking(m) || (At(s, t).Waiting? && At(s, t).c.Own? && At(s, t).relock == Some(m))
    requires At(u, t) == Running && At(u, t) == PcAfter(s, a, t) && OwnerOf(u, m) == OwnerAfter(s, a, m)
    ensures t == s.current && Owns(u, m, t)
  {
    hide Stat, At, Queue, Waiters;
  }

  lemma OwnerInside(s: State, m: nat, t: nat)
    requires Inv(s) && Owns(s, m, t) && At(s, t) == Running
    ensures t in Inside(s, m)
  {
    hide *;
    InvParts(s);
    OwnerNotQueued(s, m, t);
    InsideIs(s, m, t);
  }

  lemma OwnerNotQueued(s: State, m: nat, t: nat)
    requires MutexOk(s) && At(s, t) == Running
    ensures t !in Queue(s, m)
  {
    hide Stat, At, Queue, Owns, NoDuplicates;
  }

  lemma InsideIs(s: State, m: nat, t: nat)
    requires HistoryOk(s) && Owns(s, m, t) && t !in Queue(s, m)
    ensures t in Inside(s, m)
  {
    hide Queue, Inside, Queued, Handed;
  }

  lemma InvParts(s: State)
    requires Inv(s)
    ensures MutexOk(s) && HistoryOk(s)
  {
    hide MutexOk, HistoryOk, WaitOk, ReadyOk, StatusOk, JoinOk;
  }

  /** While nobody gives a mutex up, its owner keeps it. */
  lemma OwnerKeeps(s: State, a: Action, m: nat)
    requires Inv(s) && SleepOk(s) && Can(s, a) && m in s.owner && Released(s, a) != Some(m)
    ensures Owns(Do(s, a), m, s.owner[m])
  {
    FollowsParts(s, a);
    hide Inv, SleepOk, Can, Do, Released, Asked, Queue, At, Stat, Waiters, PcAfter, StatAfter, QueueAfter, WaitersAfter;
    hide ReadyAfter, CurrentAfter, RemainedAfter;
    assert OwnerOf(Do(s, a), m) == OwnerAfter(s, a, m);
  }

  // ---- the time slice ----

  /** With more than one tick left a tick only counts; with the last one the head of the queue
      runs next, with a whole slice. */
  lemma TickSlice(s: State)
    requires Inv(s) && SleepOk(s)
    ensures var u := Do(s, ATick);
            && (s.remained > 1 ==> u.current == s.current && u.ready == s.ready && u.remained == s.remained - 1)
            && (s.remained <= 1 ==> u.remained == TIMESLICE)
            && (s.remained <= 1 && s.ready != [] ==> u.current == s.ready[0])
  {
    FollowsParts(s, ATick);
    assert s.ready + [] == s.ready;
    hide Inv, SleepOk, Tick, Stat, At, Queue, Waiters;
  }

  function AllTicks(acts: seq<Action>): nat {
    if acts == [] then 0 else (if acts[0].ATick? || acts[0].ATickBusy? then 1 else 0) + AllTicks(acts[1..])
  }

  /** A thread stays on the CPU until its slice is used up, unless schedule is called. */
  lemma {:induction false} SliceKept(s: State, acts: seq<Action>, end: State)
    requires Inv(s) && SleepOk(s) && Run(s, acts, end) && AYield !in acts && AllTicks(acts) < s.remained
    ensures end.current == s.current && end.remained == s.remained - AllTicks(acts)
    decreases |acts|
  {
    hide Inv, SleepOk, Can, Do;
    if acts != [] {
      var a, u := acts[0], Do(s, acts[0]);
      assert a in acts && forall x :: x in acts[1..] ==> x in acts;
      StepKeeps(s, a);
      SleepKeeps(s, a);
      StaysOn(s, a);
      SliceKept(u, acts[1..], end);
    }
  }

  lemma StaysOn(s: State, a: Action)
    requires Inv(s) && SleepOk(s) && Can(s, a) && a != AYield && (a == ATick ==> s.remained > 1)
    requires a.ATickBusy? ==> s.remained > 0
    ensures Do(s, a).current == s.current
    ensures Do(s, a).remained == s.remained - if a.ATick? || a.ATickBusy? then 1 else 0
  {
    FollowsParts(s, a);
    hide Inv, SleepOk, Can, Do, Stat, At, Queue, Waiters, OwnerAfter, StatAfter, PcAfter, QueueAfter, WaitersAfter;
    hide ReadyAfter;
  }

  /** Who has just been switched to stays through the next TIMESLICE - 1 ticks. */
  lemma FullSlice(s: State, a: Action, acts: seq<Action>, end: State)
    requires Inv(s) && SleepOk(s) && Can(s, a) && Switches(s, a)
    requires Run(Do(s, a), acts, end) && AYield !in acts && AllTicks(acts) < TIMESLICE
    ensures end.current == Do(s, a).current && end.current == CurrentAfter(s, a)
  {
    FollowsParts(s, a);
    StepKeeps(s, a);
    SleepKeeps(s, a);
    hide Inv, SleepOk, Can, Do, Stat, At, Queue, Waiters, OwnerAfter, StatAfter, PcAfter, QueueAfter, WaitersAfter;
    hide ReadyAfter, CurrentAfter, Switches;
    SliceKept(Do(s, a), acts, end);
  }

  // ---- wakeups ----

  /** In every run the waiters of a condition leave its queue in the order in which they came. */
  lemma {:induction false} WaitersInOrder(s: State, acts: seq<Action>, end: State, c: Cv)
    returns (k: nat, tail: seq<nat>)
    requires Inv(s) && SleepOk(s) && Run(s, acts, end)
    ensures k <= |Waiters(s, c)| && Waiters(end, c) == Waiters(s, c)[k..] + tail
    decreases |acts|
  {
    hide Inv, SleepOk, Can, Do, Waiters;
    var q := Waiters(s, c);
    if acts == [] {
      k, tail := 0, [];
      assert q == q[0..] + [];
    } else {
      var a, u := acts[0], Do(s, acts[0]);
      StepKeeps(s, a);
      SleepKeeps(s, a);
      var i, more := QueueStep(s, a, c);
      var j, rest := WaitersInOrder(u, acts[1..], end, c);
      k, tail := SuffixTwice(q, i, more, j, rest);
    }
  }

  lemma QueueStep(s: State, a: Action, c: Cv) returns (i: nat, more: seq<nat>)
    requires Inv(s) && SleepOk(s) && Can(s, a)
    ensures i <= |Waiters(s, c)| && Waiters(Do(s, a), c) == Waiters(s, c)[i..] + more
  {
    hide *;
    FollowsParts(s, a);
    i, more := QueueForms(s, a, c);
    assert Waiters(Do(s, a), c) == WaitersAfter(s, a, c);
  }

  lemma QueueForms(s: State, a: Action, c: Cv) returns (i: nat, more: seq<nat>)
    ensures i <= |Waiters(s, c)| && WaitersAfter(s, a, c) == Waiters(s, c)[i..] + more
  {
    hide Waiters, Dies, Stat;
    var q, r := Waiters(s, c), WaitersAfter(s, a, c);
    i, more := Suffix(q, r, s.current);
  }

  lemma Suffix(q: seq<nat>, r: seq<nat>, t: nat) returns (i: nat, more: seq<nat>)
    requires r == q + [t] || r == [] || r == q || (q != [] && r == q[1..])
    ensures i <= |q| && r == q[i..] + more
  {
    i, more := 0, [];
    if r == q + [t] {
      more := [t];
    } else if r == [] {
      i := |q|;
    } else if q != [] && r == q[1..] {
      i := 1;
    }
  }

  lemma SuffixTwice(q: seq<nat>, i: nat, more: seq<nat>, j: nat, rest: seq<nat>) returns (k: nat, tail: seq<nat>)
    requires i <= |q| && j <= |q[i..] + more|
    ensures k <= |q| && (q[i..] + more)[j..] + rest == q[k..] + tail
  {
    if i + j <= |q| {
      k, tail := i + j, more + rest;
    } else {
      k, tail := |q|, more[j - (|q| - i)..] + rest;
    }
  }

  /** notify_one makes the longest waiter ready to run, last in the queue. */
  lemma NotifyWakes(s: State, c: Cv)
    requires Inv(s) && SleepOk(s) && Can(s, ANotifyOne(c)) && Waiters(s, c) != []
    ensures var u, h := Do(s, ANotifyOne(c)), Waiters(s, c)[0];
            Stat(u, h) == Active && u.ready == s.ready + [h] && Waiters(u, c) == Waiters(s, c)[1..]
  {
    FollowsParts(s, ANotifyOne(c));
    StepMutex(s, ANotifyOne(c));
    hide Inv, SleepOk, Do, Stat, At, Queue, Waiters;
  }

  /** The turns of notify_all's loop, run to its end, wake everyone who was waiting, in order. */
  lemma {:induction false} NotifyAllWakes(s: State, rest: seq<nat>) returns (acts: seq<Action>, end: State)
    requires Inv(s) && SleepOk(s) && Awake(s) && At(s, s.current) == Waking(rest)
    ensures Run(s, acts, end) && (forall a :: a in acts ==> a == AWakeNext) && Inv(end) && SleepOk(end)
    ensures end.current == s.current && At(end, end.current) == Running && end.ready == s.ready + rest
    ensures forall t :: t in rest ==> Stat(end, t) == Active
    ensures forall t :: Stat(s, t) == Active ==> Stat(end, t) == Active
    decreases |rest|
  {
    hide Inv, SleepOk, Stat, At, Do;
    var u := Do(s, AWakeNext);
    StepKeeps(s, AWakeNext);
    SleepKeeps(s, AWakeNext);
    WakeTurn(s, rest);
    if rest == [] {
      acts, end := [AWakeNext], u;
      assert acts[1..] == [] && Run(u, [], u) && s.ready + [] == s.ready;
    } else {
      var more;
      more, end := NotifyAllWakes(u, rest[1..]);
      acts := [AWakeNext] + more;
      assert acts[1..] == more;
      assert (s.ready + [rest[0]]) + rest[1..] == s.ready + rest by { assert rest == [rest[0]] + rest[1..]; }
      forall t | t in rest ensures Stat(end, t) == Active { if t != rest[0] { assert t in rest[1..]; } }
    }
  }

  lemma WakeTurn(s: State, rest: seq<nat>)
    requires Inv(s) && SleepOk(s) && Awake(s) && At(s, s.current) == Waking(rest)
    ensures Can(s, AWakeNext)
    ensures var u := Do(s, AWakeNext);
            && u.current == s.current && Awake(u) && (forall t :: Stat(s, t) == Active ==> Stat(u, t) == Active)
            && (rest == [] ==> At(u, u.current) == Running && u.ready == s.ready)
            && (rest != [] ==> At(u, u.current) == Waking(rest[1..]) && u.ready == s.ready + [rest[0]]
                               && Stat(u, rest[0]) == Active)
  {
    hide *;
    CanWake(s);
    FollowsParts(s, AWakeNext);
    TurnTable(s, Do(s, AWakeNext), rest);
  }

  lemma CanWake(s: State)
    requires Awake(s) && At(s, s.current).Waking?
    ensures Can(s, AWakeNext)
  {}

  lemma TurnTable(s: State, u: State, rest: seq<nat>)
    requires Awake(s) && At(s, s.current) == Waking(rest) && (forall t :: Stat(u, t) == StatAfter(s, AWakeNext, t))
    requires forall t :: At(u, t) == PcAfter(s, AWakeNext, t)
    requires u.ready == ReadyAfter(s, AWakeNext) && u.current == CurrentAfter(s, AWakeNext)
    ensures u.current == s.current && Awake(u) && (forall t :: Stat(s, t) == Active ==> Stat(u, t) == Active)
    ensures rest == [] ==> At(u, u.current) == Running && u.ready == s.ready
    ensures rest != [] ==> At(u, u.current) == Waking(rest[1..]) && u.ready == s.ready + [rest[0]]
                           && Stat(u, rest[0]) == Active
  {
    assert s.ready + [] == s.ready;
    hide Stat, At, Waiters, Queue;
  }
}
