/** What one step does to each of the kernel's variables, told variable by variable. */
module ThreadEffects {
  import opened Threads
  import opened ThreadSteps
  import opened ThreadLocks
  import opened ThreadRuns
  import opened ThreadTheorems

  /** The step calls schedule with preemption enabled. */
  predicate Switches(s: State, a: Action) {
    a == AYield || (a == ATick && s.remained <= 1)
  }

  /** The mutex that the running thread gives up. */
  function Released(s: State, a: Action): Option<nat> {
    match a
    case AUnlock(m) => Some(m)
    case AWait(_, relock) => relock
    case _ => None
  }

  /** The mutex that it asks for, in mutex_lock or on its way out of condition_wait. */
  function Asked(s: State, a: Action): Option<nat> {
    match a
    case ALock(m) => Some(m)
    case AWoken => if At(s, s.current).Waiting? && At(s, s.current).c.Own? then At(s, s.current).relock else None
    case _ => None
  }

  predicate Taken(s: State, m: Option<nat>) {
    m.Some? && m.value in s.owner
  }

  /** The running thread goes to sleep. */
  predicate Blocks(s: State, a: Action) {
    a.AWait? || (a.AJoin? && Stat(s, a.t) != Dead) || Taken(s, Asked(s, a))
  }

  function Head(q: seq<nat>): seq<nat> {
    if q == [] then [] else [q[0]]
  }

  predicate Dies(s: State, a: Action) {
    Switches(s, a) && Stat(s, s.current) == Finished
  }

  /** The thread that becomes ready to run: at most one. */
  function Wakee(s: State, a: Action): seq<nat> {
    match a
    case AStart(t) => [t]
    case ANotifyOne(c) => Head(Waiters(s, c))
    case AInterrupt(c) => Head(Waiters(s, c))
    case AWakeNext => if At(s, s.current).Waking? then Head(At(s, s.current).rest) else []
    case _ =>
      if Released(s, a).Some? then Head(Queue(s, Released(s, a).value))
      else if Dies(s, a) then Head(Waiters(s, OfThread(s.current)))
      else []
  }

  // ---- each variable after the step ----

  function OwnerOf(s: State, m: nat): Option<nat> {
    if m in s.owner then Some(s.owner[m]) else None
  }

  /** A mutex changes hands only when its owner unlocks it or waits with it, and then goes to the
      head of its queue or becomes free; a free one goes to whoever asks. */
  function OwnerAfter(s: State, a: Action, m: nat): Option<nat> {
    if Released(s, a) == Some(m) then (if Queue(s, m) == [] then None else Some(Queue(s, m)[0]))
    else if Asked(s, a) == Some(m) && m !in s.owner then Some(s.current)
    else OwnerOf(s, m)
  }

  function StatAfter(s: State, a: Action, t: nat): Status {
    if t == s.current && Blocks(s, a) then Blocked
    else if t in Wakee(s, a) then Active
    else if t == s.current && Dies(s, a) then Dead
    else if t == s.current && a.AExit? then Finished
    else if a == ACreate(t) then New
    else if a == ADestroy(t) then Gone
    else Stat(s, t)
  }

  /** Only the running thread moves. */
  function PcAfter(s: State, a: Action, t: nat): Pc {
    if t != s.current then At(s, t)
    else
      match a
      case AWait(c, relock) => Waiting(c, relock)
      case AJoin(x) => if Stat(s, x) == Dead then At(s, t) else Waiting(OfThread(x), None)
      case ANotifyAll(c) => Waking(Waiters(s, c))
      case AWakeNext =>
        if At(s, t).Waking? && At(s, t).rest != [] then Waking(At(s, t).rest[1..]) else Running
      case ARelock => Running
      case AWoken => if Taken(s, Asked(s, a)) then Locking(Asked(s, a).value) else Running
      case ALock(m) => if Taken(s, Some(m)) then Locking(m) else Running
      case _ => At(s, t)
  }

  /** Who asks in vain queues up at the tail; who comes back as the owner leaves. */
  function QueueAfter(s: State, a: Action, m: nat): seq<nat> {
    if Asked(s, a) == Some(m) && m in s.owner then Queue(s, m) + [s.current]
    else if a == ARelock && At(s, s.current) == Locking(m) && Queue(s, m) != [] then Queue(s, m)[1..]
    else Queue(s, m)
  }

  /** Waiters queue up at the tail and are woken from the head. */
  function WaitersAfter(s: State, a: Action, c: Cv): seq<nat> {
    if (a.AWait? && a.c == c) || (a.AJoin? && c == OfThread(a.t) && Stat(s, a.t) != Dead) then
      Waiters(s, c) + [s.current]
    else if a == ANotifyAll(c) then []
    else if (a == ANotifyOne(c) || a == AInterrupt(c) || (Dies(s, a) && c == OfThread(s.current)))
            && Waiters(s, c) != []
    then Waiters(s, c)[1..]
    else Waiters(s, c)
  }

  /** Whoever wakes up, and in a switch whoever can go on, goes to the tail. */
  function ReadyAfter(s: State, a: Action): seq<nat> {
    if Switches(s, a) && s.ready != [] then
      s.ready[1..] + (if Stat(s, s.current) == Active && s.current != s.idle then [s.current] else []) + Wakee(s, a)
    else s.ready + Wakee(s, a)
  }

  /** In a switch the head of the queue runs next, the idle thread only where nobody else can. */
  function CurrentAfter(s: State, a: Action): nat {
    if !Switches(s, a) then s.current
    else if s.ready != [] then s.ready[0]
    else if Stat(s, s.current) == Active then s.current
    else s.idle
  }

  /** A switch starts a time slice, and each tick uses up a part of it. */
  function RemainedAfter(s: State, a: Action): nat {
    if Switches(s, a) then TIMESLICE
    else if (a.ATick? || a.ATickBusy?) && s.remained > 0 then s.remained - 1
    else s.remained
  }

  /** The step from `s` to `u` is as the table says. */
  ghost predicate Follows(s: State, a: Action, u: State) {
    && (forall m :: OwnerOf(u, m) == OwnerAfter(s, a, m)) && (forall t :: Stat(u, t) == StatAfter(s, a, t))
    && (forall t :: At(u, t) == PcAfter(s, a, t)) && (forall m :: Queue(u, m) == QueueAfter(s, a, m))
    && (forall c :: Waiters(u, c) == WaitersAfter(s, a, c))
    && u.ready == ReadyAfter(s, a) && u.current == CurrentAfter(s, a) && u.remained == RemainedAfter(s, a)
    && u.idle == s.idle && u.preempt == s.preempt
  }

  /** No thread owns the mutex that it will take again when it is back from condition_wait. */
  ghost predicate SleepOk(s: State) {
    forall t :: At(s, t).Waiting? && At(s, t).relock.Some? ==> !Owns(s, At(s, t).relock.value, t)
  }

  // ---- mutex.c ----

  lemma LockFollows(s: State, m: nat)
    requires Can(s, ALock(m)) && s.preempt == 0
    ensures Follows(s, ALock(m), Lock(s, m))
  {
    hide *;
    LockCan(s, m);
    LockGrown(s, m);
    if m !in s.owner {
      LockFastIs(s, m);
      LockFastTable(s, Lock(s, m), m);
    } else {
      LockSlowIs(s, m);
      LockSlowTable(s, Lock(s, m), m);
    }
  }

  lemma LockCan(s: State, m: nat)
    requires Can(s, ALock(m))
    ensures At(s, s.current) == Running && (m in s.owner ==> s.owner[m] != s.current) && Stat(s, s.current) == Active
  {
    hide Stat, At;
  }

  lemma LockFastTable(s: State, u: State, m: nat)
    requires m !in s.owner && At(s, s.current) == Running && SameRest(s, u)
    requires SameStat(s, u) && SetPc(s, u, s.current, Running) && SameQueues(s, u) && SameWaiters(s, u)
    requires u.owner == s.owner[m := s.current] && u.ready == s.ready && u.current == s.current
    requires u.remained == s.remained
    ensures Follows(s, ALock(m), u)
  {
    hide Stat, At, Queue, Waiters;
  }

  lemma LockSlowTable(s: State, u: State, m: nat)
    requires m in s.owner && s.owner[m] != s.current && At(s, s.current) == Running && SameRest(s, u)
    requires SetStat(s, u, s.current, Blocked) && SetPc(s, u, s.current, Locking(m)) && SameWaiters(s, u)
    requires SetQueue(s, u, m, Queue(s, m) + [s.current])
    requires u.owner == s.owner && u.ready == s.ready && u.current == s.current && u.remained == s.remained
    ensures Follows(s, ALock(m), u)
  {
    hide Stat, At, Queue, Waiters;
  }

  lemma RelockFollows(s: State)
    requires MutexOk(s) && Can(s, ARelock) && s.preempt == 0
    ensures Follows(s, ARelock, Relock(s, At(s, s.current).m))
  {
    hide *;
    RelockCan(s);
    var m := At(s, s.current).m;
    OneTurn(s, m);
    RelockIs(s, m);
    RelockSame(s, m);
    RelockTable(s, Relock(s, m), m);
  }

  lemma RelockCan(s: State)
    requires Can(s, ARelock)
    ensures At(s, s.current).Locking? && Stat(s, s.current) == Active && Awake(s)
  {
    hide Stat, At;
  }

  lemma RelockSame(s: State, m: nat)
    requires Owns(s, m, s.current)
    ensures Relock(s, m).remained == s.remained
  {
    hide Queue, Inside, RemoveAll, Block;
  }

  lemma RelockTable(s: State, u: State, m: nat)
    requires At(s, s.current) == Locking(m) && Queue(s, m) != [] && SameRest(s, u)
    requires SameStat(s, u) && SetPc(s, u, s.current, Running) && SameWaiters(s, u)
    requires SetQueue(s, u, m, Queue(s, m)[1..])
    requires u.owner == s.owner && u.ready == s.ready && u.current == s.current && u.remained == s.remained
    ensures Follows(s, ARelock, u)
  {
    hide Stat, At, Queue, Waiters;
  }

  lemma UnlockFollows(s: State, m: nat)
    requires MutexOk(s) && Can(s, AUnlock(m)) && s.preempt == 0
    ensures Follows(s, AUnlock(m), Unlock(s, m))
  {
    hide *;
    UnlockCan(s, m);
    UnlockSame(s, m);
    if Queue(s, m) != [] {
      UnlockIs(s, m);
      HeadBlocked(s, m);
      HandTable(s, Unlock(s, m), m);
    } else {
      UnlockFreeIs(s, m);
      FreeTable(s, Unlock(s, m), m);
    }
  }

  lemma UnlockCan(s: State, m: nat)
    requires Can(s, AUnlock(m))
    ensures At(s, s.current) == Running && Owns(s, m, s.current) && m in s.owner
  {
    hide Stat, At;
  }

  lemma UnlockSame(s: State, m: nat)
    ensures Unlock(s, m).remained == s.remained
  {
    hide Queue, Inside, Handed, Wake;
    var out := s.(inside := s.inside[m := Inside(s, m) - {s.current}]);
    if Queue(s, m) != [] {
      var w := Queue(s, m)[0];
      WakeSame(out.(owner := s.owner[m := w], handed := s.handed[m := Handed(s, m) + [w]]), w);
    }
  }

  lemma HandTable(s: State, u: State, m: nat)
    requires Queue(s, m) != [] && Queue(s, m)[0] != s.current && At(s, s.current) == Running && SameRest(s, u)
    requires SetStat(s, u, Queue(s, m)[0], Active) && SamePc(s, u) && SameQueues(s, u) && SameWaiters(s, u)
    requires u.owner == s.owner[m := Queue(s, m)[0]] && u.ready == s.ready + [Queue(s, m)[0]]
    requires u.current == s.current && u.remained == s.remained
    ensures Follows(s, AUnlock(m), u)
  {
    hide Stat, At, Queue, Waiters;
  }

  lemma FreeTable(s: State, u: State, m: nat)
    requires Queue(s, m) == [] && At(s, s.current) == Running && SameRest(s, u)
    requires SameStat(s, u) && SamePc(s, u) && SameQueues(s, u) && SameWaiters(s, u)
    requires u.owner == s.owner - {m} && u.ready == s.ready && u.current == s.current && u.remained == s.remained
    ensures Follows(s, AUnlock(m), u)
  {
    hide Stat, At, Queue, Waiters;
  }

  // ---- condition.c and thread_join ----

  /** The running thread queues up on `c` and sleeps; a mutex it gives up there goes the way of
      mutex_unlock. */
  lemma WaitFollows(s: State, c: Cv, relock: Option<nat>)
    requires MutexOk(s) && Can(s, AWait(c, relock)) && s.preempt == 0
    ensures Follows(s, AWait(c, relock), Wait(s, c, relock))
  {
    hide *;
    WaitCan(s, c, relock);
    EnqueueIs(s, c, relock);
    var u := Block(s.(cond := s.cond[c := Waiters(s, c) + [s.current]]), Waiting(c, relock));
    WaitRest(s, c, relock, u);
    var v := Wait(s, c, relock);
    if relock == None {
      WaitTable(s, v, c);
    } else {
      var m := relock.value;
      QueueSame(s, u, m);
      OwnsSame(s, u, m);
      UnlockSame(u, m);
      if Queue(s, m) != [] {
        UnlockIs(u, m);
        HeadBlocked(s, m);
        WaitHandTable(s, u, v, c, m);
      } else {
        UnlockFreeIs(u, m);
        WaitFreeTable(s, u, v, c, m);
      }
    }
  }

  lemma QueueSame(s: State, u: State, m: nat)
    requires SameQueues(s, u)
    ensures Queue(u, m) == Queue(s, m)
  {
    hide Queue;
  }

  lemma OwnsSame(s: State, u: State, m: nat)
    requires u.owner == s.owner && u.current == s.current && Owns(s, m, s.current)
    ensures Owns(u, m, u.current)
  {}

  lemma WaitCan(s: State, c: Cv, relock: Option<nat>)
    requires Can(s, AWait(c, relock))
    ensures At(s, s.current) == Running && (relock.Some? ==> Owns(s, relock.value, s.current))
  {
    hide Stat, At;
  }

  lemma WaitRest(s: State, c: Cv, relock: Option<nat>, u: State)
    requires u == Block(s.(cond := s.cond[c := Waiters(s, c) + [s.current]]), Waiting(c, relock))
    ensures Wait(s, c, relock) == if relock.Some? then Unlock(u, relock.value) else u
    ensures u.remained == s.remained
  {
    hide Unlock, Waiters;
  }

  lemma WaitTable(s: State, u: State, c: Cv)
    requires SetStat(s, u, s.current, Blocked) && SetPc(s, u, s.current, Waiting(c, None)) && SameQueues(s, u)
    requires SetWaiters(s, u, c, Waiters(s, c) + [s.current]) && SameRest(s, u)
    requires u.owner == s.owner && u.ready == s.ready && u.current == s.current && u.remained == s.remained
    ensures Follows(s, AWait(c, None), u)
  {
    hide Stat, At, Queue, Waiters;
  }

  lemma WaitHandTable(s: State, u: State, v: State, c: Cv, m: nat)
    requires Queue(s, m) != [] && Queue(s, m)[0] != s.current && Queue(u, m) == Queue(s, m)
    requires SetStat(s, u, s.current, Blocked) && SetPc(s, u, s.current, Waiting(c, Some(m))) && SameQueues(s, u)
    requires SetWaiters(s, u, c, Waiters(s, c) + [s.current]) && SameRest(s, u)
    requires u.owner == s.owner && u.ready == s.ready && u.current == s.current && u.remained == s.remained
    requires SetStat(u, v, Queue(s, m)[0], Active) && SamePc(u, v) && SameQueues(u, v) && SameWaiters(u, v)
    requires v.owner == u.owner[m := Queue(s, m)[0]] && v.ready == u.ready + [Queue(s, m)[0]] && SameRest(u, v)
    requires v.current == u.current && v.remained == u.remained
    ensures Follows(s, AWait(c, Some(m)), v)
  {
    hide Stat, At, Queue, Waiters;
  }

  lemma WaitFreeTable(s: State, u: State, v: State, c: Cv, m: nat)
    requires Queue(s, m) == []
    requires SetStat(s, u, s.current, Blocked) && SetPc(s, u, s.current, Waiting(c, Some(m))) && SameQueues(s, u)
    requires SetWaiters(s, u, c, Waiters(s, c) + [s.current]) && SameRest(s, u)
    requires u.owner == s.owner && u.ready == s.ready && u.current == s.current && u.remained == s.remained
    requires SameStat(u, v) && SamePc(u, v) && SameQueues(u, v) && SameWaiters(u, v) && SameRest(u, v)
    requires v.owner == u.owner - {m} && v.ready == u.ready && v.current == u.current && v.remained == u.remained
    ensures Follows(s, AWait(c, Some(m)), v)
  {
    hide Stat, At, Queue, Waiters;
  }

  lemma JoinFollows(s: State, t: nat)
    requires Can(s, AJoin(t)) && s.preempt == 0
    ensures Follows(s, AJoin(t), Join(s, t))
  {
    hide *;
    var u := Join(s, t);
    if Stat(s, t) == Dead {
      JoinDead(s, t);
      JoinedIs(s, u);
      JoinedTable(s, u, t);
    } else {
      EnqueueIs(s, OfThread(t), None);
      JoinSleeps(s, t);
      JoinTable(s, u, t);
    }
  }

  lemma JoinDead(s: State, t: nat)
    requires Stat(s, t) == Dead
    ensures Join(s, t) == s.(joined := Join(s, t).joined)
  {}

  lemma JoinSleeps(s: State, t: nat)
    requires Stat(s, t) != Dead
    ensures var u := Block(s.(cond := s.cond[OfThread(t) := Waiters(s, OfThread(t)) + [s.current]]),
                           Waiting(OfThread(t), None));
            Join(s, t) == u && u.remained == s.remained
  {
    hide Stat, Waiters;
  }

  lemma JoinedTable(s: State, u: State, t: nat)
    requires Stat(s, t) == Dead && u == s.(joined := u.joined)
    requires SameStat(s, u) && SamePc(s, u) && SameQueues(s, u) && SameWaiters(s, u)
    ensures Follows(s, AJoin(t), u)
  {
    hide Stat, At, Queue, Waiters;
  }

  lemma JoinTable(s: State, u: State, t: nat)
    requires Stat(s, t) != Dead && SameRest(s, u)
    requires SetStat(s, u, s.current, Blocked) && SetPc(s, u, s.current, Waiting(OfThread(t), None)) && SameQueues(s, u)
    requires SetWaiters(s, u, OfThread(t), Waiters(s, OfThread(t)) + [s.current])
    requires u.owner == s.owner && u.ready == s.ready && u.current == s.current && u.remained == s.remained
    ensures Follows(s, AJoin(t), u)
  {
    hide Stat, At, Queue, Waiters;
  }

  lemma WokenFollows(s: State)
    requires Inv(s) && SleepOk(s) && Can(s, AWoken)
    ensures Follows(s, AWoken, Woken(s))
  {
    hide *;
    WokenCan(s);
    var pc, u := At(s, s.current), s.(pc := s.pc[s.current := Running]);
    PcIs(s, Running);
    if pc.c.OfThread? {
      JoiningIs(s, pc.c.thread);
      JoinOnce(s, pc.c.thread);
      WokenJoined(s, pc.c.thread);
      JoinedIs(u, Woken(s));
      WokenTable(s, u, Woken(s));
    } else if pc.relock.Some? {
      var m := pc.relock.value;
      WokenLocks(s);
      LockGrown(u, m);
      if m !in s.owner {
        LockFastIs(u, m);
        WokenFastTable(s, u, Lock(u, m), m);
      } else {
        NotOwner(s, m);
        LockSlowIs(u, m);
        WokenSlowTable(s, u, Lock(u, m), m);
      }
    } else {
      WokenLocks(s);
      JoinedIs(u, u);
      WokenTable(s, u, u);
    }
  }

  lemma WokenCan(s: State)
    requires Inv(s) && Can(s, AWoken)
    ensures At(s, s.current).Waiting? && Awake(s) && s.preempt == 0
  {
    hide Stat, At, MutexOk, WaitOk, HistoryOk, ReadyOk, JoinOk;
  }

  lemma JoiningIs(s: State, t: nat)
    requires At(s, s.current).Waiting? && At(s, s.current).c == OfThread(t)
    ensures Joining(s, s.current, t)
  {}

  lemma NotOwner(s: State, m: nat)
    requires SleepOk(s) && At(s, s.current).Waiting? && At(s, s.current).relock == Some(m) && m in s.owner
    ensures s.owner[m] != s.current
  {
    hide At;
  }

  lemma WokenJoined(s: State, t: nat)
    requires At(s, s.current).Waiting? && At(s, s.current).c == OfThread(t) && Stat(s, t) == Dead
    ensures var u := s.(pc := s.pc[s.current := Running]); Woken(s) == u.(joined := Woken(s).joined)
  {}

  lemma WokenLocks(s: State)
    requires At(s, s.current).Waiting? && At(s, s.current).c.Own?
    ensures var u, r := s.(pc := s.pc[s.current := Running]), At(s, s.current).relock;
            Woken(s) == if r.Some? then Lock(u, r.value) else u
  {
    hide At, Lock;
  }

  lemma WokenTable(s: State, u: State, v: State)
    requires At(s, s.current).Waiting? && (At(s, s.current).c.OfThread? || At(s, s.current).relock == None)
    requires u == s.(pc := u.pc) && v == u.(joined := v.joined)
    requires SameStat(s, u) && SetPc(s, u, s.current, Running) && SameQueues(s, u) && SameWaiters(s, u)
    requires SameStat(u, v) && SamePc(u, v) && SameQueues(u, v) && SameWaiters(u, v)
    ensures Follows(s, AWoken, v)
  {
    hide Stat, At, Queue, Waiters;
  }

  lemma WokenFastTable(s: State, u: State, v: State, m: nat)
    requires At(s, s.current).Waiting? && At(s, s.current).c.Own? && At(s, s.current).relock == Some(m) && m !in s.owner
    requires u == s.(pc := u.pc) && SameRest(u, v)
    requires SameStat(s, u) && SetPc(s, u, s.current, Running) && SameQueues(s, u) && SameWaiters(s, u)
    requires SameStat(u, v) && SetPc(u, v, s.current, Running) && SameQueues(u, v) && SameWaiters(u, v)
    requires v.owner == s.owner[m := s.current] && v.ready == u.ready && v.current == u.current
    requires v.remained == u.remained
    ensures Follows(s, AWoken, v)
  {
    hide Stat, At, Queue, Waiters;
  }

  lemma WokenSlowTable(s: State, u: State, v: State, m: nat)
    requires At(s, s.current).Waiting? && At(s, s.current).c.Own? && At(s, s.current).relock == Some(m) && m in s.owner
    requires u == s.(pc := u.pc) && SameRest(u, v)
    requires SameStat(s, u) && SetPc(s, u, s.current, Running) && SameQueues(s, u) && SameWaiters(s, u)
    requires SetStat(u, v, s.current, Blocked) && SetPc(u, v, s.current, Locking(m)) && SameWaiters(u, v)
    requires SetQueue(u, v, m, Queue(u, m) + [s.current])
    requires v.owner == s.owner && v.ready == u.ready && v.current == u.current && v.remained == u.remained
    ensures Follows(s, AWoken, v)
  {
    hide Stat, At, Queue, Waiters;
  }

  lemma NotifyFollows(s: State, a: Action, c: Cv)
    requires (a == ANotifyOne(c) || a == AInterrupt(c)) && s.preempt == 0
    requires Waiters(s, c) != [] ==> Waiters(s, c)[0] != s.current
    ensures Follows(s, a, NotifyOne(s, c))
  {
    hide *;
    if Waiters(s, c) == [] {
      NotifyNone(s, c);
      NobodyTable(s, a, c);
    } else {
      NotifyIs(s, c);
      NotifyTable(s, NotifyOne(s, c), a, c);
    }
  }

  lemma NobodyTable(s: State, a: Action, c: Cv)
    requires (a == ANotifyOne(c) || a == AInterrupt(c)) && Waiters(s, c) == []
    ensures Follows(s, a, s)
  {
    hide Stat, At, Queue, Waiters;
  }

  lemma NotifyTable(s: State, u: State, a: Action, c: Cv)
    requires (a == ANotifyOne(c) || a == AInterrupt(c)) && Waiters(s, c) != [] && Waiters(s, c)[0] != s.current
    requires SetStat(s, u, Waiters(s, c)[0], Active) && SamePc(s, u) && SameQueues(s, u)
    requires SetWaiters(s, u, c, Waiters(s, c)[1..]) && SameRest(s, u)
    requires u.owner == s.owner && u.current == s.current && u.ready == s.ready + [Waiters(s, c)[0]]
    requires u.remained == s.remained
    ensures Follows(s, a, u)
  {
    hide Stat, At, Queue, Waiters;
  }

  lemma NotifyAllFollows(s: State, c: Cv)
    requires s.preempt == 0
    ensures Follows(s, ANotifyAll(c), NotifyAll(s, c))
  {
    hide *;
    NotifyAllIs(s, c);
    NotifyAllSame(s, c);
    NotifyAllTable(s, NotifyAll(s, c), c);
  }

  lemma NotifyAllSame(s: State, c: Cv)
    ensures NotifyAll(s, c).remained == s.remained
  {}

  lemma NotifyAllTable(s: State, u: State, c: Cv)
    requires SameStat(s, u) && SetPc(s, u, s.current, Waking(Waiters(s, c))) && SameQueues(s, u)
    requires SetWaiters(s, u, c, []) && SameRest(s, u)
    requires u.owner == s.owner && u.ready == s.ready && u.current == s.current && u.remained == s.remained
    ensures Follows(s, ANotifyAll(c), u)
  {
    hide Stat, At, Queue, Waiters;
  }

  lemma WakeNextFollows(s: State)
    requires WaitOk(s) && Can(s, AWakeNext) && s.preempt == 0
    ensures Follows(s, AWakeNext, WakeNext(s))
  {
    hide *;
    WakeNextCan(s);
    var rest := At(s, s.current).rest;
    WakeNextCases(s, rest);
    if rest == [] { LastFollows(s); } else { TurnFollows(s, rest); }
  }

  lemma LastFollows(s: State)
    requires At(s, s.current) == Waking([])
    ensures Follows(s, AWakeNext, s.(pc := s.pc[s.current := Running]))
  {
    hide *;
    PcIs(s, Running);
    WokenLastTable(s, s.(pc := s.pc[s.current := Running]));
  }

  lemma TurnFollows(s: State, rest: seq<nat>)
    requires At(s, s.current) == Waking(rest) && rest != [] && rest[0] != s.current
    ensures Follows(s, AWakeNext, Wake(s.(pc := s.pc[s.current := Waking(rest[1..])]), rest[0]))
  {
    hide *;
    WakeNextIs(s, rest);
    var r := s.(pc := s.pc[s.current := Waking(rest[1..])]);
    WakeSame(r, rest[0]);
    WakeNextTable(s, Wake(r, rest[0]), rest);
  }

  lemma WakeNextCan(s: State)
    requires WaitOk(s) && Can(s, AWakeNext)
    ensures At(s, s.current).Waking?
    ensures var rest := At(s, s.current).rest; rest != [] ==> rest[0] != s.current
  {
    var rest := At(s, s.current).rest;
    if rest != [] { assert InRest(s, s.current, rest[0]); }
    hide Stat, At, Waiters;
  }

  lemma WakeSame(s: State, t: nat)
    ensures Wake(s, t).remained == s.remained
  {}

  lemma WokenLastTable(s: State, u: State)
    requires At(s, s.current) == Waking([]) && u == s.(pc := u.pc)
    requires SameStat(s, u) && SetPc(s, u, s.current, Running) && SameQueues(s, u) && SameWaiters(s, u)
    ensures Follows(s, AWakeNext, u)
  {
    hide Stat, At, Queue, Waiters;
  }

  lemma WakeNextTable(s: State, u: State, rest: seq<nat>)
    requires At(s, s.current) == Waking(rest) && rest != [] && rest[0] != s.current && SameRest(s, u)
    requires SetStat(s, u, rest[0], Active) && SetPc(s, u, s.current, Waking(rest[1..])) && SameQueues(s, u)
    requires SameWaiters(s, u) && u.owner == s.owner && u.ready == s.ready + [rest[0]] && u.current == s.current
    requires u.remained == s.remained
    ensures Follows(s, AWakeNext, u)
  {
    hide Stat, At, Queue, Waiters;
  }

  // ---- threads.c ----

  lemma ThreadFollows(s: State, a: Action)
    requires Inv(s) && Can(s, a) && (a.ACreate? || a.AStart? || a.AExit? || a.ADestroy?)
    ensures Follows(s, a, Do(s, a))
  {
    hide *;
    ThreadCan(s, a);
    var u := Do(s, a);
    if a.ACreate? {
      CreateIs(s, a.t);
      SetStatTable(s, u, a, a.t, New);
    } else if a.AStart? {
      WakeIs(s, a.t);
      StartTable(s, u, a.t);
    } else if a.AExit? {
      ExitIs(s, a.ret);
      SetStatTable(s, u, a, s.current, Finished);
    } else {
      DestroyIs(s, a.t);
      SetStatTable(s, u, a, a.t, Gone);
    }
  }

  lemma ThreadCan(s: State, a: Action)
    requires Inv(s) && Can(s, a) && (a.ACreate? || a.AStart? || a.AExit? || a.ADestroy?)
    ensures match a
            case ACreate(t) => Do(s, a) == s.(status := s.status[t := New]) && Stat(s, t) == Gone && t != s.current
            case AStart(t) => Do(s, a) == Wake(s, t) && t != s.current && Wake(s, t).remained == s.remained
            case AExit(ret) =>
              Do(s, a) == Exit(s, ret) && Exit(s, ret).remained == s.remained
            case ADestroy(t) => Do(s, a) == s.(status := s.status - {t}) && t != s.current
            case _ => true
  {
    hide MutexOk, WaitOk, HistoryOk, ReadyOk, JoinOk, At;
  }

  lemma SetStatTable(s: State, u: State, a: Action, t: nat, st: Status)
    requires (a == ACreate(t) && st == New) || (a == ADestroy(t) && st == Gone)
             || (a.AExit? && t == s.current && st == Finished)
    requires SetStat(s, u, t, st) && SamePc(s, u) && SameQueues(s, u) && SameWaiters(s, u) && SameRest(s, u)
    requires u.owner == s.owner && u.ready == s.ready && u.current == s.current && u.remained == s.remained
    ensures Follows(s, a, u)
  {
    hide Stat, At, Queue, Waiters;
  }

  lemma StartTable(s: State, u: State, t: nat)
    requires t != s.current && SetStat(s, u, t, Active) && SamePc(s, u) && SameQueues(s, u) && SameWaiters(s, u)
    requires SameRest(s, u) && u.owner == s.owner && u.current == s.current && u.ready == s.ready + [t]
    requires u.remained == s.remained
    ensures Follows(s, AStart(t), u)
  {
    hide Stat, At, Queue, Waiters;
  }

  // ---- schedule ----

  /** schedule, `s` being the state once the tick has been counted. */
  lemma SwitchFollows(s0: State, s: State, a: Action)
    requires Inv(s0) && s == s0.(remained := s.remained) && Switches(s0, a)
    ensures Follows(s0, a, Schedule(s))
  {
    hide *;
    SwitchCan(s0);
    SwitchRest(s0, s);
    ScheduleCases(s);
    if s.ready == [] && Stat(s, s.current) == Active {
      AloneTable(s0, s, a);
    } else {
      var r, next := Leaving(s), CurrentAfter(s0, a);
      LeavingIs(s0, s, a);
      SameAt(s, r);
      PlaceIs(r, next);
      if Stat(s, s.current) != Finished {
        CurrentIs(r, next);
        GoesOnTable(s0, s, a, r, Place(r, next), next);
      } else {
        DeathFollows(s0, s, a, r, next);
      }
    }
  }

  /** The state when the old thread has been put back, if it can go on. */
  function Leaving(s: State): State {
    var rest := if s.ready != [] then s.ready[1..] else [];
    s.(ready := if Stat(s, s.current) == Active && s.current != s.idle then rest + [s.current] else rest)
  }

  lemma ScheduleCases(s: State)
    requires s.preempt == 0
    ensures s.ready == [] && Stat(s, s.current) == Active ==> Schedule(s) == s.(remained := TIMESLICE)
    ensures !(s.ready == [] && Stat(s, s.current) == Active) ==>
              Schedule(s) == Place(Leaving(s), if s.ready != [] then s.ready[0] else s.idle)
  {
    if s.ready == [] && Stat(s, s.current) == Active { SamePlace(s); }
    hide Place, Stat;
  }

  lemma SwitchCan(s: State)
    requires Inv(s)
    ensures s.preempt == 0 && Core(s)
  {
    hide MutexOk, WaitOk, HistoryOk, ReadyOk, JoinOk, Stat, At;
  }

  lemma SwitchRest(s0: State, s: State)
    requires s == s0.(remained := s.remained)
    ensures SameStat(s0, s) && SamePc(s0, s) && SameQueues(s0, s) && SameWaiters(s0, s)
    ensures s.owner == s0.owner && s.ready == s0.ready && s.current == s0.current && s.idle == s0.idle
    ensures s.preempt == s0.preempt
  {}

  lemma AloneTable(s0: State, s: State, a: Action)
    requires Switches(s0, a) && s == s0.(remained := s.remained) && s.ready == [] && Stat(s, s.current) == Active
    requires SameStat(s0, s) && SamePc(s0, s) && SameQueues(s0, s) && SameWaiters(s0, s)
    ensures Follows(s0, a, s.(remained := TIMESLICE))
  {
    RemainedIs(s, TIMESLICE);
    hide Stat, At, Queue, Waiters;
  }

  lemma LeavingIs(s0: State, s: State, a: Action)
    requires s == s0.(remained := s.remained) && Switches(s0, a) && !(s.ready == [] && Stat(s, s.current) == Active)
    requires SameStat(s0, s)
    ensures var r := Leaving(s);
            && SameStat(s, r) && SamePc(s, r) && SameQueues(s, r) && SameWaiters(s, r) && SameRest(s, r)
            && r == s.(ready := r.ready)
            && ReadyAfter(s0, a) == r.ready + Wakee(s0, a)
    ensures CurrentAfter(s0, a) == if s.ready != [] then s.ready[0] else s.idle
  {
    var r := Leaving(s);
    ReadyIs(s, r.ready);
    hide Stat, At, Queue, Waiters;
  }

  lemma GoesOnTable(s0: State, s: State, a: Action, r: State, u: State, next: nat)
    requires s == s0.(remained := s.remained) && Switches(s0, a) && Stat(s, s.current) != Finished
    requires next == CurrentAfter(s0, a)
    requires r == s.(ready := r.ready) && ReadyAfter(s0, a) == r.ready + Wakee(s0, a)
    requires u == r.(current := next, remained := TIMESLICE)
    requires SameStat(s0, s) && SamePc(s0, s) && SameQueues(s0, s) && SameWaiters(s0, s)
    requires SameStat(s, r) && SamePc(s, r) && SameQueues(s, r) && SameWaiters(s, r)
    requires SameStat(r, u) && SamePc(r, u) && SameQueues(r, u) && SameWaiters(r, u)
    ensures Follows(s0, a, u)
  {
    hide *;
    SwitchesIs(s0, a);
    SameThrough(s0, s, r, u);
    LivesOn(s0, s, a);
    assert r.ready + [] == r.ready;
    PlainTable(s0, a, u);
  }

  lemma SameThrough(s0: State, s: State, r: State, u: State)
    requires s == s0.(remained := s.remained) && r == s.(ready := r.ready)
    requires u == r.(current := u.current, remained := u.remained)
    requires SameStat(s0, s) && SamePc(s0, s) && SameQueues(s0, s) && SameWaiters(s0, s)
    requires SameStat(s, r) && SamePc(s, r) && SameQueues(s, r) && SameWaiters(s, r)
    requires SameStat(r, u) && SamePc(r, u) && SameQueues(r, u) && SameWaiters(r, u)
    ensures SameStat(s0, u) && SamePc(s0, u) && SameQueues(s0, u) && SameWaiters(s0, u)
    ensures u.owner == s0.owner && u.idle == s0.idle && u.preempt == s0.preempt && u.ready == r.ready
  {
    hide Stat, At, Queue, Waiters;
  }

  lemma LivesOn(s0: State, s: State, a: Action)
    requires s == s0.(remained := s.remained) && SameStat(s0, s) && Stat(s, s.current) != Finished && Switches(s0, a)
    ensures !Dies(s0, a) && Wakee(s0, a) == []
  {
    hide Stat, Waiters;
  }

  lemma PlainTable(s: State, a: Action, u: State)
    requires Switches(s, a) && !Dies(s, a) && Wakee(s, a) == []
    requires SameStat(s, u) && SamePc(s, u) && SameQueues(s, u) && SameWaiters(s, u)
    requires u.owner == s.owner && u.idle == s.idle && u.preempt == s.preempt
    requires u.ready == ReadyAfter(s, a) && u.current == CurrentAfter(s, a) && u.remained == TIMESLICE
    ensures Follows(s, a, u)
  {
    hide Stat, At, Queue, Waiters, ReadyAfter, CurrentAfter, Wakee, Dies;
  }

  /** The old thread had finished: it dies, and whoever joins it is woken. */
  lemma DeathFollows(s0: State, s: State, a: Action, r: State, next: nat)
    requires Core(s0) && s == s0.(remained := s.remained) && Switches(s0, a) && Stat(s, s.current) == Finished
    requires next == CurrentAfter(s0, a) && r == s.(ready := r.ready) && ReadyAfter(s0, a) == r.ready + Wakee(s0, a)
    requires SameStat(s0, s) && SamePc(s0, s) && SameQueues(s0, s) && SameWaiters(s0, s)
    requires SameStat(s, r) && SamePc(s, r) && SameQueues(s, r) && SameWaiters(s, r) && SameRest(s, r)
    ensures Follows(s0, a, Place(r, next))
  {
    hide *;
    var c, d := OfThread(s.current), r.(status := r.status[s.current := Dead]);
    PlaceIs(r, next) by { SameAt(s, r); }
    SameAt(s, r);
    DeadIs(r, s.current);
    WaitersSame(s0, s, r, d, c);
    var v := NotifyOne(d, c);
    CurrentIs(v, next);
    var u := v.(current := next, remained := TIMESLICE);
    if Waiters(d, c) == [] {
      NotifyNone(d, c);
      LonelyTable(s0, s, a, r, d, u, next, c);
    } else {
      NotifyIs(d, c);
      CoreWait(s0);
      HeadWaits(s0, c);
      JoinedDeathTable(s0, s, a, r, d, v, u, next, c);
    }
  }

  lemma SameAt(s: State, r: State)
    requires r == s.(ready := r.ready) && SameStat(s, r)
    ensures r.current == s.current && Stat(r, r.current) == Stat(s, s.current)
  {
    hide Stat;
  }

  lemma CoreWait(s: State)
    requires Core(s)
    ensures WaitOk(s)
  {}

  lemma WaitersSame(s0: State, s: State, r: State, d: State, c: Cv)
    requires SameWaiters(s0, s) && SameWaiters(s, r) && SameWaiters(r, d)
    ensures Waiters(d, c) == Waiters(s0, c)
  {
    hide Waiters;
  }

  lemma LonelyTable(s0: State, s: State, a: Action, r: State, d: State, u: State, next: nat, c: Cv)
    requires s == s0.(remained := s.remained) && Switches(s0, a) && Stat(s, s.current) == Finished
    requires next == CurrentAfter(s0, a)
    requires r == s.(ready := r.ready) && ReadyAfter(s0, a) == r.ready + Wakee(s0, a)
    requires d == r.(status := d.status) && u == d.(current := next, remained := TIMESLICE)
    requires c == OfThread(s.current) && Waiters(d, c) == [] && Waiters(s0, c) == []
    requires SameStat(s0, s) && SamePc(s0, s) && SameQueues(s0, s) && SameWaiters(s0, s)
    requires SameStat(s, r) && SamePc(s, r) && SameQueues(s, r) && SameWaiters(s, r)
    requires SetStat(r, d, s.current, Dead) && SamePc(r, d) && SameQueues(r, d) && SameWaiters(r, d)
    requires SameStat(d, u) && SamePc(d, u) && SameQueues(d, u) && SameWaiters(d, u)
    ensures Follows(s0, a, u)
  {
    hide *;
    SwitchesIs(s0, a);
    Unchanged(s0, s, r, d);
    DeadBy(s0, s, r, d, u);
    DiesIs(s0, s, a);
    WakesNone(s0, a, c);
    assert r.ready + [] == r.ready;
    DeadTable(s0, a, u);
  }

  lemma Unchanged(s0: State, s: State, r: State, d: State)
    requires s == s0.(remained := s.remained) && r == s.(ready := r.ready) && d == r.(status := d.status)
    ensures d.owner == s0.owner && d.idle == s0.idle && d.preempt == s0.preempt && d.ready == r.ready
    ensures s.current == s0.current
  {}

  lemma DiesIs(s0: State, s: State, a: Action)
    requires Switches(s0, a) && SameStat(s0, s) && s.current == s0.current && Stat(s, s.current) == Finished
    ensures Dies(s0, a)
  {
    hide Stat;
  }

  lemma WakesNone(s: State, a: Action, c: Cv)
    requires Dies(s, a) && c == OfThread(s.current)
    ensures Wakee(s, a) == Head(Waiters(s, c))
    ensures Waiters(s, c) == [] ==> Wakee(s, a) == []
    ensures Waiters(s, c) != [] ==> Wakee(s, a) == [Waiters(s, c)[0]]
  {
    hide Stat, Waiters;
  }

  lemma DeadBy(s0: State, s: State, r: State, d: State, u: State)
    requires SameStat(s0, s) && SamePc(s0, s) && SameQueues(s0, s) && SameWaiters(s0, s)
    requires SameStat(s, r) && SamePc(s, r) && SameQueues(s, r) && SameWaiters(s, r)
    requires SetStat(r, d, s.current, Dead) && SamePc(r, d) && SameQueues(r, d) && SameWaiters(r, d)
    requires SameStat(d, u) && SamePc(d, u) && SameQueues(d, u) && SameWaiters(d, u)
    ensures SetStat(s0, u, s.current, Dead) && SamePc(s0, u) && SameQueues(s0, u) && SameWaiters(s0, u)
  {
    hide Stat, At, Queue, Waiters;
  }

  lemma DeadTable(s: State, a: Action, u: State)
    requires Dies(s, a) && Waiters(s, OfThread(s.current)) == [] && Wakee(s, a) == []
    requires SetStat(s, u, s.current, Dead) && SamePc(s, u) && SameQueues(s, u) && SameWaiters(s, u)
    requires u.owner == s.owner && u.idle == s.idle && u.preempt == s.preempt
    requires u.ready == ReadyAfter(s, a) && u.current == CurrentAfter(s, a) && u.remained == TIMESLICE
    ensures Follows(s, a, u)
  {
    hide Stat, At, Queue, Waiters, ReadyAfter, CurrentAfter, Wakee;
  }

  lemma JoinedDeathTable(s0: State, s: State, a: Action, r: State, d: State, v: State, u: State, next: nat, c: Cv)
    requires s == s0.(remained := s.remained) && Switches(s0, a) && Stat(s, s.current) == Finished
    requires next == CurrentAfter(s0, a)
    requires r == s.(ready := r.ready) && ReadyAfter(s0, a) == r.ready + Wakee(s0, a)
    requires d == r.(status := d.status) && u == v.(current := next, remained := TIMESLICE)
    requires c == OfThread(s.current) && Waiters(d, c) == Waiters(s0, c) != [] && Stat(s0, Waiters(s0, c)[0]) == Blocked
    requires SameStat(s0, s) && SamePc(s0, s) && SameQueues(s0, s) && SameWaiters(s0, s)
    requires SameStat(s, r) && SamePc(s, r) && SameQueues(s, r) && SameWaiters(s, r)
    requires SetStat(r, d, s.current, Dead) && SamePc(r, d) && SameQueues(r, d) && SameWaiters(r, d) && SameRest(r, d)
    requires SetStat(d, v, Waiters(d, c)[0], Active) && SamePc(d, v) && SameQueues(d, v) && SameRest(d, v)
    requires SetWaiters(d, v, c, Waiters(d, c)[1..]) && v.owner == d.owner && v.ready == d.ready + [Waiters(d, c)[0]]
    requires SameStat(v, u) && SamePc(v, u) && SameQueues(v, u) && SameWaiters(v, u)
    ensures Follows(s0, a, u)
  {
    var h := Waiters(s0, c)[0];
    hide *;
    SwitchesIs(s0, a);
    Unchanged(s0, s, r, d);
    RestIs(d, v);
    SelfSame(d);
    DeadBy(s0, s, r, d, d);
    WokenBy(s0, d, v, u, s.current, c);
    DiesIs(s0, s, a);
    WakesNone(s0, a, c);
    DeathTable(s0, a, u);
  }

  lemma SelfSame(s: State)
    ensures SameStat(s, s) && SamePc(s, s) && SameQueues(s, s) && SameWaiters(s, s)
  {}

  lemma RestIs(d: State, v: State)
    requires SameRest(d, v)
    ensures v.idle == d.idle && v.preempt == d.preempt
  {}

  ghost predicate DeadAndWoken(s: State, u: State, h: nat) {
    forall x :: Stat(u, x) == if x == h then Active else if x == s.current then Dead else Stat(s, x)
  }

  lemma WokenBy(s: State, d: State, v: State, u: State, t: nat, c: Cv)
    requires t == s.current && SetStat(s, d, t, Dead) && SamePc(s, d) && SameQueues(s, d) && SameWaiters(s, d)
    requires Waiters(d, c) == Waiters(s, c) != []
    requires SetStat(d, v, Waiters(d, c)[0], Active) && SamePc(d, v) && SameQueues(d, v)
    requires SetWaiters(d, v, c, Waiters(d, c)[1..])
    requires SameStat(v, u) && SamePc(v, u) && SameQueues(v, u) && SameWaiters(v, u)
    ensures DeadAndWoken(s, u, Waiters(s, c)[0]) && SamePc(s, u) && SameQueues(s, u)
    ensures SetWaiters(s, u, c, Waiters(s, c)[1..])
  {
    hide Stat, At, Queue, Waiters;
  }

  lemma DeathTable(s: State, a: Action, u: State)
    requires Dies(s, a) && var q := Waiters(s, OfThread(s.current));
                        && q != [] && Stat(s, q[0]) == Blocked && Wakee(s, a) == [q[0]] && DeadAndWoken(s, u, q[0])
                        && SetWaiters(s, u, OfThread(s.current), q[1..])
    requires SamePc(s, u) && SameQueues(s, u)
    requires u.owner == s.owner && u.idle == s.idle && u.preempt == s.preempt
    requires u.ready == ReadyAfter(s, a) && u.current == CurrentAfter(s, a) && u.remained == TIMESLICE
    ensures Follows(s, a, u)
  {
    hide Stat, At, Queue, Waiters, ReadyAfter, CurrentAfter, Wakee;
  }

  // ---- ticks ----

  lemma TickFollows(s: State, a: Action)
    requires Inv(s) && (a == ATick || a == ATickBusy)
    ensures Follows(s, a, Do(s, a))
  {
    hide *;
    var n := if s.remained > 0 then s.remained - 1 else s.remained;
    var t := s.(remained := n);
    DoTick(s, a, t);
    RemainedIs(s, n);
    if Switches(s, a) {
      SwitchesIs(s, a);
      SwitchFollows(s, t, a);
    } else {
      SwitchesIs(s, a);
      QuietTickTable(s, t, a);
    }
  }

  lemma SwitchesIs(s: State, a: Action)
    ensures Switches(s, a) <==> a == AYield || (a == ATick && s.remained <= 1)
  {}

  lemma DoTick(s: State, a: Action, t: State)
    requires a == ATick || a == ATickBusy
    requires t == s.(remained := if s.remained > 0 then s.remained - 1 else s.remained)
    ensures a == ATickBusy ==> Can(s, a) && Do(s, a) == t
    ensures a == ATick ==> Can(s, a) && Do(s, a) == if s.remained <= 1 then Schedule(t) else t
  {
    BusyIs(s);
    hide Schedule;
  }

  lemma QuietTickTable(s: State, t: State, a: Action)
    requires (a == ATickBusy || (a == ATick && s.remained > 1))
    requires t == s.(remained := if s.remained > 0 then s.remained - 1 else s.remained)
    requires SameStat(s, t) && SamePc(s, t) && SameQueues(s, t) && SameWaiters(s, t)
    ensures Follows(s, a, t)
  {
    hide Stat, At, Queue, Waiters;
  }

  // ---- every step ----

  lemma StepFollows(s: State, a: Action)
    requires Inv(s) && SleepOk(s) && Can(s, a)
    ensures Follows(s, a, Do(s, a))
  {
    InvPreempt(s);
    hide Inv, SleepOk, Follows, Can, Schedule, Tick, Lock, Relock, Unlock, Wait, Join, Woken, NotifyOne, NotifyAll;
    hide WakeNext;
    hide Wake, Exit, MutexOk, WaitOk;
    match a
    case ATick => TickFollows(s, a);
    case ATickBusy => TickFollows(s, a);
    case AYield => SwitchesIs(s, a); SwitchFollows(s, s, a);
    case ALock(m) => LockFollows(s, m);
    case ARelock => RelockFollows(s);
    case AUnlock(m) => UnlockFollows(s, m);
    case AWait(c, relock) => WaitFollows(s, c, relock);
    case AJoin(t) => JoinFollows(s, t);
    case AWoken => WokenFollows(s);
    case ANotifyOne(c) => NotifyCan(s, a, c); NotifyFollows(s, a, c);
    case AInterrupt(c) => NotifyCan(s, a, c); NotifyFollows(s, a, c);
    case ANotifyAll(c) => NotifyAllFollows(s, c);
    case AWakeNext => WakeNextFollows(s);
    case _ => ThreadFollows(s, a);
  }

  lemma InvPreempt(s: State)
    requires Inv(s)
    ensures s.preempt == 0 && MutexOk(s) && WaitOk(s)
  {
    hide MutexOk, WaitOk, HistoryOk, ReadyOk, JoinOk, Stat, At;
  }

  lemma NotifyCan(s: State, a: Action, c: Cv)
    requires WaitOk(s) && Can(s, a) && (a == ANotifyOne(c) || a == AInterrupt(c))
    ensures Waiters(s, c) != [] ==> Waiters(s, c)[0] != s.current
  {
    if a == ANotifyOne(c) { RunnerNotWaiting(s, c); }
    hide WaitOk, Waiters, Stat, At;
  }
}
