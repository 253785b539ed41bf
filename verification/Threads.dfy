/** Threads, mutexes and condition variables (threads.c, mutex.c, condition.c) as one step
    system.  A section under a spin lock, or with interrupts off, is one step; between steps
    the running thread can be preempted. */
module Threads {

  const TIMESLICE: nat := 5

  datatype Option<T> = None | Some(value: T)

  /** `Gone` before thread_create and after thread_destroy. */
  datatype Status = Gone | New | Active | Blocked | Finished | Dead

  /** The condition variable in a thread descriptor, or one of its own. */
  datatype Cv = OfThread(thread: nat) | Own(id: nat)

  /** Where a thread is in mutex_lock, __wait or notify_all; `Running` everywhere else.
      `Waking` carries the waiters on notify_all's local list that are still to be woken. */
  datatype Pc = Running | Locking(m: nat) | Waiting(c: Cv, relock: Option<nat>) | Waking(rest: seq<nat>)

  /** The kernel's variables, and for the proofs the program counters, what each thread's last
      thread_join returned and, per mutex, who was queued, who was handed the lock by an unlock,
      and who has returned from mutex_lock. */
  datatype State = State(status: map<nat, Status>, retval: map<nat, int>,
                         owner: map<nat, nat>, wait: map<nat, seq<nat>>, cond: map<Cv, seq<nat>>,
                         current: nat, idle: nat, ready: seq<nat>, remained: nat, preempt: nat,
                         pc: map<nat, Pc>, queued: map<nat, seq<nat>>, handed: map<nat, seq<nat>>,
                         inside: map<nat, set<nat>>,
                         joined: map<nat, int>)

  function Stat(s: State, t: nat): Status {
    if t in s.status then s.status[t] else Gone
  }

  function At(s: State, t: nat): Pc {
    if t in s.pc then s.pc[t] else Running
  }

  function Queue(s: State, m: nat): seq<nat> {
    if m in s.wait then s.wait[m] else []
  }

  function Waiters(s: State, c: Cv): seq<nat> {
    if c in s.cond then s.cond[c] else []
  }

  function Queued(s: State, m: nat): seq<nat> {
    if m in s.queued then s.queued[m] else []
  }

  function Handed(s: State, m: nat): seq<nat> {
    if m in s.handed then s.handed[m] else []
  }

  function Inside(s: State, m: nat): set<nat> {
    if m in s.inside then s.inside[m] else {}
  }

  predicate Owns(s: State, m: nat, t: nat) {
    m in s.owner && s.owner[m] == t
  }

  // ---- threads.c ----

  /** thread_start and thread_wake. */
  function Wake(s: State, t: nat): State {
    s.(status := s.status[t := Active], ready := s.ready + [t])
  }

  /** thread_block by the running thread. */
  function Block(s: State, pc: Pc): State {
    s.(status := s.status[s.current := Blocked], pc := s.pc[s.current := pc])
  }

  /** notify_one. */
  function NotifyOne(s: State, c: Cv): State {
    if Waiters(s, c) == [] then s
    else Wake(s.(cond := s.cond[c := Waiters(s, c)[1..]]), Waiters(s, c)[0])
  }

  /** thread_place: run by the thread that has just been switched to. */
  function Place(s: State, me: nat): State {
    var t := if Stat(s, s.current) == Finished
             then NotifyOne(s.(status := s.status[s.current := Dead]), OfThread(s.current)) else s;
    t.(current := me, remained := TIMESLICE)
  }

  /** schedule. */
  function Schedule(s: State): State {
    if s.preempt != 0 then s
    else if s.ready == [] && Stat(s, s.current) == Active then Place(s, s.current)
    else
      var next := if s.ready != [] then s.ready[0] else s.idle;
      var rest := if s.ready != [] then s.ready[1..] else [];
      var queue := if Stat(s, s.current) == Active && s.current != s.idle then rest + [s.current] else rest;
      Place(s.(ready := queue), next)
  }

  /** scheduler_tick. */
  function Tick(s: State): State {
    var t := s.(remained := if s.remained > 0 then s.remained - 1 else s.remained);
    if t.remained <= 0 then Schedule(t) else t
  }

  /** A tick that lands inside a section under a spin lock. */
  function TickBusy(s: State): State {
    Tick(s.(preempt := s.preempt + 1)).(preempt := s.preempt)
  }

  function Exit(s: State, ret: int): State {
    s.(retval := s.retval[s.current := ret], status := s.status[s.current := Finished])
  }

  // ---- mutex.c ----

  /** mutex_lock up to the point where it returns or calls schedule. */
  function Lock(s: State, m: nat): State {
    if m !in s.owner then
      s.(owner := s.owner[m := s.current], pc := s.pc[s.current := Running],
      inside := s.inside[m := Inside(s, m) + {s.current}])
    else if s.owner[m] == s.current then s
    else
      Block(s.(wait := s.wait[m := Queue(s, m) + [s.current]], queued := s.queued[m := Queued(s, m) + [s.current]]),
            Locking(m))
  }

  function RemoveAll(q: seq<nat>, t: nat): seq<nat> {
    if q == [] then [] else if q[0] == t then q[1..] else [q[0]] + RemoveAll(q[1..], t)
  }

  /** mutex_lock after schedule has returned: `list_del` and the loop test. */
  function Relock(s: State, m: nat): State {
    var t := s.(wait := s.wait[m := RemoveAll(Queue(s, m), s.current)]);
    if Owns(s, m, s.current) then
      t.(pc := t.pc[s.current := Running], inside := t.inside[m := Inside(s, m) + {s.current}])
    else
      Block(t.(wait := t.wait[m := Queue(t, m) + [s.current]], queued := t.queued[m := Queued(t, m) + [s.current]]),
            Locking(m))
  }

  /** mutex_unlock: the lock goes straight to the head of the queue. */
  function Unlock(s: State, m: nat): State {
    var out := s.(inside := s.inside[m := Inside(s, m) - {s.current}]);
    if Queue(s, m) != [] then
      var w := Queue(s, m)[0];
      Wake(out.(owner := s.owner[m := w], handed := s.handed[m := Handed(s, m) + [w]]), w)
    else
      out.(owner := s.owner - {m})
  }

  // ---- condition.c ----

  /** __wait up to its schedule call; with a mutex, its unlock is part of the section. */
  function Wait(s: State, c: Cv, relock: Option<nat>): State {
    var t := Block(s.(cond := s.cond[c := Waiters(s, c) + [s.current]]), Waiting(c, relock));
    if relock.Some? then Unlock(t, relock.value) else t
  }

  /** The loop test of thread_join under the thread's lock: it returns once the thread is dead. */
  function Join(s: State, t: nat): State {
    if Stat(s, t) == Dead then s.(joined := s.joined[s.current := if t in s.retval then s.retval[t] else 0])
    else Wait(s, OfThread(t), None)
  }

  /** `x` is in thread_join(t), between the wait and the return from it. */
  predicate Joining(s: State, x: nat, t: nat) {
    At(s, x).Waiting? && At(s, x).c == OfThread(t)
  }

  /** __wait after schedule has returned: the lock is taken again, and thread_join, whose lock
      it is then, goes on to its loop test. */
  function Woken(s: State): State
    requires At(s, s.current).Waiting?
  {
    var t, pc := s.(pc := s.pc[s.current := Running]), At(s, s.current);
    if pc.c.OfThread? then Join(t, pc.c.thread)
    else if pc.relock.Some? then Lock(t, pc.relock.value)
    else t
  }

  /** notify_all up to its loop. */
  function NotifyAll(s: State, c: Cv): State {
    s.(cond := s.cond[c := []], pc := s.pc[s.current := Waking(Waiters(s, c))])
  }

  /** One turn of notify_all's loop. */
  function WakeNext(s: State): State
    requires At(s, s.current).Waking?
  {
    var rest := At(s, s.current).rest;
    if rest == [] then s.(pc := s.pc[s.current := Running])
    else Wake(s.(pc := s.pc[s.current := Waking(rest[1..])]), rest[0])
  }

  // ---- the steps ----

  datatype Action = ATick | ATickBusy | AYield | ACreate(t: nat) | AStart(t: nat) | AExit(ret: int) | ADestroy(t: nat)
                  | ALock(m: nat) | ARelock | AUnlock(m: nat) | AWait(c: Cv, relock: Option<nat>)
                  | AJoin(t: nat) | AWoken
                  | ANotifyOne(c: Cv) | AInterrupt(c: Cv) | ANotifyAll(c: Cv) | AWakeNext

  /** The running thread is at a point between sections. */
  predicate Awake(s: State) {
    Stat(s, s.current) == Active
  }

  predicate AtRest(s: State) {
    Awake(s) && At(s, s.current) == Running
  }

  predicate NobodyJoins(s: State, t: nat) {
    forall x :: x in s.pc ==> !Joining(s, x, t)
  }

  /** What the code can do next, and what its callers owe it: only the owner unlocks, nobody
      locks a mutex it owns, a waiter on a mutex owns it, the idle thread never blocks or
      exits, a thread exits with no mutex, interrupt handlers wake switched-out threads; a
      thread that exists has one joiner at a time, and is destroyed when that has returned.
      The condition variable inside a thread is thread_join's and thread_place's own. */
  predicate Can(s: State, a: Action) {
    match a
    case ATick => true
    case ATickBusy => true
    case AYield => true
    case ACreate(t) => Stat(s, t) == Gone
    case AStart(t) => Stat(s, t) == New
    case AExit(ret) => AtRest(s) && s.current != s.idle && forall m :: m in s.owner ==> s.owner[m] != s.current
    case ADestroy(t) => Stat(s, t) == Dead && NobodyJoins(s, t)
    case ALock(m) => AtRest(s) && s.current != s.idle && !Owns(s, m, s.current)
    case ARelock => Awake(s) && At(s, s.current).Locking?
    case AUnlock(m) => AtRest(s) && s.current != s.idle && Owns(s, m, s.current)
    case AWait(c, relock) => c.Own? && AtRest(s) && s.current != s.idle
                             && (relock.Some? ==> Owns(s, relock.value, s.current))
    case AJoin(t) => AtRest(s) && s.current != s.idle && Stat(s, t) != Gone && NobodyJoins(s, t)
    case AWoken => Awake(s) && At(s, s.current).Waiting?
    case ANotifyOne(c) => c.Own? && AtRest(s)
    case AInterrupt(c) => c.Own? && (Waiters(s, c) != [] ==> Waiters(s, c)[0] != s.current)
    case ANotifyAll(c) => c.Own? && AtRest(s)
    case AWakeNext => Awake(s) && At(s, s.current).Waking?
  }

  function Do(s: State, a: Action): State
    requires Can(s, a)
  {
    match a
    case ATick => Tick(s)
    case ATickBusy => TickBusy(s)
    case AYield => Schedule(s)
    case ACreate(t) => s.(status := s.status[t := New])
    case AStart(t) => Wake(s, t)
    case AExit(ret) => Exit(s, ret)
    case ADestroy(t) => s.(status := s.status - {t})
    case ALock(m) => Lock(s, m)
    case ARelock => Relock(s, At(s, s.current).m)
    case AUnlock(m) => Unlock(s, m)
    case AWait(c, relock) => Wait(s, c, relock)
    case AJoin(t) => Join(s, t)
    case AWoken => Woken(s)
    case ANotifyOne(c) => NotifyOne(s, c)
    case AInterrupt(c) => NotifyOne(s, c)
    case ANotifyAll(c) => NotifyAll(s, c)
    case AWakeNext => WakeNext(s)
  }

  // ---- what every step keeps ----

  predicate NoDuplicates<T(==)>(q: seq<T>) {
    forall i, j :: 0 <= i < j < |q| ==> q[i] != q[j]
  }

  /** The ready queue holds, once each, exactly the active threads that are neither running
      nor idle. */
  ghost predicate ReadyOk(s: State) {
    NoDuplicates(s.ready) && forall t :: t in s.ready <==> Stat(s, t) == Active && t != s.current && t != s.idle
  }

  /** A finished thread is still on the CPU; a dead, new or missing one is not. */
  ghost predicate StatusOk(s: State) {
    && s.preempt == 0 && s.remained <= TIMESLICE && Stat(s, s.idle) == Active
    && Stat(s, s.current) !in {Gone, New, Dead}
    && (forall t :: Stat(s, t) == Finished ==> t == s.current)
    && (forall t :: Stat(s, t) == Gone || Stat(s, t) == New || Stat(s, t) == Finished || Stat(s, t) == Dead ==>
                      At(s, t) == Running)
    && (At(s, s.idle) == Running || At(s, s.idle).Waking?)
    && (forall t :: At(s, t).Waking? ==> Stat(s, t) == Active)
  }

  /** A waiting thread other than the owner is blocked; an owner still in the queue is its
      head and has been woken; a free mutex has no queue. */
  ghost predicate MutexOk(s: State) {
    && (forall t, m :: t in Queue(s, m) <==> At(s, t) == Locking(m))
    && (forall m :: NoDuplicates(Queue(s, m)))
    && (forall m :: m !in s.owner ==> Queue(s, m) == [])
    && (forall t, m :: t in Queue(s, m) ==> if Owns(s, m, t) then t == Queue(s, m)[0] && Stat(s, t) == Active
                         else Stat(s, t) == Blocked)
    && (forall m :: m in s.owner ==> Stat(s, s.owner[m]) == Active || Stat(s, s.owner[m]) == Blocked)
  }

  /** A notifier still has to wake `t`. */
  ghost predicate Pending(s: State, t: nat) {
    exists n :: InRest(s, n, t)
  }

  predicate InRest(s: State, n: nat, t: nat) {
    At(s, n).Waking? && t in At(s, n).rest
  }

  /** Every thread blocked in __wait is in its condition's queue or on one notifier's list,
      and only such threads are: no wakeup is lost and none is sent twice. */
  ghost predicate WaitOk(s: State) {
    && (forall c :: NoDuplicates(Waiters(s, c)))
    && (forall t, c :: t in Waiters(s, c) ==> Stat(s, t) == Blocked && At(s, t).Waiting? && At(s, t).c == c)
    && (forall n, t :: InRest(s, n, t) ==> Stat(s, t) == Blocked && At(s, t).Waiting? && t !in Waiters(s, At(s, t).c))
    && (forall n, k, t :: InRest(s, n, t) && InRest(s, k, t) ==> n == k)
    && (forall n :: At(s, n).Waking? ==> NoDuplicates(At(s, n).rest))
    && (forall t :: Stat(s, t) == Blocked ==>
                      At(s, t).Locking? || (At(s, t).Waiting? && (t in Waiters(s, At(s, t).c) || Pending(s, t))))
  }

  /** Ownership passes in queueing order, and at most the owner is past mutex_lock. */
  ghost predicate HistoryOk(s: State) {
    forall m ::
      && Queued(s, m) == Handed(s, m)
                         + (if Queue(s, m) != [] && Owns(s, m, Queue(s, m)[0]) then Queue(s, m)[1..] else Queue(s, m))
      && Inside(s, m) == if m in s.owner && s.owner[m] !in Queue(s, m) then {s.owner[m]} else {}
  }

  ghost predicate Core(s: State) {
    ReadyOk(s) && StatusOk(s) && MutexOk(s) && WaitOk(s) && HistoryOk(s)
  }

  /** Nobody waits for a dead or destroyed thread; a joiner that runs again finds its thread
      dead; a thread has one joiner, which no notifier but the thread's death will wake; who has
      finished has left a return value. */
  ghost predicate JoinOk(s: State) {
    && (forall x, t :: x in Waiters(s, OfThread(t)) ==> Stat(s, t) != Dead)
    && (forall x, t :: Joining(s, x, t) ==> Stat(s, t) != Gone && (Stat(s, x) == Blocked || Stat(s, t) == Dead))
    && (forall x, y, t :: Joining(s, x, t) && Joining(s, y, t) ==> x == y)
    && (forall n, x, t :: InRest(s, n, x) ==> !Joining(s, x, t))
    && (forall t :: Stat(s, t) == Finished || Stat(s, t) == Dead ==> t in s.retval)
  }

  ghost predicate Inv(s: State) {
    Core(s) && JoinOk(s)
  }
}
