/** The kernel's scheduler, mutexes and condition variables as the code updates them: every
    method is one section of threads.c, mutex.c or condition.c.  A method that is a step of its
    own says so: called where the step can be taken it does exactly that step and leaves the
    invariant intact.  Some are also called inside other sections, where only parts of the
    invariant hold; these also give the new state without it. */
module Kernel {
  import opened Threads
  import opened ThreadSteps
  import opened ThreadLocks
  import opened ThreadRuns
  import opened ThreadTheorems

  class Scheduler {
    var status: map<nat, Status>
    var retval: map<nat, int>
    var owner: map<nat, nat>
    var wait: map<nat, seq<nat>>
    var cond: map<Cv, seq<nat>>
    var current: nat
    const idle: nat
    var ready: seq<nat>
    var remained: nat
    var preempt: nat
    ghost var pc: map<nat, Pc>
    ghost var queued: map<nat, seq<nat>>
    ghost var handed: map<nat, seq<nat>>
    ghost var inside: map<nat, set<nat>>
    ghost var joined: map<nat, int>

    ghost function View(): State
      reads this
    {
      State(status, retval, owner, wait, cond, current, idle, ready, remained, preempt, pc, queued, handed, inside,
            joined)
    }

    /** Holds between sections. */
    ghost predicate Ok()
      reads this
    {
      Inv(View())
    }

    /** scheduler_setup. */
    constructor (idle: nat)
      ensures Ok() && View() == Boot(idle)
    {
      this.idle := idle;
      status := map[idle := Active];
      retval, owner, wait, cond := map[], map[], map[], map[];
      current, ready, remained, preempt := idle, [], 0, 0;
      pc, queued, handed, inside, joined := map[], map[], map[], map[], map[];
      new;
      BootInv(idle);
    }

    method ThreadState(t: nat) returns (st: Status)
      ensures st == Stat(View(), t)
    {
      st := if t in status then status[t] else Gone;
    }

    /** preempt_disable, as spin_lock calls it. */
    method PreemptDisable()
      modifies this`preempt
      ensures View() == old(View()).(preempt := old(preempt) + 1)
    {
      preempt := preempt + 1;
    }

    /** preempt_enable, as spin_unlock calls it. */
    method PreemptEnable()
      requires preempt > 0
      modifies this`preempt
      ensures View() == old(View()).(preempt := old(preempt) - 1)
    {
      preempt := preempt - 1;
    }

    /** thread_start, thread_wake: no check that the thread is not queued already. */
    method Start(t: nat)
      modifies this
      ensures View() == Wake(old(View()), t)
      ensures old(Ok() && Can(View(), AStart(t))) ==> Ok() && View() == Do(old(View()), AStart(t))
    {
      hide Inv, Stat;
      StepOk(View(), AStart(t));
      status := status[t := Active];
      ready := ready + [t];
    }

    /** thread_block. */
    method BlockSelf(ghost at: Pc)
      modifies this
      ensures View() == Block(old(View()), at)
    {
      status := status[current := Blocked];
      pc := pc[current := at];
    }

    /** notify_one. */
    method Notify(c: Cv)
      modifies this
      ensures View() == NotifyOne(old(View()), c)
      ensures old(Ok() && Can(View(), ANotifyOne(c))) ==> Ok() && View() == Do(old(View()), ANotifyOne(c))
      ensures old(Ok() && Can(View(), AInterrupt(c))) ==> Ok() && View() == Do(old(View()), AInterrupt(c))
    {
      hide Inv, Stat, AtRest;
      StepOk(View(), ANotifyOne(c));
      StepOk(View(), AInterrupt(c));
      if c in cond && cond[c] != [] {
        var w := cond[c][0];
        cond := cond[c := cond[c][1..]];
        Start(w);
      }
    }

    /** thread_place. */
    method PlaceThread(me: nat)
      modifies this
      ensures View() == Place(old(View()), me)
    {
      hide Stat, NotifyOne, Place, Inv, Can, Do;
      PlaceIs(View(), me);
      var st := ThreadState(current);
      if st == Finished {
        status := status[current := Dead];
        Notify(OfThread(current));
      }
      current := me;
      remained := TIMESLICE;
    }

    /** `list_del` on the head of the ready queue. */
    method TakeNext() returns (next: Option<nat>)
      modifies this`ready
      ensures next == (if old(ready) != [] then Some(old(ready)[0]) else None)
      ensures ready == if old(ready) != [] then old(ready)[1..] else []
    {
      next := None;
      if ready != [] {
        next := Some(ready[0]);
        ready := ready[1..];
      }
    }

    /** schedule; the switch itself is the change of `current` in thread_place. */
    method Reschedule()
      modifies this
      ensures View() == Schedule(old(View()))
      ensures old(Ok()) ==> Ok() && View() == Do(old(View()), AYield)
    {
      hide Place, Stat, Schedule, Inv;
      ghost var s := View();
      StepOk(s, AYield);
      if preempt != 0 {
        ScheduleOff(s);
        return;
      }
      var next := TakeNext();
      var st := ThreadState(current);
      StatSame(s, View(), current);
      if st != Active && next == None {
        next := Some(idle);
      }
      ScheduleCases(s, View(), next);
      SwitchTo(st, next);
    }

    /** The second half of schedule, once `next` is off the queue. */
    method SwitchTo(st: Status, next: Option<nat>)
      modifies this
      ensures next == None ==> View() == Place(old(View()), old(current))
      ensures next != None ==>
                View() == Place(old(View()).(ready := if st == Active && old(current) != idle
                                then old(ready) + [old(current)] else old(ready)), next.value)
    {
      hide Place;
      ghost var s := View();
      if next == None {
        PlaceThread(current);
      } else {
        if st == Active && current != idle {
          ready := ready + [current];
        }
        ghost var r := View();
        assert r == s.(ready := r.ready);
        PlaceThread(next.value);
      }
    }

    /** scheduler_tick; with preemption enabled it is a scheduling point. */
    method TimerTick()
      modifies this
      ensures View() == Tick(old(View()))
      ensures old(Ok()) ==> Ok() && View() == Do(old(View()), ATick)
      ensures old(remained) > 1 ==>
                current == old(current) && ready == old(ready) && status == old(status) && remained == old(remained) - 1
    {
      hide Schedule, Inv;
      ghost var s := View();
      StepOk(s, ATick);
      if remained != 0 { remained := remained - 1; }
      ghost var r := View();
      assert r == s.(remained := r.remained);
      if remained <= 0 { Reschedule(); }
    }

    /** A timer interrupt inside a section under a spin lock: the lock keeps the thread on the CPU. */
    method TickInSection()
      requires Ok()
      modifies this
      ensures Ok() && View() == Do(old(View()), ATickBusy)
      ensures current == old(current) && ready == old(ready) && preempt == 0
    {
      hide Tick, TickBusy, Inv, Do, Can;
      ghost var s := View();
      BusyOk(s);
      TickOff(s.(preempt := 1));
      PreemptDisable();
      TimerTick();
      PreemptEnable();
    }

    /** thread_exit up to its schedule call. */
    method ExitSelf(ret: int)
      requires Ok() && Can(View(), AExit(ret))
      modifies this
      ensures Ok() && View() == Do(old(View()), AExit(ret))
    {
      hide Inv;
      StepOk(View(), AExit(ret));
      retval := retval[current := ret];
      status := status[current := Finished];
    }

    /** The loop test of thread_join: done when the thread is dead, else blocked on its condition
        variable. */
    method JoinTest(t: nat) returns (done: bool, ret: int)
      requires AtRest(View()) && current != idle
      modifies this
      ensures View() == Join(old(View()), t) && (done <==> Stat(old(View()), t) == Dead)
      ensures t in old(retval) ==> ret == old(retval)[t]
    {
      hide Wait, Stat, AtRest, Join;
      ret := if t in retval then retval[t] else 0;
      JoinCases(View(), t, ret);
      var st := ThreadState(t);
      done := st == Dead;
      if done {
        joined := joined[current := ret];
      } else {
        Enqueue(OfThread(t), None);
      }
    }

    /** thread_join up to its first schedule call, if it has to wait. */
    method JoinThread(t: nat) returns (done: bool, ret: int)
      requires Ok() && Can(View(), AJoin(t))
      modifies this
      ensures Ok() && View() == Do(old(View()), AJoin(t)) && (done <==> Stat(old(View()), t) == Dead)
      ensures done ==> t in old(retval) && ret == old(retval)[t]
    {
      hide Inv, Stat, AtRest, Join, Can, Do;
      JoinOkIs(View(), t);
      done, ret := JoinTest(t);
    }

    /** thread_join after schedule has returned: it is done at the first try. */
    method JoinResumed(t: nat) returns (ret: int)
      requires Ok() && Can(View(), AWoken) && Joining(View(), current, t)
      modifies this
      ensures Ok() && View() == Do(old(View()), AWoken)
      ensures Stat(old(View()), t) == Dead && t in old(retval) && ret == old(retval)[t]
    {
      hide Inv, Stat, Join, AtRest, Can, Do;
      ghost var s := View();
      JoinerFacts(s, t);
      pc := pc[current := Running];
      ghost var r := View();
      assert r == s.(pc := r.pc);
      StatSame(s, r, t);
      var done;
      done, ret := JoinTest(t);
    }

    /** mutex_lock up to the point where it returns or blocks. */
    method LockMutex(m: nat) returns (locked: bool)
      requires AtRest(View())
      modifies this
      ensures View() == Lock(old(View()), m) && (locked <==> m !in old(owner) || old(owner)[m] == current)
      ensures old(Ok() && Can(View(), ALock(m))) ==> Ok() && View() == Do(old(View()), ALock(m))
    {
      hide Inv, Can, Do, Stat, At, Inside, Queued, Queue;
      LockOk(View(), m);
      ghost var s := View();
      locked := m !in owner;
      if locked {
        owner := owner[m := current];
        pc := pc[current := Running];
        inside := inside[m := Inside(s, m) + {current}];
      } else if owner[m] == current {
        locked := true;
      } else {
        var q := QueueOf(m);
        wait := wait[m := q + [current]];
        queued := queued[m := Queued(s, m) + [current]];
        ghost var r := View();
        assert r == s.(wait := r.wait, queued := r.queued, preempt := r.preempt);
        BlockSelf(Locking(m));
      }
    }

    method QueueOf(m: nat) returns (q: seq<nat>)
      ensures q == Queue(View(), m)
    {
      q := if m in wait then wait[m] else [];
    }

    method WaitersOf(c: Cv) returns (q: seq<nat>)
      ensures q == Waiters(View(), c)
    {
      q := if c in cond then cond[c] else [];
    }

    /** mutex_lock after schedule has returned: it is the owner now, at the first try. */
    method LockResumed(m: nat)
      requires Ok() && Can(View(), ARelock) && At(View(), current) == Locking(m)
      modifies this
      ensures Ok() && View() == Do(old(View()), ARelock) && current in Inside(View(), m)
    {
      hide Can, Do, Relock, Inv, At, Inside, Queued, Queue, RemoveAll;
      ghost var s := View();
      RelockOk(s, m);
      var q := QueueOf(m);
      wait := wait[m := RemoveAll(q, current)];
      assert owner[m] == current;
      pc := pc[current := Running];
      inside := inside[m := Inside(s, m) + {current}];
      RelockInside(s, m, View());
    }

    /** mutex_unlock. */
    method UnlockMutex(m: nat)
      requires Owns(View(), m, current)
      modifies this
      ensures View() == Unlock(old(View()), m)
      ensures old(Ok() && Can(View(), AUnlock(m))) ==> Ok() && View() == Do(old(View()), AUnlock(m))
    {
      hide Inv, Can, Do, Queue, Handed, Inside, Wake, Unlock;
      ghost var s := View();
      UnlockOk(s, m);
      UnlockCases(s, m);
      var q := QueueOf(m);
      inside := inside[m := Inside(s, m) - {current}];
      if q != [] {
        var w := q[0];
        owner := owner[m := w];
        handed := handed[m := Handed(s, m) + [w]];
        ghost var r := View();
        assert r == s.(inside := r.inside, owner := r.owner, handed := r.handed);
        Start(w);
      } else {
        owner := owner - {m};
      }
    }

    /** __wait up to its schedule call: queue and block come before the lock is given up. */
    method Enqueue(c: Cv, relock: Option<nat>)
      requires relock.Some? ==> Owns(View(), relock.value, current)
      modifies this
      ensures View() == Wait(old(View()), c, relock)
    {
      hide Inv, Stat, At, Waiters, Unlock;
      ghost var s := View();
      var q := WaitersOf(c);
      cond := cond[c := q + [current]];
      ghost var r := View();
      assert r == s.(cond := r.cond);
      BlockSelf(Waiting(c, relock));
      if relock.Some? { UnlockMutex(relock.value); }
    }

    /** condition_wait and condition_wait_spin up to their schedule call, for a mutex or (None) a
        spin lock. */
    method WaitOn(c: Cv, relock: Option<nat>)
      requires Ok() && Can(View(), AWait(c, relock))
      modifies this
      ensures Ok() && View() == Do(old(View()), AWait(c, relock))
      ensures relock.Some? ==>
                var q := Queue(old(View()), relock.value);
                if q == [] then relock.value !in owner else Owns(View(), relock.value, q[0])
    {
      hide Inv, Wait, AtRest;
      StepOk(View(), AWait(c, relock));
      if relock.Some? { WaitGivesUp(View(), c, relock.value); }
      Enqueue(c, relock);
    }

    /** They after schedule has returned: false where the mutex has to be waited for. */
    method WaitResumed(c: Cv, relock: Option<nat>) returns (done: bool)
      requires Ok() && Can(View(), AWoken) && At(View(), current) == Waiting(c, relock) && c.Own?
      modifies this
      ensures Ok() && View() == Do(old(View()), AWoken)
      ensures done <==> relock.None? || relock.value !in old(owner) || old(owner)[relock.value] == current
    {
      hide Inv, Lock, Stat, At, AtRest, Can, Do;
      ghost var s := View();
      WaiterFacts(s, c, relock);
      pc := pc[current := Running];
      ghost var r := View();
      assert r == s.(pc := r.pc);
      StatSame(s, r, current);
      done := true;
      if relock.Some? { done := LockMutex(relock.value); }
    }

    /** notify_all up to its loop. */
    method NotifyEveryone(c: Cv)
      requires Ok() && Can(View(), ANotifyAll(c))
      modifies this
      ensures Ok() && View() == Do(old(View()), ANotifyAll(c))
    {
      hide Inv, Stat, At, Waiters;
      ghost var s := View();
      StepOk(s, ANotifyAll(c));
      var list := WaitersOf(c);
      cond := cond[c := []];
      pc := pc[current := Waking(list)];
    }

    /** One turn of notify_all's loop over its local list; false at the end of the list. */
    method NotifyNext(list: seq<nat>) returns (more: bool)
      requires Ok() && Can(View(), AWakeNext) && At(View(), current) == Waking(list)
      modifies this
      ensures Ok() && View() == Do(old(View()), AWakeNext) && (more <==> list != [])
      ensures more ==> Stat(old(View()), list[0]) == Blocked && list[0] != old(current)
    {
      ghost var s := View();
      StepOk(s, AWakeNext);
      hide Inv, Stat, At, Wake;
      more := list != [];
      if more {
        WakeNextBlocked(s, list);
        pc := pc[current := Waking(list[1..])];
        ghost var r := View();
        assert r == s.(pc := r.pc);
        Start(list[0]);
      } else {
        pc := pc[current := Running];
      }
    }
  }

  /** StepKeeps, for a step that need not be possible. */
  lemma StepOk(s: State, a: Action)
    ensures Inv(s) && Can(s, a) ==> Inv(Do(s, a))
  {
    hide Inv, Can, Do;
    if Inv(s) && Can(s, a) { StepKeeps(s, a); }
  }

  lemma BusyOk(s: State)
    requires Inv(s)
    ensures Inv(TickBusy(s)) && Do(s, ATickBusy) == TickBusy(s) && s.preempt == 0
    ensures TickBusy(s) == s.(remained := if s.remained > 0 then s.remained - 1 else s.remained)
  {
    StepOk(s, ATickBusy);
    BusyIs(s);
  }

  /** With preemption disabled a tick only counts. */
  lemma TickOff(s: State)
    requires s.preempt != 0
    ensures Tick(s) == s.(remained := if s.remained > 0 then s.remained - 1 else s.remained)
  {}

  lemma JoinOkIs(s: State, t: nat)
    requires Inv(s) && Can(s, AJoin(t))
    ensures Inv(Join(s, t)) && Do(s, AJoin(t)) == Join(s, t)
    ensures AtRest(s) && s.current != s.idle && (Stat(s, t) == Dead ==> t in s.retval)
  {
    StepOk(s, AJoin(t));
  }

  lemma JoinCases(s: State, t: nat, ret: int)
    requires ret == if t in s.retval then s.retval[t] else 0
    ensures Stat(s, t) == Dead ==> Join(s, t) == s.(joined := s.joined[s.current := ret])
    ensures Stat(s, t) != Dead ==> Join(s, t) == Wait(s, OfThread(t), None)
  {
    hide Wait, Stat;
  }

  lemma RelockOk(s: State, m: nat)
    requires Inv(s) && Can(s, ARelock) && At(s, s.current) == Locking(m)
    ensures Do(s, ARelock) == Relock(s, m) && Inv(Relock(s, m))
    ensures Owns(s, m, s.current) && Queue(s, m) != [] && Queue(s, m)[0] == s.current
  {
    RelockCan(s, m);
    hide Core, JoinOk, MutexOk, Relock, At, Queue, Stat, Can, Do;
    CoreParts(s);
    OneTurn(s, m);
    StepKeeps(s, ARelock);
  }

  lemma RelockCan(s: State, m: nat)
    requires Can(s, ARelock) && At(s, s.current) == Locking(m)
    ensures Do(s, ARelock) == Relock(s, m) && Stat(s, s.current) == Active
  {
    hide Relock, Stat, At;
  }

  lemma UnlockOk(s: State, m: nat)
    ensures Inv(s) && Can(s, AUnlock(m)) ==> Inv(Unlock(s, m)) && Do(s, AUnlock(m)) == Unlock(s, m)
  {
    hide Inv;
    StepOk(s, AUnlock(m));
  }

  lemma LockOk(s: State, m: nat)
    ensures Inv(s) && Can(s, ALock(m)) ==> Inv(Lock(s, m)) && Do(s, ALock(m)) == Lock(s, m)
  {
    hide Inv;
    StepOk(s, ALock(m));
  }

  lemma DeadValue(s: State, t: nat)
    requires Inv(s) && Stat(s, t) == Dead
    ensures t in s.retval
  {}

  lemma JoinerFacts(s: State, t: nat)
    requires Inv(s) && Can(s, AWoken) && Joining(s, s.current, t)
    ensures Stat(s, t) == Dead && t in s.retval && s.current != s.idle
    ensures AtRest(s.(pc := s.pc[s.current := Running])) && Inv(Do(s, AWoken))
    ensures Do(s, AWoken) == Join(s.(pc := s.pc[s.current := Running]), t)
  {
    hide Core, JoinOk, Join, Stat;
    JoinOnce(s, t);
    OutOfWait(s);
    DeadValue(s, t);
    StepKeeps(s, AWoken);
  }

  lemma WaiterFacts(s: State, c: Cv, relock: Option<nat>)
    requires Inv(s) && Can(s, AWoken) && At(s, s.current) == Waiting(c, relock) && c.Own?
    ensures AtRest(s.(pc := s.pc[s.current := Running])) && Inv(Do(s, AWoken))
    ensures var u := s.(pc := s.pc[s.current := Running]);
            Do(s, AWoken) == if relock.Some? then Lock(u, relock.value) else u
  {
    hide Core, JoinOk, Lock, Stat;
    OutOfWait(s);
    StepKeeps(s, AWoken);
  }

  lemma ScheduleOff(s: State)
    requires s.preempt != 0
    ensures Schedule(s) == s
  {}

  lemma ScheduleCases(s: State, r: State, next: Option<nat>)
    requires s.preempt == 0 && r == s.(ready := if s.ready != [] then s.ready[1..] else [])
    requires next == if s.ready != [] then Some(s.ready[0]) else if Stat(s, s.current) != Active then Some(s.idle)
                     else None
    ensures next == None ==> Schedule(s) == Place(r, s.current)
    ensures next != None ==>
              Schedule(s) == Place(r.(ready := if Stat(s, s.current) == Active && s.current != s.idle
                                   then r.ready + [s.current] else r.ready), next.value)
  {
    hide Place, Stat;
  }

  lemma UnlockCases(s: State, m: nat)
    ensures Queue(s, m) == [] ==>
              Unlock(s, m) == s.(inside := s.inside[m := Inside(s, m) - {s.current}], owner := s.owner - {m})
    ensures Queue(s, m) != [] ==>
              var w := Queue(s, m)[0];
              Unlock(s, m) == Wake(s.(inside := s.inside[m := Inside(s, m) - {s.current}], owner := s.owner[m := w],
                                   handed := s.handed[m := Handed(s, m) + [w]]), w)
  {
    hide Wake, Queue, Handed, Inside;
  }

  lemma StatSame(s: State, u: State, t: nat)
    requires u.status == s.status
    ensures Stat(u, t) == Stat(s, t)
  {}

  lemma RelockInside(s: State, m: nat, u: State)
    requires Owns(s, m, s.current) && Queue(s, m) != [] && Queue(s, m)[0] == s.current
    requires u == s.(wait := s.wait[m := RemoveAll(Queue(s, m), s.current)], pc := s.pc[s.current := Running],
                  inside := s.inside[m := Inside(s, m) + {s.current}])
    ensures u == Relock(s, m) && s.current in Inside(u, m)
  {
    RelockIs(s, m);
    hide Queue, RemoveAll;
  }

  lemma WakeNextBlocked(s: State, list: seq<nat>)
    requires Inv(s) && Stat(s, s.current) == Active && At(s, s.current) == Waking(list) && list != []
    ensures Stat(s, list[0]) == Blocked && list[0] != s.current
  {
    hide HistoryOk, MutexOk, ReadyOk;
    assert InRest(s, s.current, list[0]);
  }

  /** With its wait a thread gives the mutex to the first that waits for it, or leaves it free. */
  lemma WaitGivesUp(s: State, c: Cv, m: nat)
    ensures var q, u := Queue(s, m), Wait(s, c, Some(m)); if q == [] then m !in u.owner else Owns(u, m, q[0])
  {
    hide Waiters, Inside, Handed;
  }
}
