/** The one-slot monitor of the producer-consumer example: a step is one stretch under the
    lock, from taking it (or waking up with it) to giving it up; wakeups may be spurious. */
module Monitor {

  datatype Option<T> = None | Some(value: T)

  /** A producer outside, before its test (or woken), or asleep; a consumer likewise, or done. */
  datatype Pc = POut | PTry(x: int) | PSleep(x: int) | CTry | CSleep | CStop

  /** The three shared variables, where every thread is, and what went in and came out. */
  datatype State = State(value: int, valid: bool, done: bool, pc: map<nat, Pc>, produced: seq<int>, consumed: seq<int>)

  predicate Asleep(s: State, t: nat) {
    t in s.pc && (s.pc[t].PSleep? || s.pc[t].CSleep?)
  }

  function Awaken(pc: Pc): Pc {
    match pc
    case PSleep(x) => PTry(x)
    case CSleep => CTry
    case _ => pc
  }

  /** notify_one may pick any sleeper, and must pick one if there is any. */
  ghost predicate MayWake(s: State, w: Option<nat>) {
    if w.Some? then Asleep(s, w.value) else forall t :: !Asleep(s, t)
  }

  function Notify(s: State, w: Option<nat>): State {
    if w.Some? && w.value in s.pc then s.(pc := s.pc[w.value := Awaken(s.pc[w.value])]) else s
  }

  function NotifyAll(s: State): State {
    s.(pc := map t | t in s.pc :: Awaken(s.pc[t]))
  }

  /** produce, from its test on. */
  function Produce(s: State, t: nat, w: Option<nat>): State
    requires t in s.pc && s.pc[t].PTry?
  {
    var x := s.pc[t].x;
    if s.valid then s.(pc := s.pc[t := PSleep(x)])
    else Notify(s.(value := x, valid := true, produced := s.produced + [x], pc := s.pc[t := POut]), w)
  }

  /** consume, from its test on; where it returns 1 the consumer calls it again. */
  function Consume(s: State, t: nat, w: Option<nat>): State
    requires t in s.pc && s.pc[t].CTry?
  {
    if !s.valid && !s.done then s.(pc := s.pc[t := CSleep])
    else if s.valid then Notify(s.(valid := false, consumed := s.consumed + [s.value]), w)
    else s.(pc := s.pc[t := CStop])
  }

  function Finish(s: State): State {
    NotifyAll(s.(done := true))
  }

  datatype Action = ABegin(t: nat, x: int) | AProduce(t: nat, w: Option<nat>) | AConsume(t: nat, w: Option<nat>)
                  | AFinish | ASpurious(t: nat)

  /** The program calls finish once every producer has returned, and none starts after it. */
  ghost predicate Can(s: State, a: Action) {
    match a
    case ABegin(t, x) => t in s.pc && s.pc[t].POut? && !s.done
    case AProduce(t, w) => t in s.pc && s.pc[t].PTry? && (!s.valid ==> MayWake(s, w))
    case AConsume(t, w) => t in s.pc && s.pc[t].CTry? && (s.valid ==> MayWake(s, w))
    case AFinish => forall t :: t in s.pc ==> !s.pc[t].PTry? && !s.pc[t].PSleep?
    case ASpurious(t) => Asleep(s, t)
  }

  ghost function Do(s: State, a: Action): State
    requires Can(s, a)
  {
    match a
    case ABegin(t, x) => s.(pc := s.pc[t := PTry(x)])
    case AProduce(t, w) => Produce(s, t, w)
    case AConsume(t, w) => Consume(s, t, w)
    case AFinish => Finish(s)
    case ASpurious(t) => s.(pc := s.pc[t := Awaken(s.pc[t])])
  }

  // ---- for any number of producers and consumers ----

  /** What went in is what came out and, in the slot, the last value still to come; after
      finish no producer is at work, and a consumer has stopped only with nothing left. */
  ghost predicate Inv(s: State) {
    && s.produced == s.consumed + (if s.valid then [s.value] else [])
    && (s.done ==> forall t :: t in s.pc ==> !s.pc[t].PTry? && !s.pc[t].PSleep?)
    && (forall t :: t in s.pc && s.pc[t].CStop? ==> s.done && s.produced == s.consumed)
  }

  lemma StepKeeps(s: State, a: Action)
    requires Inv(s) && Can(s, a)
    ensures Inv(Do(s, a))
  {}

  /** A consumer stops only after finish and with nothing pending. */
  lemma StopsAtEnd(s: State, a: Action, t: nat)
    requires Inv(s) && Can(s, a) && t in s.pc && !s.pc[t].CStop? && t in Do(s, a).pc && Do(s, a).pc[t].CStop?
    ensures s.done && !s.valid && s.consumed == s.produced
  {}

  ghost predicate Run(s: State, acts: seq<Action>, t: State)
    decreases |acts|
  {
    if acts == [] then s == t else Can(s, acts[0]) && Run(Do(s, acts[0]), acts[1..], t)
  }

  lemma {:induction false} RunKeeps(s: State, acts: seq<Action>, t: State)
    requires Inv(s) && Run(s, acts, t)
    ensures Inv(t)
    decreases |acts|
  {
    hide Inv, Can, Do;
    if acts != [] {
      StepKeeps(s, acts[0]);
      RunKeeps(Do(s, acts[0]), acts[1..], t);
    }
  }

  // ---- after finish ----

  /** finish has been called: no thread sleeps, and none is at work but the consumers. */
  ghost predicate Ending(s: State) {
    s.done && forall t :: t in s.pc ==> s.pc[t].POut? || s.pc[t].CTry? || s.pc[t].CStop?
  }

  /** finish wakes every consumer, and only a full slot keeps one from stopping at its next test. */
  lemma FinishEnds(s: State)
    requires Can(s, AFinish)
    ensures Ending(Do(s, AFinish))
    ensures forall t :: t in s.pc && (s.pc[t].CSleep? || s.pc[t].CTry?) ==> Do(s, AFinish).pc[t] == CTry
    ensures Do(s, AFinish).valid == s.valid && Do(s, AFinish).produced == s.produced
  {}

  lemma EndingStep(s: State, a: Action)
    requires Ending(s) && Can(s, a)
    ensures Ending(Do(s, a)) && (a.AConsume? || (a.AFinish? && Do(s, a) == s))
    ensures a.AConsume? && !s.valid ==> Do(s, a) == s.(pc := s.pc[a.t := CStop])
    ensures a.AConsume? && s.valid ==> Do(s, a) == s.(valid := false, consumed := s.consumed + [s.value])
  {
    match a
    case AFinish => assert (map t | t in s.pc :: Awaken(s.pc[t])) == s.pc;
    case AConsume(t, w) => assert forall u :: !Asleep(s, u);
    case _ =>
  }

  /** The tests still to come: one that empties the slot, and one that stops each consumer. */
  ghost function TestsLeft(s: State): nat {
    (if s.valid then 1 else 0) + |Trying(s)|
  }

  ghost function Trying(s: State): set<nat> {
    set t | t in s.pc && s.pc[t].CTry?
  }

  /** A consumer at its test or stopped. */
  ghost predicate Consumer(s: State, t: nat) {
    t in s.pc && (s.pc[t].CTry? || s.pc[t].CStop?)
  }

  function Tests(acts: seq<Action>): nat {
    if acts == [] then 0 else (if acts[0].AConsume? then 1 else 0) + Tests(acts[1..])
  }

  lemma TestCounts(s: State, a: Action)
    requires Ending(s) && Can(s, a)
    ensures TestsLeft(Do(s, a)) + Tests([a]) == TestsLeft(s)
  {
    EndingStep(s, a);
    var u := Do(s, a);
    if a.AConsume? {
      assert a.t in Trying(s);
      assert Trying(u) == if s.valid then Trying(s) else Trying(s) - {a.t};
    }
    assert [a][1..] == [];
  }

  /** In every run after finish `done` stays set, no thread sleeps again, and the consumers together test exactly
      as often as the slot and they themselves allow: the run goes on until every consumer has stopped. */
  lemma {:induction false} EndingRun(s: State, acts: seq<Action>, t: State)
    requires Ending(s) && Run(s, acts, t)
    ensures Ending(t) && TestsLeft(t) + Tests(acts) == TestsLeft(s)
    ensures forall u :: Consumer(s, u) ==> Consumer(t, u)
    decreases |acts|
  {
    hide Ending, Can, Do, TestsLeft;
    if acts != [] {
      EndingStep(s, acts[0]);
      TestCounts(s, acts[0]);
      EndingRun(Do(s, acts[0]), acts[1..], t);
      RolesStay(s, acts[0]);
      assert [acts[0]][1..] == [];
    }
  }

  lemma RolesStay(s: State, a: Action)
    requires Ending(s) && Can(s, a)
    ensures forall u :: Consumer(s, u) ==> Consumer(Do(s, a), u)
  {
    EndingStep(s, a);
  }

  /** Every run in which finish is called, for any number of threads: afterwards `done` is set and no
      thread sleeps, and a consumer that tests an empty slot stops, with everything consumed. */
  lemma {:induction false} FinishedRun(s: State, acts: seq<Action>, t: State)
    requires Inv(s) && Run(s, acts, t) && AFinish in acts
    ensures Ending(t) && t.done && forall u :: !Asleep(t, u)
    ensures forall u, w :: Can(t, AConsume(u, w)) && !t.valid ==>
                             Do(t, AConsume(u, w)).pc[u] == CStop && t.consumed == t.produced
    decreases |acts|
  {
    hide Inv, Can, Do;
    StepKeeps(s, acts[0]);
    if acts[0] == AFinish {
      FinishEnds(s);
      EndingRun(Do(s, AFinish), acts[1..], t);
      RunKeeps(Do(s, AFinish), acts[1..], t);
      EndingStops(t);
    } else {
      FinishedRun(Do(s, acts[0]), acts[1..], t);
    }
  }

  lemma EndingStops(t: State)
    requires Ending(t) && Inv(t)
    ensures t.done && forall u :: !Asleep(t, u)
    ensures forall u, w :: Can(t, AConsume(u, w)) && !t.valid ==>
                             Do(t, AConsume(u, w)).pc[u] == CStop && t.consumed == t.produced
  {}

  /** With no test left every consumer has stopped and has left nothing behind. */
  lemma AllTested(s: State)
    requires Ending(s) && Inv(s)
    ensures TestsLeft(s) == 0 <==> !s.valid && forall u :: Consumer(s, u) ==> s.pc[u].CStop?
    ensures TestsLeft(s) == 0 ==> s.consumed == s.produced
  {
    if Trying(s) != {} { var u :| u in Trying(s); assert Consumer(s, u); }
    forall u | Consumer(s, u) && Trying(s) == {} ensures s.pc[u].CStop? { assert u !in Trying(s); }
  }

  // ---- one producer, one consumer ----

  const PRODUCER: nat := 0
  const CONSUMER: nat := 1

  function Start(): State {
    State(0, false, false, map[PRODUCER := POut, CONSUMER := CTry], [], [])
  }

  /** Each of the two sleeps only while its condition holds, so never both at once. */
  ghost predicate Pair(s: State) {
    && s.pc.Keys == {PRODUCER, CONSUMER}
    && (s.pc[PRODUCER].POut? || s.pc[PRODUCER].PTry? || s.pc[PRODUCER].PSleep?)
    && (s.pc[CONSUMER].CTry? || s.pc[CONSUMER].CSleep? || s.pc[CONSUMER].CStop?)
    && (s.pc[PRODUCER].PSleep? ==> s.valid)
    && (s.pc[CONSUMER].CSleep? ==> !s.valid && !s.done)
  }

  lemma PairStep(s: State, a: Action)
    requires Pair(s) && Can(s, a)
    ensures Pair(Do(s, a))
  {
    if a.AProduce? && !s.valid && a.w.None? { assert !Asleep(s, CONSUMER); }
    if a.AConsume? && s.valid && a.w.None? { assert !Asleep(s, PRODUCER); }
  }

  lemma {:induction false} PairRun(s: State, acts: seq<Action>, t: State)
    requires Pair(s) && Run(s, acts, t)
    ensures Pair(t)
    decreases |acts|
  {
    hide Pair, Can, Do;
    if acts != [] {
      PairStep(s, acts[0]);
      PairRun(Do(s, acts[0]), acts[1..], t);
    }
  }

  /** In every run of the program the two threads are never asleep together, and whatever was
      consumed was produced, in order and without loss. */
  lemma NeverBothAsleep(acts: seq<Action>, t: State)
    requires Run(Start(), acts, t)
    ensures !(Asleep(t, PRODUCER) && Asleep(t, CONSUMER))
    ensures t.consumed <= t.produced && |t.produced| <= |t.consumed| + 1
    ensures CONSUMER in t.pc && t.pc[CONSUMER].CStop? ==> t.consumed == t.produced
  {
    PairRun(Start(), acts, t);
    RunKeeps(Start(), acts, t);
  }

  // ---- any number of producers and consumers ----

  /** `p` producers, threads 0 to p - 1, and `c` consumers after them. */
  function StartOf(p: nat, c: nat): State {
    State(0, false, false, map t: nat | t < p + c :: Role(p, t, CTry), [], [])
  }

  function Role(p: nat, t: nat, consumer: Pc): Pc {
    if t < p then POut else consumer
  }

  ghost predicate AllAsleep(s: State) {
    forall t :: t in s.pc ==> Asleep(s, t)
  }

  /** A run leads to every thread asleep, with the slot full or empty. */
  ghost predicate CanGetStuck(s: State, full: bool) {
    exists acts, t :: Run(s, acts, t) && AllAsleep(t) && t.valid == full
  }

  /** A state one step, or one run, before a stuck one can get stuck. */
  lemma StuckBefore(s: State, a: Action, full: bool)
    requires Can(s, a) && CanGetStuck(Do(s, a), full)
    ensures CanGetStuck(s, full)
  {
    hide Can, Do;
    var acts, t :| Run(Do(s, a), acts, t) && AllAsleep(t) && t.valid == full;
    assert ([a] + acts)[0] == a && ([a] + acts)[1..] == acts;
    assert Run(s, [a] + acts, t);
  }

  lemma StuckNow(s: State, full: bool)
    requires AllAsleep(s) && s.valid == full
    ensures CanGetStuck(s, full)
  {
    assert Run(s, [], s);
  }

  /** Three threads on their way, over a background of others. */
  datatype Trio = Trio(i: nat, j: nat, k: nat, rest: map<nat, Pc>)

  predicate TrioOk(w: Trio) {
    w.i != w.j && w.i != w.k && w.j != w.k && w.i in w.rest && w.j in w.rest && w.k in w.rest
  }

  function At(w: Trio, value: int, valid: bool, a: Pc, b: Pc, c: Pc, produced: seq<int>, consumed: seq<int>): State {
    State(value, valid, false, w.rest[w.i := a][w.j := b][w.k := c], produced, consumed)
  }

  lemma AtPc(w: Trio, value: int, valid: bool, a: Pc, b: Pc, c: Pc, produced: seq<int>, consumed: seq<int>)
    requires TrioOk(w)
    ensures var s := At(w, value, valid, a, b, c, produced, consumed);
            s.pc.Keys == w.rest.Keys && s.pc[w.i] == a && s.pc[w.j] == b && s.pc[w.k] == c
    ensures forall t :: t in w.rest && t != w.i && t != w.j && t != w.k ==>
                          At(w, value, valid, a, b, c, produced, consumed).pc[t] == w.rest[t]
  {}

  /** Moving one of the three. */
  lemma AtMove(w: Trio, a: Pc, b: Pc, c: Pc, d: Pc)
    requires TrioOk(w)
    ensures w.rest[w.i := a][w.j := b][w.k := c][w.i := d] == w.rest[w.i := d][w.j := b][w.k := c]
    ensures w.rest[w.i := a][w.j := b][w.k := c][w.j := d] == w.rest[w.i := a][w.j := d][w.k := c]
    ensures w.rest[w.i := a][w.j := b][w.k := c][w.k := d] == w.rest[w.i := a][w.j := b][w.k := d]
  {}

  /** Of the program with `p` producers and `c` consumers: once finish has been called no thread sleeps, and
      when the tests still to come are done every consumer has stopped with everything consumed. */
  lemma ProgramEnds(p: nat, c: nat, acts: seq<Action>, t: State)
    requires Run(StartOf(p, c), acts, t) && AFinish in acts
    ensures t.done && Ending(t) && forall u :: !Asleep(t, u)
    ensures TestsLeft(t) == 0 <==> !t.valid && forall u :: Consumer(t, u) ==> t.pc[u].CStop?
    ensures TestsLeft(t) == 0 ==> t.consumed == t.produced
  {
    FinishedRun(StartOf(p, c), acts, t);
    RunKeeps(StartOf(p, c), acts, t);
    AllTested(t);
  }

  // ---- two producers ----

  /** Everyone but the producers outside is asleep and the slot is full: they come and sleep too. */
  lemma {:induction false} ProducersSleep(s: State, n: nat, k: nat)
    requires s.valid && !s.done && k <= n && (forall t :: t in s.pc ==> t < n)
    requires forall t :: t in s.pc ==> Asleep(s, t) || (t >= k && s.pc[t].POut?)
    ensures CanGetStuck(s, true)
    decreases n - k
  {
    if k == n {
      StuckNow(s, true);
    } else if k in s.pc && s.pc[k].POut? {
      var u := Do(s, ABegin(k, 0));
      var v := Do(u, AProduce(k, None));
      forall t | t in v.pc ensures t < n && (Asleep(v, t) || (t >= k + 1 && v.pc[t].POut?)) {
        if t != k { assert v.pc[t] == s.pc[t]; assert Asleep(s, t) == Asleep(v, t); }
      }
      ProducersSleep(v, n, k + 1);
      StuckBefore(u, AProduce(k, None), true);
      StuckBefore(s, ABegin(k, 0), true);
    } else {
      ProducersSleep(s, n, k + 1);
    }
  }

  /** The slot is empty, everyone but the consumers at their test and the producers outside is
      asleep: the consumers fall asleep. */
  lemma {:induction false} ConsumersSleep(s: State, n: nat, k: nat, end: State, full: bool)
    requires !s.valid && !s.done && k <= n && forall t :: t in s.pc && s.pc[t].CTry? ==> k <= t < n
    requires end == s.(pc := end.pc) && end.pc.Keys == s.pc.Keys && CanGetStuck(end, full)
    requires forall t :: t in s.pc ==> end.pc[t] == if s.pc[t].CTry? then CSleep else s.pc[t]
    ensures CanGetStuck(s, full)
    decreases n - k
  {
    if k == n {
      assert s.pc == end.pc;
    } else if k in s.pc && s.pc[k].CTry? {
      var u := Do(s, AConsume(k, None));
      ConsumersSleep(u, n, k + 1, end, full);
      StuckBefore(s, AConsume(k, None), full);
    } else {
      ConsumersSleep(s, n, k + 1, end, full);
    }
  }

  /** The producers outside, the consumers asleep. */
  function Background(p: nat, c: nat): map<nat, Pc> {
    map t: nat | t < p + c :: Role(p, t, CSleep)
  }

  /** A produce step by the thread in place i, and which sleeper it wakes. */
  lemma FirstProduces(w: Trio, value: int, x: int, b: Pc, c: Pc, ps: seq<int>, cs: seq<int>)
    requires TrioOk(w)
    ensures var s := At(w, value, true, PTry(x), b, c, ps, cs);
            Can(s, AProduce(w.i, None)) && Do(s, AProduce(w.i, None)) == At(w, value, true, PSleep(x), b, c, ps, cs)
    ensures b.PSleep? ==>
              var s := At(w, value, false, PTry(x), b, c, ps, cs);
              && Can(s, AProduce(w.i, Some(w.j)))
              && Do(s, AProduce(w.i, Some(w.j))) == At(w, x, true, POut, PTry(b.x), c, ps + [x], cs)
    ensures c == CSleep ==>
              var s := At(w, value, false, PTry(x), b, c, ps, cs);
              && Can(s, AProduce(w.i, Some(w.k)))
              && Do(s, AProduce(w.i, Some(w.k))) == At(w, x, true, POut, b, CTry, ps + [x], cs)
    ensures b == CSleep ==>
              var s := At(w, value, false, PTry(x), b, c, ps, cs);
              && Can(s, AProduce(w.i, Some(w.j)))
              && Do(s, AProduce(w.i, Some(w.j))) == At(w, x, true, POut, CTry, c, ps + [x], cs)
  {
    AtMove(w, PTry(x), b, c, PSleep(x));
    AtMove(w, PTry(x), b, c, POut);
    AtMove(w, POut, b, c, CTry);
    if b.PSleep? { AtMove(w, POut, b, c, PTry(b.x)); }
  }

  lemma Begins(w: Trio, value: int, valid: bool, x: int, a: Pc, b: Pc, c: Pc, ps: seq<int>, cs: seq<int>)
    requires TrioOk(w)
    ensures a == POut ==>
              var s := At(w, value, valid, a, b, c, ps, cs);
              Can(s, ABegin(w.i, x)) && Do(s, ABegin(w.i, x)) == At(w, value, valid, PTry(x), b, c, ps, cs)
    ensures b == POut ==>
              var s := At(w, value, valid, a, b, c, ps, cs);
              Can(s, ABegin(w.j, x)) && Do(s, ABegin(w.j, x)) == At(w, value, valid, a, PTry(x), c, ps, cs)
    ensures b == PTry(x) ==>
              var s := At(w, value, true, a, b, c, ps, cs);
              Can(s, AProduce(w.j, None)) && Do(s, AProduce(w.j, None)) == At(w, value, true, a, PSleep(x), c, ps, cs)
  {
    AtMove(w, a, b, c, PTry(x));
    AtMove(w, a, b, c, PSleep(x));
  }

  /** A consumer finds the slot empty. */
  lemma FindsEmpty(w: Trio, value: int, a: Pc, b: Pc, c: Pc, ps: seq<int>, cs: seq<int>)
    requires TrioOk(w)
    ensures var s := At(w, value, false, a, b, c, ps, cs);
            && (b == CTry ==> Can(s, AConsume(w.j, None))
                              && Do(s, AConsume(w.j, None)) == At(w, value, false, a, CSleep, c, ps, cs))
            && (c == CTry ==> Can(s, AConsume(w.k, None))
                              && Do(s, AConsume(w.k, None)) == At(w, value, false, a, b, CSleep, ps, cs))
  {
    AtMove(w, a, b, c, CSleep);
  }

  /** A consumer takes the value and wakes the wrong thread. */
  lemma TakesValue(w: Trio, value: int, a: Pc, b: Pc, c: Pc, ps: seq<int>, cs: seq<int>)
    requires TrioOk(w)
    ensures var s := At(w, value, true, a, b, c, ps, cs);
            && (a.PSleep? && c == CTry ==>
                  && Can(s, AConsume(w.k, Some(w.i)))
                  && Do(s, AConsume(w.k, Some(w.i))) == At(w, value, false, PTry(a.x), b, c, ps, cs + [value]))
            && (b == CTry && c == CSleep ==>
                  && Can(s, AConsume(w.j, Some(w.k)))
                  && Do(s, AConsume(w.j, Some(w.k))) == At(w, value, false, a, b, CTry, ps, cs + [value]))
  {
    if a.PSleep? { AtMove(w, a, b, c, PTry(a.x)); }
    AtMove(w, a, b, c, CTry);
  }

  lemma Back(s: State, a: Action, t: State, full: bool)
    requires Can(s, a) && Do(s, a) == t && CanGetStuck(t, full)
    ensures CanGetStuck(s, full)
  {
    StuckBefore(s, a, full);
  }

  lemma BackgroundOk(p: nat, c: nat, w: Trio)
    requires w.rest == Background(p, c) && w.i != w.j && w.i != w.k && w.j != w.k && w.i < p + c && w.j < p + c
    requires w.k < p + c
    ensures TrioOk(w)
  {}

  /** Two producers: the one that produces wakes the other, and all fall asleep on a full slot. */
  lemma TwoProducersStuck(p: nat, c: nat)
    requires p >= 2 && c >= 1
    ensures CanGetStuck(StartOf(p, c), true)
  {
    var w := Trio(0, 1, p, Background(p, c));
    BackgroundOk(p, c, w);
    WrongProducer(p, c, w);
    var s0 := At(w, 0, false, POut, POut, CSleep, [], []);
    hide CanGetStuck, Can, Do, At;
    FilledOnce(p, c, w);
    var s1 := At(w, 0, false, PTry(7), POut, CSleep, [], []);
    FirstProduces(w, 0, 7, POut, CSleep, [], []);
    assert [] + [7] == [7];
    Back(s1, AProduce(0, Some(p)), At(w, 7, true, POut, POut, CTry, [7], []), true);
    Begins(w, 0, false, 7, POut, POut, CSleep, [], []);
    Back(s0, ABegin(0, 7), s1, true);
    StartSleeps(p, c, w, true);
  }

  /** From the start the consumers can all be asleep before anything else happens. */
  lemma StartSleeps(p: nat, c: nat, w: Trio, full: bool)
    requires TrioOk(w) && w.rest == Background(p, c)
    requires CanGetStuck(At(w, 0, false, Role(p, w.i, CSleep), Role(p, w.j, CSleep), Role(p, w.k, CSleep), [], []),
                         full)
    ensures CanGetStuck(StartOf(p, c), full)
  {
    var end := At(w, 0, false, Role(p, w.i, CSleep), Role(p, w.j, CSleep), Role(p, w.k, CSleep), [], []);
    assert end.pc == w.rest;
    hide CanGetStuck, At;
    ConsumersSleep(StartOf(p, c), p + c, 0, end, full);
  }

  /** The slot is full, and so on until the consumer is at its test and both producers asleep. */
  lemma FilledOnce(p: nat, c: nat, w: Trio)
    requires TrioOk(w) && w.i == 0 && w.j == 1 && w.k == p
    requires CanGetStuck(At(w, 7, true, PSleep(9), PSleep(8), CTry, [7], []), true)
    ensures CanGetStuck(At(w, 7, true, POut, POut, CTry, [7], []), true)
  {
    hide CanGetStuck, Can, Do, At;
    var s1, s2, s3 := At(w, 7, true, POut, POut, CTry, [7], []), At(w, 7, true, POut, PTry(8), CTry, [7], []),
                      At(w, 7, true, POut, PSleep(8), CTry, [7], []);
    var s4 := At(w, 7, true, PTry(9), PSleep(8), CTry, [7], []);
    FirstProduces(w, 7, 9, PSleep(8), CTry, [7], []);
    Back(s4, AProduce(0, None), At(w, 7, true, PSleep(9), PSleep(8), CTry, [7], []), true);
    Begins(w, 7, true, 9, POut, PSleep(8), CTry, [7], []);
    Back(s3, ABegin(0, 9), s4, true);
    Begins(w, 7, true, 8, POut, PTry(8), CTry, [7], []);
    Back(s2, AProduce(1, None), s3, true);
    Begins(w, 7, true, 8, POut, POut, CTry, [7], []);
    Back(s1, ABegin(1, 8), s2, true);
  }

  /** The consumer empties the slot and wakes a producer, which wakes the other. */
  lemma WrongProducer(p: nat, c: nat, w: Trio)
    requires TrioOk(w) && w.rest == Background(p, c) && w.i == 0 && w.j == 1 && w.k == p >= 2 && c >= 1
    ensures CanGetStuck(At(w, 7, true, PSleep(9), PSleep(8), CTry, [7], []), true)
  {
    var s4, s5 := At(w, 7, true, PSleep(9), PSleep(8), CTry, [7], []),
                  At(w, 7, false, PTry(9), PSleep(8), CTry, [7], [7]);
    var s6, s7 := At(w, 7, false, PTry(9), PSleep(8), CSleep, [7], [7]),
                  At(w, 9, true, POut, PTry(8), CSleep, [7, 9], [7]);
    var s8 := At(w, 9, true, POut, PSleep(8), CSleep, [7, 9], [7]);
    AtPc(w, 9, true, POut, PSleep(8), CSleep, [7, 9], [7]);
    hide CanGetStuck, Can, Do, At;
    ProducersSleep(s8, p + c, 0);
    Begins(w, 9, true, 8, POut, PTry(8), CSleep, [7, 9], [7]);
    Back(s7, AProduce(1, None), s8, true);
    FirstProduces(w, 7, 9, PSleep(8), CSleep, [7], [7]);
    assert [7] + [9] == [7, 9];
    Back(s6, AProduce(0, Some(1)), s7, true);
    FindsEmpty(w, 7, PTry(9), PSleep(8), CTry, [7], [7]);
    Back(s5, AConsume(p, None), s6, true);
    TakesValue(w, 7, PSleep(9), PSleep(8), CTry, [7], []);
    assert [] + [7] == [7];
    Back(s4, AConsume(p, Some(0)), s5, true);
  }

  /** Two consumers: the one that consumes wakes the other, and all fall asleep on an empty slot. */
  lemma TwoConsumersStuck(c: nat)
    requires c >= 2
    ensures CanGetStuck(StartOf(1, c), false)
  {
    var w := Trio(0, 1, 2, Background(1, c));
    BackgroundOk(1, c, w);
    WrongConsumer(c, w);
    hide CanGetStuck, Can, Do, At;
    var s0, s1 := At(w, 0, false, POut, CSleep, CSleep, [], []), At(w, 0, false, PTry(7), CSleep, CSleep, [], []);
    var s2, s3 := At(w, 7, true, POut, CTry, CSleep, [7], []), At(w, 7, true, PTry(8), CTry, CSleep, [7], []);
    FirstProduces(w, 7, 8, CTry, CSleep, [7], []);
    Back(s3, AProduce(0, None), At(w, 7, true, PSleep(8), CTry, CSleep, [7], []), false);
    Begins(w, 7, true, 8, POut, CTry, CSleep, [7], []);
    Back(s2, ABegin(0, 8), s3, false);
    FirstProduces(w, 0, 7, CSleep, CSleep, [], []);
    assert [] + [7] == [7];
    Back(s1, AProduce(0, Some(1)), s2, false);
    Begins(w, 0, false, 7, POut, CSleep, CSleep, [], []);
    Back(s0, ABegin(0, 7), s1, false);
    StartSleeps(1, c, w, false);
  }

  lemma WrongConsumer(c: nat, w: Trio)
    requires TrioOk(w) && w.rest == Background(1, c) && w.i == 0 && w.j == 1 && w.k == 2 <= c
    ensures CanGetStuck(At(w, 7, true, PSleep(8), CTry, CSleep, [7], []), false)
  {
    var s4, s5 := At(w, 7, true, PSleep(8), CTry, CSleep, [7], []), At(w, 7, false, PSleep(8), CTry, CTry, [7], [7]);
    var s6, s7 := At(w, 7, false, PSleep(8), CSleep, CTry, [7], [7]),
                  At(w, 7, false, PSleep(8), CSleep, CSleep, [7], [7]);
    AtPc(w, 7, false, PSleep(8), CSleep, CSleep, [7], [7]);
    assert AllAsleep(s7);
    StuckNow(s7, false);
    hide CanGetStuck, Can, Do, At;
    FindsEmpty(w, 7, PSleep(8), CSleep, CTry, [7], [7]);
    Back(s6, AConsume(2, None), s7, false);
    FindsEmpty(w, 7, PSleep(8), CTry, CTry, [7], [7]);
    Back(s5, AConsume(1, None), s6, false);
    TakesValue(w, 7, PSleep(8), CTry, CSleep, [7], []);
    assert [] + [7] == [7];
    Back(s4, AConsume(1, Some(2)), s5, false);
  }

  /** The one condition variable suffices exactly for one producer and one consumer: only then
      is no state reachable in which every thread is asleep. */
  lemma NeverStuck(p: nat, c: nat)
    requires p >= 1 && c >= 1
    ensures !CanGetStuck(StartOf(p, c), true) && !CanGetStuck(StartOf(p, c), false) <==> p == 1 && c == 1
  {
    if p >= 2 {
      TwoProducersStuck(p, c);
    } else if c >= 2 {
      TwoConsumersStuck(c);
    } else {
      assert StartOf(1, 1).pc == Start().pc;
      forall acts, t | Run(StartOf(1, 1), acts, t) ensures !AllAsleep(t) {
        NeverBothAsleep(acts, t);
        PairRun(Start(), acts, t);
      }
    }
  }

  // ---- the code itself ----

  /** The shared variables; each method is one stretch under the lock. */
  class Slot {
    var value: int
    var valid: bool
    var done: bool
    ghost var pc: map<nat, Pc>
    ghost var produced: seq<int>
    ghost var consumed: seq<int>

    ghost function View(): State
      reads this
    {
      State(value, valid, done, pc, produced, consumed)
    }

    /** produce from its test to its wait or its end; true where it has to wait. */
    method ProduceTurn(ghost t: nat, x: int, ghost w: Option<nat>) returns (slept: bool)
      requires Can(View(), AProduce(t, w)) && pc[t].x == x
      modifies this
      ensures View() == Produce(old(View()), t, w) && (slept <==> old(valid))
    {
      slept := valid;
      if slept {
        pc := pc[t := PSleep(x)];
      } else {
        value := x;
        valid := true;
        produced := produced + [x];
        pc := pc[t := POut];
        Wake(w);
      }
    }

    /** notify_one. */
    ghost method Wake(w: Option<nat>)
      modifies this
      ensures View() == Notify(old(View()), w)
    {
      if w.Some? && w.value in pc { pc := pc[w.value := Awaken(pc[w.value])]; }
    }

    /** consume likewise: a value, or the end, or (None, false) where it has to wait. */
    method ConsumeTurn(ghost t: nat, ghost w: Option<nat>) returns (x: Option<int>, end: bool)
      requires Can(View(), AConsume(t, w))
      modifies this
      ensures View() == Consume(old(View()), t, w)
      ensures (x.Some? <==> old(valid)) && (x.Some? ==> x.value == old(value)) && (end <==> !old(valid) && old(done))
    {
      x, end := None, false;
      if !valid && !done {
        pc := pc[t := CSleep];
      } else if valid {
        x := Some(value);
        valid := false;
        consumed := consumed + [value];
        Wake(w);
      } else {
        end := true;
        pc := pc[t := CStop];
      }
    }

    /** finish. */
    method FinishAll()
      modifies this
      ensures View() == Finish(old(View()))
    {
      done := true;
      pc := map t | t in pc :: Awaken(pc[t]);
    }
  }
}
