// sem_05/lab_04/pc: producers and consumers over a set of three System V
// semaphores.  Semaphore 0 counts filled cells, 1 guards the buffer, 2 counts
// free cells.  The "buffer" is a fixed text with a producer and a consumer pointer.
module ProducerConsumer {
  import opened Wrappers
  import opened Counting
  import opened Schedules
  import opened Semaphores

  // The process counts, rounds and capacity that main.c, producer.c and
  // consumer.c fix, as parameters.
  datatype Config = Config(
    producers: nat, perProducer: nat, consumers: nat, perConsumer: nat, capacity: nat, text: string)

  const ALPHABET: string := "abcdefghijklmnopqrstuvwxyzabcdefghijklmnopqrstuvwxyz"
  const SOURCE := Config(3, 8, 3, 8, 5, ALPHABET)

  const PRODUCER_BEGIN := [SemBuf(2, -1), SemBuf(1, -1)]
  const PRODUCER_END := [SemBuf(1, 1), SemBuf(0, 1)]
  const CONSUME_BEGIN := [SemBuf(0, -1), SemBuf(1, -1)]
  const CONSUME_END := [SemBuf(1, 1), SemBuf(2, 1)]

  // Where a process stands in one round.  Moving a pointer is two steps, a load
  // and a store, so that only the semaphores keep updates from getting lost.
  datatype Phase = Outside | Entered | Loaded(at: nat) | Stored(at: nat) | Shown
  datatype Proc = Proc(rounds: nat, phase: Phase)
  datatype Who = Producer(i: nat) | Consumer(j: nat)

  // written and consumed are the characters printed so far by either side.
  datatype State = State(
    sems: seq<nat>, pptr: nat, cptr: nat, producers: seq<Proc>, consumers: seq<Proc>,
    written: string, consumed: string)

  function Init(c: Config): State {
    State([0, 1, c.capacity], 0, 0,
          seq(c.producers, _ => Proc(0, Outside)), seq(c.consumers, _ => Proc(0, Outside)), "", "")
  }

  // The character behind a pointer; the terminator stands for anything past the text.
  function CharAt(c: Config, at: int): char {
    if 0 <= at < |c.text| then c.text[at] else '\0'
  }

  // One step of one process; None when it is blocked in semop or has exited.
  function Step(c: Config, s: State, who: Who): Option<State> {
    match who
    case Producer(i) => if i < |s.producers| && |s.sems| == 3 then ProducerStep(c, s, i) else None
    case Consumer(j) => if j < |s.consumers| && |s.sems| == 3 then ConsumerStep(c, s, j) else None
  }

  function ProducerStep(c: Config, s: State, i: nat): Option<State>
    requires i < |s.producers| && |s.sems| == 3
  {
    var p := s.producers[i];
    match p.phase
    case Outside =>
      if p.rounds >= c.perProducer then None
      else
        (match Semop(s.sems, PRODUCER_BEGIN)
         case None => None
         case Some(sems) => Some(s.(sems := sems, producers := s.producers[i := p.(phase := Entered)])))
    case Entered => Some(s.(producers := s.producers[i := p.(phase := Loaded(s.pptr))]))
    case Loaded(at) => Some(s.(pptr := at + 1, producers := s.producers[i := p.(phase := Stored(at))]))
    case Stored(_) =>
      Some(s.(written := s.written + [CharAt(c, s.pptr - 1)], producers := s.producers[i := p.(phase := Shown)]))
    case Shown =>
      match Semop(s.sems, PRODUCER_END)
      case None => None
      case Some(sems) => Some(s.(sems := sems, producers := s.producers[i := Proc(p.rounds + 1, Outside)]))
  }

  function ConsumerStep(c: Config, s: State, j: nat): Option<State>
    requires j < |s.consumers| && |s.sems| == 3
  {
    var p := s.consumers[j];
    match p.phase
    case Outside =>
      if p.rounds >= c.perConsumer then None
      else
        (match Semop(s.sems, CONSUME_BEGIN)
         case None => None
         case Some(sems) => Some(s.(sems := sems, consumers := s.consumers[j := p.(phase := Entered)])))
    case Entered => Some(s.(consumers := s.consumers[j := p.(phase := Loaded(s.cptr))]))
    case Loaded(at) => Some(s.(cptr := at + 1, consumers := s.consumers[j := p.(phase := Stored(at))]))
    case Stored(at) =>
      Some(s.(consumed := s.consumed + [CharAt(c, at)], consumers := s.consumers[j := p.(phase := Shown)]))
    case Shown =>
      match Semop(s.sems, CONSUME_END)
      case None => None
      case Some(sems) => Some(s.(sems := sems, consumers := s.consumers[j := Proc(p.rounds + 1, Outside)]))
  }

  // The transition system; a schedule of it is any interleaving.
  function Steps(c: Config): (State, Who) -> Option<State> {
    (s: State, who: Who) => Step(c, s, who)
  }

  predicate AllDone(c: Config, s: State) {
    && (forall p | p in s.producers :: p == Proc(c.perProducer, Outside))
    && (forall p | p in s.consumers :: p == Proc(c.perConsumer, Outside))
  }

  ghost predicate Stuck(c: Config, s: State) {
    forall who :: Step(c, s, who) == None
  }

  // ---- What the four semop arrays do ----

  lemma ProducerTables(sems: seq<nat>, begin: seq<SemBuf>, end: seq<SemBuf>)
    requires |sems| == 3 && begin == PRODUCER_BEGIN && end == PRODUCER_END
    ensures Semop(sems, begin)
            == if sems[2] >= 1 && sems[1] >= 1 then Some([sems[0], sems[1] - 1, sems[2] - 1]) else None
    ensures Semop(sems, end) == Some([sems[0] + 1, sems[1] + 1, sems[2]])
  {
    SemopPair(sems, begin);
    SemopPair(sems, end);
    assert sems[1 := sems[1] + 1][0 := sems[0] + 1] == [sems[0] + 1, sems[1] + 1, sems[2]];
    if sems[1] >= 1 && sems[2] >= 1 {
      assert sems[2 := sems[2] - 1][1 := sems[1] - 1] == [sems[0], sems[1] - 1, sems[2] - 1];
    }
  }

  lemma ConsumerTables(sems: seq<nat>, begin: seq<SemBuf>, end: seq<SemBuf>)
    requires |sems| == 3 && begin == CONSUME_BEGIN && end == CONSUME_END
    ensures Semop(sems, begin)
            == if sems[0] >= 1 && sems[1] >= 1 then Some([sems[0] - 1, sems[1] - 1, sems[2]]) else None
    ensures Semop(sems, end) == Some([sems[0], sems[1] + 1, sems[2] + 1])
  {
    SemopPair(sems, begin);
    SemopPair(sems, end);
    assert sems[1 := sems[1] + 1][2 := sems[2] + 1] == [sems[0], sems[1] + 1, sems[2] + 1];
    if sems[1] >= 1 && sems[0] >= 1 {
      assert sems[0 := sems[0] - 1][1 := sems[1] - 1] == [sems[0] - 1, sems[1] - 1, sems[2]];
    }
  }

  lemma SemopTables(sems: seq<nat>)
    requires |sems| == 3
    ensures Semop(sems, PRODUCER_BEGIN)
            == if sems[2] >= 1 && sems[1] >= 1 then Some([sems[0], sems[1] - 1, sems[2] - 1]) else None
    ensures Semop(sems, PRODUCER_END) == Some([sems[0] + 1, sems[1] + 1, sems[2]])
    ensures Semop(sems, CONSUME_BEGIN)
            == if sems[0] >= 1 && sems[1] >= 1 then Some([sems[0] - 1, sems[1] - 1, sems[2]]) else None
    ensures Semop(sems, CONSUME_END) == Some([sems[0], sems[1] + 1, sems[2] + 1])
  {
    ProducerTables(sems, PRODUCER_BEGIN, PRODUCER_END);
    ConsumerTables(sems, CONSUME_BEGIN, CONSUME_END);
  }

  // ---- The invariant of every reachable state ----

  ghost function Ended(p: Proc): nat { p.rounds }
  ghost function Inside(p: Proc): nat { if p.phase == Outside then 0 else 1 }
  ghost function Begun(p: Proc): nat { p.rounds + Inside(p) }
  ghost function Moved(p: Proc): nat { p.rounds + if p.phase.Stored? || p.phase == Shown then 1 else 0 }
  ghost function Printed(p: Proc): nat { p.rounds + if p.phase == Shown then 1 else 0 }

  // What the phases of one side promise about its pointer.
  ghost predicate PointersHeld(procs: seq<Proc>, ptr: nat) {
    forall k | 0 <= k < |procs| ::
      && (procs[k].phase.Loaded? ==> procs[k].phase.at == ptr)
      && (procs[k].phase.Stored? ==> procs[k].phase.at + 1 == ptr)
  }

  ghost predicate RoundsLeft(procs: seq<Proc>, rounds: nat) {
    forall k | 0 <= k < |procs| :: Begun(procs[k]) <= rounds
  }

  ghost predicate PrefixOf(c: Config, log: string, n: nat) {
    |log| == n && forall k | 0 <= k < n :: log[k] == CharAt(c, k)
  }

  // The semaphores count what the phases say.
  ghost predicate SemsCount(c: Config, s: State) {
    && |s.sems| == 3
    && s.sems[1] + Total(s.producers, Inside) + Total(s.consumers, Inside) == 1
    && s.sems[2] + Total(s.producers, Begun) == c.capacity + Total(s.consumers, Ended)
    && s.sems[0] + Total(s.consumers, Begun) == Total(s.producers, Ended)
  }

  ghost predicate Inv(c: Config, s: State) {
    && |s.sems| == 3 && |s.producers| == c.producers && |s.consumers| == c.consumers
    && RoundsLeft(s.producers, c.perProducer) && RoundsLeft(s.consumers, c.perConsumer)
    && SemsCount(c, s)
    && s.pptr == Total(s.producers, Moved) && s.cptr == Total(s.consumers, Moved)
    && PointersHeld(s.producers, s.pptr) && PointersHeld(s.consumers, s.cptr)
    && PrefixOf(c, s.written, Total(s.producers, Printed))
    && PrefixOf(c, s.consumed, Total(s.consumers, Printed))
  }

  lemma InitInv(c: Config)
    ensures Inv(c, Init(c))
  {
    var s := Init(c);
    TotalUniform(s.producers, Inside, 0);
    TotalUniform(s.consumers, Inside, 0);
    TotalUniform(s.producers, Begun, 0);
    TotalUniform(s.consumers, Begun, 0);
    TotalUniform(s.producers, Ended, 0);
    TotalUniform(s.consumers, Ended, 0);
    TotalUniform(s.producers, Moved, 0);
    TotalUniform(s.consumers, Moved, 0);
    TotalUniform(s.producers, Printed, 0);
    TotalUniform(s.consumers, Printed, 0);
  }

  // How replacing one process changes the five sums.
  lemma Replaced(procs: seq<Proc>, k: nat, q: Proc)
    requires k < |procs|
    ensures Total(procs[k := q], Inside) + Inside(procs[k]) == Total(procs, Inside) + Inside(q)
    ensures Total(procs[k := q], Begun) + Begun(procs[k]) == Total(procs, Begun) + Begun(q)
    ensures Total(procs[k := q], Ended) + Ended(procs[k]) == Total(procs, Ended) + Ended(q)
    ensures Total(procs[k := q], Moved) + Moved(procs[k]) == Total(procs, Moved) + Moved(q)
    ensures Total(procs[k := q], Printed) + Printed(procs[k]) == Total(procs, Printed) + Printed(q)
  {
    TotalUpdate(procs, k, q, Inside);
    TotalUpdate(procs, k, q, Begun);
    TotalUpdate(procs, k, q, Ended);
    TotalUpdate(procs, k, q, Moved);
    TotalUpdate(procs, k, q, Printed);
  }

  // When one process of a side is inside and no more than one can be, the others are outside.
  lemma OthersOutside(procs: seq<Proc>, k: nat)
    requires k < |procs| && Inside(procs[k]) == 1 && Total(procs, Inside) <= 1
    ensures forall j | 0 <= j < |procs| && j != k :: procs[j].phase == Outside
  {
    forall j | 0 <= j < |procs| && j != k ensures procs[j].phase == Outside {
      if j < k {
        TotalAtLeastTwo(procs, j, k, Inside);
      } else {
        TotalAtLeastTwo(procs, k, j, Inside);
      }
    }
  }

  // Inside its critical section one process is the only one whose move is not yet printed.
  lemma OnlyOneAhead(procs: seq<Proc>, k: nat)
    requires k < |procs| && procs[k].phase.Stored?
    requires forall j | 0 <= j < |procs| && j != k :: procs[j].phase == Outside
    ensures Total(procs, Moved) == Total(procs, Printed) + 1
  {
    var q := Proc(procs[k].rounds, Outside);
    Replaced(procs, k, q);
    SameMoved(procs[k := q]);
  }

  lemma {:induction false} SameMoved(procs: seq<Proc>)
    requires forall j | 0 <= j < |procs| :: procs[j].phase == Outside
    ensures Total(procs, Moved) == Total(procs, Printed)
  {
    if procs != [] {
      SameMoved(procs[1..]);
    }
  }

  // One side's step seen from its own process list: procs[k] goes from p to q.
  ghost predicate Advance(p: Proc, q: Proc, ptr: nat) {
    match p.phase
    case Outside => q == p.(phase := Entered)
    case Entered => q == p.(phase := Loaded(ptr))
    case Loaded(at) => q == p.(phase := Stored(at))
    case Stored(_) => q == p.(phase := Shown)
    case Shown => q == Proc(p.rounds + 1, Outside)
  }

  // The process that moves alone keeps what the phases promise about the pointer.
  lemma PointersKept(procs: seq<Proc>, k: nat, q: Proc, ptr: nat, ptr': nat)
    requires k < |procs| && Advance(procs[k], q, ptr) && PointersHeld(procs, ptr)
    requires procs[k].phase != Outside ==> forall j | 0 <= j < |procs| && j != k :: procs[j].phase == Outside
    requires ptr' == if procs[k].phase.Loaded? then procs[k].phase.at + 1 else ptr
    ensures PointersHeld(procs[k := q], ptr')
  {
  }

  lemma RoundsKept(procs: seq<Proc>, k: nat, q: Proc, ptr: nat, rounds: nat)
    requires k < |procs| && Advance(procs[k], q, ptr) && RoundsLeft(procs, rounds)
    requires procs[k].phase == Outside ==> procs[k].rounds < rounds
    ensures RoundsLeft(procs[k := q], rounds)
  {
    assert Begun(procs[k]) <= rounds;
  }

  lemma SideStep(c: Config, procs: seq<Proc>, k: nat, q: Proc, ptr: nat, ptr': nat,
                 log: string, log': string, rounds: nat)
    requires k < |procs| && Advance(procs[k], q, ptr) && Total(procs, Inside) <= 1
    requires procs[k].phase == Outside ==> procs[k].rounds < rounds && Total(procs, Inside) == 0
    requires RoundsLeft(procs, rounds) && PointersHeld(procs, ptr) && ptr == Total(procs, Moved)
    requires PrefixOf(c, log, Total(procs, Printed))
    requires ptr' == if procs[k].phase.Loaded? then procs[k].phase.at + 1 else ptr
    requires log' == if procs[k].phase.Stored? then log + [CharAt(c, ptr - 1)] else log
    ensures RoundsLeft(procs[k := q], rounds) && PointersHeld(procs[k := q], ptr')
    ensures ptr' == Total(procs[k := q], Moved)
    ensures PrefixOf(c, log', Total(procs[k := q], Printed))
  {
    Replaced(procs, k, q);
    if procs[k].phase != Outside {
      OthersOutside(procs, k);
      if procs[k].phase.Stored? {
        OnlyOneAhead(procs, k);
      }
    }
    RoundsKept(procs, k, q, ptr, rounds);
    PointersKept(procs, k, q, ptr, ptr');
  }

  // The effect of a step on the semaphores and on the untouched side.
  lemma ProducerEffect(c: Config, s: State, i: nat)
    requires i < |s.producers| && |s.sems| == 3 && ProducerStep(c, s, i).Some?
    ensures var p, s' := s.producers[i], ProducerStep(c, s, i).value;
            && s'.consumers == s.consumers && s'.cptr == s.cptr && s'.consumed == s.consumed
            && |s'.producers| == |s.producers| && s'.producers == s.producers[i := s'.producers[i]]
            && Advance(p, s'.producers[i], s.pptr)
            && s'.pptr == (if p.phase.Loaded? then p.phase.at + 1 else s.pptr)
            && s'.written == (if p.phase.Stored? then s.written + [CharAt(c, s.pptr - 1)] else s.written)
            && |s'.sems| == 3
            && (p.phase == Outside ==> p.rounds < c.perProducer && s.sems[1] >= 1)
            && s'.sems[0] == s.sems[0] + (if p.phase == Shown then 1 else 0)
            && s'.sems[1] == s.sems[1] + (if p.phase == Shown then 1 else if p.phase == Outside then -1 else 0)
            && s'.sems[2] == s.sems[2] - (if p.phase == Outside then 1 else 0)
  {
    SemopTables(s.sems);
  }

  lemma ConsumerEffect(c: Config, s: State, j: nat)
    requires j < |s.consumers| && |s.sems| == 3 && ConsumerStep(c, s, j).Some?
    ensures var p, s' := s.consumers[j], ConsumerStep(c, s, j).value;
            && s'.producers == s.producers && s'.pptr == s.pptr && s'.written == s.written
            && |s'.consumers| == |s.consumers| && s'.consumers == s.consumers[j := s'.consumers[j]]
            && Advance(p, s'.consumers[j], s.cptr)
            && s'.cptr == (if p.phase.Loaded? then p.phase.at + 1 else s.cptr)
            && s'.consumed == (if p.phase.Stored? then s.consumed + [CharAt(c, p.phase.at)] else s.consumed)
            && |s'.sems| == 3
            && (p.phase == Outside ==> p.rounds < c.perConsumer && s.sems[1] >= 1)
            && s'.sems[0] == s.sems[0] - (if p.phase == Outside then 1 else 0)
            && s'.sems[1] == s.sems[1] + (if p.phase == Shown then 1 else if p.phase == Outside then -1 else 0)
            && s'.sems[2] == s.sems[2] + (if p.phase == Shown then 1 else 0)
  {
    SemopTables(s.sems);
  }

  lemma ProducerSems(c: Config, s: State, i: nat)
    requires SemsCount(c, s) && i < |s.producers| && ProducerStep(c, s, i).Some?
    ensures SemsCount(c, ProducerStep(c, s, i).value)
  {
    ProducerEffect(c, s, i);
    Replaced(s.producers, i, ProducerStep(c, s, i).value.producers[i]);
  }

  lemma ConsumerSems(c: Config, s: State, j: nat)
    requires SemsCount(c, s) && j < |s.consumers| && ConsumerStep(c, s, j).Some?
    ensures SemsCount(c, ConsumerStep(c, s, j).value)
  {
    ConsumerEffect(c, s, j);
    Replaced(s.consumers, j, ConsumerStep(c, s, j).value.consumers[j]);
  }

  lemma ProducerStepInv(c: Config, s: State, i: nat)
    requires Inv(c, s) && i < |s.producers| && ProducerStep(c, s, i).Some?
    ensures Inv(c, ProducerStep(c, s, i).value)
  {
    ProducerEffect(c, s, i);
    ProducerSems(c, s, i);
    var s' := ProducerStep(c, s, i).value;
    SideStep(c, s.producers, i, s'.producers[i], s.pptr, s'.pptr, s.written, s'.written, c.perProducer);
  }

  lemma ConsumerStepInv(c: Config, s: State, j: nat)
    requires Inv(c, s) && j < |s.consumers| && ConsumerStep(c, s, j).Some?
    ensures Inv(c, ConsumerStep(c, s, j).value)
  {
    ConsumerEffect(c, s, j);
    ConsumerSems(c, s, j);
    var s' := ConsumerStep(c, s, j).value;
    SideStep(c, s.consumers, j, s'.consumers[j], s.cptr, s'.cptr, s.consumed, s'.consumed, c.perConsumer);
  }

  lemma StepInv(c: Config, s: State, who: Who)
    requires Inv(c, s) && Step(c, s, who).Some?
    ensures Inv(c, Step(c, s, who).value)
  {
    match who
    case Producer(i) => ProducerStepInv(c, s, i);
    case Consumer(j) => ConsumerStepInv(c, s, j);
  }

  lemma ReachableInv(c: Config, s: State)
    requires Reachable(Steps(c), Init(c), s)
    ensures Inv(c, s)
  {
    var inv := (t: State) => Inv(c, t);
    forall t, who | inv(t) && Step(c, t, who).Some? ensures inv(Step(c, t, who).value) {
      StepInv(c, t, who);
    }
    InitInv(c);
    ReachableKeeps(Steps(c), inv, Init(c), s);
  }

  // ---- Safety ----

  // Processes between their begin and end operations.
  ghost function InCritical(s: State): nat {
    Total(s.producers, Inside) + Total(s.consumers, Inside)
  }

  // The items moved into and out of the buffer never differ by more than its
  // capacity, and the pointers stay inside the text.
  lemma Safety(c: Config, s: State)
    requires Reachable(Steps(c), Init(c), s) && c.producers * c.perProducer <= |c.text|
    ensures |s.sems| == 3 && (InCritical(s) == 0 <==> s.sems[1] == 1) && (InCritical(s) == 1 <==> s.sems[1] == 0)
    ensures InCritical(s) <= 1
    ensures s.cptr <= s.pptr <= s.cptr + c.capacity && s.pptr <= |c.text|
    ensures forall p | p in s.consumers && (p.phase.Loaded? || p.phase.Stored?) :: p.phase.at < s.pptr
    ensures s.consumed <= s.written <= c.text
  {
    ReachableInv(c, s);
    TotalMonotone(s.producers, Ended, Printed);
    TotalMonotone(s.producers, Ended, Moved);
    TotalMonotone(s.producers, Printed, Begun);
    TotalMonotone(s.producers, Moved, Begun);
    TotalMonotone(s.consumers, Ended, Moved);
    TotalMonotone(s.consumers, Moved, Begun);
    TotalMonotone(s.consumers, Printed, Begun);
    TotalBound(s.producers, Begun, c.perProducer);
    assert s.written <= c.text;
    forall p | p in s.consumers && (p.phase.Loaded? || p.phase.Stored?)
      ensures p.phase.at < s.pptr
    {
      var k :| 0 <= k < |s.consumers| && s.consumers[k] == p;
      if p.phase.Loaded? {
        LoadedIsBehind(s.consumers, k);
      }
    }
  }

  lemma LoadedIsBehind(procs: seq<Proc>, k: nat)
    requires k < |procs| && procs[k].phase.Loaded?
    ensures Total(procs, Moved) < Total(procs, Begun)
  {
    var q := Proc(procs[k].rounds, Outside);
    Replaced(procs, k, q);
    TotalMonotone(procs[k := q], Moved, Begun);
  }

  // The k-th item consumed is the character the k-th producer step printed.
  lemma ItemsInOrder(c: Config, s: State, k: nat)
    requires Reachable(Steps(c), Init(c), s) && c.producers * c.perProducer <= |c.text| && k < |s.consumed|
    ensures k < |s.written| && k < |c.text| && s.consumed[k] == s.written[k] == c.text[k]
  {
    Safety(c, s);
  }

  // ---- Progress ----

  ghost function Taken(p: Proc): nat {
    5 * p.rounds +
    match p.phase
    case Outside => 0
    case Entered => 1
    case Loaded(_) => 2
    case Stored(_) => 3
    case Shown => 4
  }

  ghost function StepsTaken(s: State): nat {
    Total(s.producers, Taken) + Total(s.consumers, Taken)
  }

  function AllSteps(c: Config): nat {
    c.producers * (5 * c.perProducer) + c.consumers * (5 * c.perConsumer)
  }

  lemma StepTaken(c: Config, s: State, who: Who)
    requires Inv(c, s) && Step(c, s, who).Some?
    ensures StepsTaken(Step(c, s, who).value) == StepsTaken(s) + 1
  {
    var s' := Step(c, s, who).value;
    match who
    case Producer(i) =>
      ProducerEffect(c, s, i);
      TotalUpdate(s.producers, i, s'.producers[i], Taken);
    case Consumer(j) =>
      ConsumerEffect(c, s, j);
      TotalUpdate(s.consumers, j, s'.consumers[j], Taken);
  }

  lemma {:induction false} RunTaken(c: Config, s: State, sched: seq<Who>)
    requires Inv(c, s) && Run(Steps(c), s, sched).Some?
    ensures StepsTaken(Run(Steps(c), s, sched).value) == StepsTaken(s) + |sched|
    decreases |sched|
  {
    if sched != [] {
      StepTaken(c, s, sched[0]);
      StepInv(c, s, sched[0]);
      RunTaken(c, Step(c, s, sched[0]).value, sched[1..]);
    }
  }

  lemma TakenBound(procs: seq<Proc>, rounds: nat)
    requires RoundsLeft(procs, rounds)
    ensures Total(procs, Taken) <= |procs| * (5 * rounds)
    ensures Total(procs, Taken) == |procs| * (5 * rounds) <==> forall p | p in procs :: p == Proc(rounds, Outside)
  {
    forall k | 0 <= k < |procs|
      ensures Taken(procs[k]) <= 5 * rounds
      ensures Taken(procs[k]) == 5 * rounds <==> procs[k] == Proc(rounds, Outside)
    {
      assert Begun(procs[k]) <= rounds;
    }
    TotalBound(procs, Taken, 5 * rounds);
    if forall p | p in procs :: p == Proc(rounds, Outside) {
      assert forall k | 0 <= k < |procs| :: procs[k] in procs;
    }
  }

  // Every run is at most AllSteps long, and is complete exactly when it is that long.
  lemma RunLength(c: Config, sched: seq<Who>)
    requires Run(Steps(c), Init(c), sched).Some?
    ensures |sched| <= AllSteps(c)
    ensures AllDone(c, Run(Steps(c), Init(c), sched).value) <==> |sched| == AllSteps(c)
  {
    var s := Run(Steps(c), Init(c), sched).value;
    InitInv(c);
    assert Reachable(Steps(c), Init(c), Run(Steps(c), Init(c), sched).value);
    ReachableInv(c, Run(Steps(c), Init(c), sched).value);
    RunTaken(c, Init(c), sched);
    TotalUniform(Init(c).producers, Taken, 0);
    TotalUniform(Init(c).consumers, Taken, 0);
    TakenBound(s.producers, c.perProducer);
    TakenBound(s.consumers, c.perConsumer);
  }

  // The condition on the parameters under which the program cannot hang.
  predicate Balanced(c: Config) {
    var made, used := c.producers * c.perProducer, c.consumers * c.perConsumer;
    used <= made <= used + c.capacity && (c.capacity >= 1 || made == 0)
  }

  // A process inside its critical section can always move.
  lemma InsideMoves(c: Config, s: State)
    requires Inv(c, s) && InCritical(s) > 0
    ensures exists who :: Step(c, s, who).Some?
  {
    SemopTables(s.sems);
    if Total(s.producers, Inside) > 0 {
      var i := TotalPositive(s.producers, Inside);
      assert Step(c, s, Producer(i)).Some?;
    } else {
      var j := TotalPositive(s.consumers, Inside);
      assert Step(c, s, Consumer(j)).Some?;
    }
  }

  lemma Unfinished(procs: seq<Proc>, rounds: nat) returns (k: nat)
    requires RoundsLeft(procs, rounds) && Total(procs, Inside) == 0 && Total(procs, Ended) < |procs| * rounds
    ensures k < |procs| && procs[k].phase == Outside && procs[k].rounds < rounds
  {
    TotalBound(procs, Ended, rounds);
    k :| 0 <= k < |procs| && Ended(procs[k]) != rounds;
    TotalAtLeast(procs, k, Inside);
    assert Begun(procs[k]) <= rounds;
  }

  lemma Finished(procs: seq<Proc>, rounds: nat)
    requires RoundsLeft(procs, rounds) && Total(procs, Inside) == 0 && Total(procs, Ended) == |procs| * rounds
    ensures forall p | p in procs :: p == Proc(rounds, Outside)
  {
    TotalBound(procs, Ended, rounds);
    forall p | p in procs ensures p == Proc(rounds, Outside) {
      var k :| 0 <= k < |procs| && procs[k] == p;
      TotalAtLeast(procs, k, Inside);
      assert Ended(procs[k]) == rounds;
    }
  }

  // Between rounds either side finds its semaphore positive, unless both have finished.
  lemma SomeSideMoves(made: nat, allMade: nat, used: nat, allUsed: nat, capacity: nat, filled: int, free: int)
    requires made <= allMade && used <= allUsed && filled == made - used >= 0 && free == capacity - (made - used) >= 0
    requires allUsed <= allMade <= allUsed + capacity && (capacity >= 1 || allMade == 0)
    ensures (made < allMade && free >= 1) || (used < allUsed && filled >= 1) || (made == allMade && used == allUsed)
  {
  }

  lemma OutsideCounts(c: Config, s: State)
    requires Inv(c, s) && Balanced(c) && InCritical(s) == 0
    ensures var made, used := Total(s.producers, Ended), Total(s.consumers, Ended);
            var allMade, allUsed := c.producers * c.perProducer, c.consumers * c.perConsumer;
            || (made < allMade && s.sems[2] >= 1) || (used < allUsed && s.sems[0] >= 1)
            || (made == allMade && used == allUsed)
  {
    TotalSum(s.producers, Ended, Inside, Begun);
    TotalSum(s.consumers, Ended, Inside, Begun);
    TotalBound(s.producers, Ended, c.perProducer);
    TotalBound(s.consumers, Ended, c.perConsumer);
    SomeSideMoves(Total(s.producers, Ended), c.producers * c.perProducer,
                  Total(s.consumers, Ended), c.consumers * c.perConsumer, c.capacity, s.sems[0], s.sems[2]);
  }

  lemma OutsideMoves(c: Config, s: State)
    requires Inv(c, s) && Balanced(c) && !AllDone(c, s) && InCritical(s) == 0
    ensures exists who :: Step(c, s, who).Some?
  {
    OutsideCounts(c, s);
    SemopTables(s.sems);
    if Total(s.producers, Ended) < c.producers * c.perProducer && s.sems[2] >= 1 {
      var i := Unfinished(s.producers, c.perProducer);
      assert Step(c, s, Producer(i)).Some?;
    } else if Total(s.consumers, Ended) < c.consumers * c.perConsumer && s.sems[0] >= 1 {
      var j := Unfinished(s.consumers, c.perConsumer);
      assert Step(c, s, Consumer(j)).Some?;
    } else {
      Finished(s.producers, c.perProducer);
      Finished(s.consumers, c.perConsumer);
    }
  }

  lemma NotStuck(c: Config, s: State)
    requires Inv(c, s) && Balanced(c) && !AllDone(c, s)
    ensures exists who :: Step(c, s, who).Some?
  {
    if InCritical(s) > 0 {
      InsideMoves(c, s);
    } else {
      OutsideMoves(c, s);
    }
  }

  // Every reachable state is on the way to one in which nobody can move.
  lemma MaximalRun(c: Config, s: State) returns (s': State)
    requires Reachable(Steps(c), Init(c), s)
    ensures Reachable(Steps(c), Init(c), s') && Stuck(c, s')
    decreases AllSteps(c) - StepsTaken(s)
  {
    if Stuck(c, s) {
      s' := s;
    } else {
      var who :| Step(c, s, who) != None;
      ReachableInv(c, s);
      ReachableStep(Steps(c), Init(c), s, who);
      StepTaken(c, s, who);
      var next := Step(c, s, who).value;
      ReachableInv(c, next);
      TakenBound(next.producers, c.perProducer);
      TakenBound(next.consumers, c.perConsumer);
      s' := MaximalRun(c, next);
    }
  }

  // What a completed run leaves behind.
  lemma FinalState(c: Config, s: State)
    requires Inv(c, s) && AllDone(c, s)
    ensures c.consumers * c.perConsumer <= c.producers * c.perProducer <= c.consumers * c.perConsumer + c.capacity
    ensures var left := c.producers * c.perProducer - c.consumers * c.perConsumer;
            && s.sems == [left, 1, c.capacity - left]
            && s.pptr == |s.written| == c.producers * c.perProducer
            && s.cptr == |s.consumed| == c.consumers * c.perConsumer
  {
    assert forall k | 0 <= k < |s.producers| :: s.producers[k] in s.producers;
    assert forall k | 0 <= k < |s.consumers| :: s.consumers[k] in s.consumers;
    TotalUniform(s.producers, Inside, 0);
    TotalUniform(s.consumers, Inside, 0);
    TotalUniform(s.producers, Begun, c.perProducer);
    TotalUniform(s.consumers, Begun, c.perConsumer);
    TotalUniform(s.producers, Ended, c.perProducer);
    TotalUniform(s.consumers, Ended, c.perConsumer);
    TotalUniform(s.producers, Moved, c.perProducer);
    TotalUniform(s.consumers, Moved, c.perConsumer);
    TotalUniform(s.producers, Printed, c.perProducer);
    TotalUniform(s.consumers, Printed, c.perConsumer);
  }

  // The program can hang if and only if its parameters are not balanced.
  lemma CompletesIffBalanced(c: Config)
    ensures (forall s | Reachable(Steps(c), Init(c), s) && Stuck(c, s) :: AllDone(c, s)) <==> Balanced(c)
  {
    if Balanced(c) {
      forall s | Reachable(Steps(c), Init(c), s) && Stuck(c, s) ensures AllDone(c, s) {
        ReachableInv(c, s);
        if !AllDone(c, s) {
          NotStuck(c, s);
        }
      }
    }
    if forall s | Reachable(Steps(c), Init(c), s) && Stuck(c, s) :: AllDone(c, s) {
      var start := Init(c);
      assert Run(Steps(c), start, []) == Some(start);
      var end := MaximalRun(c, start);
      ReachableInv(c, end);
      FinalState(c, end);
      if c.capacity == 0 {
        NothingMoves(c);
        NothingMade(c);
      }
    }
  }

  lemma NothingMade(c: Config)
    requires AllDone(c, Init(c))
    ensures c.producers * c.perProducer == 0
  {
    if c.producers > 0 {
      assert Init(c).producers[0] in Init(c).producers;
    }
  }

  lemma NothingMoves(c: Config)
    requires c.capacity == 0
    ensures Stuck(c, Init(c))
  {
    SemopTables(Init(c).sems);
  }

  lemma BalancedEnd(c: Config, s: State)
    requires Reachable(Steps(c), Init(c), s) && AllDone(c, s)
    requires c.producers * c.perProducer == c.consumers * c.perConsumer <= |c.text|
    ensures var n := c.producers * c.perProducer;
            && s.sems == [0, 1, c.capacity] && s.pptr == s.cptr == n
            && s.written == s.consumed == c.text[..n]
  {
    ReachableInv(c, s);
    FinalState(c, s);
    Safety(c, s);
  }

  lemma BalancedRun(c: Config, sched: seq<Who>)
    requires Run(Steps(c), Init(c), sched).Some? && Stuck(c, Run(Steps(c), Init(c), sched).value)
    requires c.producers * c.perProducer == c.consumers * c.perConsumer <= |c.text| && c.capacity >= 1
    ensures var s, n := Run(Steps(c), Init(c), sched).value, c.producers * c.perProducer;
            && AllDone(c, s) && |sched| == AllSteps(c)
            && s.sems == [0, 1, c.capacity] && s.pptr == s.cptr == n
            && s.written == s.consumed == c.text[..n]
  {
    var s := Run(Steps(c), Init(c), sched).value;
    assert Reachable(Steps(c), Init(c), s);
    CompletesIffBalanced(c);
    RunLength(c, sched);
    BalancedEnd(c, s);
  }

  // The program as written: every maximal run prints the first 24 letters on both
  // sides, takes 240 steps and leaves the semaphores as they were.
  lemma SourceProgram(c: Config, sched: seq<Who>)
    requires c == SOURCE && Run(Steps(c), Init(c), sched).Some? && Stuck(c, Run(Steps(c), Init(c), sched).value)
    ensures var s := Run(Steps(c), Init(c), sched).value;
            && AllDone(c, s) && |sched| == 240
            && s.sems == [0, 1, 5] && s.pptr == s.cptr == 24
            && s.written == s.consumed == c.text[..24]
  {
    assert |c.text| == 52;
    BalancedRun(c, sched);
  }

  // ---- Which interleavings occur ----

  // In every reachable state a process is kept from moving only by the semaphores, and only
  // between rounds: a producer by a full buffer or by a process in its critical section, a
  // consumer by an empty buffer or by such a process.
  lemma CanMove(c: Config, s: State, who: Who)
    requires Reachable(Steps(c), Init(c), s)
    ensures |s.producers| == c.producers && |s.consumers| == c.consumers
    ensures Step(c, s, who).Some? <==>
            match who
            case Producer(i) =>
              i < c.producers
              && (s.producers[i].phase == Outside ==>
                    s.producers[i].rounds < c.perProducer && InCritical(s) == 0
                    && Total(s.producers, Begun) < c.capacity + Total(s.consumers, Ended))
            case Consumer(j) =>
              j < c.consumers
              && (s.consumers[j].phase == Outside ==>
                    s.consumers[j].rounds < c.perConsumer && InCritical(s) == 0
                    && Total(s.consumers, Begun) < Total(s.producers, Ended))
  {
    ReachableInv(c, s);
    SemopTables(s.sems);
  }

  // The rounds of the producers in an order of rounds.
  ghost function Made(order: seq<Who>): nat {
    if order == [] then 0 else Made(order[..|order| - 1]) + if order[|order| - 1].Producer? then 1 else 0
  }

  ghost function Used(order: seq<Who>): nat {
    if order == [] then 0 else Used(order[..|order| - 1]) + if order[|order| - 1].Consumer? then 1 else 0
  }

  // A round can follow the rounds before it: the process has one left, and the buffer has room or an item.
  ghost predicate Allowed(c: Config, before: seq<Who>, who: Who) {
    match who
    case Producer(i) =>
      i < c.producers && multiset(before)[who] < c.perProducer && Made(before) < Used(before) + c.capacity
    case Consumer(j) =>
      j < c.consumers && multiset(before)[who] < c.perConsumer && Used(before) < Made(before)
  }

  ghost function Allows(c: Config): (seq<Who>, Who) -> bool {
    (before: seq<Who>, who: Who) => Allowed(c, before, who)
  }

  ghost predicate Feasible(c: Config, order: seq<Who>) { Follows(Allows(c), order) }

  lemma Snoc(order: seq<Who>, who: Who)
    ensures Made(order + [who]) == Made(order) + if who.Producer? then 1 else 0
    ensures Used(order + [who]) == Used(order) + if who.Consumer? then 1 else 0
  {
    assert (order + [who])[..|order|] == order;
  }

  // The state between rounds, after the rounds of an order.
  ghost predicate Between(c: Config, s: State, order: seq<Who>) {
    && |s.producers| == c.producers && |s.consumers| == c.consumers
    && (forall i | 0 <= i < c.producers :: s.producers[i] == Proc(multiset(order)[Producer(i)], Outside))
    && (forall j | 0 <= j < c.consumers :: s.consumers[j] == Proc(multiset(order)[Consumer(j)], Outside))
    && Used(order) <= Made(order) <= Used(order) + c.capacity
    && s.sems == [Made(order) - Used(order), 1, c.capacity - (Made(order) - Used(order))]
  }

  // The steps of a round, those of a producer and those of a consumer alike.
  const ROUND: nat := 5

  ghost function RoundLength(who: Who): nat { ROUND }

  // A producer alone, n steps before the end of the round it began in a state.
  ghost predicate MidProduction(s: State, s': State, i: nat, n: nat)
    requires i < |s.producers| && |s.sems| == 3 && s.sems[2] >= 1
  {
    && n <= ROUND && |s'.producers| == |s.producers|
    && s'.consumers == s.consumers && s'.producers == s.producers[i := s'.producers[i]]
    && (n == 5 ==> s' == s)
    && (1 <= n <= 4 ==> s'.sems == [s.sems[0], 0, s.sems[2] - 1]
                        && s'.producers[i].rounds == s.producers[i].rounds)
    && (n == 4 ==> s'.producers[i].phase == Entered)
    && (n == 3 ==> s'.producers[i].phase.Loaded?)
    && (n == 2 ==> s'.producers[i].phase.Stored?)
    && (n == 1 ==> s'.producers[i].phase == Shown)
    && (n == 0 ==> s'.sems == [s.sems[0] + 1, 1, s.sems[2] - 1]
                   && s'.producers[i] == Proc(s.producers[i].rounds + 1, Outside))
  }

  lemma {:induction false} ProducerMoves(c: Config, s: State, s': State, i: nat, n: nat)
    requires i < |s.producers| && |s.sems| == 3 && s.sems[1] == 1 && s.sems[2] >= 1
    requires s.producers[i].phase == Outside && s.producers[i].rounds < c.perProducer
    requires n > 0 && MidProduction(s, s', i, n)
    ensures var r := Step(c, s', Producer(i));
            r.Some? && MidProduction(s, r.value, i, n - 1)
  {
    SemopTables(s'.sems);
  }

  // A whole round of a producer, begun between rounds.
  lemma {:induction false} ProducerRound(c: Config, s: State, i: nat) returns (s': State)
    requires i < |s.producers| && |s.sems| == 3 && s.sems[1] == 1 && s.sems[2] >= 1
    requires s.producers[i].phase == Outside && s.producers[i].rounds < c.perProducer
    ensures Run(Steps(c), s, Repeat(Producer(i), ROUND)) == Some(s')
    ensures s'.sems == [s.sems[0] + 1, 1, s.sems[2] - 1] && s'.consumers == s.consumers
    ensures s'.producers == s.producers[i := Proc(s.producers[i].rounds + 1, Outside)]
  {
    var who := Producer(i);
    s' := s;
    ghost var n: nat := ROUND;
    while n > 0
      invariant n <= ROUND && MidProduction(s, s', i, n)
      invariant Run(Steps(c), s, Repeat(who, ROUND)) == Run(Steps(c), s', Repeat(who, n))
    {
      RunRepeat(Steps(c), s', who, n);
      ProducerMoves(c, s, s', i, n);
      s' := Step(c, s', who).value;
      n := n - 1;
    }
  }

  // A consumer alone, n steps before the end of the round it began in a state.
  ghost predicate MidConsumption(s: State, s': State, j: nat, n: nat)
    requires j < |s.consumers| && |s.sems| == 3 && s.sems[0] >= 1
  {
    && n <= ROUND && |s'.consumers| == |s.consumers|
    && s'.producers == s.producers && s'.consumers == s.consumers[j := s'.consumers[j]]
    && (n == 5 ==> s' == s)
    && (1 <= n <= 4 ==> s'.sems == [s.sems[0] - 1, 0, s.sems[2]]
                        && s'.consumers[j].rounds == s.consumers[j].rounds)
    && (n == 4 ==> s'.consumers[j].phase == Entered)
    && (n == 3 ==> s'.consumers[j].phase.Loaded?)
    && (n == 2 ==> s'.consumers[j].phase.Stored?)
    && (n == 1 ==> s'.consumers[j].phase == Shown)
    && (n == 0 ==> s'.sems == [s.sems[0] - 1, 1, s.sems[2] + 1]
                   && s'.consumers[j] == Proc(s.consumers[j].rounds + 1, Outside))
  }

  lemma {:induction false} ConsumerMoves(c: Config, s: State, s': State, j: nat, n: nat)
    requires j < |s.consumers| && |s.sems| == 3 && s.sems[1] == 1 && s.sems[0] >= 1
    requires s.consumers[j].phase == Outside && s.consumers[j].rounds < c.perConsumer
    requires n > 0 && MidConsumption(s, s', j, n)
    ensures var r := Step(c, s', Consumer(j));
            r.Some? && MidConsumption(s, r.value, j, n - 1)
  {
    SemopTables(s'.sems);
  }

  // A whole round of a consumer, begun between rounds.
  lemma {:induction false} ConsumerRound(c: Config, s: State, j: nat) returns (s': State)
    requires j < |s.consumers| && |s.sems| == 3 && s.sems[1] == 1 && s.sems[0] >= 1
    requires s.consumers[j].phase == Outside && s.consumers[j].rounds < c.perConsumer
    ensures Run(Steps(c), s, Repeat(Consumer(j), ROUND)) == Some(s')
    ensures s'.sems == [s.sems[0] - 1, 1, s.sems[2] + 1] && s'.producers == s.producers
    ensures s'.consumers == s.consumers[j := Proc(s.consumers[j].rounds + 1, Outside)]
  {
    var who := Consumer(j);
    s' := s;
    ghost var n: nat := ROUND;
    while n > 0
      invariant n <= ROUND && MidConsumption(s, s', j, n)
      invariant Run(Steps(c), s, Repeat(who, ROUND)) == Run(Steps(c), s', Repeat(who, n))
    {
      RunRepeat(Steps(c), s', who, n);
      ConsumerMoves(c, s, s', j, n);
      s' := Step(c, s', who).value;
      n := n - 1;
    }
  }

  lemma {:induction false} NextProduction(c: Config, s: State, order: seq<Who>, i: nat)
    requires Between(c, s, order) && Allowed(c, order, Producer(i))
    ensures var r := Run(Steps(c), s, Repeat(Producer(i), ROUND));
            r.Some? && Between(c, r.value, order + [Producer(i)])
  {
    Snoc(order, Producer(i));
    var s' := ProducerRound(c, s, i);
  }

  lemma {:induction false} NextConsumption(c: Config, s: State, order: seq<Who>, j: nat)
    requires Between(c, s, order) && Allowed(c, order, Consumer(j))
    ensures var r := Run(Steps(c), s, Repeat(Consumer(j), ROUND));
            r.Some? && Between(c, r.value, order + [Consumer(j)])
  {
    Snoc(order, Consumer(j));
    var s' := ConsumerRound(c, s, j);
  }

  lemma {:induction false} NotAllowed(c: Config, s: State, order: seq<Who>, who: Who)
    requires Between(c, s, order) && !Allowed(c, order, who)
    ensures Run(Steps(c), s, Repeat(who, ROUND)) == None
  {
    SemopTables(s.sems);
    RunRepeat(Steps(c), s, who, ROUND);
  }

  // One more round: it runs exactly when it is allowed.
  lemma {:induction false} NextRound(c: Config, s: State, order: seq<Who>, who: Who)
    requires Between(c, s, order)
    ensures var r := Run(Steps(c), s, Repeat(who, ROUND));
            && (r.Some? <==> Allowed(c, order, who))
            && (r.Some? ==> Between(c, r.value, order + [who]))
  {
    if Allowed(c, order, who) {
      match who {
        case Producer(i) => NextProduction(c, s, order, i);
        case Consumer(j) => NextConsumption(c, s, order, j);
      }
    } else {
      NotAllowed(c, s, order, who);
    }
  }

  lemma StartBetween(c: Config)
    ensures Between(c, Init(c), [])
  {
  }

  ghost function Betweens(c: Config): (State, seq<Who>) -> bool {
    (s: State, order: seq<Who>) => Between(c, s, order)
  }

  lemma {:induction false} EachRound(c: Config)
    ensures RoundByRound(Steps(c), RoundLength, Allows(c), Betweens(c))
  {
    forall s, order, who | Betweens(c)(s, order)
      ensures var r := Run(Steps(c), s, Repeat(who, RoundLength(who)));
              (r.Some? <==> Allows(c)(order, who)) && (r.Some? ==> Betweens(c)(r.value, order + [who]))
    {
      NextRound(c, s, order, who);
    }
  }

  // Rounds can be run one after the other, in a given order, if and only if every process
  // has that many rounds and the items in the buffer always number from 0 to its capacity.
  lemma {:induction false} OrderIff(c: Config, order: seq<Who>)
    ensures var r := Run(Steps(c), Init(c), Rounds(order, RoundLength));
            && (r.Some? <==> Feasible(c, order))
            && (r.Some? ==> Between(c, r.value, order))
  {
    EachRound(c);
    StartBetween(c);
    OrderRuns(Steps(c), Init(c), RoundLength, Allows(c), Betweens(c), order);
  }

  // The producers of an order, and its consumers.
  ghost function Producing(order: seq<Who>): seq<nat> {
    if order == [] then []
    else
      var before, last := Producing(order[..|order| - 1]), order[|order| - 1];
      if last.Producer? then before + [last.i] else before
  }

  ghost function Consuming(order: seq<Who>): seq<nat> {
    if order == [] then []
    else
      var before, last := Consuming(order[..|order| - 1]), order[|order| - 1];
      if last.Consumer? then before + [last.j] else before
  }

  lemma {:induction false} SidesSnoc(order: seq<Who>, who: Who)
    ensures Producing(order + [who]) == if who.Producer? then Producing(order) + [who.i] else Producing(order)
    ensures Consuming(order + [who]) == if who.Consumer? then Consuming(order) + [who.j] else Consuming(order)
  {
    assert (order + [who])[..|order|] == order;
  }

  // Every process occurs in an order as often as in the sequence of its side.
  lemma {:induction false} OccursSnoc(order: seq<Who>, last: Who, i: nat)
    requires multiset(order)[Producer(i)] == multiset(Producing(order))[i]
    requires multiset(order)[Consumer(i)] == multiset(Consuming(order))[i]
    ensures multiset(order + [last])[Producer(i)] == multiset(Producing(order + [last]))[i]
    ensures multiset(order + [last])[Consumer(i)] == multiset(Consuming(order + [last]))[i]
  {
    SidesSnoc(order, last);
  }

  lemma {:induction false} Occurrences(order: seq<Who>, i: nat)
    ensures multiset(order)[Producer(i)] == multiset(Producing(order))[i]
    ensures multiset(order)[Consumer(i)] == multiset(Consuming(order))[i]
  {
    if order != [] {
      var before, last := order[..|order| - 1], order[|order| - 1];
      Occurrences(before, i);
      OccursSnoc(before, last, i);
      assert order == before + [last];
    }
  }

  lemma {:induction false} SideLengths(order: seq<Who>)
    ensures Made(order) == |Producing(order)| && Used(order) == |Consuming(order)|
    ensures |order| == Made(order) + Used(order)
  {
    if order != [] {
      SideLengths(order[..|order| - 1]);
    }
  }

  // A feasible order made up of these productions and consumptions.
  ghost predicate Progress(c: Config, order: seq<Who>, made: seq<nat>, used: seq<nat>) {
    Feasible(c, order) && Producing(order) == made && Consuming(order) == used
  }

  lemma {:induction false} MayProduce(c: Config, order: seq<Who>, made: seq<nat>, used: seq<nat>, i: nat)
    requires Progress(c, order, made, used) && |made| < |used| + c.capacity
    requires i < c.producers && multiset(made)[i] < c.perProducer
    ensures Allows(c)(order, Producer(i))
  {
    Occurrences(order, i);
    SideLengths(order);
  }

  lemma {:induction false} MayConsume(c: Config, order: seq<Who>, made: seq<nat>, used: seq<nat>, j: nat)
    requires Progress(c, order, made, used) && |used| < |made|
    requires j < c.consumers && multiset(used)[j] < c.perConsumer
    ensures Allows(c)(order, Consumer(j))
  {
    Occurrences(order, j);
    SideLengths(order);
  }

  lemma {:induction false} Produce(c: Config, order: seq<Who>, made: seq<nat>, used: seq<nat>, i: nat)
    requires Progress(c, order, made, used) && |made| < |used| + c.capacity
    requires i < c.producers && multiset(made)[i] < c.perProducer
    ensures Progress(c, order + [Producer(i)], made + [i], used)
  {
    MayProduce(c, order, made, used, i);
    SidesSnoc(order, Producer(i));
    FollowsSnoc(Allows(c), order, Producer(i));
  }

  lemma {:induction false} Consume(c: Config, order: seq<Who>, made: seq<nat>, used: seq<nat>, j: nat)
    requires Progress(c, order, made, used) && |used| < |made|
    requires j < c.consumers && multiset(used)[j] < c.perConsumer
    ensures Progress(c, order + [Consumer(j)], made, used + [j])
  {
    MayConsume(c, order, made, used, j);
    SidesSnoc(order, Consumer(j));
    FollowsSnoc(Allows(c), order, Consumer(j));
  }

  // Every process of a list exists and occurs in it at most as often as it has rounds.
  ghost predicate Listed(list: seq<nat>, processes: nat, rounds: nat) {
    forall i | i in list :: i < processes && multiset(list)[i] <= rounds
  }

  // So the next process of the list has a round left.
  lemma {:induction false} NextInList(list: seq<nat>, processes: nat, rounds: nat, k: nat)
    requires Listed(list, processes, rounds) && k < |list|
    ensures list[k] < processes && multiset(list[..k])[list[k]] < rounds && list[..k] + [list[k]] == list[..k + 1]
  {
    assert list == list[..k] + [list[k]] + list[k + 1..];
    assert multiset(list)[list[k]] >= multiset(list[..k])[list[k]] + 1;
  }

  lemma {:induction false} ProduceNext(c: Config, order: seq<Who>, prods: seq<nat>, used: seq<nat>, k: nat)
    requires Listed(prods, c.producers, c.perProducer) && 1 <= k <= |prods| && k <= |used| + c.capacity
    requires Progress(c, order, prods[..k - 1], used)
    ensures Progress(c, order + [Producer(prods[k - 1])], prods[..k], used)
  {
    NextInList(prods, c.producers, c.perProducer, k - 1);
    Produce(c, order, prods[..k - 1], used, prods[k - 1]);
  }

  lemma {:induction false} ConsumeNext(c: Config, order: seq<Who>, made: seq<nat>, cons: seq<nat>, k: nat)
    requires Listed(cons, c.consumers, c.perConsumer) && 1 <= k <= |cons| && k <= |made|
    requires Progress(c, order, made, cons[..k - 1])
    ensures Progress(c, order + [Consumer(cons[k - 1])], made, cons[..k])
  {
    NextInList(cons, c.consumers, c.perConsumer, k - 1);
    Consume(c, order, made, cons[..k - 1], cons[k - 1]);
  }

  lemma {:induction false} NoProgress(c: Config)
    ensures Progress(c, [], [], [])
  {
  }

  // Productions and consumptions in turn.
  lemma {:induction false} InTurn(c: Config, prods: seq<nat>, cons: seq<nat>, k: nat) returns (order: seq<Who>)
    requires Listed(prods, c.producers, c.perProducer) && Listed(cons, c.consumers, c.perConsumer)
    requires k <= |cons| <= |prods| && c.capacity >= 1
    ensures Progress(c, order, prods[..k], cons[..k])
    decreases k
  {
    if k == 0 {
      NoProgress(c);
      order := [];
    } else {
      var before := InTurn(c, prods, cons, k - 1);
      ProduceNext(c, before, prods, cons[..k - 1], k);
      ConsumeNext(c, before + [Producer(prods[k - 1])], prods[..k], cons, k);
      order := before + [Producer(prods[k - 1])] + [Consumer(cons[k - 1])];
    }
  }

  lemma {:induction false} AllTurns(c: Config, prods: seq<nat>, cons: seq<nat>) returns (order: seq<Who>)
    requires Listed(prods, c.producers, c.perProducer) && Listed(cons, c.consumers, c.perConsumer)
    requires |cons| <= |prods| && c.capacity >= 1
    ensures Progress(c, order, prods[..|cons|], cons)
  {
    order := InTurn(c, prods, cons, |cons|);
    assert cons[..|cons|] == cons;
  }

  // And then the productions that are left.
  lemma {:induction false} Leftover(c: Config, prods: seq<nat>, cons: seq<nat>, k: nat) returns (order: seq<Who>)
    requires Listed(prods, c.producers, c.perProducer) && Listed(cons, c.consumers, c.perConsumer)
    requires |cons| <= k <= |prods| <= |cons| + c.capacity && c.capacity >= 1
    ensures Progress(c, order, prods[..k], cons)
    decreases k
  {
    if k == |cons| {
      order := AllTurns(c, prods, cons);
    } else {
      var before := Leftover(c, prods, cons, k - 1);
      ProduceNext(c, before, prods, cons, k);
      order := before + [Producer(prods[k - 1])];
    }
  }

  // Every order of the productions and every order of the consumptions is that of a complete
  // run: nobody is kept waiting for anybody in particular.
  lemma {:induction false} EveryOrder(c: Config, prods: seq<nat>, cons: seq<nat>) returns (order: seq<Who>)
    requires Balanced(c)
    requires Listed(prods, c.producers, c.perProducer) && Listed(cons, c.consumers, c.perConsumer)
    requires |prods| == c.producers * c.perProducer && |cons| == c.consumers * c.perConsumer
    ensures Producing(order) == prods && Consuming(order) == cons
    ensures var r := Run(Steps(c), Init(c), Rounds(order, RoundLength)); r.Some? && AllDone(c, r.value)
  {
    if c.capacity == 0 {
      order := [];
      NoProgress(c);
      assert prods == cons == [];
    } else {
      order := Leftover(c, prods, cons, |prods|);
      assert prods[..|prods|] == prods;
    }
    SideLengths(order);
    CompleteOrder(c, order);
  }

  lemma {:induction false} CompleteOrder(c: Config, order: seq<Who>)
    requires Feasible(c, order) && |order| == c.producers * c.perProducer + c.consumers * c.perConsumer
    ensures var r := Run(Steps(c), Init(c), Rounds(order, RoundLength)); r.Some? && AllDone(c, r.value)
  {
    OrderIff(c, order);
    RoundsLength(order, RoundLength, ROUND);
    CompleteLength(c.producers, c.perProducer, c.consumers, c.perConsumer);
    RunLength(c, Rounds(order, RoundLength));
  }

  lemma CompleteLength(p: nat, a: nat, q: nat, b: nat)
    ensures 5 * (p * a + q * b) == p * (5 * a) + q * (5 * b)
  {
  }

  // ---- The same program updating shared memory in place ----

  class Machine {
    const c: Config
    const semaphores: SemaphoreSet
    var pptr: nat
    var cptr: nat
    var producers: seq<Proc>
    var consumers: seq<Proc>
    var written: string
    var consumed: string

    function Abs(): State
      reads this, semaphores
    {
      State(semaphores.values, pptr, cptr, producers, consumers, written, consumed)
    }

    constructor (c: Config)
      ensures this.c == c && fresh(semaphores) && Abs() == Init(c)
    {
      this.c := c;
      semaphores := new SemaphoreSet([0, 1, c.capacity]);
      pptr, cptr := 0, 0;
      producers := seq(c.producers, _ => Proc(0, Outside));
      consumers := seq(c.consumers, _ => Proc(0, Outside));
      written, consumed := "", "";
    }

    // One step of producer_work() by producer i.
    method AdvanceProducer(i: nat) returns (ok: bool)
      requires i < |producers| && |semaphores.values| == 3
      modifies this, semaphores
      ensures ok <==> ProducerStep(c, old(Abs()), i).Some?
      ensures Abs() == if ok then ProducerStep(c, old(Abs()), i).value else old(Abs())
    {
      var p := producers[i];
      ok := true;
      match p.phase
      case Outside =>
        ok := p.rounds < c.perProducer;
        if ok {
          ok := semaphores.Operate(PRODUCER_BEGIN);
          if ok {
            producers := producers[i := p.(phase := Entered)];
          }
        }
      case Entered =>
        producers := producers[i := p.(phase := Loaded(pptr))];
      case Loaded(at) =>
        pptr := at + 1;
        producers := producers[i := p.(phase := Stored(at))];
      case Stored(_) =>
        written := written + [CharAt(c, pptr - 1)];
        producers := producers[i := p.(phase := Shown)];
      case Shown =>
        ok := semaphores.Operate(PRODUCER_END);
        if ok {
          producers := producers[i := Proc(p.rounds + 1, Outside)];
        }
    }

    // One step of consumer_work() by consumer j.
    method AdvanceConsumer(j: nat) returns (ok: bool)
      requires j < |consumers| && |semaphores.values| == 3
      modifies this, semaphores
      ensures ok <==> ConsumerStep(c, old(Abs()), j).Some?
      ensures Abs() == if ok then ConsumerStep(c, old(Abs()), j).value else old(Abs())
    {
      var p := consumers[j];
      ok := true;
      match p.phase
      case Outside =>
        ok := p.rounds < c.perConsumer;
        if ok {
          ok := semaphores.Operate(CONSUME_BEGIN);
          if ok {
            consumers := consumers[j := p.(phase := Entered)];
          }
        }
      case Entered =>
        consumers := consumers[j := p.(phase := Loaded(cptr))];
      case Loaded(at) =>
        cptr := at + 1;
        consumers := consumers[j := p.(phase := Stored(at))];
      case Stored(at) =>
        consumed := consumed + [CharAt(c, at)];
        consumers := consumers[j := p.(phase := Shown)];
      case Shown =>
        ok := semaphores.Operate(CONSUME_END);
        if ok {
          consumers := consumers[j := Proc(p.rounds + 1, Outside)];
        }
    }

    // The scheduler gives one step to a process that can move.
    method Advance(who: Who)
      requires Reachable(Steps(c), Init(c), Abs()) && Step(c, Abs(), who).Some?
      modifies this, semaphores
      ensures Abs() == Step(c, old(Abs()), who).value && Reachable(Steps(c), Init(c), Abs())
      ensures StepsTaken(Abs()) == StepsTaken(old(Abs())) + 1 <= AllSteps(c)
    {
      ghost var before := Abs();
      ReachableInv(c, before);
      StepTaken(c, before, who);
      ReachableStep(Steps(c), Init(c), before, who);
      match who {
        case Producer(i) => var _ := AdvanceProducer(i);
        case Consumer(j) => var _ := AdvanceConsumer(j);
      }
      ReachableTaken(c, Abs());
    }

    // main() after the forks: an arbitrary scheduler runs whoever can move until
    // nobody can, which happens only when all processes have exited.
    method RunAll()
      requires Abs() == Init(c) && Balanced(c)
      modifies this, semaphores
      ensures Reachable(Steps(c), Init(c), Abs()) && AllDone(c, Abs())
      ensures pptr == c.producers * c.perProducer && cptr == c.consumers * c.perConsumer
      ensures semaphores.values == [pptr - cptr, 1, c.capacity - (pptr - cptr)]
    {
      var all := Everyone(c);
      assert Run(Steps(c), Init(c), []) == Some(Init(c));
      while exists who :: who in all && Step(c, Abs(), who).Some?
        invariant Reachable(Steps(c), Init(c), Abs())
        decreases AllSteps(c) - StepsTaken(Abs())
      {
        var who :| who in all && Step(c, Abs(), who).Some?;
        Advance(who);
      }
      Halted(c, Abs(), all);
    }
  }

  lemma Halted(c: Config, s: State, all: set<Who>)
    requires Reachable(Steps(c), Init(c), s) && Balanced(c) && all == Everyone(c)
    requires !exists who :: who in all && Step(c, s, who).Some?
    ensures AllDone(c, s)
    ensures s.pptr == c.producers * c.perProducer && s.cptr == c.consumers * c.perConsumer
    ensures s.sems == [s.pptr - s.cptr, 1, c.capacity - (s.pptr - s.cptr)]
  {
    ReachableInv(c, s);
    if !AllDone(c, s) {
      NotStuck(c, s);
    }
    FinalState(c, s);
  }

  function Everyone(c: Config): (all: set<Who>)
    ensures forall s: State, who |
              |s.producers| == c.producers && |s.consumers| == c.consumers && Step(c, s, who).Some? :: who in all
  {
    (set i | 0 <= i < c.producers :: Producer(i)) + (set j | 0 <= j < c.consumers :: Consumer(j))
  }

  lemma ReachableTaken(c: Config, s: State)
    requires Reachable(Steps(c), Init(c), s)
    ensures StepsTaken(s) <= AllSteps(c)
  {
    ReachableInv(c, s);
    TakenBound(s.producers, c.perProducer);
    TakenBound(s.consumers, c.perConsumer);
  }
}
