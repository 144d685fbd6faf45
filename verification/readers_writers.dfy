// sem_05/lab_04/rw: readers and writers over two System V semaphores.
// Semaphore 0 counts active writers, semaphore 1 active readers.  The loop guard
// on the shared counter is evaluated outside the critical sections.
module ReadersWriters {
  import opened Wrappers
  import opened Counting
  import opened Schedules
  import opened Semaphores

  datatype Config = Config(writers: nat, readers: nat, limit: nat)

  const SOURCE := Config(3, 5, 20)

  const START_READ := [SemBuf(0, 0), SemBuf(1, 1)]
  const STOP_READ := [SemBuf(1, -1)]
  const START_WRITE := [SemBuf(1, 0), SemBuf(0, 0), SemBuf(0, 1)]
  const STOP_WRITE := [SemBuf(0, -1)]

  // Test: about to evaluate the guard; Ready: past it, about to call semop.
  // A writer's increment is a load and a store.
  datatype Phase = Test | Ready | Started | Loaded(v: nat) | Stored | Shown | Exited
  datatype Who = Writer(i: nat) | Reader(j: nat)

  // What the processes print, in order.
  datatype Event = Wrote(v: nat) | Read(v: nat)

  datatype State = State(sems: seq<nat>, counter: nat, writers: seq<Phase>, readers: seq<Phase>, log: seq<Event>)

  function Init(c: Config): State {
    State([0, 0], 0, seq(c.writers, _ => Test), seq(c.readers, _ => Test), [])
  }

  // One step of one process; None when it is blocked in semop or has exited.
  function Step(c: Config, s: State, who: Who): Option<State> {
    match who
    case Writer(i) => if i < |s.writers| && |s.sems| == 2 then WriterStep(c, s, i) else None
    case Reader(j) => if j < |s.readers| && |s.sems| == 2 then ReaderStep(c, s, j) else None
  }

  function WriterStep(c: Config, s: State, i: nat): Option<State>
    requires i < |s.writers| && |s.sems| == 2
  {
    match s.writers[i]
    case Test => Some(s.(writers := s.writers[i := if s.counter < c.limit then Ready else Exited]))
    case Ready =>
      (match Semop(s.sems, START_WRITE)
       case None => None
       case Some(sems) => Some(s.(sems := sems, writers := s.writers[i := Started])))
    case Started => Some(s.(writers := s.writers[i := Loaded(s.counter)]))
    case Loaded(v) => Some(s.(counter := v + 1, writers := s.writers[i := Stored]))
    case Stored => Some(s.(log := s.log + [Wrote(s.counter)], writers := s.writers[i := Shown]))
    case Shown =>
      (match Semop(s.sems, STOP_WRITE)
       case None => None
       case Some(sems) => Some(s.(sems := sems, writers := s.writers[i := Test])))
    case Exited => None
  }

  function ReaderStep(c: Config, s: State, j: nat): Option<State>
    requires j < |s.readers| && |s.sems| == 2
  {
    match s.readers[j]
    case Test => Some(s.(readers := s.readers[j := if s.counter < c.limit then Ready else Exited]))
    case Ready =>
      (match Semop(s.sems, START_READ)
       case None => None
       case Some(sems) => Some(s.(sems := sems, readers := s.readers[j := Started])))
    case Started => Some(s.(log := s.log + [Read(s.counter)], readers := s.readers[j := Shown]))
    case Shown =>
      (match Semop(s.sems, STOP_READ)
       case None => None
       case Some(sems) => Some(s.(sems := sems, readers := s.readers[j := Test])))
    case _ => None
  }

  // The transition system; a schedule of it is any interleaving.
  function Steps(c: Config): (State, Who) -> Option<State> {
    (s: State, who: Who) => Step(c, s, who)
  }

  ghost predicate AllExited(s: State) {
    && (forall i | 0 <= i < |s.writers| :: s.writers[i] == Exited)
    && (forall j | 0 <= j < |s.readers| :: s.readers[j] == Exited)
  }

  // ---- What the four semop arrays do ----

  lemma ReadTables(sems: seq<nat>, start: seq<SemBuf>, stop: seq<SemBuf>)
    requires |sems| == 2 && start == START_READ && stop == STOP_READ
    ensures Semop(sems, start) == if sems[0] == 0 then Some([0, sems[1] + 1]) else None
    ensures Semop(sems, stop) == if sems[1] >= 1 then Some([sems[0], sems[1] - 1]) else None
  {
    SemopHead(sems, start);
    SemopHead(sems, start[1..]);
    SemopHead(sems, stop);
    assert sems[1 := sems[1] + 1] == [sems[0], sems[1] + 1];
    if sems[1] >= 1 {
      assert sems[1 := sems[1] - 1] == [sems[0], sems[1] - 1];
    }
  }

  lemma WriteTables(sems: seq<nat>, start: seq<SemBuf>, stop: seq<SemBuf>)
    requires |sems| == 2 && start == START_WRITE && stop == STOP_WRITE
    ensures Semop(sems, start) == if sems[0] == 0 && sems[1] == 0 then Some([1, 0]) else None
    ensures Semop(sems, stop) == if sems[0] >= 1 then Some([sems[0] - 1, sems[1]]) else None
  {
    SemopHead(sems, start);
    SemopHead(sems, start[1..]);
    SemopHead(sems, start[1..][1..]);
    SemopHead(sems, stop);
    assert sems[0 := sems[0] + 1] == [sems[0] + 1, sems[1]];
    if sems[0] >= 1 {
      assert sems[0 := sems[0] - 1] == [sems[0] - 1, sems[1]];
    }
  }

  lemma SemopTables(sems: seq<nat>)
    requires |sems| == 2
    ensures Semop(sems, START_READ) == if sems[0] == 0 then Some([0, sems[1] + 1]) else None
    ensures Semop(sems, STOP_READ) == if sems[1] >= 1 then Some([sems[0], sems[1] - 1]) else None
    ensures Semop(sems, START_WRITE) == if sems[0] == 0 && sems[1] == 0 then Some([1, 0]) else None
    ensures Semop(sems, STOP_WRITE) == if sems[0] >= 1 then Some([sems[0] - 1, sems[1]]) else None
  {
    ReadTables(sems, START_READ, STOP_READ);
    WriteTables(sems, START_WRITE, STOP_WRITE);
  }

  // ---- The invariant of every reachable state ----

  ghost function Active(p: Phase): nat {
    if p.Started? || p.Loaded? || p.Stored? || p.Shown? then 1 else 0
  }
  // Past the guard, not yet incremented.
  ghost function Pending(p: Phase): nat { if p.Ready? || p.Started? || p.Loaded? then 1 else 0 }
  // Incremented, not yet printed.
  ghost function Unprinted(p: Phase): nat { if p.Stored? then 1 else 0 }

  ghost function Writes(log: seq<Event>): nat {
    if log == [] then 0 else Writes(log[..|log| - 1]) + if log[|log| - 1].Wrote? then 1 else 0
  }

  // The log of a sequential execution: each writer prints one more than the
  // number of writes before it, each reader exactly that number.
  ghost predicate Serial(log: seq<Event>) {
    forall k | 0 <= k < |log| ::
      log[k].v == Writes(log[..k]) + if log[k].Wrote? then 1 else 0
  }

  ghost predicate WriterPhases(writers: seq<Phase>, counter: nat, limit: nat) {
    forall i | 0 <= i < |writers| ::
      && (writers[i].Loaded? ==> writers[i].v == counter)
      && (writers[i] == Exited ==> counter >= limit)
  }

  ghost predicate ReaderPhases(readers: seq<Phase>, counter: nat, limit: nat) {
    forall j | 0 <= j < |readers| ::
      && !readers[j].Loaded? && !readers[j].Stored?
      && (readers[j] == Exited ==> counter >= limit)
  }

  ghost predicate Inv(c: Config, s: State) {
    && |s.sems| == 2 && |s.writers| == c.writers && |s.readers| == c.readers
    && s.sems[0] == Total(s.writers, Active) <= 1
    && s.sems[1] == Total(s.readers, Active)
    && (s.sems[0] == 1 ==> s.sems[1] == 0)
    && WriterPhases(s.writers, s.counter, c.limit) && ReaderPhases(s.readers, s.counter, c.limit)
    && Serial(s.log) && Writes(s.log) + Total(s.writers, Unprinted) == s.counter
    && Overshoot(c, s.counter, Total(s.writers, Pending))
  }

  // The counter plus the increments that can no longer be stopped.
  ghost predicate Overshoot(c: Config, counter: nat, pending: nat) {
    if c.limit == 0 || c.writers == 0 then counter == pending == 0
    else counter + pending <= c.limit - 1 + c.writers
  }

  lemma InitInv(c: Config)
    ensures Inv(c, Init(c))
  {
    var s := Init(c);
    TotalUniform(s.writers, Active, 0);
    TotalUniform(s.readers, Active, 0);
    TotalUniform(s.writers, Pending, 0);
    TotalUniform(s.writers, Unprinted, 0);
  }

  lemma Appended(log: seq<Event>, e: Event)
    ensures Writes(log + [e]) == Writes(log) + if e.Wrote? then 1 else 0
    ensures Serial(log) && e.v == Writes(log) + (if e.Wrote? then 1 else 0) ==> Serial(log + [e])
  {
    var log' := log + [e];
    assert log'[..|log'| - 1] == log;
    forall k | 0 <= k <= |log| ensures log'[..k] == log[..k] {
    }
  }

  lemma OthersInactive(procs: seq<Phase>, k: nat)
    requires k < |procs| && Active(procs[k]) == 1 && Total(procs, Active) <= 1
    ensures forall j | 0 <= j < |procs| && j != k :: Active(procs[j]) == 0
  {
    forall j | 0 <= j < |procs| && j != k ensures Active(procs[j]) == 0 {
      if j < k {
        TotalAtLeastTwo(procs, j, k, Active);
      } else {
        TotalAtLeastTwo(procs, k, j, Active);
      }
    }
  }

  // The effect of a step, with the semop arrays unfolded.
  lemma WriterEffect(c: Config, s: State, i: nat)
    requires i < |s.writers| && |s.sems| == 2 && WriterStep(c, s, i).Some?
    ensures var p, s' := s.writers[i], WriterStep(c, s, i).value;
            && s'.readers == s.readers && s'.writers == s.writers[i := s'.writers[i]] && |s'.writers| == |s.writers|
            && s'.counter == (if p.Loaded? then p.v + 1 else s.counter)
            && s'.log == (if p.Stored? then s.log + [Wrote(s.counter)] else s.log)
            && |s'.sems| == 2 && s'.sems[1] == s.sems[1]
            && (p.Ready? ==> s.sems[0] == s.sems[1] == 0)
            && s'.sems[0] == s.sems[0] + (if p.Ready? then 1 else if p.Shown? then -1 else 0)
            && s'.writers[i] == (match p
                                 case Test => if s.counter < c.limit then Ready else Exited
                                 case Ready => Started
                                 case Started => Loaded(s.counter)
                                 case Loaded(_) => Stored
                                 case Stored => Shown
                                 case _ => Test)
            && p != Exited
  {
    SemopTables(s.sems);
  }

  lemma ReaderEffect(c: Config, s: State, j: nat)
    requires j < |s.readers| && |s.sems| == 2 && ReaderStep(c, s, j).Some?
    ensures var p, s' := s.readers[j], ReaderStep(c, s, j).value;
            && s'.writers == s.writers && s'.counter == s.counter
            && s'.readers == s.readers[j := s'.readers[j]] && |s'.readers| == |s.readers|
            && s'.log == (if p.Started? then s.log + [Read(s.counter)] else s.log)
            && |s'.sems| == 2 && s'.sems[0] == s.sems[0]
            && (p.Ready? ==> s.sems[0] == 0)
            && s'.sems[1] == s.sems[1] + (if p.Ready? then 1 else if p.Shown? then -1 else 0)
            && s'.readers[j] == (match p
                                 case Test => if s.counter < c.limit then Ready else Exited
                                 case Ready => Started
                                 case Started => Shown
                                 case _ => Test)
            && (p.Test? || p.Ready? || p.Started? || p.Shown?)
  {
    SemopTables(s.sems);
  }

  // The sums over the writers after a step.
  lemma WriterSums(c: Config, s: State, i: nat)
    requires i < |s.writers| && |s.sems| == 2 && WriterStep(c, s, i).Some?
    ensures var p, s' := s.writers[i], WriterStep(c, s, i).value;
            var q := s'.writers[i];
            && Total(s'.writers, Active) + Active(p) == Total(s.writers, Active) + Active(q)
            && Total(s'.writers, Pending) + Pending(p) == Total(s.writers, Pending) + Pending(q)
            && Total(s'.writers, Unprinted) + Unprinted(p) == Total(s.writers, Unprinted) + Unprinted(q)
            && Unprinted(p) <= Total(s.writers, Unprinted) <= Total(s.writers, Active)
            && Pending(p) <= Total(s.writers, Pending)
            && (p.Test? ==> Total(s.writers, Pending) < |s.writers|)
  {
    WriterEffect(c, s, i);
    var q := WriterStep(c, s, i).value.writers[i];
    TotalUpdate(s.writers, i, q, Active);
    TotalUpdate(s.writers, i, q, Pending);
    TotalUpdate(s.writers, i, q, Unprinted);
    TotalAtLeast(s.writers, i, Unprinted);
    TotalAtLeast(s.writers, i, Pending);
    UnprintedActive(s.writers);
    if s.writers[i].Test? {
      PendingRoom(s.writers, i);
    }
  }

  lemma WriterStepInv(c: Config, s: State, i: nat)
    requires Inv(c, s) && i < |s.writers| && WriterStep(c, s, i).Some?
    ensures Inv(c, WriterStep(c, s, i).value)
  {
    WriterEffect(c, s, i);
    WriterSums(c, s, i);
    if Active(s.writers[i]) == 1 {
      OthersInactive(s.writers, i);
    }
    if s.writers[i].Stored? {
      Appended(s.log, Wrote(s.counter));
    }
  }

  lemma PendingRoom(writers: seq<Phase>, i: nat)
    requires i < |writers| && Pending(writers[i]) == 0
    ensures Total(writers, Pending) < |writers|
  {
    TotalBound(writers, Pending, 1);
    assert |writers| * 1 == |writers|;
  }

  lemma UnprintedActive(writers: seq<Phase>)
    ensures Total(writers, Unprinted) <= Total(writers, Active)
  {
    TotalMonotone(writers, Unprinted, Active);
  }

  lemma ReaderStepInv(c: Config, s: State, j: nat)
    requires Inv(c, s) && j < |s.readers| && ReaderStep(c, s, j).Some?
    ensures Inv(c, ReaderStep(c, s, j).value)
  {
    ReaderEffect(c, s, j);
    var p, s' := s.readers[j], ReaderStep(c, s, j).value;
    TotalUpdate(s.readers, j, s'.readers[j], Active);
    TotalAtLeast(s.readers, j, Active);
    assert ReaderPhases(s'.readers, s'.counter, c.limit);
    if p.Started? {
      UnprintedActive(s.writers);
      Appended(s.log, Read(s.counter));
    }
  }

  lemma StepInv(c: Config, s: State, who: Who)
    requires Inv(c, s) && Step(c, s, who).Some?
    ensures Inv(c, Step(c, s, who).value)
  {
    match who
    case Writer(i) => WriterStepInv(c, s, i);
    case Reader(j) => ReaderStepInv(c, s, j);
  }

  lemma ReachableInv(c: Config, s: State)
    requires Reachable(Steps(c), Init(c), s)
    ensures Inv(c, s)
  {
    var inv := (t: State) => Inv(c, t);
    forall t, who | inv(t) && Step(c, t, who).Some? ensures inv(Step(c, t, who).value) {
      StepInv(c, t, who);
    }
    InitInv(c);
    ReachableKeeps(Steps(c), inv, Init(c), s);
  }

  // ---- Safety ----

  // The semaphores count the active processes; a writer is active alone.
  lemma Exclusion(c: Config, s: State)
    requires Reachable(Steps(c), Init(c), s)
    ensures |s.sems| == 2
    ensures s.sems[0] == Total(s.writers, Active) <= 1 && s.sems[1] == Total(s.readers, Active)
    ensures forall i, j | 0 <= i < |s.writers| && 0 <= j < |s.readers| && Active(s.writers[i]) == 1 ::
              Active(s.readers[j]) == 0
    ensures forall i, i' | 0 <= i < i' < |s.writers| :: Active(s.writers[i]) == 0 || Active(s.writers[i']) == 0
  {
    ReachableInv(c, s);
    forall i, j | 0 <= i < |s.writers| && 0 <= j < |s.readers| && Active(s.writers[i]) == 1
      ensures Active(s.readers[j]) == 0
    {
      TotalAtLeast(s.writers, i, Active);
      TotalAtLeast(s.readers, j, Active);
    }
    forall i, i' | 0 <= i < i' < |s.writers| ensures Active(s.writers[i]) == 0 || Active(s.writers[i']) == 0 {
      TotalAtLeastTwo(s.writers, i, i', Active);
    }
  }

  // The values the writers print.
  ghost function Written(log: seq<Event>): seq<nat> {
    if log == [] then []
    else
      var rest, e := Written(log[..|log| - 1]), log[|log| - 1];
      if e.Wrote? then rest + [e.v] else rest
  }

  lemma {:induction false} SerialWrites(log: seq<Event>)
    requires Serial(log)
    ensures |Written(log)| == Writes(log)
    ensures forall n | 0 <= n < |Written(log)| :: Written(log)[n] == n + 1
  {
    if log != [] {
      var rest := log[..|log| - 1];
      forall k | 0 <= k < |rest| ensures rest[k] == log[k] && rest[..k] == log[..k] {
      }
      SerialWrites(rest);
    }
  }

  // No update is lost: over any run the writers print 1, 2, 3, ... in order, and every
  // reader prints the last value a writer printed before it.
  lemma PrintedInOrder(c: Config, s: State)
    requires Reachable(Steps(c), Init(c), s)
    ensures Serial(s.log)
    ensures forall n | 0 <= n < |Written(s.log)| :: Written(s.log)[n] == n + 1
    ensures |Written(s.log)| <= s.counter <= |Written(s.log)| + 1
    ensures |s.sems| == 2 && (s.sems[0] == 0 ==> |Written(s.log)| == s.counter)
  {
    ReachableInv(c, s);
    SerialWrites(s.log);
    UnprintedActive(s.writers);
  }

  // Once every writer has exited the counter has reached the limit, and has passed it
  // by less than the number of writers.
  lemma OvershootBound(c: Config, s: State)
    requires Reachable(Steps(c), Init(c), s) && c.writers >= 1
    requires forall i | 0 <= i < |s.writers| :: s.writers[i] == Exited
    ensures if c.limit == 0 then s.counter == 0 else c.limit <= s.counter <= c.limit + c.writers - 1
    ensures Written(s.log) == seq(s.counter, n => n + 1)
  {
    ReachableInv(c, s);
    assert s.writers[0] == Exited;
    TotalUniform(s.writers, Active, 0);
    PrintedInOrder(c, s);
  }

  // ---- Progress ----

  ghost function WriterRank(p: Phase): nat {
    match p
    case Stored => 8
    case Shown => 7
    case Test => 6
    case Ready => 5
    case Started => 4
    case Loaded(_) => 3
    case Exited => 0
  }

  ghost function ReaderRank(p: Phase): nat {
    match p
    case Ready => 5
    case Started => 4
    case Shown => 3
    case Test => 2
    case _ => 0
  }

  ghost function Potential(c: Config, s: State): int {
    6 * (c.limit + c.writers - s.counter) + Total(s.writers, WriterRank) + Total(s.readers, ReaderRank)
  }

  // The one kind of step that can repeat forever: a reader finding the counter below the limit.
  predicate ReaderPass(c: Config, s: State, who: Who) {
    who.Reader? && who.j < |s.readers| && s.readers[who.j] == Test && s.counter < c.limit
  }

  ghost function Passes(c: Config, s: State, sched: seq<Who>): nat
    requires Run(Steps(c), s, sched).Some?
    decreases |sched|
  {
    if sched == [] then 0
    else (if ReaderPass(c, s, sched[0]) then 1 else 0) + Passes(c, Step(c, s, sched[0]).value, sched[1..])
  }

  lemma StepPotential(c: Config, s: State, who: Who)
    requires Inv(c, s) && Step(c, s, who).Some?
    ensures 0 <= Potential(c, s)
    ensures var s' := Step(c, s, who).value;
            if ReaderPass(c, s, who) then Potential(c, s') == Potential(c, s) + 3
            else Potential(c, s') < Potential(c, s)
  {
    var s' := Step(c, s, who).value;
    match who
    case Writer(i) =>
      WriterEffect(c, s, i);
      TotalUpdate(s.writers, i, s'.writers[i], WriterRank);
    case Reader(j) =>
      ReaderEffect(c, s, j);
      TotalUpdate(s.readers, j, s'.readers[j], ReaderRank);
  }

  lemma {:induction false} RunPotential(c: Config, s: State, sched: seq<Who>)
    requires Inv(c, s) && Run(Steps(c), s, sched).Some?
    ensures 0 <= Potential(c, Run(Steps(c), s, sched).value)
    ensures |sched| + Potential(c, Run(Steps(c), s, sched).value) <= Potential(c, s) + 4 * Passes(c, s, sched)
    decreases |sched|
  {
    if sched != [] {
      StepPotential(c, s, sched[0]);
      StepInv(c, s, sched[0]);
      RunPotential(c, Step(c, s, sched[0]).value, sched[1..]);
    }
  }

  // A run is long only if readers keep finding the counter below the limit.
  lemma RunLength(c: Config, sched: seq<Who>)
    requires Run(Steps(c), Init(c), sched).Some?
    ensures |sched| <= 6 * c.limit + 12 * c.writers + 2 * c.readers + 4 * Passes(c, Init(c), sched)
  {
    InitInv(c);
    TotalUniform(Init(c).writers, WriterRank, 6);
    TotalUniform(Init(c).readers, ReaderRank, 2);
    RunPotential(c, Init(c), sched);
  }

  lemma ActiveMoves(c: Config, s: State)
    requires Inv(c, s) && s.sems != [0, 0]
    ensures exists who :: Step(c, s, who).Some? && !ReaderPass(c, s, who)
  {
    SemopTables(s.sems);
    if s.sems[0] > 0 {
      var i := TotalPositive(s.writers, Active);
      assert Step(c, s, Writer(i)).Some? && !ReaderPass(c, s, Writer(i));
    } else {
      var j := TotalPositive(s.readers, Active);
      TotalAtLeast(s.readers, j, Active);
      assert Step(c, s, Reader(j)).Some? && !ReaderPass(c, s, Reader(j));
    }
  }

  // Without any reader passing its guard some process can move, unless all have exited.
  lemma CalmStep(c: Config, s: State)
    requires Inv(c, s) && !AllExited(s) && (c.writers >= 1 || c.limit == 0)
    ensures exists who :: Step(c, s, who).Some? && !ReaderPass(c, s, who)
  {
    if s.sems != [0, 0] {
      ActiveMoves(c, s);
    } else {
      SemopTables(s.sems);
      if i :| 0 <= i < |s.writers| && s.writers[i] != Exited {
        TotalAtLeast(s.writers, i, Active);
        assert Step(c, s, Writer(i)).Some? && !ReaderPass(c, s, Writer(i));
      } else {
        var j :| 0 <= j < |s.readers| && s.readers[j] != Exited;
        TotalAtLeast(s.readers, j, Active);
        if c.writers >= 1 {
          assert s.writers[0] == Exited;
        }
        assert Step(c, s, Reader(j)).Some? && !ReaderPass(c, s, Reader(j));
      }
    }
  }

  // Nobody waits forever for a semaphore: some process can move until all have exited.
  lemma NotStuck(c: Config, s: State)
    requires Reachable(Steps(c), Init(c), s) && !AllExited(s)
    ensures exists who :: Step(c, s, who).Some?
  {
    ReachableInv(c, s);
    if c.writers >= 1 || c.limit == 0 {
      CalmStep(c, s);
    } else if s.sems != [0, 0] {
      ActiveMoves(c, s);
    } else {
      SemopTables(s.sems);
      var j :| 0 <= j < |s.readers| && s.readers[j] != Exited;
      TotalAtLeast(s.readers, j, Active);
      assert Step(c, s, Reader(j)).Some?;
    }
  }

  // No increment is under way and no writer will start another.
  ghost predicate Settled(c: Config, s: State) {
    s.counter >= c.limit && Total(s.writers, Pending) == 0
  }

  lemma SettledStep(c: Config, s: State, who: Who)
    requires Inv(c, s) && Settled(c, s) && Step(c, s, who).Some?
    ensures Settled(c, Step(c, s, who).value) && Step(c, s, who).value.counter == s.counter
  {
    match who
    case Writer(i) =>
      WriterEffect(c, s, i);
      TotalAtLeast(s.writers, i, Pending);
      TotalUpdate(s.writers, i, Step(c, s, who).value.writers[i], Pending);
    case Reader(j) =>
      ReaderEffect(c, s, j);
  }

  // Every reachable state can still be run to the end.
  lemma CanFinish(c: Config, s: State) returns (s': State)
    requires Reachable(Steps(c), Init(c), s) && (c.writers >= 1 || c.limit == 0)
    ensures Reachable(Steps(c), Init(c), s') && AllExited(s')
    ensures Settled(c, s) ==> s'.counter == s.counter
    decreases Potential(c, s)
  {
    ReachableInv(c, s);
    if AllExited(s) {
      s' := s;
    } else {
      CalmStep(c, s);
      var who :| Step(c, s, who).Some? && !ReaderPass(c, s, who);
      StepPotential(c, s, who);
      ReachableStep(Steps(c), Init(c), s, who);
      if Settled(c, s) {
        SettledStep(c, s, who);
      }
      s' := CanFinish(c, Step(c, s, who).value);
    }
  }

  // ---- Which final counters occur ----

  // Writers lo..hi are past the guard, the others about to test it, nobody is active.
  ghost predicate Staged(c: Config, s: State, lo: nat, hi: nat) {
    && s.sems == [0, 0] && |s.writers| == c.writers
    && forall i | 0 <= i < |s.writers| :: s.writers[i] == if lo <= i < hi then Ready else Test
  }

  // One writer goes from past the guard through its critical section.
  lemma Increment(c: Config, s: State, i: nat) returns (s': State)
    requires Reachable(Steps(c), Init(c), s) && i < |s.writers| && s.writers[i] == Ready && s.sems == [0, 0]
    ensures Reachable(Steps(c), Init(c), s') && s'.sems == [0, 0] && s'.counter == s.counter + 1
    ensures s'.writers == s.writers[i := Test]
  {
    s' := s;
    var n := 0;
    while n < 5
      invariant n <= 5 && Reachable(Steps(c), Init(c), s') && |s'.sems| == 2 && i < |s'.writers|
      invariant s'.sems[1] == 0 && s'.sems[0] == if 1 <= n <= 4 then 1 else 0
      invariant s'.counter == s.counter + if n >= 3 then 1 else 0
      invariant s'.writers == s.writers[i := [Ready, Started, Loaded(s.counter), Stored, Shown, Test][n]]
    {
      SemopTables(s'.sems);
      ReachableStep(Steps(c), Init(c), s', Writer(i));
      WriterEffect(c, s', i);
      s' := Step(c, s', Writer(i)).value;
      n := n + 1;
    }
  }

  lemma PassGuard(c: Config, s: State, hi: nat) returns (s': State)
    requires Reachable(Steps(c), Init(c), s) && Staged(c, s, 0, hi) && hi < c.writers && s.counter < c.limit
    ensures Reachable(Steps(c), Init(c), s') && Staged(c, s', 0, hi + 1) && s'.counter == s.counter
  {
    ReachableStep(Steps(c), Init(c), s, Writer(hi));
    s' := Step(c, s, Writer(hi)).value;
  }

  // One writer alone counts up to any value not above the limit.
  lemma CountUp(c: Config, n: nat) returns (s: State)
    requires c.writers >= 1 && n <= c.limit
    ensures Reachable(Steps(c), Init(c), s) && Staged(c, s, 0, 0) && s.counter == n
  {
    if n == 0 {
      s := Init(c);
      assert Run(Steps(c), Init(c), []) == Some(s);
    } else {
      s := CountUp(c, n - 1);
      s := PassGuard(c, s, 0);
      s := Increment(c, s, 0);
    }
  }

  lemma AllPassGuard(c: Config, k: nat) returns (s: State)
    requires 1 <= c.limit && k <= c.writers && c.writers >= 1
    ensures Reachable(Steps(c), Init(c), s) && Staged(c, s, 0, k) && s.counter == c.limit - 1
  {
    if k == 0 {
      s := CountUp(c, c.limit - 1);
    } else {
      s := AllPassGuard(c, k - 1);
      s := PassGuard(c, s, k - 1);
    }
  }

  lemma AllIncrement(c: Config, s: State, lo: nat, k: nat) returns (s': State)
    requires Reachable(Steps(c), Init(c), s) && Staged(c, s, lo, k) && lo <= k <= c.writers
    ensures Reachable(Steps(c), Init(c), s') && Staged(c, s', k, k) && s'.counter == s.counter + (k - lo)
    decreases k - lo
  {
    if lo == k {
      s' := s;
    } else {
      s' := Increment(c, s, lo);
      s' := AllIncrement(c, s', lo + 1, k);
    }
  }

  lemma Attained(c: Config, v: nat) returns (s: State)
    requires c.writers >= 1 && (if c.limit == 0 then v == 0 else c.limit <= v <= c.limit + c.writers - 1)
    ensures Reachable(Steps(c), Init(c), s) && AllExited(s) && s.counter == v
  {
    if c.limit == 0 {
      s := CountUp(c, 0);
    } else {
      s := AllPassGuard(c, v - c.limit + 1);
      s := AllIncrement(c, s, 0, v - c.limit + 1);
    }
    TotalUniform(s.writers, Pending, 0);
    s := CanFinish(c, s);
  }

  // The counter a complete run can end with: exactly the limit up to the limit plus
  // the number of writers less one.
  lemma FinalCounters(c: Config, v: nat)
    requires c.writers >= 1
    ensures (exists s :: Reachable(Steps(c), Init(c), s) && AllExited(s) && s.counter == v)
            <==> if c.limit == 0 then v == 0 else c.limit <= v <= c.limit + c.writers - 1
  {
    if s :| Reachable(Steps(c), Init(c), s) && AllExited(s) && s.counter == v {
      ReachableInv(c, s);
      OvershootBound(c, s);
    }
    if if c.limit == 0 then v == 0 else c.limit <= v <= c.limit + c.writers - 1 {
      var s := Attained(c, v);
    }
  }

  // The program as written: 20, 21 and 22 are the values it can end with.
  lemma SourceCounters(v: nat)
    ensures (exists s :: Reachable(Steps(SOURCE), Init(SOURCE), s) && AllExited(s) && s.counter == v) <==> 20 <= v <= 22
  {
    FinalCounters(SOURCE, v);
  }

  // ---- Runs that never end ----

  // One round of a reader while the counter is below the limit.
  lemma ReaderRound(c: Config, sched: seq<Who>) returns (longer: seq<Who>)
    requires Run(Steps(c), Init(c), sched).Some? && c.limit >= 1 && c.readers >= 1
    requires SpinState(c, Run(Steps(c), Init(c), sched).value, Test, 0)
    requires forall k | 0 <= k < |sched| :: sched[k] == Reader(0)
    ensures |longer| == |sched| + 4 && Run(Steps(c), Init(c), longer).Some?
    ensures SpinState(c, Run(Steps(c), Init(c), longer).value, Test, 0)
    ensures forall k | 0 <= k < |longer| :: longer[k] == Reader(0)
  {
    longer := sched;
    var n := 0;
    while n < 4
      invariant n <= 4 && |longer| == |sched| + n && Run(Steps(c), Init(c), longer).Some?
      invariant forall k | 0 <= k < |longer| :: longer[k] == Reader(0)
      invariant SpinState(c, Run(Steps(c), Init(c), longer).value, [Test, Ready, Started, Shown, Test][n],
                          if 2 <= n <= 3 then 1 else 0)
    {
      var s := Run(Steps(c), Init(c), longer).value;
      SemopTables(s.sems);
      assert Step(c, s, Reader(0)).Some?;
      ReaderEffect(c, s, 0);
      RunThenStep(Steps(c), Init(c), longer, Reader(0));
      longer := longer + [Reader(0)];
      n := n + 1;
    }
  }

  // Only reader 0 has moved; it stands at phase p.
  ghost predicate SpinState(c: Config, s: State, p: Phase, active: nat) {
    && |s.sems| == 2 && s.sems[0] == 0 && s.sems[1] == active && s.counter == 0
    && |s.readers| == c.readers && c.readers >= 1 && s.readers[0] == p
  }

  lemma LongRun(c: Config, n: nat) returns (sched: seq<Who>)
    requires c.limit >= 1 && c.readers >= 1
    ensures |sched| == 4 * n && Run(Steps(c), Init(c), sched).Some?
    ensures SpinState(c, Run(Steps(c), Init(c), sched).value, Test, 0)
    ensures forall k | 0 <= k < |sched| :: sched[k] == Reader(0)
  {
    if n == 0 {
      sched := [];
    } else {
      sched := LongRun(c, n - 1);
      sched := ReaderRound(c, sched);
    }
  }

  lemma {:induction false} NoPasses(c: Config, s: State, sched: seq<Who>)
    requires Inv(c, s) && Run(Steps(c), s, sched).Some? && (c.readers == 0 || c.limit == 0)
    ensures Passes(c, s, sched) == 0
    decreases |sched|
  {
    if sched != [] {
      StepInv(c, s, sched[0]);
      NoPasses(c, Step(c, s, sched[0]).value, sched[1..]);
    }
  }

  ghost predicate BoundsRuns(c: Config, b: nat) {
    forall sched | Run(Steps(c), Init(c), sched).Some? :: |sched| <= b
  }

  // Termination of all runs is not guaranteed: readers can keep the program busy
  // forever exactly when there are readers and a positive limit.
  lemma TerminatesIff(c: Config)
    ensures (exists b: nat :: BoundsRuns(c, b)) <==> c.readers == 0 || c.limit == 0
  {
    if c.readers == 0 || c.limit == 0 {
      var b: nat := 6 * c.limit + 12 * c.writers + 2 * c.readers;
      forall sched | Run(Steps(c), Init(c), sched).Some? ensures |sched| <= b {
        RunLength(c, sched);
        InitInv(c);
        NoPasses(c, Init(c), sched);
      }
      assert BoundsRuns(c, b);
    } else {
      forall b: nat ensures !BoundsRuns(c, b) {
        var sched := LongRun(c, b + 1);
      }
    }
  }

  // Every prefix of the infinite schedule is a run.
  ghost predicate RunsForever(c: Config, f: nat -> Who) {
    forall n: nat :: Run(Steps(c), Init(c), Prefix(f, n)).Some?
  }

  lemma {:induction false} SpinForever(c: Config, n: nat)
    requires c.limit >= 1 && c.readers >= 1
    ensures Run(Steps(c), Init(c), Prefix((_: nat) => Reader(0), n)).Some?
  {
    var sched := LongRun(c, n);
    RunPrefix(Steps(c), Init(c), sched, n);
    assert sched[..n] == Prefix((_: nat) => Reader(0), n);
  }

  lemma BoundedEnds(c: Config, f: nat -> Who, b: nat)
    requires BoundsRuns(c, b)
    ensures !RunsForever(c, f)
  {
    assert !Run(Steps(c), Init(c), Prefix(f, b + 1)).Some?;
  }

  // There is an infinite run exactly when there are readers and a positive limit.
  lemma EndlessIff(c: Config)
    ensures (exists f: nat -> Who :: RunsForever(c, f)) <==> c.readers >= 1 && c.limit >= 1
  {
    if c.readers >= 1 && c.limit >= 1 {
      var f := (_: nat) => Reader(0);
      forall n: nat ensures Run(Steps(c), Init(c), Prefix(f, n)).Some? {
        SpinForever(c, n);
      }
      assert RunsForever(c, f);
    } else {
      TerminatesIff(c);
      var b: nat :| BoundsRuns(c, b);
      forall f: nat -> Who ensures !RunsForever(c, f) {
        BoundedEnds(c, f, b);
      }
    }
  }

  // ---- Starvation ----

  // All writers are past their guard and none of them can start.
  ghost predicate WritersWait(s: State) {
    && (forall i | 0 <= i < |s.writers| :: s.writers[i] == Ready)
    && |s.sems| == 2 && Semop(s.sems, START_WRITE) == None
  }

  // So it is in every state of the run of this schedule.
  ghost predicate Starves(c: Config, s: State, sched: seq<Who>)
    decreases |sched|
  {
    WritersWait(s)
    && (sched != [] ==> Step(c, s, sched[0]).Some? && Starves(c, Step(c, s, sched[0]).value, sched[1..]))
  }

  // Reader a reads, reader b is about to test its guard.
  ghost predicate Relay(c: Config, s: State, a: nat, b: nat) {
    && s.sems == [0, 1] && s.counter < c.limit
    && (forall i | 0 <= i < |s.writers| :: s.writers[i] == Ready)
    && a < |s.readers| && b < |s.readers| && a != b && s.readers[a] == Started && s.readers[b] == Test
  }

  // Two steps of a reader that does not touch the other: it comes in.
  lemma ComeIn(c: Config, s: State, b: nat)
    requires |s.sems| == 2 && s.sems[0] == 0 && b < |s.readers| && s.readers[b] == Test && s.counter < c.limit
    ensures Step(c, s, Reader(b)) == Some(s.(readers := s.readers[b := Ready]))
    ensures Step(c, s.(readers := s.readers[b := Ready]), Reader(b))
            == Some(s.(sems := [0, s.sems[1] + 1], readers := s.readers[b := Started]))
  {
    SemopTables(s.sems);
    assert s.readers[b := Ready][b := Started] == s.readers[b := Started];
  }

  // It reads and goes out.
  lemma GoOut(c: Config, s: State, a: nat)
    requires |s.sems| == 2 && s.sems[1] >= 1 && a < |s.readers| && s.readers[a] == Started
    ensures var log := s.log + [Read(s.counter)];
            && Step(c, s, Reader(a)) == Some(s.(log := log, readers := s.readers[a := Shown]))
            && Step(c, s.(log := log, readers := s.readers[a := Shown]), Reader(a))
               == Some(s.(log := log, sems := [s.sems[0], s.sems[1] - 1], readers := s.readers[a := Test]))
  {
    SemopTables(s.sems);
    assert s.readers[a := Shown][a := Test] == s.readers[a := Test];
  }

  lemma TwoSteps(c: Config, s: State, who: Who, rest: seq<Who>)
    requires WritersWait(s) && Step(c, s, who).Some? && WritersWait(Step(c, s, who).value)
    requires Step(c, Step(c, s, who).value, who).Some?
    requires Starves(c, Step(c, Step(c, s, who).value, who).value, rest)
    ensures Starves(c, s, [who, who] + rest)
  {
    var sched := [who, who] + rest;
    assert sched[1..] == [who] + rest && sched[1..][1..] == rest && sched[1..][0] == who;
    assert Starves(c, Step(c, s, who).value, sched[1..]);
  }

  // Reader b comes in, reader a goes out and comes in again, then b does, and so on.
  ghost function Relays(a: nat, b: nat): nat -> Who {
    (n: nat) => if (n + 2) / 4 % 2 == 0 then Reader(b) else Reader(a)
  }

  lemma RelayShift(a: nat, b: nat, k: nat)
    ensures Relays(a, b)(k + 4) == Relays(b, a)(k)
  {
    assert (k + 4 + 2) / 4 == (k + 2) / 4 + 1;
  }

  // After four steps the readers have changed places.
  lemma RelaysChange(a: nat, b: nat, n: nat)
    requires n >= 1
    ensures Prefix(Relays(a, b), 4 * n)
            == [Reader(b), Reader(b)] + ([Reader(a), Reader(a)] + Prefix(Relays(b, a), 4 * (n - 1)))
  {
    var whole, rest := Prefix(Relays(a, b), 4 * n), Prefix(Relays(b, a), 4 * (n - 1));
    forall k: nat | k < |rest| ensures whole[k + 4] == rest[k] {
      RelayShift(a, b, k);
    }
    FourThenRest(whole, rest);
  }

  lemma FourThenRest(whole: seq<Who>, rest: seq<Who>)
    requires |whole| == |rest| + 4 && forall k: nat | k < |rest| :: whole[k + 4] == rest[k]
    ensures whole == [whole[0], whole[1]] + ([whole[2], whole[3]] + rest)
  {
    forall k | 4 <= k < |whole| ensures whole[k] == rest[k - 4] {
      assert whole[k - 4 + 4] == rest[k - 4];
    }
  }

  lemma {:induction false} StarvingRun(c: Config, s: State, a: nat, b: nat, n: nat)
    requires Relay(c, s, a, b)
    ensures Starves(c, s, Prefix(Relays(a, b), 4 * n))
    decreases n
  {
    SemopTables(s.sems);
    if n > 0 {
      var s1 := s.(sems := [0, 2], readers := s.readers[b := Started]);
      var s2 := s1.(log := s1.log + [Read(s1.counter)], sems := [0, 1], readers := s1.readers[a := Test]);
      var rest := Prefix(Relays(b, a), 4 * (n - 1));
      StarvingRun(c, s2, b, a, n - 1);
      ComeIn(c, s, b);
      GoOut(c, s1, a);
      SemopTables(s1.sems);
      TwoSteps(c, s1, Reader(a), rest);
      TwoSteps(c, s, Reader(b), [Reader(a), Reader(a)] + rest);
      RelaysChange(a, b, n);
    }
  }

  lemma {:induction false} StarvesPrefix(c: Config, s: State, sched: seq<Who>, n: nat)
    requires Starves(c, s, sched) && n <= |sched|
    ensures Starves(c, s, sched[..n])
    decreases n
  {
    if n > 0 {
      assert sched[..n][1..] == sched[1..][..n - 1];
      StarvesPrefix(c, Step(c, s, sched[0]).value, sched[1..], n - 1);
    }
  }

  // The first k writers have passed their guard.
  lemma {:induction false} GuardsPassed(c: Config, k: nat) returns (s: State)
    requires k <= c.writers && c.limit >= 1
    ensures Reachable(Steps(c), Init(c), s) && s.sems == [0, 0] && s.counter == 0
    ensures s.readers == Init(c).readers && |s.writers| == c.writers
    ensures forall i | 0 <= i < |s.writers| :: s.writers[i] == if i < k then Ready else Test
    decreases k
  {
    if k == 0 {
      s := Init(c);
      ReachableStart(Steps(c), Init(c));
    } else {
      s := GuardsPassed(c, k - 1);
      ReachableStep(Steps(c), Init(c), s, Writer(k - 1));
      s := Step(c, s, Writer(k - 1)).value;
    }
  }

  lemma StartRelay(c: Config) returns (s: State)
    requires c.readers >= 2 && c.limit >= 1
    ensures Reachable(Steps(c), Init(c), s) && Relay(c, s, 0, 1)
  {
    var s0 := GuardsPassed(c, c.writers);
    ComeIn(c, s0, 0);
    ReachableStep(Steps(c), Init(c), s0, Reader(0));
    ReachableStep(Steps(c), Init(c), Step(c, s0, Reader(0)).value, Reader(0));
    s := s0.(sems := [0, 1], readers := s0.readers[0 := Started]);
  }

  // With at most one reader it is that reader that keeps the writers out.
  lemma OnlyReader(c: Config, s: State)
    requires Inv(c, s) && WritersWait(s) && c.writers >= 1 && c.readers <= 1
    ensures |s.readers| == 1 && Active(s.readers[0]) == 1 && s.sems == [0, 1] && s.writers[0] == Ready
  {
    SemopTables(s.sems);
    TotalUniform(s.writers, Active, 0);
    assert s.sems[0] == 0;
    TotalBound(s.readers, Active, 1);
    var j := TotalPositive(s.readers, Active);
  }

  // If it can move and still keeps them out, it moves from reading to leaving.
  lemma OnlyStep(c: Config, s: State, who: Who)
    requires Inv(c, s) && WritersWait(s) && c.writers >= 1 && c.readers <= 1
    requires Step(c, s, who).Some? && WritersWait(Step(c, s, who).value)
    ensures Inv(c, Step(c, s, who).value)
    ensures s.readers != [] && s.readers[0] == Started
    ensures Step(c, s, who).value.readers != [] && Step(c, s, who).value.readers[0] == Shown
  {
    StepInv(c, s, who);
    OnlyReader(c, s);
    OnlyReader(c, Step(c, s, who).value);
    SemopTables(s.sems);
  }

  // So it keeps them out for a single step.
  lemma {:induction false} FewReaders(c: Config, s: State, sched: seq<Who>)
    requires Inv(c, s) && Starves(c, s, sched) && c.writers >= 1 && c.readers <= 1
    ensures |sched| <= 1
  {
    if |sched| >= 2 {
      var next := Step(c, s, sched[0]).value;
      assert Starves(c, next, sched[1..]);
      OnlyStep(c, s, sched[0]);
      assert Starves(c, Step(c, next, sched[1..][0]).value, sched[1..][1..]);
      OnlyStep(c, next, sched[1..][0]);
    }
  }

  lemma WaitingPassed(c: Config, s: State)
    requires Inv(c, s) && WritersWait(s) && c.writers >= 1
    ensures c.limit >= 1
  {
    TotalAtLeast(s.writers, 0, Pending);
  }

  // All writers wait in every state of the infinite run of a schedule.
  ghost predicate StarvesForever(c: Config, s: State, f: nat -> Who) {
    forall n: nat :: Starves(c, s, Prefix(f, n))
  }

  lemma {:induction false} RelayForever(c: Config, s: State, n: nat)
    requires Relay(c, s, 0, 1)
    ensures Starves(c, s, Prefix(Relays(0, 1), n))
  {
    StarvingRun(c, s, 0, 1, n);
    StarvesPrefix(c, s, Prefix(Relays(0, 1), 4 * n), n);
    assert Prefix(Relays(0, 1), 4 * n)[..n] == Prefix(Relays(0, 1), n);
  }

  // There is an infinite run in which all writers have passed their guard and wait forever to
  // start exactly when there are two readers and a positive limit.
  lemma StarvationIff(c: Config)
    requires c.writers >= 1
    ensures (exists s, f: nat -> Who :: Reachable(Steps(c), Init(c), s) && StarvesForever(c, s, f))
            <==> c.readers >= 2 && c.limit >= 1
  {
    if c.readers >= 2 && c.limit >= 1 {
      var s := StartRelay(c);
      forall n: nat ensures Starves(c, s, Prefix(Relays(0, 1), n)) {
        RelayForever(c, s, n);
      }
      assert StarvesForever(c, s, Relays(0, 1));
    }
    if s, f: nat -> Who :| Reachable(Steps(c), Init(c), s) && StarvesForever(c, s, f) {
      ReachableInv(c, s);
      assert Starves(c, s, Prefix(f, 2));
      if c.readers <= 1 {
        FewReaders(c, s, Prefix(f, 2));
      }
      WaitingPassed(c, s);
    }
  }

  // ---- Which interleavings occur ----

  // In every reachable state a process is kept from moving only by its first semop: a writer
  // while anybody is active, a reader while a writer is.
  lemma {:induction false} CanMove(c: Config, s: State, who: Who)
    requires Reachable(Steps(c), Init(c), s)
    ensures |s.writers| == c.writers && |s.readers| == c.readers
    ensures Step(c, s, who).Some? <==>
            match who
            case Writer(i) =>
              i < c.writers && s.writers[i] != Exited
              && (s.writers[i] == Ready ==> Total(s.writers, Active) == Total(s.readers, Active) == 0)
            case Reader(j) =>
              j < c.readers && s.readers[j] != Exited
              && (s.readers[j] == Ready ==> Total(s.writers, Active) == 0)
  {
    ReachableInv(c, s);
    SemopTables(s.sems);
    match who {
      case Writer(i) => if i < |s.writers| { TotalAtLeast(s.writers, i, Active); }
      case Reader(j) => if j < |s.readers| { TotalAtLeast(s.readers, j, Active); }
    }
  }

  ghost function RoundLength(who: Who): nat { if who.Writer? then 6 else 4 }

  // The rounds of writers in an order of rounds, and what such rounds print.
  ghost function WriterRounds(order: seq<Who>): nat {
    if order == [] then 0 else WriterRounds(order[..|order| - 1]) + if order[|order| - 1].Writer? then 1 else 0
  }

  ghost function Prints(order: seq<Who>): seq<Event> {
    if order == [] then []
    else
      var before, n := Prints(order[..|order| - 1]), WriterRounds(order[..|order| - 1]);
      before + [if order[|order| - 1].Writer? then Wrote(n + 1) else Read(n)]
  }

  // A round can follow while the limit has not been reached.
  ghost predicate Allowed(c: Config, before: seq<Who>, who: Who) {
    && WriterRounds(before) < c.limit
    && match who case Writer(i) => i < c.writers case Reader(j) => j < c.readers
  }

  ghost function Allows(c: Config): (seq<Who>, Who) -> bool {
    (before: seq<Who>, who: Who) => Allowed(c, before, who)
  }

  ghost predicate Feasible(c: Config, order: seq<Who>) { Follows(Allows(c), order) }

  lemma {:induction false} PrintsSnoc(order: seq<Who>, who: Who)
    ensures WriterRounds(order + [who]) == WriterRounds(order) + if who.Writer? then 1 else 0
    ensures Prints(order + [who])
            == Prints(order) + [if who.Writer? then Wrote(WriterRounds(order) + 1) else Read(WriterRounds(order))]
  {
    assert (order + [who])[..|order|] == order;
  }

  // Between rounds nobody is active and everybody is about to test the guard.
  ghost predicate Between(c: Config, s: State, order: seq<Who>) {
    && s.sems == [0, 0] && s.counter == WriterRounds(order) && s.log == Prints(order)
    && s.writers == Init(c).writers && s.readers == Init(c).readers
  }

  // A writer alone, n steps before the end of the round it began in a state.
  ghost predicate MidWrite(s: State, s': State, i: nat, n: nat)
    requires i < |s.writers|
  {
    && n <= 6 && |s'.writers| == |s.writers| && s'.readers == s.readers
    && s'.sems == [if 1 <= n <= 4 then 1 else 0, 0] && s'.writers == s.writers[i := s'.writers[i]]
    && (n == 0 || n == 6 ==> s'.writers[i] == Test)
    && (n == 5 ==> s'.writers[i] == Ready)
    && (n == 4 ==> s'.writers[i] == Started)
    && (n == 3 ==> s'.writers[i] == Loaded(s.counter))
    && (n == 2 ==> s'.writers[i] == Stored)
    && (n == 1 ==> s'.writers[i] == Shown)
    && s'.counter == s.counter + (if n <= 2 then 1 else 0)
    && s'.log == if n <= 1 then s.log + [Wrote(s.counter + 1)] else s.log
  }

  lemma {:induction false} WriterMoves(c: Config, s: State, s': State, i: nat, n: nat)
    requires i < |s.writers| && s.counter < c.limit && n > 0 && MidWrite(s, s', i, n)
    ensures var r := Step(c, s', Writer(i));
            r.Some? && MidWrite(s, r.value, i, n - 1)
  {
    SemopTables(s'.sems);
    WriterEffect(c, s', i);
  }

  lemma {:induction false} WriterRound(c: Config, s: State, i: nat) returns (s': State)
    requires s.sems == [0, 0] && i < |s.writers| && s.writers[i] == Test && s.counter < c.limit
    ensures Run(Steps(c), s, Repeat(Writer(i), 6)) == Some(s')
    ensures s' == s.(counter := s.counter + 1, log := s.log + [Wrote(s.counter + 1)])
  {
    var who := Writer(i);
    s' := s;
    ghost var n: nat := 6;
    while n > 0
      invariant n <= 6 && MidWrite(s, s', i, n)
      invariant Run(Steps(c), s, Repeat(who, 6)) == Run(Steps(c), s', Repeat(who, n))
    {
      RunRepeat(Steps(c), s', who, n);
      WriterMoves(c, s, s', i, n);
      s' := Step(c, s', who).value;
      n := n - 1;
    }
    assert s'.writers == s.writers;
  }

  lemma {:induction false} WholeRead(c: Config, s: State, j: nat) returns (s': State)
    requires s.sems == [0, 0] && j < |s.readers| && s.readers[j] == Test && s.counter < c.limit
    ensures Run(Steps(c), s, Repeat(Reader(j), 4)) == Some(s')
    ensures s' == s.(log := s.log + [Read(s.counter)])
  {
    var who := Reader(j);
    s' := s;
    ghost var n: nat := 4;
    while n > 0
      invariant 0 <= n <= 4 && j < |s'.readers| && |s'.sems| == 2
      invariant Run(Steps(c), s, Repeat(who, 4)) == Run(Steps(c), s', Repeat(who, n))
      invariant s'.writers == s.writers && s'.sems == [0, if 1 <= n <= 2 then 1 else 0]
      invariant s'.readers == s.readers[j := [Test, Shown, Started, Ready, Test][n]]
      invariant s'.counter == s.counter
      invariant s'.log == if n <= 1 then s.log + [Read(s.counter)] else s.log
    {
      RunRepeat(Steps(c), s', who, n);
      SemopTables(s'.sems);
      ReaderEffect(c, s', j);
      s' := Step(c, s', who).value;
      n := n - 1;
    }
    assert s'.readers == s.readers;
  }

  // Once the limit is reached a process exits instead, and does nothing more.
  lemma {:induction false} NoRound(c: Config, s: State, order: seq<Who>, who: Who)
    requires Between(c, s, order) && !Allowed(c, order, who)
    ensures Run(Steps(c), s, Repeat(who, RoundLength(who))) == None
  {
    RunRepeat(Steps(c), s, who, RoundLength(who));
    if Step(c, s, who).Some? {
      RunRepeat(Steps(c), Step(c, s, who).value, who, RoundLength(who) - 1);
    }
  }

  lemma {:induction false} NextRound(c: Config, s: State, order: seq<Who>, who: Who)
    requires Between(c, s, order)
    ensures var r := Run(Steps(c), s, Repeat(who, RoundLength(who)));
            && (r.Some? <==> Allowed(c, order, who))
            && (r.Some? ==> Between(c, r.value, order + [who]))
  {
    PrintsSnoc(order, who);
    if !Allowed(c, order, who) {
      NoRound(c, s, order, who);
    } else {
      match who {
        case Writer(i) => var _ := WriterRound(c, s, i);
        case Reader(j) => var _ := WholeRead(c, s, j);
      }
    }
  }

  // Rounds can be run one after the other in every order, as long as the counter is below the
  // limit when a round begins; they print what the order of the rounds says.
  lemma {:induction false} OrderIff(c: Config, order: seq<Who>)
    ensures var r := Run(Steps(c), Init(c), Rounds(order, RoundLength));
            && (r.Some? <==> Feasible(c, order))
            && (r.Some? ==> r.value.counter == WriterRounds(order) && r.value.log == Prints(order))
            && (r.Some? ==> Between(c, r.value, order))
  {
    var between := (s: State, before: seq<Who>) => Between(c, s, before);
    forall s, before, who | between(s, before)
      ensures var r := Run(Steps(c), s, Repeat(who, RoundLength(who)));
              (r.Some? <==> Allows(c)(before, who)) && (r.Some? ==> between(r.value, before + [who]))
    {
      NextRound(c, s, before, who);
    }
    OrderRuns(Steps(c), Init(c), RoundLength, Allows(c), between, order);
  }

  // ---- The same program updating shared memory in place ----

  class Machine {
    const c: Config
    const semaphores: SemaphoreSet
    var counter: nat
    var writers: seq<Phase>
    var readers: seq<Phase>
    var log: seq<Event>

    function Abs(): State
      reads this, semaphores
    {
      State(semaphores.values, counter, writers, readers, log)
    }

    constructor (c: Config)
      ensures this.c == c && fresh(semaphores) && Abs() == Init(c)
    {
      this.c := c;
      semaphores := new SemaphoreSet([0, 0]);
      counter := 0;
      writers := seq(c.writers, _ => Test);
      readers := seq(c.readers, _ => Test);
      log := [];
    }

    // One step of writer i: the loop in writer_create() around writer_work().
    method AdvanceWriter(i: nat) returns (ok: bool)
      requires i < |writers| && |semaphores.values| == 2
      modifies this, semaphores
      ensures ok <==> WriterStep(c, old(Abs()), i).Some?
      ensures Abs() == if ok then WriterStep(c, old(Abs()), i).value else old(Abs())
    {
      ok := true;
      match writers[i]
      case Test =>
        writers := writers[i := if counter < c.limit then Ready else Exited];
      case Ready =>
        ok := semaphores.Operate(START_WRITE);
        if ok {
          writers := writers[i := Started];
        }
      case Started =>
        writers := writers[i := Loaded(counter)];
      case Loaded(v) =>
        counter := v + 1;
        writers := writers[i := Stored];
      case Stored =>
        log := log + [Wrote(counter)];
        writers := writers[i := Shown];
      case Shown =>
        ok := semaphores.Operate(STOP_WRITE);
        if ok {
          writers := writers[i := Test];
        }
      case Exited =>
        ok := false;
    }

    // One step of reader j: the loop in reader_create() around reader_run().
    method AdvanceReader(j: nat) returns (ok: bool)
      requires j < |readers| && |semaphores.values| == 2
      modifies this, semaphores
      ensures ok <==> ReaderStep(c, old(Abs()), j).Some?
      ensures Abs() == if ok then ReaderStep(c, old(Abs()), j).value else old(Abs())
    {
      ok := true;
      match readers[j]
      case Test =>
        readers := readers[j := if counter < c.limit then Ready else Exited];
      case Ready =>
        ok := semaphores.Operate(START_READ);
        if ok {
          readers := readers[j := Started];
        }
      case Started =>
        log := log + [Read(counter)];
        readers := readers[j := Shown];
      case Shown =>
        ok := semaphores.Operate(STOP_READ);
        if ok {
          readers := readers[j := Test];
        }
      case _ =>
        ok := false;
    }

    method Advance(who: Who) returns (ok: bool)
      requires Reachable(Steps(c), Init(c), Abs())
      modifies this, semaphores
      ensures ok <==> Step(c, old(Abs()), who).Some?
      ensures Abs() == if ok then Step(c, old(Abs()), who).value else old(Abs())
      ensures Reachable(Steps(c), Init(c), Abs())
    {
      ghost var before := Abs();
      ReachableInv(c, before);
      match who {
        case Writer(i) =>
          ok := i < |writers|;
          if ok { ok := AdvanceWriter(i); }
        case Reader(j) =>
          ok := j < |readers|;
          if ok { ok := AdvanceReader(j); }
      }
      if ok {
        ReachableStep(Steps(c), Init(c), before, who);
      }
    }

    // Any interleaving of the processes: as long as the scheduled processes can move the
    // shared memory follows the run, and what has been printed is a sequential log.
    method Execute(sched: seq<Who>) returns (ok: bool)
      requires Abs() == Init(c)
      modifies this, semaphores
      ensures ok <==> Run(Steps(c), Init(c), sched).Some?
      ensures ok ==> Run(Steps(c), Init(c), sched) == Some(Abs())
      ensures Serial(log) && forall n | 0 <= n < |Written(log)| :: Written(log)[n] == n + 1
    {
      assert Run(Steps(c), Init(c), []) == Some(Init(c));
      assert sched[0..] == sched;
      ok := true;
      var k := 0;
      while ok && k < |sched|
        invariant k <= |sched| && Reachable(Steps(c), Init(c), Abs())
        invariant ok ==> Run(Steps(c), Init(c), sched) == Run(Steps(c), Abs(), sched[k..])
        invariant !ok ==> Run(Steps(c), Init(c), sched) == None
        decreases |sched| - k, ok
      {
        assert sched[k..][0] == sched[k] && sched[k..][1..] == sched[k + 1..];
        ok := Advance(sched[k]);
        k := k + 1;
      }
      PrintedInOrder(c, Abs());
    }
  }
}
