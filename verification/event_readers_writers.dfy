// sem_05/lab_05: readers and writers over two Windows events and an interlocked
// counter.  can_write is a manual-reset event: a wait on it leaves it signalled.
// can_read is an auto-reset event: a successful wait resets it.
module EventReadersWriters {
  import opened Wrappers
  import opened Counting
  import opened Schedules

  datatype Config = Config(writers: nat, writerRounds: nat, readers: nat, readerRounds: nat)

  const SOURCE := Config(3, 8, 5, 8)

  // Writer: Waiting, then Entered once WaitForSingleObject(can_write) returns, a load
  // and a store of the shared variable, then SetEvent(can_read).
  // Reader: one phase after each call of start_read() and stop_read(); SawZero is the
  // taken branch of the test of the counter.
  datatype Phase =
    | Waiting
    | Entered | Loaded(v: nat) | Stored
    | GotRead | GotWrite | DidReset | Counted | Uncounted | Signalled | SawZero

  datatype Proc = Proc(rounds: nat, phase: Phase)
  datatype Who = Writer(i: nat) | Reader(j: nat)

  datatype State = State(
    canWrite: bool, canRead: bool, count: int, shared: nat, writers: seq<Proc>, readers: seq<Proc>)

  function Init(c: Config): State {
    State(true, true, 0, 0, seq(c.writers, _ => Proc(0, Waiting)), seq(c.readers, _ => Proc(0, Waiting)))
  }

  // One API call (or load, store, test) of one thread; None when it waits or has returned.
  function Step(c: Config, s: State, who: Who): Option<State> {
    match who
    case Writer(i) => if i < |s.writers| then WriterStep(c, s, i) else None
    case Reader(j) => if j < |s.readers| then ReaderStep(c, s, j) else None
  }

  function WriterStep(c: Config, s: State, i: nat): Option<State>
    requires i < |s.writers|
  {
    var p := s.writers[i];
    match p.phase
    case Waiting =>
      if p.rounds < c.writerRounds && s.canWrite
      then Some(s.(writers := s.writers[i := p.(phase := Entered)])) else None
    case Entered => Some(s.(writers := s.writers[i := p.(phase := Loaded(s.shared))]))
    case Loaded(v) => Some(s.(shared := v + 1, writers := s.writers[i := p.(phase := Stored)]))
    case Stored => Some(s.(canRead := true, writers := s.writers[i := Proc(p.rounds + 1, Waiting)]))
    case _ => None
  }

  function ReaderStep(c: Config, s: State, j: nat): Option<State>
    requires j < |s.readers|
  {
    var p := s.readers[j];
    match p.phase
    case Waiting =>
      if p.rounds < c.readerRounds && s.canRead
      then Some(s.(canRead := false, readers := s.readers[j := p.(phase := GotRead)])) else None
    case GotRead =>
      if s.canWrite then Some(s.(readers := s.readers[j := p.(phase := GotWrite)])) else None
    case GotWrite => Some(s.(canWrite := false, readers := s.readers[j := p.(phase := DidReset)]))
    case DidReset => Some(s.(count := s.count + 1, readers := s.readers[j := p.(phase := Counted)]))
    case Counted => Some(s.(count := s.count - 1, readers := s.readers[j := p.(phase := Uncounted)]))
    case Uncounted => Some(s.(canRead := true, readers := s.readers[j := p.(phase := Signalled)]))
    case Signalled =>
      Some(s.(readers := s.readers[j := if s.count == 0 then p.(phase := SawZero) else Proc(p.rounds + 1, Waiting)]))
    case SawZero => Some(s.(canWrite := true, readers := s.readers[j := Proc(p.rounds + 1, Waiting)]))
    case _ => None
  }

  // The transition system; a schedule of it is any interleaving.
  function Steps(c: Config): (State, Who) -> Option<State> {
    (s: State, who: Who) => Step(c, s, who)
  }

  predicate AllDone(c: Config, s: State) {
    && (forall p | p in s.writers :: p == Proc(c.writerRounds, Waiting))
    && (forall p | p in s.readers :: p == Proc(c.readerRounds, Waiting))
  }

  ghost predicate Stuck(c: Config, s: State) {
    forall who :: Step(c, s, who) == None
  }

  // ---- The invariant of every reachable state ----

  // Readers between InterlockedIncrement and InterlockedDecrement.
  ghost function Counts(p: Proc): nat { if p.phase == Counted then 1 else 0 }

  // Readers that have consumed can_read and not yet signalled it.
  ghost function OwesRead(p: Proc): nat {
    match p.phase
    case GotRead => 1
    case GotWrite => 1
    case DidReset => 1
    case Counted => 1
    case Uncounted => 1
    case _ => 0
  }

  // Readers past ResetEvent(can_write) that have not left stop_read().
  ghost function OwesWrite(p: Proc): nat {
    match p.phase
    case DidReset => 1
    case Counted => 1
    case Uncounted => 1
    case Signalled => 1
    case SawZero => 1
    case _ => 0
  }

  // Increments of the shared variable that have been stored.
  ghost function Stores(p: Proc): nat { p.rounds + if p.phase == Stored then 1 else 0 }

  ghost predicate WriterProcs(writers: seq<Proc>, rounds: nat) {
    forall i | 0 <= i < |writers| ::
      && (writers[i].phase.Waiting? || writers[i].phase.Entered?
          || writers[i].phase.Loaded? || writers[i].phase.Stored?)
      && writers[i].rounds <= rounds
      && (writers[i].phase != Waiting ==> writers[i].rounds < rounds)
  }

  ghost predicate ReaderProcs(readers: seq<Proc>, rounds: nat) {
    forall j | 0 <= j < |readers| ::
      && !readers[j].phase.Entered? && !readers[j].phase.Loaded? && !readers[j].phase.Stored?
      && readers[j].rounds <= rounds
      && (readers[j].phase != Waiting ==> readers[j].rounds < rounds)
  }

  ghost predicate Inv(c: Config, s: State) {
    && |s.writers| == c.writers && |s.readers| == c.readers
    && WriterProcs(s.writers, c.writerRounds) && ReaderProcs(s.readers, c.readerRounds)
    && s.count == Total(s.readers, Counts)
    && (!s.canRead ==> Total(s.readers, OwesRead) > 0)
    && (!s.canWrite ==> Total(s.readers, OwesWrite) > 0)
  }

  lemma InitInv(c: Config)
    ensures Inv(c, Init(c))
  {
    TotalUniform(Init(c).readers, Counts, 0);
  }

  // The reader's own list after a step, and the sums over it.
  lemma ReaderSums(c: Config, s: State, j: nat)
    requires j < |s.readers| && ReaderStep(c, s, j).Some?
    ensures var s' := ReaderStep(c, s, j).value;
            && |s'.readers| == |s.readers| && s'.readers == s.readers[j := s'.readers[j]]
            && Total(s'.readers, Counts) + Counts(s.readers[j]) == Total(s.readers, Counts) + Counts(s'.readers[j])
            && Total(s'.readers, OwesRead) + OwesRead(s.readers[j])
               == Total(s.readers, OwesRead) + OwesRead(s'.readers[j])
            && Total(s'.readers, OwesWrite) + OwesWrite(s.readers[j])
               == Total(s.readers, OwesWrite) + OwesWrite(s'.readers[j])
            && Total(s'.readers, Counts) <= Total(s'.readers, OwesWrite)
            && OwesRead(s'.readers[j]) <= Total(s'.readers, OwesRead)
            && OwesWrite(s'.readers[j]) <= Total(s'.readers, OwesWrite)
  {
    var s' := ReaderStep(c, s, j).value;
    var q := s'.readers[j];
    assert s'.readers == s.readers[j := q];
    TotalUpdate(s.readers, j, q, Counts);
    TotalUpdate(s.readers, j, q, OwesRead);
    TotalUpdate(s.readers, j, q, OwesWrite);
    TotalMonotone(s'.readers, Counts, OwesWrite);
    TotalAtLeast(s'.readers, j, OwesRead);
    TotalAtLeast(s'.readers, j, OwesWrite);
  }

  lemma ReaderStepInv(c: Config, s: State, j: nat)
    requires Inv(c, s) && j < |s.readers| && ReaderStep(c, s, j).Some?
    ensures Inv(c, ReaderStep(c, s, j).value)
  {
    ReaderSums(c, s, j);
  }

  lemma StepInv(c: Config, s: State, who: Who)
    requires Inv(c, s) && Step(c, s, who).Some?
    ensures Inv(c, Step(c, s, who).value)
  {
    match who
    case Writer(i) =>
    case Reader(j) => ReaderStepInv(c, s, j);
  }

  lemma ReachableInv(c: Config, s: State)
    requires Reachable(Steps(c), Init(c), s)
    ensures Inv(c, s)
  {
    var inv := (t: State) => Inv(c, t);
    forall t, who | inv(t) && Step(c, t, who).Some? ensures inv(Step(c, t, who).value) {
      StepInv(c, t, who);
    }
    InitInv(c);
    ReachableKeeps(Steps(c), inv, Init(c), s);
  }

  // ---- Progress ----

  // A reader that owes can_write can always move, whatever the events are.
  lemma NotStuck(c: Config, s: State)
    requires Inv(c, s) && !AllDone(c, s)
    ensures exists who :: Step(c, s, who).Some?
  {
    if !s.canWrite {
      var j := TotalPositive(s.readers, OwesWrite);
      assert Step(c, s, Reader(j)).Some?;
    } else if i :| 0 <= i < |s.writers| && s.writers[i] != Proc(c.writerRounds, Waiting) {
      assert Step(c, s, Writer(i)).Some?;
    } else if !s.canRead {
      var j := TotalPositive(s.readers, OwesRead);
      assert Step(c, s, Reader(j)).Some?;
    } else {
      assert forall p | p in s.writers :: p == Proc(c.writerRounds, Waiting);
      var j :| 0 <= j < |s.readers| && s.readers[j] != Proc(c.readerRounds, Waiting);
      assert Step(c, s, Reader(j)).Some?;
    }
  }

  // No reachable state has all unfinished threads waiting, and when all threads have
  // returned both events are signalled and the counter is back to zero.
  lemma Completes(c: Config, s: State)
    requires Reachable(Steps(c), Init(c), s) && Stuck(c, s)
    ensures AllDone(c, s) && s.canRead && s.canWrite && s.count == 0
  {
    ReachableInv(c, s);
    if !AllDone(c, s) {
      NotStuck(c, s);
    }
    assert forall k | 0 <= k < |s.readers| :: s.readers[k] in s.readers;
    TotalUniform(s.readers, Counts, 0);
    TotalUniform(s.readers, OwesRead, 0);
    TotalUniform(s.readers, OwesWrite, 0);
  }

  // Steps a thread has taken: four in a writer's round, at most eight in a reader's.
  ghost function WriterTaken(p: Proc): nat {
    4 * p.rounds +
    match p.phase
    case Entered => 1
    case Loaded(_) => 2
    case Stored => 3
    case _ => 0
  }

  ghost function ReaderTaken(p: Proc): nat {
    8 * p.rounds +
    match p.phase
    case GotRead => 1
    case GotWrite => 2
    case DidReset => 3
    case Counted => 4
    case Uncounted => 5
    case Signalled => 6
    case SawZero => 7
    case _ => 0
  }

  ghost function Work(s: State): nat {
    Total(s.writers, WriterTaken) + Total(s.readers, ReaderTaken)
  }

  function AllWork(c: Config): nat {
    c.writers * (4 * c.writerRounds) + c.readers * (8 * c.readerRounds)
  }

  lemma WriterWork(c: Config, s: State, i: nat)
    requires i < |s.writers| && WriterStep(c, s, i).Some?
    ensures Work(WriterStep(c, s, i).value) > Work(s)
  {
    var s' := WriterStep(c, s, i).value;
    assert s'.writers == s.writers[i := s'.writers[i]] && s'.readers == s.readers;
    TotalUpdate(s.writers, i, s'.writers[i], WriterTaken);
  }

  lemma ReaderGains(c: Config, s: State, j: nat)
    requires j < |s.readers| && ReaderStep(c, s, j).Some?
    ensures var s' := ReaderStep(c, s, j).value;
            |s'.readers| == |s.readers| && ReaderTaken(s'.readers[j]) > ReaderTaken(s.readers[j])
  {
  }

  lemma ReaderOnly(c: Config, s: State, j: nat)
    requires j < |s.readers| && ReaderStep(c, s, j).Some?
    ensures var s' := ReaderStep(c, s, j).value;
            |s'.readers| == |s.readers| && s'.readers == s.readers[j := s'.readers[j]]
            && s'.writers == s.writers && s'.shared == s.shared
  {
  }

  lemma ReaderWork(c: Config, s: State, j: nat)
    requires j < |s.readers| && ReaderStep(c, s, j).Some?
    ensures Work(ReaderStep(c, s, j).value) > Work(s)
  {
    ReaderOnly(c, s, j);
    ReaderGains(c, s, j);
    TotalUpdate(s.readers, j, ReaderStep(c, s, j).value.readers[j], ReaderTaken);
  }

  lemma StepWork(c: Config, s: State, who: Who)
    requires Step(c, s, who).Some?
    ensures Work(Step(c, s, who).value) > Work(s)
  {
    match who
    case Writer(i) => WriterWork(c, s, i);
    case Reader(j) => ReaderWork(c, s, j);
  }

  lemma WorkBound(c: Config, s: State)
    requires Inv(c, s)
    ensures Work(s) <= AllWork(c)
  {
    TotalBound(s.writers, WriterTaken, 4 * c.writerRounds);
    TotalBound(s.readers, ReaderTaken, 8 * c.readerRounds);
  }

  lemma {:induction false} RunWork(c: Config, s: State, sched: seq<Who>)
    requires Inv(c, s) && Run(Steps(c), s, sched).Some?
    ensures Work(Run(Steps(c), s, sched).value) >= Work(s) + |sched|
    decreases |sched|
  {
    if sched != [] {
      StepWork(c, s, sched[0]);
      StepInv(c, s, sched[0]);
      RunWork(c, Step(c, s, sched[0]).value, sched[1..]);
    }
  }

  // Every run ends: no interleaving is longer than AllWork.
  lemma RunLength(c: Config, sched: seq<Who>)
    requires Run(Steps(c), Init(c), sched).Some?
    ensures |sched| <= AllWork(c)
  {
    InitInv(c);
    RunWork(c, Init(c), sched);
    assert Reachable(Steps(c), Init(c), Run(Steps(c), Init(c), sched).value);
    ReachableInv(c, Run(Steps(c), Init(c), sched).value);
    WorkBound(c, Run(Steps(c), Init(c), sched).value);
  }

  // ---- What the events do not protect: the final value of the shared variable ----

  // The least value a complete run can end with.
  function Fewest(c: Config): nat {
    if c.writers == 0 || c.writerRounds == 0 then 0
    else if c.writers == 1 then c.writerRounds
    else if c.writerRounds == 1 then 1
    else 2
  }

  // The shared variable and every loaded copy lie below the number of stores; once there was
  // a store both are positive, a copy at the latest in the second round of its writer.
  ghost predicate Bounded(c: Config, s: State) {
    var stores := Total(s.writers, Stores);
    && s.shared <= stores && (stores >= 1 ==> s.shared >= 1)
    && (stores == c.writers * c.writerRounds && c.writers >= 1 && c.writerRounds >= 2 ==> s.shared >= 2)
    && (c.writers == 1 ==> s.shared == stores)
    && forall i | 0 <= i < |s.writers| && s.writers[i].phase.Loaded? :: CopyBounded(c, s, i)
  }

  ghost predicate CopyBounded(c: Config, s: State, i: nat)
    requires i < |s.writers| && s.writers[i].phase.Loaded?
  {
    && s.writers[i].phase.v <= Total(s.writers, Stores)
    && (s.writers[i].rounds >= 1 ==> s.writers[i].phase.v >= 1)
    && (c.writers == 1 ==> s.writers[i].phase.v == s.shared)
  }

  // After the last store every writer has stored in all its rounds.
  lemma LastStore(c: Config, s: State, i: nat)
    requires Inv(c, s) && i < |s.writers| && s.writers[i].phase == Stored
    requires Total(s.writers, Stores) == c.writers * c.writerRounds
    ensures s.writers[i].rounds + 1 == c.writerRounds
  {
    TotalBound(s.writers, Stores, c.writerRounds);
  }

  lemma WriterStores(c: Config, s: State, i: nat)
    requires i < |s.writers| && WriterStep(c, s, i).Some?
    ensures var p, s' := s.writers[i], WriterStep(c, s, i).value; var q := s'.writers[i];
            && |s'.writers| == |s.writers| && s'.writers == s.writers[i := q]
            && Total(s'.writers, Stores) == Total(s.writers, Stores) + (if p.phase.Loaded? then 1 else 0)
            && p.rounds <= Total(s.writers, Stores)
            && s'.shared == (if p.phase.Loaded? then p.phase.v + 1 else s.shared)
            && (p.phase.Loaded? ==> q.phase == Stored)
            && (q.phase.Loaded? ==> !p.phase.Loaded? && q == Proc(p.rounds, Loaded(s.shared)))
  {
    var q := WriterStep(c, s, i).value.writers[i];
    TotalUpdate(s.writers, i, q, Stores);
    TotalAtLeast(s.writers, i, Stores);
  }

  lemma CopiesBounded(c: Config, s: State, i: nat, k: nat)
    requires Inv(c, s) && Bounded(c, s) && i < |s.writers| && WriterStep(c, s, i).Some? && k < |s.writers|
    requires WriterStep(c, s, i).value.writers[k].phase.Loaded?
    ensures CopyBounded(c, WriterStep(c, s, i).value, k)
  {
    WriterStores(c, s, i);
    if k != i {
      assert CopyBounded(c, s, k);
    }
  }

  lemma WriterBounded(c: Config, s: State, i: nat)
    requires Inv(c, s) && Bounded(c, s) && i < |s.writers| && WriterStep(c, s, i).Some?
    ensures Bounded(c, WriterStep(c, s, i).value)
  {
    var s' := WriterStep(c, s, i).value;
    WriterStores(c, s, i);
    if s.writers[i].phase.Loaded? {
      assert CopyBounded(c, s, i);
      StepInv(c, s, Writer(i));
      if Total(s'.writers, Stores) == c.writers * c.writerRounds {
        LastStore(c, s', i);
      }
    }
    forall k | 0 <= k < |s'.writers| && s'.writers[k].phase.Loaded? ensures CopyBounded(c, s', k) {
      CopiesBounded(c, s, i, k);
    }
  }

  // A state with the same writers and the same shared variable is bounded alike.
  lemma BoundedCopies(c: Config, s: State, s': State)
    requires Bounded(c, s) && s'.writers == s.writers && s'.shared == s.shared
    ensures Bounded(c, s')
  {
    forall i | 0 <= i < |s'.writers| && s'.writers[i].phase.Loaded? ensures CopyBounded(c, s', i) {
      assert CopyBounded(c, s, i);
    }
  }

  lemma StepBounded(c: Config, s: State, who: Who)
    requires Inv(c, s) && Bounded(c, s) && Step(c, s, who).Some?
    ensures Bounded(c, Step(c, s, who).value)
  {
    match who
    case Writer(i) => WriterBounded(c, s, i);
    case Reader(j) =>
      ReaderOnly(c, s, j);
      BoundedCopies(c, s, Step(c, s, who).value);
  }

  ghost predicate InvBounded(c: Config, s: State) { Inv(c, s) && Bounded(c, s) }

  lemma StepInvBounded(c: Config, s: State, who: Who)
    requires InvBounded(c, s) && Step(c, s, who).Some?
    ensures InvBounded(c, Step(c, s, who).value)
  {
    StepInv(c, s, who);
    StepBounded(c, s, who);
  }

  lemma InitBounded(c: Config)
    ensures InvBounded(c, Init(c))
  {
    InitInv(c);
    TotalUniform(Init(c).writers, Stores, 0);
  }

  lemma ReachableBounded(c: Config, s: State)
    requires Reachable(Steps(c), Init(c), s)
    ensures Bounded(c, s)
  {
    var inv := (t: State) => InvBounded(c, t);
    forall t, who | inv(t) && Step(c, t, who).Some? ensures inv(Step(c, t, who).value) {
      StepInvBounded(c, t, who);
    }
    InitBounded(c);
    ReachableKeeps(Steps(c), inv, Init(c), s);
  }

  lemma DoneStores(c: Config, s: State)
    requires Inv(c, s) && AllDone(c, s)
    ensures Total(s.writers, Stores) == c.writers * c.writerRounds
  {
    assert forall k | 0 <= k < |s.writers| :: s.writers[k] in s.writers;
    TotalUniform(s.writers, Stores, c.writerRounds);
  }

  // No more increments are counted than were made, and with two rounds or more at least two.
  lemma SharedBound(c: Config, s: State)
    requires Reachable(Steps(c), Init(c), s) && AllDone(c, s)
    ensures Fewest(c) <= s.shared <= c.writers * c.writerRounds
  {
    ReachableInv(c, s);
    ReachableBounded(c, s);
    DoneStores(c, s);
    if c.writers >= 1 && c.writerRounds >= 1 {
      AtLeastOne(c.writers, c.writerRounds);
    }
  }

  lemma AtLeastOne(a: nat, b: nat)
    requires a >= 1 && b >= 1
    ensures a * b >= 1 && a * b >= a && a * b >= b
  {
    assert (a - 1) * (b - 1) >= 0;
    assert a * b == (a - 1) * (b - 1) + (a - 1) + (b - 1) + 1;
  }

  // ---- Runs for every final value ----

  ghost predicate WritersDone(c: Config, s: State) {
    |s.writers| == c.writers && forall i | 0 <= i < |s.writers| :: s.writers[i] == Proc(c.writerRounds, Waiting)
  }

  lemma WritersStayDone(c: Config, s: State, who: Who)
    requires WritersDone(c, s) && Step(c, s, who).Some?
    ensures WritersDone(c, Step(c, s, who).value) && Step(c, s, who).value.shared == s.shared
  {
    match who
    case Writer(i) => assert false;
    case Reader(j) => ReaderOnly(c, s, j);
  }

  // Any reachable state can be run to completion; once the writers are done the value stays.
  lemma Finish(c: Config, s: State) returns (s': State)
    requires Reachable(Steps(c), Init(c), s)
    ensures Reachable(Steps(c), Init(c), s') && AllDone(c, s')
    ensures WritersDone(c, s) ==> s'.shared == s.shared
    decreases AllWork(c) - Work(s)
  {
    ReachableInv(c, s);
    if AllDone(c, s) {
      s' := s;
    } else {
      var next := SomeStep(c, s);
      s' := Finish(c, next);
    }
  }

  lemma SomeStep(c: Config, s: State) returns (next: State)
    requires Reachable(Steps(c), Init(c), s) && Inv(c, s) && !AllDone(c, s)
    ensures Reachable(Steps(c), Init(c), next) && Work(s) < Work(next) <= AllWork(c)
    ensures WritersDone(c, s) ==> WritersDone(c, next) && next.shared == s.shared
  {
    NotStuck(c, s);
    var who :| Step(c, s, who).Some?;
    next := Step(c, s, who).value;
    StepWork(c, s, who);
    ReachableStep(Steps(c), Init(c), s, who);
    ReachableInv(c, next);
    WorkBound(c, next);
    if WritersDone(c, s) {
      WritersStayDone(c, s, who);
    }
  }

  // Writer i waits and loads.
  lemma Load(c: Config, s: State, i: nat) returns (s': State)
    requires Reachable(Steps(c), Init(c), s) && s.canWrite
    requires i < |s.writers| && s.writers[i].phase == Waiting && s.writers[i].rounds < c.writerRounds
    ensures Reachable(Steps(c), Init(c), s')
    ensures s' == s.(writers := s.writers[i := Proc(s.writers[i].rounds, Loaded(s.shared))])
  {
    var r := s.writers[i].rounds;
    ReachableStep(Steps(c), Init(c), s, Writer(i));
    var s1 := Step(c, s, Writer(i)).value;
    ReachableStep(Steps(c), Init(c), s1, Writer(i));
    s' := Step(c, s1, Writer(i)).value;
    assert s'.writers == s.writers[i := Proc(r, Loaded(s.shared))];
  }

  // Writer i stores what it loaded plus one, and ends its round.
  lemma Store(c: Config, s: State, i: nat) returns (s': State)
    requires Reachable(Steps(c), Init(c), s) && i < |s.writers| && s.writers[i].phase.Loaded?
    ensures Reachable(Steps(c), Init(c), s')
    ensures s' == s.(canRead := true, shared := s.writers[i].phase.v + 1,
                     writers := s.writers[i := Proc(s.writers[i].rounds + 1, Waiting)])
  {
    var r := s.writers[i].rounds;
    ReachableStep(Steps(c), Init(c), s, Writer(i));
    var s1 := Step(c, s, Writer(i)).value;
    ReachableStep(Steps(c), Init(c), s1, Writer(i));
    s' := Step(c, s1, Writer(i)).value;
    assert s'.writers == s.writers[i := Proc(r + 1, Waiting)];
  }

  // Writer i runs n undisturbed rounds.
  lemma OwnRounds(c: Config, s: State, i: nat, n: nat) returns (s': State)
    requires Reachable(Steps(c), Init(c), s) && s.canWrite
    requires i < |s.writers| && s.writers[i].phase == Waiting && s.writers[i].rounds + n <= c.writerRounds
    ensures Reachable(Steps(c), Init(c), s') && s'.canWrite && s'.shared == s.shared + n
    ensures s'.writers == s.writers[i := Proc(s.writers[i].rounds + n, Waiting)]
  {
    if n == 0 {
      s' := s;
    } else {
      s' := OwnRounds(c, s, i, n - 1);
      s' := Load(c, s', i);
      s' := Store(c, s', i);
    }
  }

  ghost function Ended(p: Proc): nat { p.rounds }

  // The rounds ended by all writers but the first.
  ghost function Others(s: State): nat
    requires s.writers != []
  {
    Total(s.writers[1..], Ended)
  }

  // All writers but the first stand between rounds, and nothing keeps them from going on.
  ghost predicate Calm(c: Config, s: State) {
    && Reachable(Steps(c), Init(c), s) && s.canWrite && |s.writers| == c.writers >= 1
    && forall i | 1 <= i < |s.writers| :: s.writers[i].phase == Waiting && s.writers[i].rounds <= c.writerRounds
  }

  lemma SomeoneLeft(c: Config, s: State) returns (i: nat)
    requires Calm(c, s) && Others(s) < (c.writers - 1) * c.writerRounds
    ensures 1 <= i < |s.writers| && s.writers[i].rounds < c.writerRounds
  {
    var rest := s.writers[1..];
    TotalBound(rest, Ended, c.writerRounds);
    var k :| 0 <= k < |rest| && Ended(rest[k]) != c.writerRounds;
    i := k + 1;
  }

  lemma OthersReplaced(s: State, i: nat, p: Proc)
    requires 1 <= i < |s.writers|
    ensures Others(s.(writers := s.writers[i := p])) + s.writers[i].rounds == Others(s) + p.rounds
  {
    assert s.writers[i := p][1..] == s.writers[1..][i - 1 := p];
    TotalUpdate(s.writers[1..], i - 1, p, Ended);
  }

  // The other writers run n undisturbed rounds.
  lemma OtherRounds(c: Config, s: State, n: nat) returns (s': State)
    requires Calm(c, s) && Others(s) + n <= (c.writers - 1) * c.writerRounds
    ensures Calm(c, s') && s'.writers[0] == s.writers[0]
    ensures s'.shared == s.shared + n && Others(s') == Others(s) + n
  {
    if n == 0 {
      s' := s;
    } else {
      s' := OtherRounds(c, s, n - 1);
      var before := s';
      var i := SomeoneLeft(c, before);
      OthersReplaced(before, i, Proc(before.writers[i].rounds + 1, Waiting));
      s' := OwnRounds(c, before, i, 1);
    }
  }

  // The first writer loads 0, k rounds of the others pass, and it stores 1.
  lemma FirstStore(c: Config, k: nat) returns (s: State)
    requires c.writers >= 1 && c.writerRounds >= 1 && k <= (c.writers - 1) * c.writerRounds
    ensures Calm(c, s) && s.writers[0] == Proc(1, Waiting) && s.shared == 1 && Others(s) == k
  {
    s := Init(c);
    ReachableStart(Steps(c), Init(c));
    TotalUniform(s.writers[1..], Ended, 0);
    s := Load(c, s, 0);
    assert s.writers[1..] == Init(c).writers[1..];
    s := OtherRounds(c, s, k);
    var before := s;
    s := Store(c, s, 0);
    assert s.writers[1..] == before.writers[1..];
  }

  lemma OthersDone(c: Config, s: State)
    requires Calm(c, s) && s.writers[0] == Proc(c.writerRounds, Waiting)
    requires Others(s) == (c.writers - 1) * c.writerRounds
    ensures WritersDone(c, s)
  {
    var rest := s.writers[1..];
    TotalBound(rest, Ended, c.writerRounds);
    forall i | 0 <= i < |s.writers| ensures s.writers[i] == Proc(c.writerRounds, Waiting) {
      if i > 0 {
        assert Ended(rest[i - 1]) == c.writerRounds;
      }
    }
  }

  // The last of the other writers loads, j rounds of the first pass, and it stores.
  lemma LastLoad(c: Config, s: State, j: nat) returns (s': State)
    requires Calm(c, s) && Others(s) == (c.writers - 1) * c.writerRounds - 1
    requires s.writers[0].phase == Waiting && s.writers[0].rounds + j <= c.writerRounds
    ensures Calm(c, s') && s'.writers[0] == Proc(s.writers[0].rounds + j, Waiting)
    ensures s'.shared == s.shared + 1 && Others(s') == (c.writers - 1) * c.writerRounds
  {
    var i := SomeoneLeft(c, s);
    OthersReplaced(s, i, Proc(s.writers[i].rounds + 1, Waiting));
    s' := Load(c, s, i);
    s' := OwnRounds(c, s', 0, j);
    s' := Store(c, s', i);
    assert s'.writers[1..] == s.writers[i := Proc(s.writers[i].rounds + 1, Waiting)][1..];
  }

  // k increments are lost to the first store of the first writer, j to the last of another.
  lemma LosingRun(c: Config, k: nat, j: nat) returns (s: State)
    requires c.writers >= 2 && j < c.writerRounds && k < (c.writers - 1) * c.writerRounds
    ensures Reachable(Steps(c), Init(c), s) && WritersDone(c, s)
    ensures s.shared == c.writers * c.writerRounds - k - j
  {
    var others, r := (c.writers - 1) * c.writerRounds, c.writerRounds;
    assert c.writers * r == others + r;
    s := FirstStore(c, k);
    s := OtherRounds(c, s, others - 1 - k);
    s := LastLoad(c, s, j);
    var before := s;
    s := OwnRounds(c, s, 0, r - 1 - j);
    assert s.writers[1..] == before.writers[1..];
    OthersDone(c, s);
  }

  // With one round each, k increments are lost to the store of the first writer.
  lemma OneRoundRun(c: Config, k: nat) returns (s: State)
    requires c.writers >= 1 && c.writerRounds == 1 && k < c.writers
    ensures Reachable(Steps(c), Init(c), s) && WritersDone(c, s) && s.shared == c.writers - k
  {
    s := FirstStore(c, k);
    s := OtherRounds(c, s, c.writers - 1 - k);
    OthersDone(c, s);
  }

  lemma Attained(c: Config, v: nat) returns (s: State)
    requires Fewest(c) <= v <= c.writers * c.writerRounds
    ensures Reachable(Steps(c), Init(c), s) && AllDone(c, s) && s.shared == v
  {
    ReachableStart(Steps(c), Init(c));
    if c.writers == 0 || c.writerRounds == 0 {
      s := Init(c);
    } else if c.writers == 1 {
      s := OwnRounds(c, Init(c), 0, c.writerRounds);
    } else if c.writerRounds == 1 {
      s := OneRoundRun(c, c.writers - v);
    } else {
      var others := (c.writers - 1) * c.writerRounds;
      assert c.writers * c.writerRounds == others + c.writerRounds;
      var lost := others + c.writerRounds - v;
      AtLeastOne(c.writers - 1, c.writerRounds);
      if lost < others {
        s := LosingRun(c, lost, 0);
      } else {
        s := LosingRun(c, others - 1, lost - (others - 1));
      }
    }
    s := Finish(c, s);
  }

  // The values a complete run can end with: with two or more writers every value from the
  // least of 2 and the number of rounds up to the number of increments made.
  lemma FinalValues(c: Config, v: nat)
    ensures (exists s :: Reachable(Steps(c), Init(c), s) && AllDone(c, s) && s.shared == v)
            <==> Fewest(c) <= v <= c.writers * c.writerRounds
  {
    if s :| Reachable(Steps(c), Init(c), s) && AllDone(c, s) && s.shared == v {
      SharedBound(c, s);
    }
    if Fewest(c) <= v <= c.writers * c.writerRounds {
      var s := Attained(c, v);
    }
  }

  // The program as written: 2 to 24.
  lemma SourceValues(v: nat)
    ensures (exists s :: Reachable(Steps(SOURCE), Init(SOURCE), s) && AllDone(SOURCE, s) && s.shared == v)
            <==> 2 <= v <= 24
  {
    FinalValues(SOURCE, v);
  }

  // Increments can get lost as soon as there are two writers with a round each.
  lemma LostUpdate(c: Config) returns (s: State)
    requires c.writers >= 2 && c.writerRounds >= 1
    ensures Reachable(Steps(c), Init(c), s) && AllDone(c, s) && s.shared == Fewest(c) < c.writers * c.writerRounds
  {
    AtLeastOne(c.writers, c.writerRounds);
    if c.writerRounds >= 2 {
      assert c.writers * c.writerRounds == (c.writers - 1) * c.writerRounds + c.writerRounds;
      AtLeastOne(c.writers - 1, c.writerRounds);
    }
    s := Attained(c, Fewest(c));
  }

  // Every complete run ends with one increment per writer round if and only if no two
  // writers can overlap.
  lemma ExactCountIff(c: Config)
    ensures (forall s | Reachable(Steps(c), Init(c), s) && AllDone(c, s) :: s.shared == c.writers * c.writerRounds)
            <==> c.writers <= 1 || c.writerRounds == 0
  {
    if c.writers <= 1 || c.writerRounds == 0 {
      forall s | Reachable(Steps(c), Init(c), s) && AllDone(c, s) ensures s.shared == c.writers * c.writerRounds {
        SharedBound(c, s);
      }
    } else {
      var s := LostUpdate(c);
    }
  }

  // The program as written: every interleaving ends, within 416 steps, with all eight
  // threads done, both events signalled and 2 to 24 increments counted.
  lemma SourceProgram(sched: seq<Who>)
    requires Run(Steps(SOURCE), Init(SOURCE), sched).Some?
    ensures |sched| <= 416
    ensures var s := Run(Steps(SOURCE), Init(SOURCE), sched).value;
            Stuck(SOURCE, s) ==> AllDone(SOURCE, s) && s.canRead && s.canWrite && s.count == 0 && 2 <= s.shared <= 24
  {
    var s := Run(Steps(SOURCE), Init(SOURCE), sched).value;
    RunLength(SOURCE, sched);
    assert Reachable(Steps(SOURCE), Init(SOURCE), s);
    if Stuck(SOURCE, s) {
      Completes(SOURCE, s);
      SharedBound(SOURCE, s);
    }
  }

  // A writer between its wait and its SetEvent while a reader is counted as active.
  ghost predicate Overlap(s: State) {
    && (exists i :: 0 <= i < |s.writers| && s.writers[i].phase != Waiting)
    && (exists j :: 0 <= j < |s.readers| && s.readers[j].phase == Counted)
  }

  // Readers and writers exclude each other only when one side has nothing to do.
  lemma OverlapIff(c: Config)
    ensures (exists s :: Reachable(Steps(c), Init(c), s) && Overlap(s))
            <==> c.writers >= 1 && c.writerRounds >= 1 && c.readers >= 1 && c.readerRounds >= 1
  {
    if s :| Reachable(Steps(c), Init(c), s) && Overlap(s) {
      ReachableInv(c, s);
    }
    if c.writers >= 1 && c.writerRounds >= 1 && c.readers >= 1 && c.readerRounds >= 1 {
      var s0 := Init(c);
      assert Run(Steps(c), s0, []) == Some(s0);
      ReachableStep(Steps(c), Init(c), s0, Writer(0));
      var s1 := Step(c, s0, Writer(0)).value;
      ReachableStep(Steps(c), Init(c), s1, Reader(0));
      var s2 := Step(c, s1, Reader(0)).value;
      ReachableStep(Steps(c), Init(c), s2, Reader(0));
      var s3 := Step(c, s2, Reader(0)).value;
      ReachableStep(Steps(c), Init(c), s3, Reader(0));
      var s4 := Step(c, s3, Reader(0)).value;
      ReachableStep(Steps(c), Init(c), s4, Reader(0));
      var s5 := Step(c, s4, Reader(0)).value;
      assert s5.writers[0].phase == Entered && s5.readers[0].phase == Counted;
      assert Overlap(s5);
    }
  }

  // ---- What the events do guarantee ----

  // In every reachable state a thread is kept from moving only by an event it waits for: a writer
  // between rounds by can_write, a reader between rounds by can_read and then by can_write.
  lemma CanMove(c: Config, s: State, who: Who)
    requires Reachable(Steps(c), Init(c), s)
    ensures |s.writers| == c.writers && |s.readers| == c.readers
    ensures Step(c, s, who).Some? <==>
            match who
            case Writer(i) =>
              i < c.writers && (s.writers[i].phase == Waiting ==> s.writers[i].rounds < c.writerRounds && s.canWrite)
            case Reader(j) =>
              j < c.readers
              && (s.readers[j].phase == Waiting ==> s.readers[j].rounds < c.readerRounds && s.canRead)
              && (s.readers[j].phase == GotRead ==> s.canWrite)
  {
    ReachableInv(c, s);
  }

  // can_write is reset in every state in which the schedule takes a step.
  ghost predicate StaysReset(c: Config, s: State, sched: seq<Who>)
    decreases |sched|
  {
    sched != [] ==>
      !s.canWrite && Step(c, s, sched[0]).Some? && StaysReset(c, Step(c, s, sched[0]).value, sched[1..])
  }

  // Rounds of a writer that have got past can_write.
  ghost function Begun(p: Proc): nat { p.rounds + if p.phase == Waiting then 0 else 1 }

  // Rounds of a reader that have got past both waits.
  ghost function Passed(p: Proc): nat { p.rounds + if p.phase == Waiting || p.phase == GotRead then 0 else 1 }

  // Nobody has got past can_write between the two states.
  ghost predicate NobodyPassed(s: State, s': State) {
    && |s'.writers| == |s.writers| && |s'.readers| == |s.readers|
    && (forall i | 0 <= i < |s.writers| :: Begun(s'.writers[i]) == Begun(s.writers[i]))
    && (forall j | 0 <= j < |s.readers| :: Passed(s'.readers[j]) == Passed(s.readers[j]))
  }

  lemma {:induction false} WriterReset(c: Config, s: State, i: nat)
    requires !s.canWrite && i < |s.writers| && WriterStep(c, s, i).Some?
    ensures NobodyPassed(s, WriterStep(c, s, i).value)
  {
  }

  lemma {:induction false} ReaderReset(c: Config, s: State, j: nat)
    requires !s.canWrite && j < |s.readers| && ReaderStep(c, s, j).Some?
    ensures NobodyPassed(s, ReaderStep(c, s, j).value)
  {
  }

  lemma {:induction false} ResetStep(c: Config, s: State, who: Who)
    requires !s.canWrite && Step(c, s, who).Some?
    ensures NobodyPassed(s, Step(c, s, who).value)
  {
    match who {
      case Writer(i) => WriterReset(c, s, i);
      case Reader(j) => ReaderReset(c, s, j);
    }
  }

  // While can_write is reset nobody gets past it: the writers' rounds that have begun and the
  // readers' rounds that have passed their waits stay the same.
  lemma {:induction false} ResetHolds(c: Config, s: State, sched: seq<Who>)
    requires Inv(c, s) && StaysReset(c, s, sched)
    ensures Run(Steps(c), s, sched).Some? && Inv(c, Run(Steps(c), s, sched).value)
    ensures NobodyPassed(s, Run(Steps(c), s, sched).value)
    decreases |sched|
  {
    if sched != [] {
      ResetStep(c, s, sched[0]);
      StepInv(c, s, sched[0]);
      ResetHolds(c, Step(c, s, sched[0]).value, sched[1..]);
    }
  }

  lemma OneTaken(c: Config, s: State, who: Who, i: nat)
    requires Inv(c, s) && Step(c, s, who).Some? && i < |s.writers|
    ensures var s' := Step(c, s, who).value;
            |s'.writers| == |s.writers|
            && WriterTaken(s'.writers[i]) == WriterTaken(s.writers[i]) + if who == Writer(i) then 1 else 0
  {
  }

  lemma {:induction false} CountSteps(c: Config, s: State, sched: seq<Who>, i: nat)
    requires Inv(c, s) && Run(Steps(c), s, sched).Some? && i < |s.writers|
    ensures var s' := Run(Steps(c), s, sched).value;
            |s'.writers| == |s.writers|
            && WriterTaken(s'.writers[i]) == WriterTaken(s.writers[i]) + multiset(sched)[Writer(i)]
    decreases |sched|
  {
    if sched != [] {
      OneTaken(c, s, sched[0], i);
      StepInv(c, s, sched[0]);
      CountSteps(c, Step(c, s, sched[0]).value, sched[1..], i);
      assert sched == [sched[0]] + sched[1..];
    }
  }

  // So each writer takes at most three more steps, those of the round it is in.
  lemma {:induction false} WritersHeld(c: Config, s: State, sched: seq<Who>, i: nat)
    requires Reachable(Steps(c), Init(c), s) && StaysReset(c, s, sched) && i < c.writers
    ensures |s.writers| == c.writers
    ensures multiset(sched)[Writer(i)] <= if s.writers[i].phase == Waiting then 0 else 3
  {
    ReachableInv(c, s);
    ResetHolds(c, s, sched);
    CountSteps(c, s, sched, i);
    var s' := Run(Steps(c), s, sched).value;
    assert Begun(s'.writers[i]) == Begun(s.writers[i]);
  }

  // What a step does to the events and the counter, call by call.
  lemma {:induction false} EventEffects(c: Config, s: State, who: Who)
    requires Reachable(Steps(c), Init(c), s) && Step(c, s, who).Some?
    ensures match who
            case Writer(i) => i < |s.writers|
            case Reader(j) => j < |s.readers| && |Step(c, s, who).value.readers| == |s.readers|
    ensures var s' := Step(c, s, who).value;
            match who
            case Writer(i) =>
              s'.canWrite == s.canWrite && s'.count == s.count
              && (s'.canRead <==> s.canRead || s.writers[i].phase == Stored)
            case Reader(j) =>
              var p := s.readers[j].phase;
              && s'.canWrite == (if p == GotWrite then false else if p == SawZero then true else s.canWrite)
              && s'.canRead == (if p == Waiting then false else if p == Uncounted then true else s.canRead)
              && s'.count == s.count + (if p == DidReset then 1 else if p == Counted then -1 else 0)
              && (s'.readers[j].phase == SawZero <==> p == Signalled && s.count == 0)
  {
    ReachableInv(c, s);
  }

  // Readers that have taken can_read in a round, and readers that have signalled it.
  ghost function SignalledRead(p: Proc): nat { p.rounds + if p.phase == Signalled || p.phase == SawZero then 1 else 0 }

  // can_read lets one reader through for each time it is signalled.
  ghost predicate OneEach(s: State) {
    Total(s.readers, Begun) + (if s.canRead then 1 else 0)
      <= 1 + Total(s.writers, Ended) + Total(s.readers, SignalledRead)
  }

  lemma {:induction false} WriterOneEach(c: Config, s: State, i: nat)
    requires OneEach(s) && i < |s.writers| && WriterStep(c, s, i).Some?
    ensures OneEach(WriterStep(c, s, i).value)
  {
    var q := WriterStep(c, s, i).value.writers[i];
    assert WriterStep(c, s, i).value.writers == s.writers[i := q];
    TotalUpdate(s.writers, i, q, Ended);
  }

  lemma {:induction false} ReaderOneEach(c: Config, s: State, j: nat)
    requires OneEach(s) && j < |s.readers| && ReaderStep(c, s, j).Some?
    ensures OneEach(ReaderStep(c, s, j).value)
  {
    var q := ReaderStep(c, s, j).value.readers[j];
    ReaderOnly(c, s, j);
    TotalUpdate(s.readers, j, q, Begun);
    TotalUpdate(s.readers, j, q, SignalledRead);
  }

  // In every reachable state the readers have passed can_read at most once more often than it
  // has been signalled by writers and readers together.
  lemma ReadersLetThrough(c: Config, s: State)
    requires Reachable(Steps(c), Init(c), s)
    ensures Total(s.readers, Begun) + (if s.canRead then 1 else 0)
            <= 1 + Total(s.writers, Ended) + Total(s.readers, SignalledRead)
  {
    forall t, who | OneEach(t) && Step(c, t, who).Some? ensures OneEach(Step(c, t, who).value) {
      match who {
        case Writer(i) => WriterOneEach(c, t, i);
        case Reader(j) => ReaderOneEach(c, t, j);
      }
    }
    TotalUniform(Init(c).readers, Begun, 0);
    ReachableKeeps(Steps(c), OneEach, Init(c), s);
  }

  // The counter is positive in every state in which the schedule takes a step.
  ghost predicate StaysCounted(c: Config, s: State, sched: seq<Who>)
    decreases |sched|
  {
    sched != [] ==>
      s.count > 0 && Step(c, s, sched[0]).Some? && StaysCounted(c, Step(c, s, sched[0]).value, sched[1..])
  }

  // While a reader is counted no other finds the counter at zero: those about to signal
  // can_write have been about to do so all the time.
  lemma {:induction false} CountedHolds(c: Config, s: State, sched: seq<Who>, j: nat)
    requires Inv(c, s) && StaysCounted(c, s, sched) && j < |s.readers|
    ensures var r := Run(Steps(c), s, sched);
            r.Some? && |r.value.readers| == |s.readers|
            && (r.value.readers[j].phase == SawZero ==> r.value.readers[j] == s.readers[j])
    decreases |sched|
  {
    if sched != [] {
      StepInv(c, s, sched[0]);
      CountedHolds(c, Step(c, s, sched[0]).value, sched[1..], j);
    }
  }

  // ---- Whole rounds in any order ----

  ghost function RoundLength(who: Who): nat { if who.Writer? then 4 else 8 }

  ghost function Writes(order: seq<Who>): nat {
    if order == [] then 0 else Writes(order[..|order| - 1]) + if order[|order| - 1].Writer? then 1 else 0
  }

  // The thread exists and has a round left.
  ghost predicate Allowed(c: Config, before: seq<Who>, who: Who) {
    match who
    case Writer(i) => i < c.writers && multiset(before)[who] < c.writerRounds
    case Reader(j) => j < c.readers && multiset(before)[who] < c.readerRounds
  }

  ghost function Allows(c: Config): (seq<Who>, Who) -> bool {
    (before: seq<Who>, who: Who) => Allowed(c, before, who)
  }

  ghost predicate Feasible(c: Config, order: seq<Who>) { Follows(Allows(c), order) }

  lemma {:induction false} WritesSnoc(order: seq<Who>, who: Who)
    ensures Writes(order + [who]) == Writes(order) + if who.Writer? then 1 else 0
  {
    assert (order + [who])[..|order|] == order;
  }

  // Between rounds both events are signalled and nobody is counted.
  ghost predicate Between(c: Config, s: State, order: seq<Who>) {
    && |s.writers| == c.writers && |s.readers| == c.readers
    && (forall i | 0 <= i < c.writers :: s.writers[i] == Proc(multiset(order)[Writer(i)], Waiting))
    && (forall j | 0 <= j < c.readers :: s.readers[j] == Proc(multiset(order)[Reader(j)], Waiting))
    && s.canRead && s.canWrite && s.count == 0 && s.shared == Writes(order)
  }

  lemma {:induction false} WriterRound(c: Config, s: State, i: nat) returns (s': State)
    requires i < |s.writers| && s.canWrite && s.writers[i].phase == Waiting && s.writers[i].rounds < c.writerRounds
    ensures Run(Steps(c), s, Repeat(Writer(i), 4)) == Some(s')
    ensures s' == s.(canRead := true, shared := s.shared + 1,
                     writers := s.writers[i := Proc(s.writers[i].rounds + 1, Waiting)])
  {
    var who := Writer(i);
    s' := s;
    ghost var n: nat := 4;
    while n > 0
      invariant 0 <= n <= 4 && i < |s'.writers|
      invariant Run(Steps(c), s, Repeat(who, 4)) == Run(Steps(c), s', Repeat(who, n))
      invariant s'.readers == s.readers && s'.canWrite && s'.count == s.count
      invariant s'.writers == s.writers[i := s'.writers[i]]
      invariant n > 0 ==> s'.writers[i].rounds == s.writers[i].rounds && s'.canRead == s.canRead
      invariant s'.shared == s.shared + if n <= 1 then 1 else 0
      invariant n == 4 ==> s' == s
      invariant n == 3 ==> s'.writers[i].phase == Entered
      invariant n == 2 ==> s'.writers[i].phase == Loaded(s.shared)
      invariant n == 1 ==> s'.writers[i].phase == Stored
      invariant n == 0 ==> s'.canRead && s'.writers[i] == Proc(s.writers[i].rounds + 1, Waiting)
    {
      RunRepeat(Steps(c), s', who, n);
      s' := Step(c, s', who).value;
      n := n - 1;
    }
  }

  // What a reader alone sees: the phases of its round with the events and the counter after each call.
  lemma {:induction false} ReaderRound(c: Config, s: State, j: nat) returns (s': State)
    requires j < |s.readers| && s.canWrite && s.canRead && s.count == 0
    requires s.readers[j].phase == Waiting && s.readers[j].rounds < c.readerRounds
    ensures Run(Steps(c), s, Repeat(Reader(j), 8)) == Some(s')
    ensures s' == s.(readers := s.readers[j := Proc(s.readers[j].rounds + 1, Waiting)])
  {
    var who := Reader(j);
    s' := s;
    ghost var n: nat := 8;
    while n > 0
      invariant 0 <= n <= 8 && j < |s'.readers|
      invariant Run(Steps(c), s, Repeat(who, 8)) == Run(Steps(c), s', Repeat(who, n))
      invariant s'.writers == s.writers && s'.shared == s.shared
      invariant s'.readers == s.readers[j := s'.readers[j]]
      invariant n > 0 ==> s'.readers[j].rounds == s.readers[j].rounds
      invariant s'.canRead == (n == 8 || n <= 2)
      invariant s'.canWrite == (n >= 6 || n == 0)
      invariant s'.count == if n == 4 then 1 else 0
      invariant n == 8 ==> s' == s
      invariant n == 7 ==> s'.readers[j].phase == GotRead
      invariant n == 6 ==> s'.readers[j].phase == GotWrite
      invariant n == 5 ==> s'.readers[j].phase == DidReset
      invariant n == 4 ==> s'.readers[j].phase == Counted
      invariant n == 3 ==> s'.readers[j].phase == Uncounted
      invariant n == 2 ==> s'.readers[j].phase == Signalled
      invariant n == 1 ==> s'.readers[j].phase == SawZero
      invariant n == 0 ==> s'.readers[j] == Proc(s.readers[j].rounds + 1, Waiting)
    {
      RunRepeat(Steps(c), s', who, n);
      s' := Step(c, s', who).value;
      n := n - 1;
    }
  }

  lemma {:induction false} NextWrite(c: Config, s: State, order: seq<Who>, i: nat)
    requires Between(c, s, order) && Allowed(c, order, Writer(i))
    ensures var r := Run(Steps(c), s, Repeat(Writer(i), 4)); r.Some? && Between(c, r.value, order + [Writer(i)])
  {
    WritesSnoc(order, Writer(i));
    var s' := WriterRound(c, s, i);
  }

  lemma {:induction false} NextRead(c: Config, s: State, order: seq<Who>, j: nat)
    requires Between(c, s, order) && Allowed(c, order, Reader(j))
    ensures var r := Run(Steps(c), s, Repeat(Reader(j), 8)); r.Some? && Between(c, r.value, order + [Reader(j)])
  {
    WritesSnoc(order, Reader(j));
    var s' := ReaderRound(c, s, j);
  }

  lemma {:induction false} NextRound(c: Config, s: State, order: seq<Who>, who: Who)
    requires Between(c, s, order)
    ensures var r := Run(Steps(c), s, Repeat(who, RoundLength(who)));
            && (r.Some? <==> Allowed(c, order, who))
            && (r.Some? ==> Between(c, r.value, order + [who]))
  {
    if Allowed(c, order, who) {
      match who {
        case Writer(i) => NextWrite(c, s, order, i);
        case Reader(j) => NextRead(c, s, order, j);
      }
    } else {
      RunRepeat(Steps(c), s, who, RoundLength(who));
    }
  }

  // Rounds can be run one after the other in every order in which each thread has that many,
  // and after each of them both events are signalled and every increment has been counted.
  lemma {:induction false} OrderIff(c: Config, order: seq<Who>)
    ensures var r := Run(Steps(c), Init(c), Rounds(order, RoundLength));
            && (r.Some? <==> Feasible(c, order))
            && (r.Some? ==> Between(c, r.value, order))
  {
    var between := (s: State, before: seq<Who>) => Between(c, s, before);
    forall s, before, who | between(s, before)
      ensures var r := Run(Steps(c), s, Repeat(who, RoundLength(who)));
              (r.Some? <==> Allows(c)(before, who)) && (r.Some? ==> between(r.value, before + [who]))
    {
      NextRound(c, s, before, who);
    }
    OrderRuns(Steps(c), Init(c), RoundLength, Allows(c), between, order);
  }

  // ---- The same program updating events and counters in place ----

  class Machine {
    const c: Config
    var canWrite: bool
    var canRead: bool
    var count: int
    var shared: nat
    var writers: seq<Proc>
    var readers: seq<Proc>

    function Abs(): State
      reads this
    {
      State(canWrite, canRead, count, shared, writers, readers)
    }

    // init_events() and the creation of the threads.
    constructor (c: Config)
      ensures this.c == c && Abs() == Init(c)
    {
      this.c := c;
      canWrite, canRead := true, true;
      count, shared := 0, 0;
      writers := seq(c.writers, _ => Proc(0, Waiting));
      readers := seq(c.readers, _ => Proc(0, Waiting));
    }

    // One call of the loop body of init_writer() by thread i.
    method AdvanceWriter(i: nat) returns (ok: bool)
      requires i < |writers|
      modifies this
      ensures ok <==> WriterStep(c, old(Abs()), i).Some?
      ensures Abs() == if ok then WriterStep(c, old(Abs()), i).value else old(Abs())
    {
      var p := writers[i];
      ok := true;
      match p.phase
      case Waiting =>
        ok := p.rounds < c.writerRounds && canWrite;
        if ok {
          writers := writers[i := p.(phase := Entered)];
        }
      case Entered =>
        writers := writers[i := p.(phase := Loaded(shared))];
      case Loaded(v) =>
        shared := v + 1;
        writers := writers[i := p.(phase := Stored)];
      case Stored =>
        canRead := true;
        writers := writers[i := Proc(p.rounds + 1, Waiting)];
      case _ =>
        ok := false;
    }

    // One call of the loop body of init_reader() by thread j.
    method AdvanceReader(j: nat) returns (ok: bool)
      requires j < |readers|
      modifies this
      ensures ok <==> ReaderStep(c, old(Abs()), j).Some?
      ensures Abs() == if ok then ReaderStep(c, old(Abs()), j).value else old(Abs())
    {
      var p := readers[j];
      ok := true;
      var next := p;
      match p.phase {
        case Waiting =>
          ok := p.rounds < c.readerRounds && canRead;
          if ok {
            canRead := false;
            next := p.(phase := GotRead);
          }
        case GotRead =>
          ok := canWrite;
          if ok {
            next := p.(phase := GotWrite);
          }
        case GotWrite =>
          canWrite := false;
          next := p.(phase := DidReset);
        case DidReset =>
          count := count + 1;
          next := p.(phase := Counted);
        case Counted =>
          count := count - 1;
          next := p.(phase := Uncounted);
        case Uncounted =>
          canRead := true;
          next := p.(phase := Signalled);
        case Signalled =>
          next := if count == 0 then p.(phase := SawZero) else Proc(p.rounds + 1, Waiting);
        case SawZero =>
          canWrite := true;
          next := Proc(p.rounds + 1, Waiting);
        case _ =>
          ok := false;
      }
      if ok {
        readers := readers[j := next];
      }
    }

    method Advance(who: Who)
      requires Reachable(Steps(c), Init(c), Abs()) && Step(c, Abs(), who).Some?
      modifies this
      ensures Abs() == Step(c, old(Abs()), who).value && Reachable(Steps(c), Init(c), Abs())
      ensures Work(old(Abs())) < Work(Abs()) <= AllWork(c)
    {
      ghost var before := Abs();
      ReachableInv(c, before);
      StepWork(c, before, who);
      StepInv(c, before, who);
      ReachableStep(Steps(c), Init(c), before, who);
      match who {
        case Writer(i) => var _ := AdvanceWriter(i);
        case Reader(j) => var _ := AdvanceReader(j);
      }
      WorkBound(c, Abs());
    }

    // An arbitrary scheduler runs whoever can move; this always ends with all threads done.
    method RunAll()
      requires Abs() == Init(c)
      modifies this
      ensures Reachable(Steps(c), Init(c), Abs()) && AllDone(c, Abs())
      ensures canRead && canWrite && count == 0
    {
      var all := Everyone(c);
      assert Run(Steps(c), Init(c), []) == Some(Init(c));
      while exists who :: who in all && Step(c, Abs(), who).Some?
        invariant Reachable(Steps(c), Init(c), Abs())
        decreases AllWork(c) - Work(Abs())
      {
        var who :| who in all && Step(c, Abs(), who).Some?;
        Advance(who);
      }
      Halted(c, Abs(), all);
    }
  }

  function Everyone(c: Config): (all: set<Who>)
    ensures forall s: State, who | |s.writers| == c.writers && |s.readers| == c.readers && Step(c, s, who).Some? ::
              who in all
  {
    (set i | 0 <= i < c.writers :: Writer(i)) + (set j | 0 <= j < c.readers :: Reader(j))
  }

  lemma Halted(c: Config, s: State, all: set<Who>)
    requires Reachable(Steps(c), Init(c), s) && all == Everyone(c)
    requires !exists who :: who in all && Step(c, s, who).Some?
    ensures AllDone(c, s) && s.canRead && s.canWrite && s.count == 0
  {
    ReachableInv(c, s);
    Completes(c, s);
  }
}
