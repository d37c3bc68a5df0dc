/**
 * The audit logger's close and drain protocol as concurrent steps: goroutines calling Record, the goroutines it starts
 * when the queue is full, the writer loop, and any number of calls of Close. A step is one access to shared state. A
 * reader may take the lock whenever no writer holds it, so the safety results rest on no fairness of the mutex.
 */
module AuditClose {
  import opened Text

  type Row = nat

  /** Record, from its call to its return; it holds the read lock from RecIn to RecLeaving. */
  datatype RecPc = RecStart | RecIn | RecOpen | RecLeaving | RecOut

  /** enqueue: EnqParked is the blocking select. */
  datatype EnqPc = EnqStart | EnqIn | EnqParked | EnqLeaving | EnqOut

  /** Close: CloseWant is inside mu.Lock; the write lock is held from CloseIn to CloseLeaving. */
  datatype ClosePc = CloseStart | CloseWant | CloseIn | CloseMarked | CloseLeaving | CloseWaiting | ClosedOnDone | ClosedOnDeadline(pending: nat)

  datatype LoopPc = Ranging | Writing(row: Row) | Ended

  datatype Holder = R(rec: Row) | E(enq: Row)

  datatype State = State(
    rec: map<Row, RecPc>, enq: map<Row, EnqPc>, closers: map<nat, ClosePc>,
    readers: set<Holder>, writer: Option<nat>,
    closing: bool, closed: bool, chClosed: bool,
    queue: seq<Row>, loop: LoopPc,
    accepted: seq<Row>,     // every row the channel took, in order
    handed: seq<Row>,       // every row given to the store, in order
    dropped: seq<Row>,      // every row a log line says was lost
    panicked: bool)         // a send on a closed channel, or a second close of one

  const CAP := 1024

  datatype Step =
    | Record(r: Row) | RecLock(r: Row) | RecCheck(r: Row) | RecSelect(r: Row) | RecUnlock(r: Row)
    | EnqLock(r: Row) | EnqCheck(r: Row) | EnqSend(r: Row) | EnqGiveWay(r: Row) | EnqUnlock(r: Row)
    | Close(c: nat) | CloseOnce(c: nat) | CloseLock(c: nat) | CloseMark(c: nat) | CloseChannel(c: nat) | CloseUnlock(c: nat)
    | CloseDone(c: nat) | CloseDeadline(c: nat)
    | Take | Insert | End

  predicate RecAt(s: State, r: Row, pc: RecPc) {
    r in s.rec && s.rec[r] == pc
  }

  predicate EnqAt(s: State, r: Row, pc: EnqPc) {
    r in s.enq && s.enq[r] == pc
  }

  predicate CloseAt(s: State, c: nat, pc: ClosePc) {
    c in s.closers && s.closers[c] == pc
  }

  predicate Enabled(s: State, a: Step) {
    match a
    case Record(r) => r !in s.rec
    case RecLock(r) => RecAt(s, r, RecStart) && s.writer == None
    case RecCheck(r) => RecAt(s, r, RecIn)
    case RecSelect(r) => RecAt(s, r, RecOpen)
    case RecUnlock(r) => RecAt(s, r, RecLeaving)
    case EnqLock(r) => EnqAt(s, r, EnqStart) && s.writer == None
    case EnqCheck(r) => EnqAt(s, r, EnqIn)
    case EnqSend(r) => EnqAt(s, r, EnqParked) && (s.chClosed || |s.queue| < CAP)
    case EnqGiveWay(r) => EnqAt(s, r, EnqParked) && s.closing
    case EnqUnlock(r) => EnqAt(s, r, EnqLeaving)
    case Close(c) => c !in s.closers
    case CloseOnce(c) => CloseAt(s, c, CloseStart)
    case CloseLock(c) => CloseAt(s, c, CloseWant) && s.writer == None && s.readers == {}
    case CloseMark(c) => CloseAt(s, c, CloseIn)
    case CloseChannel(c) => CloseAt(s, c, CloseMarked)
    case CloseUnlock(c) => CloseAt(s, c, CloseLeaving)
    case CloseDone(c) => CloseAt(s, c, CloseWaiting) && s.loop.Ended?
    case CloseDeadline(c) => CloseAt(s, c, CloseWaiting)
    case Take => s.loop.Ranging? && s.queue != []
    case Insert => s.loop.Writing?
    case End => s.loop.Ranging? && s.queue == [] && s.chClosed
  }

  /** A send: the program dies when the channel is closed. */
  function Send(s: State, r: Row): State {
    if s.chClosed then s.(panicked := true) else s.(queue := s.queue + [r], accepted := s.accepted + [r])
  }

  function Drop(s: State, r: Row): State {
    s.(dropped := s.dropped + [r])
  }

  function ToRec(s: State, r: Row, pc: RecPc): State {
    s.(rec := s.rec[r := pc])
  }

  function ToEnq(s: State, r: Row, pc: EnqPc): State {
    s.(enq := s.enq[r := pc])
  }

  function ToClose(s: State, c: nat, pc: ClosePc): State {
    s.(closers := s.closers[c := pc])
  }

  predicate IsRec(a: Step) {
    a.Record? || a.RecLock? || a.RecCheck? || a.RecSelect? || a.RecUnlock?
  }

  predicate IsEnq(a: Step) {
    a.EnqLock? || a.EnqCheck? || a.EnqSend? || a.EnqGiveWay? || a.EnqUnlock?
  }

  function ApplyRec(s: State, a: Step): State
    requires IsRec(a)
  {
    match a
    case Record(r) => ToRec(s, r, RecStart)
    case RecLock(r) => ToRec(s, r, RecIn).(readers := s.readers + {R(r)})
    case RecCheck(r) => if s.closed then ToRec(Drop(s, r), r, RecLeaving) else ToRec(s, r, RecOpen)
    case RecSelect(r) =>
      // the default branch: a full queue starts a goroutine that waits
      if !s.chClosed && |s.queue| >= CAP then ToEnq(ToRec(s, r, RecLeaving), r, EnqStart)
      else ToRec(Send(s, r), r, RecLeaving)
    case RecUnlock(r) => ToRec(s, r, RecOut).(readers := s.readers - {R(r)})
  }

  function ApplyEnq(s: State, a: Step): State
    requires IsEnq(a)
  {
    match a
    case EnqLock(r) => ToEnq(s, r, EnqIn).(readers := s.readers + {E(r)})
    case EnqCheck(r) => if s.closed then ToEnq(Drop(s, r), r, EnqLeaving) else ToEnq(s, r, EnqParked)
    case EnqSend(r) => ToEnq(Send(s, r), r, EnqLeaving)
    case EnqGiveWay(r) => ToEnq(Drop(s, r), r, EnqLeaving)
    case EnqUnlock(r) => ToEnq(s, r, EnqOut).(readers := s.readers - {E(r)})
  }

  predicate IsClose(a: Step) {
    || a.Close? || a.CloseOnce? || a.CloseLock? || a.CloseMark? || a.CloseChannel? || a.CloseUnlock?
    || a.CloseDone? || a.CloseDeadline?
  }

  function ApplyClose(s: State, a: Step): State
    requires IsClose(a)
  {
    match a
    case Close(c) => ToClose(s, c, CloseStart)
    case CloseOnce(c) => ToClose(s, c, CloseWant).(closing := true)
    case CloseLock(c) => ToClose(s, c, CloseIn).(writer := Some(c))
    case CloseMark(c) => if s.closed then ToClose(s, c, CloseLeaving) else ToClose(s, c, CloseMarked).(closed := true)
    case CloseChannel(c) => ToClose(s, c, CloseLeaving).(chClosed := true, panicked := s.panicked || s.chClosed)
    case CloseUnlock(c) => ToClose(s, c, CloseWaiting).(writer := None)
    case CloseDone(c) => ToClose(s, c, ClosedOnDone)
    case CloseDeadline(c) => ToClose(s, c, ClosedOnDeadline(|s.queue|))
  }

  function Apply(s: State, a: Step): State
    requires Enabled(s, a)
  {
    if IsRec(a) then ApplyRec(s, a)
    else if IsEnq(a) then ApplyEnq(s, a)
    else if IsClose(a) then ApplyClose(s, a)
    else if a.Take? then s.(queue := s.queue[1..], loop := Writing(s.queue[0]))
    else if a.Insert? then s.(loop := Ranging, handed := s.handed + [s.loop.row])
    else s.(loop := Ended)
  }

  /** A schedule; a step that is not enabled when its turn comes does nothing. */
  function Run(s: State, steps: seq<Step>): State
    decreases |steps|
  {
    if steps == [] then s else Run(if Enabled(s, steps[0]) then Apply(s, steps[0]) else s, steps[1..])
  }

  const START := State(map[], map[], map[], {}, None, false, false, false, [], Ranging, [], [], [], false)

  // ---- The invariant ----

  predicate RecHolds(s: State, r: Row) {
    r in s.rec && (s.rec[r].RecIn? || s.rec[r].RecOpen? || s.rec[r].RecLeaving?)
  }

  predicate EnqHolds(s: State, r: Row) {
    r in s.enq && (s.enq[r].EnqIn? || s.enq[r].EnqParked? || s.enq[r].EnqLeaving?)
  }

  predicate CloseHolds(s: State, c: nat) {
    c in s.closers && (s.closers[c].CloseIn? || s.closers[c].CloseMarked? || s.closers[c].CloseLeaving?)
  }

  ghost predicate Locks(s: State) {
    && (forall r: Row :: R(r) in s.readers <==> RecHolds(s, r))
    && (forall r: Row :: E(r) in s.readers <==> EnqHolds(s, r))
    && (forall c: nat :: s.writer == Some(c) <==> CloseHolds(s, c))
    && (s.writer.Some? ==> s.readers == {})
  }

  /** What a call of Close knows from where it stands. */
  predicate CloserOk(s: State, pc: ClosePc) {
    && (!pc.CloseStart? ==> s.closing)
    && (pc.CloseMarked? ==> s.closed && !s.chClosed)
    && (pc.CloseLeaving? || pc.CloseWaiting? || pc.ClosedOnDone? || pc.ClosedOnDeadline? ==> s.chClosed)
    && (pc.ClosedOnDone? ==> s.loop.Ended?)
  }

  /** Who has passed the check finds the channel open; only the closer that marked it is about to close it. */
  ghost predicate Gate(s: State) {
    && !s.panicked
    && (forall r :: r in s.rec && s.rec[r].RecOpen? ==> !s.closed)
    && (forall r :: r in s.enq && s.enq[r].EnqParked? ==> !s.closed)
    && (forall c :: c in s.closers ==> CloserOk(s, s.closers[c]))
    && (s.chClosed ==> s.closed)
    && (s.closed ==> s.closing)
    && (s.dropped != [] ==> s.closing)
    && (s.closed && !s.chClosed ==> s.writer.Some? && CloseAt(s, s.writer.value, CloseMarked))
    && (s.loop.Ended? ==> s.chClosed && s.queue == [])
  }

  function InHand(s: State): seq<Row> {
    if s.loop.Writing? then [s.loop.row] else []
  }

  /** The queue keeps order and loses nothing. */
  ghost predicate Fifo(s: State) {
    s.accepted == s.handed + InHand(s) + s.queue
  }

  predicate RecCarries(s: State, r: Row) {
    r in s.rec && (s.rec[r].RecStart? || s.rec[r].RecIn? || s.rec[r].RecOpen?)
  }

  predicate EnqCarries(s: State, r: Row) {
    r in s.enq && (s.enq[r].EnqStart? || s.enq[r].EnqIn? || s.enq[r].EnqParked?)
  }

  function One(b: bool): nat {
    if b then 1 else 0
  }

  /** In how many places row `r` is. */
  ghost function Tally(s: State, r: Row): nat {
    One(RecCarries(s, r)) + One(EnqCarries(s, r)) + multiset(s.accepted)[r] + multiset(s.dropped)[r]
  }

  /** A row's waiting goroutine starts when its Record is done with it. */
  ghost predicate Spawned(s: State) {
    forall r :: r in s.enq ==> r in s.rec && (s.rec[r].RecLeaving? || s.rec[r].RecOut?)
  }

  /** Each recorded row is in exactly one place. */
  ghost predicate Counted(s: State) {
    && (forall r: Row :: Tally(s, r) == One(r in s.rec))
    && Spawned(s)
  }

  ghost predicate Inv(s: State) {
    Locks(s) && Gate(s) && Fifo(s) && Counted(s)
  }

  lemma RecLocks(s: State, a: Step)
    requires Locks(s) && Spawned(s) && Enabled(s, a) && IsRec(a)
    ensures Locks(ApplyRec(s, a))
  {
    var n := ApplyRec(s, a);
    assert forall r :: r != a.r ==> RecHolds(n, r) == RecHolds(s, r);
    assert forall r :: EnqHolds(n, r) == EnqHolds(s, r);
  }

  lemma EnqLocks(s: State, a: Step)
    requires Locks(s) && Enabled(s, a) && IsEnq(a)
    ensures Locks(ApplyEnq(s, a))
  {
    var n := ApplyEnq(s, a);
    assert forall r :: r != a.r ==> EnqHolds(n, r) == EnqHolds(s, r);
  }

  lemma CloseLocks(s: State, a: Step)
    requires Locks(s) && Enabled(s, a) && IsClose(a)
    ensures Locks(ApplyClose(s, a))
  {
    var n := ApplyClose(s, a);
    forall c: nat ensures n.writer == Some(c) <==> CloseHolds(n, c) {
      assert s.writer == Some(c) <==> CloseHolds(s, c);
      assert s.writer == Some(a.c) <==> CloseHolds(s, a.c);
    }
  }

  lemma RecGate(s: State, a: Step)
    requires Gate(s) && Enabled(s, a) && IsRec(a)
    ensures Gate(ApplyRec(s, a))
  {
    var n := ApplyRec(s, a);
    assert forall pc :: CloserOk(n, pc) == CloserOk(s, pc);
  }

  lemma EnqGate(s: State, a: Step)
    requires Gate(s) && Enabled(s, a) && IsEnq(a)
    ensures Gate(ApplyEnq(s, a))
  {
    var n := ApplyEnq(s, a);
    assert forall pc :: CloserOk(n, pc) == CloserOk(s, pc);
  }

  lemma LockedOut(s: State, c: nat)
    requires Locks(s) && CloseHolds(s, c)
    ensures forall r :: r in s.rec ==> !s.rec[r].RecOpen?
    ensures forall r :: r in s.enq ==> !s.enq[r].EnqParked?
    ensures s.writer == Some(c) && forall d :: CloseHolds(s, d) ==> d == c
  {
    assert forall r :: r in s.rec && s.rec[r].RecOpen? ==> R(r) in s.readers;
    assert forall r :: r in s.enq && s.enq[r].EnqParked? ==> E(r) in s.readers;
  }

  lemma CloseGate(s: State, a: Step)
    requires Locks(s) && Gate(s) && Enabled(s, a) && IsClose(a)
    ensures Gate(ApplyClose(s, a))
  {
    var n := ApplyClose(s, a);
    if CloseHolds(s, a.c) { LockedOut(s, a.c); }
    hide Locks;
    forall c | c in n.closers ensures CloserOk(n, n.closers[c]) {
      assert c in s.closers ==> CloserOk(s, s.closers[c]);
      assert a.CloseChannel? && c in s.closers && s.closers[c].CloseMarked? ==> CloseHolds(s, c);
    }
  }

  lemma LoopGate(s: State, a: Step)
    requires Gate(s) && Enabled(s, a) && (a.Take? || a.Insert? || a.End?)
    ensures Gate(Apply(s, a))
  {
    var n := Apply(s, a);
    assert forall pc :: CloserOk(s, pc) ==> CloserOk(n, pc);
  }

  /** A step of row `x` leaves every other row where it was, and the logs get `x` or nothing. */
  ghost predicate Only(s: State, n: State, x: Row) {
    && (forall r :: r != x ==> (r in n.rec <==> r in s.rec) && (r in s.rec ==> n.rec[r] == s.rec[r]))
    && (forall r :: r != x ==> (r in n.enq <==> r in s.enq) && (r in s.enq ==> n.enq[r] == s.enq[r]))
    && (n.accepted == s.accepted || n.accepted == s.accepted + [x])
    && (n.dropped == s.dropped || n.dropped == s.dropped + [x])
  }

  /** Where row `x` is, the logs counted by their length. */
  function Places(s: State, x: Row): nat {
    One(RecCarries(s, x)) + One(EnqCarries(s, x)) + |s.accepted| + |s.dropped|
  }

  lemma RecMoves(s: State, a: Step)
    requires Spawned(s) && Enabled(s, a) && IsRec(a) && !ApplyRec(s, a).panicked
    ensures var n := ApplyRec(s, a);
            && Only(s, n, a.r) && Spawned(n)
            && Places(n, a.r) == Places(s, a.r) + One(a.r in n.rec) - One(a.r in s.rec)
  {
    RecOnly(s, a);
    RecPlaces(s, a);
    hide *;
  }

  lemma RecOnly(s: State, a: Step)
    requires Spawned(s) && Enabled(s, a) && IsRec(a) && !ApplyRec(s, a).panicked
    ensures Only(s, ApplyRec(s, a), a.r) && Spawned(ApplyRec(s, a))
  {
  }

  lemma RecPlaces(s: State, a: Step)
    requires Spawned(s) && Enabled(s, a) && IsRec(a) && !ApplyRec(s, a).panicked
    ensures var n := ApplyRec(s, a); Places(n, a.r) == Places(s, a.r) + One(a.r in n.rec) - One(a.r in s.rec)
  {
  }

  lemma EnqMoves(s: State, a: Step)
    requires Spawned(s) && Enabled(s, a) && IsEnq(a) && !ApplyEnq(s, a).panicked
    ensures var n := ApplyEnq(s, a);
            && Only(s, n, a.r) && Spawned(n)
            && Places(n, a.r) == Places(s, a.r) + One(a.r in n.rec) - One(a.r in s.rec)
  {
  }

  lemma CountedFrom(s: State, n: State, x: Row)
    requires Counted(s) && Only(s, n, x) && Spawned(n)
    requires Places(n, x) == Places(s, x) + One(x in n.rec) - One(x in s.rec)
    ensures Counted(n)
  {
    forall r: Row ensures Tally(n, r) == One(r in n.rec) {
      assert Tally(s, r) == One(r in s.rec);
      TallyFrom(s, n, x, r);
      hide *;
    }
    hide *;
  }

  lemma TallyFrom(s: State, n: State, x: Row, r: Row)
    requires Only(s, n, x) && Tally(s, r) == One(r in s.rec)
    requires Places(n, x) == Places(s, x) + One(x in n.rec) - One(x in s.rec)
    ensures Tally(n, r) == One(r in n.rec)
  {
    Appended(s.accepted, n.accepted, x, r);
    Appended(s.dropped, n.dropped, x, r);
    if r == x { hide RecCarries, EnqCarries, One; } else { hide One; }
  }

  lemma Appended(before: seq<Row>, after: seq<Row>, x: Row, r: Row)
    requires after == before || after == before + [x]
    ensures multiset(after)[r] == multiset(before)[r] + if r == x then |after| - |before| else 0
  {
  }

  lemma RecCount(s: State, a: Step)
    requires Counted(s) && Enabled(s, a) && IsRec(a) && !ApplyRec(s, a).panicked
    ensures Counted(ApplyRec(s, a))
  {
    RecMoves(s, a);
    hide ApplyRec, Enabled, Places, Only, Tally;
    CountedFrom(s, ApplyRec(s, a), a.r);
  }

  lemma EnqCount(s: State, a: Step)
    requires Counted(s) && Enabled(s, a) && IsEnq(a) && !ApplyEnq(s, a).panicked
    ensures Counted(ApplyEnq(s, a))
  {
    EnqMoves(s, a);
    hide ApplyEnq, Enabled, Places, Only, Tally;
    CountedFrom(s, ApplyEnq(s, a), a.r);
  }

  lemma QuietCount(s: State, n: State)
    requires Counted(s) && n.rec == s.rec && n.enq == s.enq && n.accepted == s.accepted && n.dropped == s.dropped
    ensures Counted(n)
  {
    forall r ensures Tally(n, r) == One(r in n.rec) {
      assert Tally(s, r) == One(r in s.rec);
    }
  }

  lemma StepFifo(s: State, a: Step)
    requires Fifo(s) && Enabled(s, a)
    ensures Fifo(Apply(s, a))
  {
    if IsRec(a) {
      RecFifo(s, a);
    } else if IsEnq(a) {
      EnqFifo(s, a);
    } else if IsClose(a) {
      CloseFifo(s, a);
    } else {
      hide ApplyRec, ApplyEnq, ApplyClose;
      if a.Take? { assert s.queue == [s.queue[0]] + s.queue[1..]; }
    }
    hide Fifo, Enabled, ApplyRec, ApplyEnq, ApplyClose;
  }

  lemma SendFifo(s: State, r: Row)
    requires Fifo(s)
    ensures Fifo(Send(s, r))
  {
    assert s.handed + InHand(s) + (s.queue + [r]) == s.handed + InHand(s) + s.queue + [r];
  }

  lemma RecFifo(s: State, a: Step)
    requires Fifo(s) && IsRec(a)
    ensures Fifo(ApplyRec(s, a))
  {
    SendFifo(s, a.r);
    hide Send;
  }

  lemma EnqFifo(s: State, a: Step)
    requires Fifo(s) && IsEnq(a)
    ensures Fifo(ApplyEnq(s, a))
  {
    SendFifo(s, a.r);
    hide Send;
  }

  lemma CloseFifo(s: State, a: Step)
    requires Fifo(s) && IsClose(a)
    ensures Fifo(ApplyClose(s, a))
  {
  }

  lemma StepInv(s: State, a: Step)
    requires Inv(s) && Enabled(s, a)
    ensures Inv(Apply(s, a))
  {
    StepFifo(s, a);
    assert Spawned(s);
    hide Spawned, Locks, Gate, Fifo, Counted, Enabled, ApplyRec, ApplyEnq, ApplyClose;
    if IsRec(a) {
      RecLocks(s, a); RecGate(s, a);
      GateHolds(ApplyRec(s, a));
      RecCount(s, a);
    } else if IsEnq(a) {
      EnqLocks(s, a); EnqGate(s, a);
      GateHolds(ApplyEnq(s, a));
      EnqCount(s, a);
    } else if IsClose(a) {
      CloseLocks(s, a); CloseGate(s, a);
      CloseKeeps(s, a);
      QuietCount(s, ApplyClose(s, a));
    } else {
      LoopGate(s, a);
      LoopKeeps(s, a);
      QuietCount(s, Apply(s, a));
    }
  }

  lemma GateHolds(s: State)
    requires Gate(s)
    ensures !s.panicked
  {
  }

  lemma CloseKeeps(s: State, a: Step)
    requires IsClose(a)
    ensures var n := ApplyClose(s, a); n.rec == s.rec && n.enq == s.enq && n.accepted == s.accepted && n.dropped == s.dropped
  {
  }

  lemma LoopKeeps(s: State, a: Step)
    requires Enabled(s, a) && (a.Take? || a.Insert? || a.End?)
    ensures var n := Apply(s, a);
            && n.rec == s.rec && n.enq == s.enq && n.accepted == s.accepted && n.dropped == s.dropped
            && (Locks(s) ==> Locks(n))
  {
  }

  // ---- Safety over every run ----

  lemma {:induction false} RunInv(s: State, steps: seq<Step>)
    requires Inv(s)
    ensures Inv(Run(s, steps))
    decreases |steps|
  {
    hide Inv, Apply, Enabled;
    if steps != [] {
      if Enabled(s, steps[0]) { StepInv(s, steps[0]); }
      RunInv(if Enabled(s, steps[0]) then Apply(s, steps[0]) else s, steps[1..]);
    }
  }

  lemma StartInv()
    ensures Inv(START)
  {
  }

  /** In no interleaving does a send reach a closed channel, and the channel is closed once. */
  lemma NoSendOnAClosedChannel(steps: seq<Step>)
    ensures !Run(START, steps).panicked
  {
    StartInv();
    RunInv(START, steps);
    hide Run;
  }

  /** No row is lost before Close begins: until then every row waits its turn. */
  lemma NothingDroppedBeforeClose(steps: seq<Step>)
    ensures var s := Run(START, steps); !s.closing ==> s.dropped == []
  {
    StartInv();
    RunInv(START, steps);
    hide Run;
  }

  function Count(rows: seq<Row>, r: Row): nat {
    multiset(rows)[r]
  }

  /**
   * Each recorded row is in exactly one place: with its Record call, parked in its goroutine, queued, in the writer's
   * hand, handed to the store, or dropped with a line. A row that was not recorded is in none.
   */
  lemma EachRowInOnePlace(steps: seq<Step>, r: Row)
    ensures var s := Run(START, steps);
            One(RecCarries(s, r)) + One(EnqCarries(s, r)) + Count(s.queue, r) + Count(InHand(s), r) + Count(s.handed, r)
              + Count(s.dropped, r) == One(r in s.rec)
  {
    StartInv();
    RunInv(START, steps);
    hide Run;
    var s := Run(START, steps);
    assert Tally(s, r) == One(r in s.rec);
    hide RecCarries, EnqCarries, One;
    assert multiset(s.handed + InHand(s) + s.queue) == multiset(s.handed) + multiset(InHand(s)) + multiset(s.queue);
  }

  /** The store gets the rows in the order the queue took them. */
  lemma HandedInOrder(steps: seq<Step>)
    ensures var s := Run(START, steps); s.handed <= s.accepted
  {
    StartInv();
    RunInv(START, steps);
  }

  // ---- After Close ----

  /** Once closed is set the channel takes nothing more. */
  lemma {:induction false} NothingAcceptedAfterClose(s: State, steps: seq<Step>)
    requires Inv(s) && s.closed
    ensures Run(s, steps).accepted == s.accepted && Run(s, steps).closed
    decreases |steps|
  {
    if steps != [] {
      if Enabled(s, steps[0]) {
        StepInv(s, steps[0]);
        ClosedStep(s, steps[0]);
      }
      hide Inv, Apply, Enabled;
      NothingAcceptedAfterClose(if Enabled(s, steps[0]) then Apply(s, steps[0]) else s, steps[1..]);
    }
  }

  lemma ClosedStep(s: State, a: Step)
    requires Gate(s) && s.closed && Enabled(s, a)
    ensures Apply(s, a).accepted == s.accepted && Apply(s, a).closed
  {
  }

  /** `c` has returned from Close. */
  predicate HasReturned(s: State, c: nat) {
    c in s.closers && (s.closers[c].ClosedOnDone? || s.closers[c].ClosedOnDeadline?)
  }

  /**
   * A Close that returned on `done` leaves nothing queued: every row the queue ever took has been handed to the store,
   * and that stays so whatever runs afterwards.
   */
  lemma DoneMeansDrained(steps: seq<Step>, c: nat, more: seq<Step>)
    requires CloseAt(Run(START, steps), c, ClosedOnDone)
    ensures var s := Run(START, steps); var n := Run(s, more);
            && s.queue == [] && InHand(s) == [] && s.handed == s.accepted
            && n.queue == [] && n.handed == s.handed && n.accepted == s.accepted
  {
    StartInv();
    RunInv(START, steps);
    var s := Run(START, steps);
    RunInv(s, more);
    NothingAcceptedAfterClose(s, more);
    EndedStays(s, more);
    hide Run;
    assert CloserOk(s, s.closers[c]);
  }

  lemma EndedStep(s: State, a: Step)
    requires s.loop.Ended? && Enabled(s, a)
    ensures Apply(s, a).loop.Ended?
  {
    if IsRec(a) {
      RecLoop(s, a);
    } else if IsEnq(a) {
      EnqLoop(s, a);
    } else if IsClose(a) {
      CloseLoop(s, a);
    }
    hide ApplyRec, ApplyEnq, ApplyClose;
  }

  lemma RecLoop(s: State, a: Step)
    requires IsRec(a)
    ensures ApplyRec(s, a).loop == s.loop
  {
  }

  lemma EnqLoop(s: State, a: Step)
    requires IsEnq(a)
    ensures ApplyEnq(s, a).loop == s.loop
  {
  }

  lemma CloseLoop(s: State, a: Step)
    requires IsClose(a)
    ensures ApplyClose(s, a).loop == s.loop
  {
  }

  lemma {:induction false} EndedStays(s: State, steps: seq<Step>)
    requires s.loop.Ended?
    ensures Run(s, steps).loop.Ended?
    decreases |steps|
  {
    if steps != [] {
      if Enabled(s, steps[0]) { EndedStep(s, steps[0]); }
      hide Enabled, Apply;
      EndedStays(if Enabled(s, steps[0]) then Apply(s, steps[0]) else s, steps[1..]);
    }
  }

  /** A row recorded after a Close has returned is never handed to the store: it can only be dropped with a line. */
  lemma LateRowsAreNeverStored(steps: seq<Step>, c: nat, more: seq<Step>, r: Row)
    requires HasReturned(Run(START, steps), c) && r !in Run(START, steps).rec
    ensures r !in Run(Run(START, steps), more).accepted
  {
    StartInv();
    RunInv(START, steps);
    var s := Run(START, steps);
    assert CloserOk(s, s.closers[c]);
    NothingAcceptedAfterClose(s, more);
    hide Run;
    assert Tally(s, r) == 0;
    assert multiset(s.accepted)[r] == 0;
  }

  // ---- Progress ----

  /** A step by a goroutine that holds the read lock. */
  predicate ByReader(s: State, a: Step) {
    (IsRec(a) && R(a.r) in s.readers) || (IsEnq(a) && E(a.r) in s.readers)
  }

  /** What a holder does next: the blocking select gives way, which it can do once Close has begun. */
  function NextOf(s: State, h: Holder): Step {
    match h
    case R(r) => if RecAt(s, r, RecIn) then RecCheck(r) else if RecAt(s, r, RecOpen) then RecSelect(r) else RecUnlock(r)
    case E(r) => if EnqAt(s, r, EnqIn) then EnqCheck(r) else if EnqAt(s, r, EnqParked) then EnqGiveWay(r) else EnqUnlock(r)
  }

  /** How many of its own steps a holder is from releasing the lock. */
  function Rank(s: State, h: Holder): nat {
    match h
    case R(r) => if RecAt(s, r, RecIn) then 3 else if RecAt(s, r, RecOpen) then 2 else if RecAt(s, r, RecLeaving) then 1 else 0
    case E(r) => if EnqAt(s, r, EnqIn) then 3 else if EnqAt(s, r, EnqParked) then 2 else if EnqAt(s, r, EnqLeaving) then 1 else 0
  }

  /** Once Close has begun every holder has an enabled step, a parked send included, and each one is progress. */
  lemma HoldersAreNeverStuck(s: State, h: Holder)
    requires Locks(s) && h in s.readers && s.closing
    ensures var a := NextOf(s, h);
            && Enabled(s, a) && ByReader(s, a)
            && Rank(Apply(s, a), h) < Rank(s, h) <= 3
            && Apply(s, a).readers == (if Rank(Apply(s, a), h) == 0 then s.readers - {h} else s.readers)
            && Apply(s, a).closing && Apply(s, a).closers == s.closers && Apply(s, a).writer == s.writer
  {
    match h
    case R(r) =>
      assert RecHolds(s, r);
      hide Locks;
      RecProgress(s, r);
    case E(r) =>
      assert EnqHolds(s, r);
      hide Locks;
      EnqProgress(s, r);
  }

  lemma RecProgress(s: State, r: Row)
    requires RecHolds(s, r)
    ensures var a := NextOf(s, R(r)); var n := ApplyRec(s, a);
            && IsRec(a) && a.r == r && Enabled(s, a) && Rank(n, R(r)) < Rank(s, R(r))
            && n.readers == (if Rank(n, R(r)) == 0 then s.readers - {R(r)} else s.readers)
            && n.closing == s.closing && n.closers == s.closers && n.writer == s.writer
  {
  }

  lemma EnqProgress(s: State, r: Row)
    requires EnqHolds(s, r) && s.closing
    ensures var a := NextOf(s, E(r)); var n := ApplyEnq(s, a);
            && IsEnq(a) && a.r == r && Enabled(s, a) && Rank(n, E(r)) < Rank(s, E(r))
            && n.readers == (if Rank(n, E(r)) == 0 then s.readers - {E(r)} else s.readers)
            && n.closing == s.closing && n.closers == s.closers && n.writer == s.writer
  {
  }

  /** A schedule made of the lock holders' own steps, each enabled when its turn comes. */
  ghost predicate ByReaders(s: State, steps: seq<Step>)
    decreases |steps|
  {
    steps == [] || (Enabled(s, steps[0]) && ByReader(s, steps[0]) && ByReaders(Apply(s, steps[0]), steps[1..]))
  }

  lemma {:induction false} ByReadersConcat(s: State, a: seq<Step>, b: seq<Step>)
    requires ByReaders(s, a) && ByReaders(Run(s, a), b)
    ensures ByReaders(s, a + b) && Run(s, a + b) == Run(Run(s, a), b)
    decreases |a|
  {
    hide Enabled, ByReader, Apply;
    if a == [] {
      assert a + b == b;
    } else {
      assert (a + b)[1..] == a[1..] + b;
      ByReadersConcat(Apply(s, a[0]), a[1..], b);
    }
  }

  lemma OneStep(s: State, a: Step)
    requires Enabled(s, a) && ByReader(s, a)
    ensures ByReaders(s, [a]) && Run(s, [a]) == Apply(s, a)
  {
    hide Enabled, ByReader, Apply;
    var rest := [a][1..];
    assert rest == [];
  }

  /** One holder alone leaves in `Rank` of its own steps, which is at most three. */
  lemma {:induction false} HolderLeaves(s: State, h: Holder) returns (steps: seq<Step>)
    requires Inv(s) && h in s.readers && s.closing
    ensures |steps| <= Rank(s, h) <= 3 && ByReaders(s, steps)
    ensures var n := Run(s, steps);
            n.readers == s.readers - {h} && n.closing && n.closers == s.closers && n.writer == s.writer && Inv(n)
    decreases Rank(s, h)
  {
    HoldersAreNeverStuck(s, h);
    var a := NextOf(s, h);
    StepInv(s, a);
    OneStep(s, a);
    var n := Apply(s, a);
    hide Inv, Enabled, Apply, NextOf, ByReader, Run, ByReaders;
    steps := [a];
    if Rank(n, h) > 0 {
      hide Rank;
      var rest := HolderLeaves(n, h);
      ByReadersConcat(s, [a], rest);
      steps := [a] + rest;
    }
  }

  /**
   * A Close waiting for the lock is not held up: once it has begun, the goroutines that hold the lock can all leave by
   * steps of their own, at most three each, parked sends included, and then the lock is free for it.
   */
  lemma {:induction false} CloseGetsTheLock(s: State, c: nat) returns (steps: seq<Step>)
    requires Inv(s) && CloseAt(s, c, CloseWant) && s.writer == None
    ensures |steps| <= 3 * |s.readers| && ByReaders(s, steps)
    ensures Enabled(Run(s, steps), CloseLock(c))
    decreases |s.readers|
  {
    steps := [];
    if s.readers != {} {
      var h :| h in s.readers;
      assert s.closing by { assert CloserOk(s, s.closers[c]); }
      var first := HolderLeaves(s, h);
      hide Inv, Run, ByReaders, Rank;
      var rest := CloseGetsTheLock(Run(s, first), c);
      ByReadersConcat(s, first, rest);
      steps := first + rest;
    }
  }

  // ---- Every schedule without new readers ----

  predicate Admits(a: Step) {
    a.RecLock? || a.EnqLock?
  }

  /** Any steps of any goroutine in any order, but no new reader: Go's mutex lets none in once a Close waits for it. */
  ghost predicate NoNewReader(s: State, steps: seq<Step>)
    decreases |steps|
  {
    steps == [] || (Enabled(s, steps[0]) && !Admits(steps[0]) && NoNewReader(Apply(s, steps[0]), steps[1..]))
  }

  /** How many of these steps are taken by a goroutine that holds the read lock. */
  ghost function HolderSteps(s: State, steps: seq<Step>): nat
    requires NoNewReader(s, steps)
    decreases |steps|
  {
    if steps == [] then 0 else One(ByReader(s, steps[0])) + HolderSteps(Apply(s, steps[0]), steps[1..])
  }

  /** The holders at least `k` steps from releasing the lock. */
  ghost function Level(s: State, k: nat): set<Holder> {
    set h | h in s.readers && Rank(s, h) >= k
  }

  ghost function ToGo(s: State): nat {
    |Level(s, 1)| + |Level(s, 2)| + |Level(s, 3)|
  }

  lemma SmallerSet(a: set<Holder>, b: set<Holder>)
    requires a <= b
    ensures |a| <= |b| && (a != b ==> |a| < |b|)
  {
    assert b == a + (b - a);
  }

  lemma ToGoBounds(s: State)
    requires Locks(s)
    ensures |s.readers| <= ToGo(s) <= 3 * |s.readers|
  {
    forall h | h in s.readers ensures Rank(s, h) >= 1 {
      match h
      case R(r) => assert RecHolds(s, r);
      case E(r) => assert EnqHolds(s, r);
    }
    assert Level(s, 1) == s.readers;
    SmallerSet(Level(s, 2), s.readers);
    SmallerSet(Level(s, 3), s.readers);
  }

  function ActorOf(a: Step): Holder
    requires IsRec(a) || IsEnq(a)
  {
    if IsRec(a) then R(a.r) else E(a.r)
  }

  /** From `s` to `n` no holder is new or further from the end, and `actor` is nearer to it. */
  ghost predicate Nearer(s: State, n: State, actor: Option<Holder>) {
    && n.readers <= s.readers
    && (forall h :: h in n.readers ==> Rank(n, h) <= Rank(s, h))
    && (actor.Some? ==> actor.value in s.readers && Rank(n, actor.value) < Rank(s, actor.value))
  }

  lemma StepNearer(s: State, a: Step)
    requires Locks(s) && Enabled(s, a) && !Admits(a)
    ensures Nearer(s, Apply(s, a), if ByReader(s, a) then Some(ActorOf(a)) else None)
  {
    hide ApplyRec, ApplyEnq, ApplyClose, Locks, Nearer;
    if IsRec(a) {
      RecNearer(s, a);
    } else if IsEnq(a) {
      EnqNearer(s, a);
    } else if IsClose(a) {
      CloseNearer(s, a);
    } else {
      LoopNearer(s, a);
    }
  }

  lemma RecNearer(s: State, a: Step)
    requires Locks(s) && Enabled(s, a) && IsRec(a) && !Admits(a)
    ensures Nearer(s, ApplyRec(s, a), if R(a.r) in s.readers then Some(R(a.r)) else None)
  {
    assert R(a.r) in s.readers <==> RecHolds(s, a.r);
    hide Locks;
    RecMovesAlone(s, a);
    var n := ApplyRec(s, a);
    hide ApplyRec, Enabled;
    assert forall r :: r != a.r ==> Rank(n, R(r)) == Rank(s, R(r));
    assert forall r :: Rank(n, E(r)) <= Rank(s, E(r));
  }

  /** A Record's step moves it alone, and starts its waiting goroutine at most. */
  lemma RecMovesAlone(s: State, a: Step)
    requires Enabled(s, a) && IsRec(a) && !Admits(a)
    ensures var n := ApplyRec(s, a);
            && n.readers <= s.readers && a.r in n.rec && n.rec == s.rec[a.r := n.rec[a.r]]
            && (n.enq == s.enq || n.enq == s.enq[a.r := EnqStart])
            && (RecHolds(s, a.r) ==> Rank(n, R(a.r)) < Rank(s, R(a.r)))
            && (!RecHolds(s, a.r) ==> Rank(n, R(a.r)) == 0)
  {
  }

  lemma EnqNearer(s: State, a: Step)
    requires Locks(s) && Enabled(s, a) && IsEnq(a) && !Admits(a)
    ensures Nearer(s, ApplyEnq(s, a), if E(a.r) in s.readers then Some(E(a.r)) else None)
  {
    assert E(a.r) in s.readers <==> EnqHolds(s, a.r);
    hide Locks;
  }

  lemma CloseNearer(s: State, a: Step)
    requires IsClose(a)
    ensures Nearer(s, ApplyClose(s, a), None)
  {
  }

  lemma LoopNearer(s: State, a: Step)
    requires Enabled(s, a) && (a.Take? || a.Insert? || a.End?)
    ensures Nearer(s, Apply(s, a), None)
  {
  }

  lemma StepLowers(s: State, a: Step)
    requires Locks(s) && Enabled(s, a) && !Admits(a)
    ensures var n := Apply(s, a);
            ToGo(n) + One(ByReader(s, a)) <= ToGo(s) && n.readers <= s.readers
  {
    StepNearer(s, a);
    var n := Apply(s, a);
    hide Locks, Enabled, Apply, Rank;
    SmallerSet(Level(n, 1), Level(s, 1));
    SmallerSet(Level(n, 2), Level(s, 2));
    SmallerSet(Level(n, 3), Level(s, 3));
    if ByReader(s, a) {
      var h := ActorOf(a);
      RankAtMostThree(s, h);
      assert h in Level(s, Rank(s, h)) && h !in Level(n, Rank(s, h));
    }
  }

  lemma ClosingStays(s: State, a: Step)
    requires s.closing && Enabled(s, a)
    ensures Apply(s, a).closing
  {
  }

  lemma RankAtMostThree(s: State, h: Holder)
    ensures Rank(s, h) <= 3
  {
  }

  /**
   * Whatever the schedule, once no new reader is let in: steps of the lock's holders, completed parked sends included,
   * number at most three a holder, all other steps in between counting for nothing; and as long as one still holds the
   * lock every holder has a step it can take. So any 3 * |readers| steps of theirs leave the lock to the closers.
   */
  lemma {:induction false} EveryScheduleFreesTheLock(s: State, steps: seq<Step>)
    requires Inv(s) && s.closing && NoNewReader(s, steps)
    ensures var n := Run(s, steps);
            && Inv(n) && n.readers <= s.readers
            && HolderSteps(s, steps) + |n.readers| <= 3 * |s.readers|
            && (forall h :: h in n.readers ==> Enabled(n, NextOf(n, h)) && ByReader(n, NextOf(n, h)))
  {
    ScheduleLowers(s, steps);
    var n := Run(s, steps);
    ToGoBounds(s);
    ToGoBounds(n);
    hide Run, HolderSteps, ToGo, Enabled, NextOf, ByReader, Locks, Gate, Fifo, Counted, Apply, Rank;
    forall h | h in n.readers ensures Enabled(n, NextOf(n, h)) && ByReader(n, NextOf(n, h)) {
      HoldersAreNeverStuck(n, h);
    }
  }

  lemma {:induction false} ScheduleLowers(s: State, steps: seq<Step>)
    requires Inv(s) && s.closing && NoNewReader(s, steps)
    ensures var n := Run(s, steps);
            && Inv(n) && n.closing && n.readers <= s.readers
            && HolderSteps(s, steps) + ToGo(n) <= ToGo(s)
    decreases |steps|
  {
    hide Enabled, Apply, ToGo, ByReader, Locks, Gate, Fifo, Counted;
    if steps != [] {
      StepInv(s, steps[0]);
      StepLowers(s, steps[0]);
      ClosingStays(s, steps[0]);
      hide Inv;
      ScheduleLowers(Apply(s, steps[0]), steps[1..]);
    }
  }

  function WriterSteps(s: State): nat {
    2 * |s.queue| + One(s.loop.Writing?) + One(!s.loop.Ended?)
  }

  /** The writer loop is never stuck on a closed channel. */
  lemma WriterMoves(s: State) returns (a: Step)
    requires s.chClosed && !s.loop.Ended?
    ensures (a.Take? || a.Insert? || a.End?) && Enabled(s, a)
    ensures var n := Apply(s, a);
            && WriterSteps(n) < WriterSteps(s) && n.chClosed && n.closers == s.closers && n.accepted == s.accepted
            && (Fifo(s) ==> Fifo(n)) && (n.loop.Ended? ==> n.queue == [])
  {
    hide ApplyRec, ApplyEnq, ApplyClose;
    a := if s.loop.Writing? then Insert else if s.queue != [] then Take else End;
    if Fifo(s) { StepFifo(s, a); }
    hide Fifo;
  }

  /** With the channel closed the writer loop alone empties the queue and ends, so a waiting Close can return on `done`. */
  lemma {:induction false} WriterDrains(s: State) returns (steps: seq<Step>)
    requires s.chClosed
    ensures |steps| <= WriterSteps(s) && forall a :: a in steps ==> a.Take? || a.Insert? || a.End?
    ensures var n := Run(s, steps); n.loop.Ended? && n.closers == s.closers
    ensures Fifo(s) && (s.loop.Ended? ==> s.queue == []) ==> Run(s, steps).handed == s.accepted
    decreases WriterSteps(s)
  {
    steps := [];
    if !s.loop.Ended? {
      var a := WriterMoves(s);
      hide Apply, Enabled, Fifo, WriterSteps;
      var rest := WriterDrains(Apply(s, a));
      steps := [a] + rest;
      assert steps[1..] == rest;
    }
  }

  // ---- What one call does ----

  lemma {:induction false} RunAppend(s: State, a: seq<Step>, b: seq<Step>)
    ensures Run(s, a + b) == Run(Run(s, a), b)
    decreases |a|
  {
    hide Enabled, Apply;
    if a == [] {
      assert a + b == b;
    } else {
      assert (a + b)[1..] == a[1..] + b;
      RunAppend(if Enabled(s, a[0]) then Apply(s, a[0]) else s, a[1..], b);
    }
  }

  lemma RunOne(s: State, a: Step)
    ensures Run(s, [a]) == if Enabled(s, a) then Apply(s, a) else s
  {
    hide Enabled, Apply;
    var one := [a];
    assert one[1..] == [];
  }

  lemma RunTwo(s: State, a: Step, b: Step)
    ensures Run(s, [a, b]) == Run(Run(s, [a]), [b])
  {
    assert [a, b] == [a] + [b];
    RunAppend(s, [a], [b]);
  }

  /** A Record's way to its select, when it finds the logger open. */
  lemma RecordEnters(s: State, r: Row)
    requires r !in s.rec && s.writer == None && !s.closed
    ensures Run(s, [Record(r), RecLock(r)] + [RecCheck(r)]) ==
            s.(rec := s.rec[r := RecOpen], readers := s.readers + {R(r)})
  {
    var s1 := s.(rec := s.rec[r := RecStart]);
    var s2 := s1.(rec := s1.rec[r := RecIn], readers := s.readers + {R(r)});
    RunAppend(s, [Record(r), RecLock(r)], [RecCheck(r)]);
    RunTwo(s, Record(r), RecLock(r));
    RunOne(s, Record(r));
    RunOne(s1, RecLock(r));
    RunOne(s2, RecCheck(r));
    hide Run;
    assert s2.rec[r := RecOpen] == s.rec[r := RecOpen];
  }

  /** And from the select to its return. */
  lemma RecordLeaves(s: State, r: Row)
    requires RecAt(s, r, RecOpen) && !s.chClosed
    ensures var n := Run(s, [RecSelect(r), RecUnlock(r)]);
            && n.dropped == s.dropped && n.panicked == s.panicked && n.readers == s.readers - {R(r)} && n.rec == s.rec[r := RecOut]
            && (if |s.queue| < 1024 then n.queue == s.queue + [r] && n.accepted == s.accepted + [r] && n.enq == s.enq
                else n.queue == s.queue && n.accepted == s.accepted && n.enq == s.enq[r := EnqStart])
  {
    hide Run, Apply, Enabled;
    RunTwo(s, RecSelect(r), RecUnlock(r));
    RunOne(s, RecSelect(r));
    SelectChooses(s, r);
    var m := Apply(s, RecSelect(r));
    RunOne(m, RecUnlock(r));
    UnlockReleases(m, r);
    assert s.rec[r := RecLeaving][r := RecOut] == s.rec[r := RecOut];
  }

  lemma UnlockReleases(s: State, r: Row)
    requires RecAt(s, r, RecLeaving)
    ensures Enabled(s, RecUnlock(r)) && Apply(s, RecUnlock(r)) == s.(rec := s.rec[r := RecOut], readers := s.readers - {R(r)})
  {
  }

  lemma SelectChooses(s: State, r: Row)
    requires RecAt(s, r, RecOpen) && !s.chClosed
    ensures Enabled(s, RecSelect(r))
    ensures Apply(s, RecSelect(r)) ==
            var n := s.(rec := s.rec[r := RecLeaving]);
            if |s.queue| < 1024 then n.(queue := s.queue + [r], accepted := s.accepted + [r])
            else n.(enq := s.enq[r := EnqStart])
  {
  }

  /**
   * A row recorded while the logger is open and fewer than 1024 rows are queued is queued at once, behind the others; at 1024
   * its Record returns too, and the row goes to a goroutine of its own.
   */
  lemma RecordQueues(s: State, r: Row)
    requires r !in s.rec && s.writer == None && !s.closed && !s.chClosed && R(r) !in s.readers
    ensures var n := Run(s, ([Record(r), RecLock(r)] + [RecCheck(r)]) + [RecSelect(r), RecUnlock(r)]);
            && n.dropped == s.dropped && n.panicked == s.panicked && n.readers == s.readers && n.rec == s.rec[r := RecOut]
            && (if |s.queue| < 1024 then n.queue == s.queue + [r] && n.accepted == s.accepted + [r] && n.enq == s.enq
                else n.queue == s.queue && n.accepted == s.accepted && n.enq == s.enq[r := EnqStart])
  {
    RecordEnters(s, r);
    var m := s.(rec := s.rec[r := RecOpen], readers := s.readers + {R(r)});
    hide Run;
    RunAppend(s, [Record(r), RecLock(r)] + [RecCheck(r)], [RecSelect(r), RecUnlock(r)]);
    RecordLeaves(m, r);
    assert s.rec[r := RecOpen][r := RecOut] == s.rec[r := RecOut];
    assert s.readers + {R(r)} - {R(r)} == s.readers;
  }

  /** Said of every reachable state: a select that finds room queues its row, and none is dropped by it. */
  lemma SelectQueues(s: State, r: Row)
    requires Inv(s) && Enabled(s, RecSelect(r)) && |s.queue| < 1024
    ensures var n := Apply(s, RecSelect(r)); n.queue == s.queue + [r] && n.dropped == s.dropped && !n.panicked && n.enq == s.enq
  {
    assert s.rec[r].RecOpen?;
    hide Locks, Fifo, Counted;
  }

  /** A row recorded after `closed` is set is dropped with a line. */
  lemma RecordAfterCloseIsDropped(s: State, r: Row)
    requires r !in s.rec && s.writer == None && s.closed
    ensures var n := Run(s, [Record(r), RecLock(r)] + [RecCheck(r)]);
            n.dropped == s.dropped + [r] && n.queue == s.queue && n.accepted == s.accepted && n.enq == s.enq
  {
    var s1 := s.(rec := s.rec[r := RecStart]);
    var s2 := s1.(rec := s1.rec[r := RecIn], readers := s.readers + {R(r)});
    RunAppend(s, [Record(r), RecLock(r)], [RecCheck(r)]);
    RunTwo(s, Record(r), RecLock(r));
    RunOne(s, Record(r));
    RunOne(s1, RecLock(r));
    RunOne(s2, RecCheck(r));
    hide Run;
  }

  /** A parked row is queued by the first room there is, and dropped with a line only when Close has begun. */
  lemma ParkedRowGoesOn(s: State, r: Row)
    requires Inv(s) && EnqAt(s, r, EnqParked)
    ensures |s.queue| < 1024 ==>
              var n := Run(s, [EnqSend(r)]); n.queue == s.queue + [r] && n.accepted == s.accepted + [r] && n.dropped == s.dropped
    ensures |s.queue| >= 1024 ==> Run(s, [EnqSend(r)]) == s
    ensures Run(s, [EnqGiveWay(r)]).dropped == if s.closing then s.dropped + [r] else s.dropped
  {
    assert !s.chClosed by { assert s.enq[r].EnqParked?; }
    hide *;
    RunOne(s, EnqSend(r));
    RunOne(s, EnqGiveWay(r));
    ParkedSends(s, r);
    ParkedGivesWay(s, r);
  }

  /** A goroutine that finds the logger open parks, and one that finds it closed drops its row with a line. */
  lemma WaiterParks(s: State, r: Row)
    requires EnqAt(s, r, EnqIn)
    ensures Run(s, [EnqCheck(r)]) ==
            if s.closed then s.(dropped := s.dropped + [r], enq := s.enq[r := EnqLeaving]) else s.(enq := s.enq[r := EnqParked])
  {
    hide Run;
    RunOne(s, EnqCheck(r));
    hide ApplyRec, ApplyClose;
  }

  lemma ParkedSends(s: State, r: Row)
    requires EnqAt(s, r, EnqParked) && !s.chClosed
    ensures Enabled(s, EnqSend(r)) <==> |s.queue| < 1024
    ensures |s.queue| < 1024 ==>
              var n := Apply(s, EnqSend(r)); n.queue == s.queue + [r] && n.accepted == s.accepted + [r] && n.dropped == s.dropped
  {
  }

  lemma ParkedGivesWay(s: State, r: Row)
    requires EnqAt(s, r, EnqParked)
    ensures Enabled(s, EnqGiveWay(r)) <==> s.closing
    ensures s.closing ==> Apply(s, EnqGiveWay(r)).dropped == s.dropped + [r]
  {
  }

  lemma CloseWants(s: State, c: nat)
    requires c !in s.closers
    ensures Run(s, [Close(c), CloseOnce(c)]) == s.(closers := s.closers[c := CloseWant], closing := true)
  {
    RunTwo(s, Close(c), CloseOnce(c));
    RunOne(s, Close(c));
    RunOne(Apply(s, Close(c)), CloseOnce(c));
    hide Run;
    assert s.closers[c := CloseStart][c := CloseWant] == s.closers[c := CloseWant];
  }

  /** A Close that nobody disturbs marks the logger, closes its channel and lets go of the lock; a later one finds that done. */
  lemma CloseCloses(s: State, c: nat)
    requires CloseAt(s, c, CloseWant) && s.writer == None && s.readers == {}
    ensures var n := Run(s, [CloseLock(c), CloseMark(c)]);
            && n.closed && n.queue == s.queue && n.dropped == s.dropped && n.chClosed == s.chClosed
            && (s.closed ==> CloseAt(n, c, CloseLeaving))
            && (!s.closed ==> CloseAt(n, c, CloseMarked) && Run(n, [CloseChannel(c)]).chClosed)
  {
    RunTwo(s, CloseLock(c), CloseMark(c));
    RunOne(s, CloseLock(c));
    var m := Run(s, [CloseLock(c)]);
    RunOne(m, CloseMark(c));
    RunOne(Run(m, [CloseMark(c)]), CloseChannel(c));
    hide Run;
  }

  /** A Close that its deadline ends says how many rows were still queued; one that the writer ends, says so. */
  lemma CloseReturns(s: State, c: nat)
    requires CloseAt(s, c, CloseWaiting)
    ensures Run(s, [CloseDeadline(c)]) == s.(closers := s.closers[c := ClosedOnDeadline(|s.queue|)])
    ensures Run(s, [CloseDone(c)]) == if s.loop.Ended? then s.(closers := s.closers[c := ClosedOnDone]) else s
  {
    hide *;
    RunOne(s, CloseDeadline(c));
    RunOne(s, CloseDone(c));
    DeadlineCounts(s, c);
    DoneReturns(s, c);
  }

  lemma DeadlineCounts(s: State, c: nat)
    requires CloseAt(s, c, CloseWaiting)
    ensures Enabled(s, CloseDeadline(c)) && Apply(s, CloseDeadline(c)) == s.(closers := s.closers[c := ClosedOnDeadline(|s.queue|)])
  {
  }

  lemma DoneReturns(s: State, c: nat)
    requires CloseAt(s, c, CloseWaiting)
    ensures Enabled(s, CloseDone(c)) <==> s.loop.Ended?
    ensures s.loop.Ended? ==> Apply(s, CloseDone(c)) == s.(closers := s.closers[c := ClosedOnDone])
  {
  }
}
