/**
 Goroutines that append to one shared slice under one mutex, started and awaited through wait groups.

 A program is a forest of routines: routine `i` is started by its parent (the collecting function itself is
 MAIN), appends its blocks in order, waits for the routines it started, and ends. An append is what the
 source makes of it: lock, read the slice, write the longer slice back, unlock. A schedule is any sequence
 of actions that the program allows, so a statement about every legal schedule is one about every interleaving.
 */
module ForkJoin {
  import opened Collections

  const MAIN := -1

  datatype Routine<T> = Routine(parent: int, blocks: seq<seq<T>>)

  /** Where a routine is: `k` is the block it works on, `tmp` its private copy of the shared slice. */
  datatype Pc<T> =
    | Unborn
    | Idle(k: nat)
    | Locked(k: nat)
    | Loaded(k: nat, tmp: seq<T>)
    | Stored(k: nat)
    | Ended

  /** `wg[p + 1]` is the wait group of routine `p`; `log` is a history of the blocks written so far. */
  datatype State<T> = State(
    pcs: seq<Pc<T>>, lock: Option<nat>, shared: seq<T>, wg: seq<int>, returned: bool, log: seq<seq<T>>)

  datatype Action =
    | Spawn(i: nat)
    | Lock(i: nat)
    | Load(i: nat)
    | Store(i: nat)
    | Unlock(i: nat)
    | End(i: nat)
    | Return

  /** A routine is started by the main function or by a routine that comes before it. */
  ghost predicate Forest<T>(routines: seq<Routine<T>>) {
    forall i :: 0 <= i < |routines| ==> MAIN <= routines[i].parent < i
  }

  ghost function Init<T>(routines: seq<Routine<T>>): State<T> {
    State(seq(|routines|, i => Unborn), None, [], seq(|routines| + 1, i => 0), false, [])
  }

  ghost predicate Fits<T>(routines: seq<Routine<T>>, s: State<T>) {
    |s.pcs| == |routines| && |s.wg| == |routines| + 1
  }

  ghost predicate AllStarted<T>(routines: seq<Routine<T>>, s: State<T>, p: int)
    requires Fits(routines, s)
  {
    forall j :: 0 <= j < |routines| && routines[j].parent == p ==> !s.pcs[j].Unborn?
  }

  ghost predicate Enabled<T>(routines: seq<Routine<T>>, s: State<T>, a: Action)
    requires Forest(routines) && Fits(routines, s)
  {
    match a
    case Spawn(i) =>
      && i < |routines| && s.pcs[i].Unborn?
      && (forall j :: 0 <= j < i && routines[j].parent == routines[i].parent ==> !s.pcs[j].Unborn?)
      && (if routines[i].parent == MAIN then !s.returned else s.pcs[routines[i].parent].Idle?)
    case Lock(i) =>
      i < |routines| && s.pcs[i].Idle? && s.pcs[i].k < |routines[i].blocks| && s.lock == None
    case Load(i) => i < |routines| && s.pcs[i].Locked?
    case Store(i) => i < |routines| && s.pcs[i].Loaded? && s.pcs[i].k < |routines[i].blocks|
    case Unlock(i) => i < |routines| && s.pcs[i].Stored?
    case End(i) =>
      i < |routines| && s.pcs[i] == Idle(|routines[i].blocks|) && AllStarted(routines, s, i) && s.wg[i + 1] == 0
    case Return => !s.returned && AllStarted(routines, s, MAIN) && s.wg[0] == 0
  }

  ghost function Apply<T>(routines: seq<Routine<T>>, s: State<T>, a: Action): (t: State<T>)
    requires Forest(routines) && Fits(routines, s) && Enabled(routines, s, a)
    ensures Fits(routines, t)
  {
    match a
    case Spawn(i) =>
      var p := routines[i].parent + 1;
      s.(pcs := s.pcs[i := Idle(0)], wg := s.wg[p := s.wg[p] + 1])
    case Lock(i) => s.(pcs := s.pcs[i := Locked(s.pcs[i].k)], lock := Some(i))
    case Load(i) => s.(pcs := s.pcs[i := Loaded(s.pcs[i].k, s.shared)])
    case Store(i) =>
      var k := s.pcs[i].k;
      s.(pcs := s.pcs[i := Stored(k)],
         shared := s.pcs[i].tmp + routines[i].blocks[k],
         log := s.log + [routines[i].blocks[k]])
    case Unlock(i) => s.(pcs := s.pcs[i := Idle(s.pcs[i].k + 1)], lock := None)
    case End(i) =>
      var p := routines[i].parent + 1;
      s.(pcs := s.pcs[i := Ended], wg := s.wg[p := s.wg[p] - 1])
    case Return => s.(returned := true)
  }

  ghost predicate Legal<T>(routines: seq<Routine<T>>, schedule: seq<Action>)
    requires Forest(routines)
    decreases |schedule|, 0
  {
    schedule == [] ||
    var n := |schedule| - 1;
    Legal(routines, schedule[..n]) && Enabled(routines, After(routines, schedule[..n]), schedule[n])
  }

  ghost function After<T>(routines: seq<Routine<T>>, schedule: seq<Action>): (s: State<T>)
    requires Forest(routines) && Legal(routines, schedule)
    ensures Fits(routines, s)
    decreases |schedule|, 1
  {
    if schedule == [] then Init(routines)
    else
      var n := |schedule| - 1;
      Apply(routines, After(routines, schedule[..n]), schedule[n])
  }

  /** A legal schedule at whose end the collecting function has returned. */
  ghost predicate Complete<T>(routines: seq<Routine<T>>, schedule: seq<Action>)
    requires Forest(routines)
  {
    Legal(routines, schedule) && After(routines, schedule).returned
  }

  /** What the collecting function returns. */
  ghost function Output<T>(routines: seq<Routine<T>>, schedule: seq<Action>): seq<T>
    requires Forest(routines) && Complete(routines, schedule)
  {
    After(routines, schedule).shared
  }

  // ---- sums over the routines ----

  ghost predicate Live<T>(pc: Pc<T>) {
    !pc.Unborn? && !pc.Ended?
  }

  /** How many of the first `n` routines were started by `p` and have not ended. */
  ghost function LiveChildren<T>(routines: seq<Routine<T>>, pcs: seq<Pc<T>>, p: int, n: nat): nat
    requires n <= |routines| == |pcs|
  {
    if n == 0 then 0
    else LiveChildren(routines, pcs, p, n - 1) + if routines[n - 1].parent == p && Live(pcs[n - 1]) then 1 else 0
  }

  /** How many blocks a routine has written. */
  ghost function Written<T>(routine: Routine<T>, pc: Pc<T>): (k: nat)
    ensures k <= |routine.blocks|
  {
    var k := match pc
      case Unborn => 0
      case Idle(k) => k
      case Locked(k) => k
      case Loaded(k, _) => k
      case Stored(k) => k + 1
      case Ended => |routine.blocks|;
    if k <= |routine.blocks| then k else 0
  }

  ghost function WrittenBy<T>(routine: Routine<T>, pc: Pc<T>): multiset<seq<T>> {
    multiset(routine.blocks[..Written(routine, pc)])
  }

  ghost function WrittenParts<T>(routines: seq<Routine<T>>, pcs: seq<Pc<T>>): (parts: seq<multiset<seq<T>>>)
    requires |routines| == |pcs|
    ensures |parts| == |routines|
  {
    seq(|routines|, i requires 0 <= i < |routines| => WrittenBy(routines[i], pcs[i]))
  }

  /** All blocks of the program, routine after routine: what a sequential program would write. */
  ghost function AllBlocks<T>(routines: seq<Routine<T>>): seq<seq<T>> {
    FlatMap(BlocksOf(), routines)
  }

  ghost function BlocksOf<T>(): Routine<T> -> seq<seq<T>> {
    (r: Routine<T>) => r.blocks
  }

  /** How many actions a routine still has to take. */
  ghost function ToDo<T>(routine: Routine<T>, pc: Pc<T>): int {
    match pc
    case Unborn => 4 * |routine.blocks| + 2
    case Idle(k) => 4 * (|routine.blocks| - k) + 1
    case Locked(k) => 4 * (|routine.blocks| - k)
    case Loaded(k, _) => 4 * (|routine.blocks| - k) - 1
    case Stored(k) => 4 * (|routine.blocks| - k) - 2
    case Ended => 0
  }

  ghost function TotalToDo<T>(routines: seq<Routine<T>>, pcs: seq<Pc<T>>, n: nat): int
    requires n <= |routines| == |pcs|
  {
    if n == 0 then 0 else TotalToDo(routines, pcs, n - 1) + ToDo(routines[n - 1], pcs[n - 1])
  }

  ghost function Remaining<T>(routines: seq<Routine<T>>, s: State<T>): int
    requires Fits(routines, s)
  {
    TotalToDo(routines, s.pcs, |routines|) + if s.returned then 0 else 1
  }

  lemma {:induction false} LiveChildrenUpdate<T>(
    routines: seq<Routine<T>>, pcs: seq<Pc<T>>, p: int, n: nat, i: nat, pc: Pc<T>)
    requires n <= |routines| == |pcs| && i < |pcs|
    ensures LiveChildren(routines, pcs[i := pc], p, n) as int
         == LiveChildren(routines, pcs, p, n)
            + if i < n && routines[i].parent == p
              then (if Live(pc) then 1 else 0) - (if Live(pcs[i]) then 1 else 0) else 0
  {
    if n > 0 {
      LiveChildrenUpdate(routines, pcs, p, n - 1, i, pc);
    }
  }

  lemma {:induction false} NoLiveChildren<T>(routines: seq<Routine<T>>, pcs: seq<Pc<T>>, p: int, n: nat)
    requires n <= |routines| == |pcs|
    ensures LiveChildren(routines, pcs, p, n) == 0
       <==> forall i :: 0 <= i < n && routines[i].parent == p ==> !Live(pcs[i])
  {
    if n > 0 {
      NoLiveChildren(routines, pcs, p, n - 1);
    }
  }

  lemma WrittenUpdate<T>(routines: seq<Routine<T>>, pcs: seq<Pc<T>>, i: nat, pc: Pc<T>, more: multiset<seq<T>>)
    requires i < |routines| == |pcs|
    requires WrittenBy(routines[i], pc) == WrittenBy(routines[i], pcs[i]) + more
    ensures Union(WrittenParts(routines, pcs[i := pc])) == Union(WrittenParts(routines, pcs)) + more
  {
    var parts := WrittenParts(routines, pcs);
    UnionUpdate(parts, i, more);
    assert WrittenParts(routines, pcs[i := pc]) == parts[i := parts[i] + more];
  }

  lemma {:induction false} TotalToDoUpdate<T>(
    routines: seq<Routine<T>>, pcs: seq<Pc<T>>, n: nat, i: nat, pc: Pc<T>)
    requires n <= |routines| == |pcs| && i < |pcs|
    ensures TotalToDo(routines, pcs[i := pc], n)
         == TotalToDo(routines, pcs, n) + if i < n then ToDo(routines[i], pc) - ToDo(routines[i], pcs[i]) else 0
  {
    if n > 0 {
      TotalToDoUpdate(routines, pcs, n - 1, i, pc);
    }
  }

  lemma {:induction false} NothingWritten<T>(routines: seq<Routine<T>>, pcs: seq<Pc<T>>)
    requires |routines| == |pcs|
    requires forall i :: 0 <= i < |pcs| ==> pcs[i].Unborn?
    ensures Union(WrittenParts(routines, pcs)) == multiset{}
  {
    if routines != [] {
      var n := |routines| - 1;
      NothingWritten(routines[..n], pcs[..n]);
      assert WrittenParts(routines, pcs)[..n] == WrittenParts(routines[..n], pcs[..n]);
      assert WrittenBy(routines[n], pcs[n]) == multiset{};
    }
  }

  lemma {:induction false} EverythingWritten<T>(routines: seq<Routine<T>>, pcs: seq<Pc<T>>)
    requires |routines| == |pcs|
    requires forall i :: 0 <= i < |pcs| ==> Written(routines[i], pcs[i]) == |routines[i].blocks|
    ensures Union(WrittenParts(routines, pcs)) == multiset(AllBlocks(routines))
  {
    if routines != [] {
      var n := |routines| - 1;
      EverythingWritten(routines[..n], pcs[..n]);
      assert WrittenParts(routines, pcs)[..n] == WrittenParts(routines[..n], pcs[..n]);
      assert routines[n].blocks[..|routines[n].blocks|] == routines[n].blocks;
    }
  }

  lemma {:induction false} NothingToDo<T>(routines: seq<Routine<T>>, pcs: seq<Pc<T>>, n: nat)
    requires n <= |routines| == |pcs|
    requires forall i :: 0 <= i < |pcs| ==> pcs[i].Ended?
    ensures TotalToDo(routines, pcs, n) == 0
  {
    if n > 0 {
      NothingToDo(routines, pcs, n - 1);
    }
  }

  // ---- the invariant ----

  ghost predicate HoldsLock<T>(pc: Pc<T>) {
    pc.Locked? || pc.Loaded? || pc.Stored?
  }

  ghost predicate PcInRange<T>(routine: Routine<T>, pc: Pc<T>) {
    && (pc.Idle? ==> pc.k <= |routine.blocks|)
    && (HoldsLock(pc) ==> pc.k < |routine.blocks|)
  }

  /** Mutual exclusion, and a copy of the shared slice is never out of date while it is in use. */
  ghost predicate LockInv<T>(routines: seq<Routine<T>>, s: State<T>)
    requires Fits(routines, s)
  {
    && (forall i :: 0 <= i < |routines| ==> PcInRange(routines[i], s.pcs[i]))
    && (forall i :: 0 <= i < |routines| ==> (HoldsLock(s.pcs[i]) <==> s.lock == Some(i)))
    && (s.lock.Some? ==> s.lock.value < |routines|)
    && (forall i :: 0 <= i < |routines| && s.pcs[i].Loaded? ==> s.pcs[i].tmp == s.shared)
  }

  /** A wait group counts live children; a routine ends after its children, and is not outlived by them. */
  ghost predicate WaitInv<T>(routines: seq<Routine<T>>, s: State<T>)
    requires Forest(routines) && Fits(routines, s)
  {
    && CountInv(routines, s)
    && (forall i :: 0 <= i < |routines| ==> FamilyInv(routines, s, i))
  }

  ghost predicate CountInv<T>(routines: seq<Routine<T>>, s: State<T>)
    requires Forest(routines) && Fits(routines, s)
  {
    forall p :: MAIN <= p < |routines| ==> s.wg[p + 1] == LiveChildren(routines, s.pcs, p, |routines|)
  }

  ghost predicate FamilyInv<T>(routines: seq<Routine<T>>, s: State<T>, i: nat)
    requires Forest(routines) && Fits(routines, s) && i < |routines|
  {
    var p := routines[i].parent;
    if p == MAIN then s.returned ==> s.pcs[i].Ended?
    else (s.pcs[p].Ended? ==> s.pcs[i].Ended?) && (s.pcs[p].Unborn? ==> s.pcs[i].Unborn?)
  }

  ghost predicate DataInv<T>(routines: seq<Routine<T>>, s: State<T>)
    requires Fits(routines, s)
  {
    && s.shared == Concat(s.log)
    && multiset(s.log) == Union(WrittenParts(routines, s.pcs))
  }

  ghost predicate Inv<T>(routines: seq<Routine<T>>, s: State<T>)
    requires Forest(routines)
  {
    Fits(routines, s) && LockInv(routines, s) && WaitInv(routines, s) && DataInv(routines, s)
  }

  lemma InitInv<T>(routines: seq<Routine<T>>)
    requires Forest(routines)
    ensures Inv(routines, Init(routines))
  {
    var pcs := Init(routines).pcs;
    NothingWritten(routines, pcs);
    forall p | MAIN <= p < |routines| ensures LiveChildren(routines, pcs, p, |routines|) == 0 {
      NoLiveChildren(routines, pcs, p, |routines|);
    }
  }

  lemma StepLockInv<T>(routines: seq<Routine<T>>, s: State<T>, a: Action)
    requires Forest(routines) && Fits(routines, s) && LockInv(routines, s) && Enabled(routines, s, a)
    ensures LockInv(routines, Apply(routines, s, a))
  {
  }

  lemma StoreWrites<T>(routine: Routine<T>, pc: Pc<T>)
    requires pc.Loaded? && pc.k < |routine.blocks|
    ensures WrittenBy(routine, Stored(pc.k)) == WrittenBy(routine, pc) + multiset{routine.blocks[pc.k]}
  {
    assert routine.blocks[..pc.k + 1] == routine.blocks[..pc.k] + [routine.blocks[pc.k]];
  }

  lemma OthersWriteNothing<T>(routines: seq<Routine<T>>, s: State<T>, a: Action)
    requires Forest(routines) && Fits(routines, s) && LockInv(routines, s) && Enabled(routines, s, a)
    requires !a.Store? && !a.Return?
    ensures Written(routines[a.i], Apply(routines, s, a).pcs[a.i]) == Written(routines[a.i], s.pcs[a.i])
  {
    assert PcInRange(routines[a.i], s.pcs[a.i]);
  }

  lemma StepDataInv<T>(routines: seq<Routine<T>>, s: State<T>, a: Action)
    requires Forest(routines) && Fits(routines, s) && Enabled(routines, s, a)
    requires LockInv(routines, s) && DataInv(routines, s)
    ensures DataInv(routines, Apply(routines, s, a))
  {
    var t := Apply(routines, s, a);
    if a.Store? {
      var block := routines[a.i].blocks[s.pcs[a.i].k];
      StoreWrites(routines[a.i], s.pcs[a.i]);
      WrittenUpdate(routines, s.pcs, a.i, t.pcs[a.i], multiset{block});
      assert t.log == s.log + [block] && t.log[..|s.log|] == s.log;
    } else if !a.Return? {
      OthersWriteNothing(routines, s, a);
      WrittenUpdate(routines, s.pcs, a.i, t.pcs[a.i], multiset{});
    }
  }

  lemma StepCountInv<T>(routines: seq<Routine<T>>, s: State<T>, a: Action)
    requires Forest(routines) && Fits(routines, s) && CountInv(routines, s) && Enabled(routines, s, a)
    ensures CountInv(routines, Apply(routines, s, a))
  {
    var t := Apply(routines, s, a);
    if !a.Return? {
      forall p | MAIN <= p < |routines|
        ensures t.wg[p + 1] == LiveChildren(routines, t.pcs, p, |routines|)
      {
        assert s.wg[p + 1] == LiveChildren(routines, s.pcs, p, |routines|);
        LiveChildrenUpdate(routines, s.pcs, p, |routines|, a.i, t.pcs[a.i]);
      }
    }
  }

  lemma StepFamilyInv<T>(routines: seq<Routine<T>>, s: State<T>, a: Action, i: nat)
    requires Forest(routines) && Fits(routines, s) && WaitInv(routines, s) && Enabled(routines, s, a)
    requires i < |routines|
    ensures FamilyInv(routines, Apply(routines, s, a), i)
  {
    var p := routines[i].parent;
    assert FamilyInv(routines, s, i);
    assert s.wg[p + 1] == LiveChildren(routines, s.pcs, p, |routines|);
    NoLiveChildren(routines, s.pcs, p, |routines|);
  }

  lemma StepWaitInv<T>(routines: seq<Routine<T>>, s: State<T>, a: Action)
    requires Forest(routines) && Inv(routines, s) && Enabled(routines, s, a)
    ensures WaitInv(routines, Apply(routines, s, a))
  {
    StepCountInv(routines, s, a);
    forall i | 0 <= i < |routines| ensures FamilyInv(routines, Apply(routines, s, a), i) {
      StepFamilyInv(routines, s, a, i);
    }
  }

  lemma {:induction false} InvAfter<T>(routines: seq<Routine<T>>, schedule: seq<Action>)
    requires Forest(routines) && Legal(routines, schedule)
    ensures Inv(routines, After(routines, schedule))
    decreases |schedule|
  {
    if schedule == [] {
      InitInv(routines);
    } else {
      var n := |schedule| - 1;
      InvAfter(routines, schedule[..n]);
      var s := After(routines, schedule[..n]);
      StepLockInv(routines, s, schedule[n]);
      StepDataInv(routines, s, schedule[n]);
      StepWaitInv(routines, s, schedule[n]);
    }
  }

  lemma LockInvAfter<T>(routines: seq<Routine<T>>, schedule: seq<Action>)
    requires Forest(routines) && Legal(routines, schedule)
    ensures LockInv(routines, After(routines, schedule))
  {
    InvAfter(routines, schedule);
  }

  // ---- what every schedule delivers ----

  lemma {:induction false} EndedBelow<T>(routines: seq<Routine<T>>, s: State<T>, i: nat)
    requires Forest(routines) && Inv(routines, s) && s.returned && i < |routines|
    ensures s.pcs[i].Ended?
  {
    assert FamilyInv(routines, s, i);
    if routines[i].parent != MAIN {
      EndedBelow(routines, s, routines[i].parent);
    }
  }

  /**
   The function returns only after every routine at every depth has ended and the mutex is free, and what it
   returns is all the blocks of all the routines, each in one piece, in some order.
   */
  lemma Conservation<T>(routines: seq<Routine<T>>, schedule: seq<Action>)
    requires Forest(routines) && Complete(routines, schedule)
    ensures var s := After(routines, schedule);
      && (forall i :: 0 <= i < |routines| ==> s.pcs[i].Ended?)
      && s.lock == None
      && Permutation(s.log, AllBlocks(routines))
      && Output(routines, schedule) == Concat(s.log)
      && Permutation(Output(routines, schedule), Concat(AllBlocks(routines)))
  {
    var s := After(routines, schedule);
    InvAfter(routines, schedule);
    forall i | 0 <= i < |routines| ensures s.pcs[i].Ended? {
      EndedBelow(routines, s, i);
    }
    EverythingWritten(routines, s.pcs);
    ConcatPermuted(s.log, AllBlocks(routines));
  }

  /** Every action brings the end nearer by exactly one. */
  lemma StepsLeft<T>(routines: seq<Routine<T>>, s: State<T>, a: Action)
    requires Forest(routines) && Fits(routines, s) && Enabled(routines, s, a)
    ensures Remaining(routines, Apply(routines, s, a)) == Remaining(routines, s) - 1
  {
    var t := Apply(routines, s, a);
    if !a.Return? {
      TotalToDoUpdate(routines, s.pcs, |routines|, a.i, t.pcs[a.i]);
      assert t.pcs == s.pcs[a.i := t.pcs[a.i]];
    }
  }

  lemma {:induction false} RemainingNotNegative<T>(routines: seq<Routine<T>>, pcs: seq<Pc<T>>, n: nat)
    requires n <= |routines| == |pcs|
    requires forall i :: 0 <= i < |routines| ==> PcInRange(routines[i], pcs[i])
    ensures TotalToDo(routines, pcs, n) >= 0
  {
    if n > 0 {
      RemainingNotNegative(routines, pcs, n - 1);
      assert PcInRange(routines[n - 1], pcs[n - 1]);
    }
  }

  /** No schedule runs on: it has at most as many actions as the program has steps, and that many when complete. */
  lemma {:induction false} ScheduleLength<T>(routines: seq<Routine<T>>, schedule: seq<Action>)
    requires Forest(routines) && Legal(routines, schedule)
    ensures |schedule| + Remaining(routines, After(routines, schedule)) == Remaining(routines, Init(routines))
    ensures |schedule| <= Remaining(routines, Init(routines))
    ensures Complete(routines, schedule) <==> |schedule| == Remaining(routines, Init(routines))
    decreases |schedule|
  {
    var s := After(routines, schedule);
    InvAfter(routines, schedule);
    RemainingNotNegative(routines, s.pcs, |routines|);
    if s.returned {
      Conservation(routines, schedule);
      NothingToDo(routines, s.pcs, |routines|);
    }
    if schedule != [] {
      var n := |schedule| - 1;
      ScheduleLength(routines, schedule[..n]);
      InvAfter(routines, schedule[..n]);
      StepsLeft(routines, After(routines, schedule[..n]), schedule[n]);
    }
  }

  /** Whatever has happened so far, until the function returns somebody can move. */
  lemma NoDeadlock<T>(routines: seq<Routine<T>>, s: State<T>) returns (a: Action)
    requires Forest(routines) && Inv(routines, s) && !s.returned
    ensures Enabled(routines, s, a)
  {
    if s.lock.Some? {
      var i := s.lock.value;
      assert HoldsLock(s.pcs[i]);
      assert PcInRange(routines[i], s.pcs[i]);
      a := if s.pcs[i].Locked? then Load(i) else if s.pcs[i].Loaded? then Store(i) else Unlock(i);
    } else if i: nat :| i < |routines| && s.pcs[i].Idle? && s.pcs[i].k < |routines[i].blocks| {
      a := Lock(i);
    } else if exists i :: 0 <= i < |routines| && s.pcs[i].Unborn? {
      var i := FirstUnborn(routines, s);
      var p := routines[i].parent;
      assert FamilyInv(routines, s, i);
      assert p != MAIN ==> !HoldsLock(s.pcs[p]);
      a := Spawn(i);
    } else if exists i :: 0 <= i < |routines| && !s.pcs[i].Ended? {
      var i := LastLive(routines, s);
      assert PcInRange(routines[i], s.pcs[i]) && !HoldsLock(s.pcs[i]);
      NoLiveChildren(routines, s.pcs, i, |routines|);
      a := End(i);
    } else {
      NoLiveChildren(routines, s.pcs, MAIN, |routines|);
      a := Return;
    }
  }

  lemma FirstUnborn<T>(routines: seq<Routine<T>>, s: State<T>) returns (i: nat)
    requires Fits(routines, s) && exists i :: 0 <= i < |routines| && s.pcs[i].Unborn?
    ensures i < |routines| && s.pcs[i].Unborn? && forall j :: 0 <= j < i ==> !s.pcs[j].Unborn?
  {
    i := 0;
    while !s.pcs[i].Unborn?
      invariant i < |routines| && forall j :: 0 <= j < i ==> !s.pcs[j].Unborn?
      decreases |routines| - i
    {
      i := i + 1;
    }
  }

  lemma LastLive<T>(routines: seq<Routine<T>>, s: State<T>) returns (i: nat)
    requires Fits(routines, s) && exists i :: 0 <= i < |routines| && !s.pcs[i].Ended?
    ensures i < |routines| && !s.pcs[i].Ended? && forall j :: i < j < |routines| ==> s.pcs[j].Ended?
  {
    i := |routines| - 1;
    while s.pcs[i].Ended?
      invariant 0 <= i < |routines| && forall j :: i < j < |routines| ==> s.pcs[j].Ended?
      decreases i
    {
      i := i - 1;
    }
  }

  /** Every legal schedule, however it began, can be carried on until the function returns. */
  lemma {:induction false} CanComplete<T>(routines: seq<Routine<T>>, schedule: seq<Action>) returns (whole: seq<Action>)
    requires Forest(routines) && Legal(routines, schedule)
    ensures Complete(routines, whole) && schedule <= whole
    decreases Remaining(routines, Init(routines)) - |schedule|
  {
    if After(routines, schedule).returned {
      whole := schedule;
    } else {
      var a := NextAction(routines, schedule);
      var next := schedule + [a];
      ScheduleLength(routines, schedule);
      ScheduleLength(routines, next);
      whole := CanComplete(routines, next);
    }
  }

  /** Nothing happens after the return. */
  lemma NothingAfterReturn<T>(routines: seq<Routine<T>>, schedule: seq<Action>, a: Action)
    requires Forest(routines) && Complete(routines, schedule)
    ensures !Legal(routines, schedule + [a])
  {
    Conservation(routines, schedule);
    assert (schedule + [a])[..|schedule|] == schedule;
  }

  /** Before the return somebody can move, and the schedule stays legal. */
  lemma NextAction<T>(routines: seq<Routine<T>>, schedule: seq<Action>) returns (a: Action)
    requires Forest(routines) && Legal(routines, schedule) && !After(routines, schedule).returned
    ensures Enabled(routines, After(routines, schedule), a) && Legal(routines, schedule + [a])
  {
    InvAfter(routines, schedule);
    a := NoDeadlock(routines, After(routines, schedule));
    assert (schedule + [a])[..|schedule|] == schedule;
  }

  ghost predicate NotBegun<T>(pc: Pc<T>) {
    pc.Unborn? || pc == Idle(0)
  }

  /** A routine with one block is born by its start, and begins by taking the lock. */
  lemma FirstSteps<T>(routines: seq<Routine<T>>, s: State<T>, a: Action, i: nat)
    requires Forest(routines) && Fits(routines, s) && Enabled(routines, s, a)
    requires i < |routines| && |routines[i].blocks| == 1
    ensures var pc, next := s.pcs[i], Apply(routines, s, a).pcs[i];
      && (pc.Unborn? && !next.Unborn? ==> a == Spawn(i))
      && (NotBegun(pc) && !NotBegun(next) ==> a == Lock(i))
  {
  }

  /** What a routine is going to append does not matter as long as it has not begun to append. */
  lemma {:induction false} BlocksMayChange<T>(
    routines: seq<Routine<T>>, schedule: seq<Action>, i: nat, blocks: seq<seq<T>>)
    requires Forest(routines) && i < |routines| && |blocks| == |routines[i].blocks|
    requires Legal(routines, schedule) && NotBegun(After(routines, schedule).pcs[i])
    ensures var changed := routines[i := routines[i].(blocks := blocks)];
      Forest(changed) && Legal(changed, schedule) && After(changed, schedule) == After(routines, schedule)
  {
    var changed := routines[i := routines[i].(blocks := blocks)];
    if schedule == [] {
      assert Init(changed) == Init(routines);
    } else {
      var n := |schedule| - 1;
      var s := After(routines, schedule[..n]);
      assert NotBegun(s.pcs[i]);
      BlocksMayChange(routines, schedule[..n], i, blocks);
      SameStep(routines, changed, s, schedule[n], i);
    }
  }

  lemma SameStep<T>(routines: seq<Routine<T>>, changed: seq<Routine<T>>, s: State<T>, a: Action, i: nat)
    requires Forest(routines) && Fits(routines, s) && Enabled(routines, s, a) && i < |routines|
    requires |changed| == |routines| && changed[i].parent == routines[i].parent
    requires |changed[i].blocks| == |routines[i].blocks|
    requires forall j :: 0 <= j < |routines| && j != i ==> changed[j] == routines[j]
    requires NotBegun(s.pcs[i]) && NotBegun(Apply(routines, s, a).pcs[i])
    ensures Forest(changed) && Enabled(changed, s, a) && Apply(changed, s, a) == Apply(routines, s, a)
  {
    assert forall j :: 0 <= j < |routines| ==> changed[j].parent == routines[j].parent;
    assert forall p :: AllStarted(routines, s, p) ==> AllStarted(changed, s, p);
  }

  // ---- programs without nesting ----

  /** One routine per list of blocks, all started by the function itself. */
  ghost function Flat<T>(work: seq<seq<seq<T>>>): (routines: seq<Routine<T>>)
    ensures Forest(routines) && |routines| == |work|
  {
    seq(|work|, i requires 0 <= i < |work| => Routine(MAIN, work[i]))
  }

  lemma {:induction false} FlatBlocks<T>(work: seq<seq<seq<T>>>)
    ensures AllBlocks(Flat(work)) == Concat(work)
  {
    if work != [] {
      var n := |work| - 1;
      FlatBlocks(work[..n]);
      assert Flat(work)[..n] == Flat(work[..n]);
    }
  }

  /** Workers that append the elements of their list one by one. */
  ghost function OneByOne<T>(lists: seq<seq<T>>): (work: seq<seq<seq<T>>>)
    ensures |work| == |lists|
  {
    seq(|lists|, i requires 0 <= i < |lists| => Singles(lists[i]))
  }

  /** The result is a permutation of what the workers would append one after the other. */
  lemma OneByOneConservation<T>(lists: seq<seq<T>>, schedule: seq<Action>)
    requires Complete(Flat(OneByOne(lists)), schedule)
    ensures Permutation(Output(Flat(OneByOne(lists)), schedule), Concat(lists))
  {
    Conservation(Flat(OneByOne(lists)), schedule);
    FlatBlocks(OneByOne(lists));
    ConcatOneByOne(lists);
  }

  lemma {:induction false} ConcatOneByOne<T>(lists: seq<seq<T>>)
    ensures Concat(Concat(OneByOne(lists))) == Concat(lists)
  {
    if lists != [] {
      var n := |lists| - 1;
      ConcatOneByOne(lists[..n]);
      assert OneByOne(lists)[..n] == OneByOne(lists[..n]);
      ConcatAppend(Concat(OneByOne(lists[..n])), Singles(lists[n]));
      ConcatSingles(lists[n]);
    }
  }

  // ---- the results are exactly the shuffles ----

  ghost function BlockLists<T>(routines: seq<Routine<T>>): (work: seq<seq<seq<T>>>)
    ensures |work| == |routines|
  {
    seq(|routines|, i requires 0 <= i < |routines| => routines[i].blocks)
  }

  /** How often `i` is named. */
  ghost function Turns(picks: seq<nat>, i: nat): nat {
    if picks == [] then 0
    else
      var n := |picks| - 1;
      Turns(picks[..n], i) + if picks[n] == i then 1 else 0
  }

  /** `picks` names, block by block, who writes next, and nobody more often than he has blocks. */
  ghost predicate PartOfShuffle<T>(work: seq<seq<seq<T>>>, picks: seq<nat>) {
    && (forall k :: 0 <= k < |picks| ==> picks[k] < |work|)
    && (forall i: nat :: i < |work| ==> Turns(picks, i) <= |work[i]|)
  }

  /** Everybody is named as often as he has blocks. */
  ghost predicate IsShuffle<T>(work: seq<seq<seq<T>>>, picks: seq<nat>) {
    && (forall k :: 0 <= k < |picks| ==> picks[k] < |work|)
    && (forall i: nat :: i < |work| ==> Turns(picks, i) == |work[i]|)
  }

  lemma ShorterPart<T>(work: seq<seq<seq<T>>>, picks: seq<nat>)
    requires picks != [] && PartOfShuffle(work, picks)
    ensures var n := |picks| - 1;
      PartOfShuffle(work, picks[..n]) && Turns(picks[..n], picks[n]) < |work[picks[n]]|
  {
    var n := |picks| - 1;
    forall i: nat | i < |work| ensures Turns(picks[..n], i) <= |work[i]| {
      assert Turns(picks, i) <= |work[i]|;
    }
    assert Turns(picks, picks[n]) <= |work[picks[n]]|;
  }

  /** The blocks in the order of `picks`; everybody's own blocks stay in their order. */
  ghost function Merged<T>(work: seq<seq<seq<T>>>, picks: seq<nat>): (blocks: seq<seq<T>>)
    requires PartOfShuffle(work, picks)
    ensures |blocks| == |picks|
  {
    if picks == [] then []
    else
      var n := |picks| - 1;
      ShorterPart(work, picks);
      Merged(work, picks[..n]) + [work[picks[n]][Turns(picks[..n], picks[n])]]
  }

  lemma NextTurn<T>(work: seq<seq<seq<T>>>, picks: seq<nat>, i: nat)
    requires PartOfShuffle(work, picks) && i < |work| && Turns(picks, i) < |work[i]|
    ensures forall j: nat :: Turns(picks + [i], j) == Turns(picks, j) + if j == i then 1 else 0
    ensures PartOfShuffle(work, picks + [i])
    ensures Merged(work, picks + [i]) == Merged(work, picks) + [work[i][Turns(picks, i)]]
  {
    assert (picks + [i])[..|picks|] == picks;
  }

  /** Who wrote, in the order of the writes. */
  ghost function Writers(schedule: seq<Action>): seq<nat> {
    if schedule == [] then []
    else
      var n := |schedule| - 1;
      if schedule[n].Store? then Writers(schedule[..n]) + [schedule[n].i] else Writers(schedule[..n])
  }

  /** The log is what `picks` says, and everybody has written as often as he is named. */
  ghost predicate Follows<T>(routines: seq<Routine<T>>, s: State<T>, picks: seq<nat>) {
    && |s.pcs| == |routines| && PartOfShuffle(BlockLists(routines), picks)
    && (forall i: nat :: i < |routines| ==> Turns(picks, i) == Written(routines[i], s.pcs[i]))
    && s.log == Merged(BlockLists(routines), picks)
  }

  lemma StoreFollows<T>(routines: seq<Routine<T>>, s: State<T>, i: nat, picks: seq<nat>)
    requires Forest(routines) && Fits(routines, s) && Enabled(routines, s, Store(i)) && Follows(routines, s, picks)
    ensures Follows(routines, Apply(routines, s, Store(i)), picks + [i])
  {
    var t := Apply(routines, s, Store(i));
    assert Turns(picks, i) == Written(routines[i], s.pcs[i]) == s.pcs[i].k;
    NextTurn(BlockLists(routines), picks, i);
    assert t.log == s.log + [routines[i].blocks[s.pcs[i].k]];
    forall j: nat | j < |routines| ensures Turns(picks + [i], j) == Written(routines[j], t.pcs[j]) {
      assert Turns(picks, j) == Written(routines[j], s.pcs[j]);
    }
  }

  lemma OthersFollow<T>(routines: seq<Routine<T>>, s: State<T>, a: Action, picks: seq<nat>)
    requires Forest(routines) && Fits(routines, s) && LockInv(routines, s) && Enabled(routines, s, a)
    requires Follows(routines, s, picks) && !a.Store?
    ensures Follows(routines, Apply(routines, s, a), picks)
  {
    var t := Apply(routines, s, a);
    if !a.Return? {
      OthersWriteNothing(routines, s, a);
      forall j: nat | j < |routines| ensures Turns(picks, j) == Written(routines[j], t.pcs[j]) {
        assert Turns(picks, j) == Written(routines[j], s.pcs[j]);
      }
    }
  }

  /** Whatever the schedule, the log merges the routines' lists: everybody's own blocks stay in their order. */
  lemma {:induction false} LogIsMerged<T>(routines: seq<Routine<T>>, schedule: seq<Action>)
    requires Forest(routines) && Legal(routines, schedule)
    ensures Follows(routines, After(routines, schedule), Writers(schedule))
  {
    if schedule != [] {
      var n := |schedule| - 1;
      var s, a := After(routines, schedule[..n]), schedule[n];
      LogIsMerged(routines, schedule[..n]);
      LockInvAfter(routines, schedule[..n]);
      if a.Store? {
        StoreFollows(routines, s, a.i, Writers(schedule[..n]));
      } else {
        OthersFollow(routines, s, a, Writers(schedule[..n]));
      }
    }
  }

  lemma Then<T>(routines: seq<Routine<T>>, schedule: seq<Action>, a: Action) returns (longer: seq<Action>)
    requires Forest(routines) && Legal(routines, schedule) && Enabled(routines, After(routines, schedule), a)
    ensures longer == schedule + [a] && Legal(routines, longer)
    ensures After(routines, longer) == Apply(routines, After(routines, schedule), a)
  {
    longer := schedule + [a];
    assert longer[..|schedule|] == schedule;
  }

  ghost function Started<T>(routines: seq<Routine<T>>, n: nat): (pcs: seq<Pc<T>>)
    ensures |pcs| == |routines|
  {
    seq(|routines|, i => if i < n then Idle(0) else Unborn)
  }

  /** All routines can be started before any of them does anything. */
  lemma {:induction false} StartAll<T>(routines: seq<Routine<T>>, n: nat) returns (schedule: seq<Action>)
    requires Forest(routines) && n <= |routines|
    ensures Legal(routines, schedule)
    ensures var s := After(routines, schedule);
      s.pcs == Started(routines, n) && s.lock == None && s.log == [] && !s.returned
  {
    if n == 0 {
      schedule := [];
      assert Init(routines).pcs == Started(routines, 0);
    } else {
      var before := StartAll(routines, n - 1);
      schedule := Then(routines, before, Spawn(n - 1));
      assert Started(routines, n - 1)[n - 1 := Idle(0)] == Started(routines, n);
    }
  }

  lemma LockAndLoad<T>(routines: seq<Routine<T>>, schedule: seq<Action>, i: nat, k: nat)
    returns (longer: seq<Action>)
    requires Forest(routines) && Legal(routines, schedule) && i < |routines| && k < |routines[i].blocks|
    requires After(routines, schedule).pcs[i] == Idle(k) && After(routines, schedule).lock == None
    ensures Legal(routines, longer)
    ensures var s := After(routines, schedule);
      After(routines, longer) == s.(pcs := s.pcs[i := Loaded(k, s.shared)], lock := Some(i))
  {
    var s := After(routines, schedule);
    longer := Then(routines, schedule, Lock(i));
    longer := Then(routines, longer, Load(i));
    assert s.pcs[i := Locked(k)][i := Loaded(k, s.shared)] == s.pcs[i := Loaded(k, s.shared)];
  }

  lemma StoreAndUnlock<T>(routines: seq<Routine<T>>, schedule: seq<Action>, i: nat, k: nat)
    returns (longer: seq<Action>)
    requires Forest(routines) && Legal(routines, schedule) && i < |routines| && k < |routines[i].blocks|
    requires After(routines, schedule).pcs[i].Loaded? && After(routines, schedule).pcs[i].k == k
    ensures Legal(routines, longer)
    ensures var s, t := After(routines, schedule), After(routines, longer);
      t.pcs == s.pcs[i := Idle(k + 1)] && t.lock == None && t.log == s.log + [routines[i].blocks[k]]
  {
    var pcs := After(routines, schedule).pcs;
    longer := Then(routines, schedule, Store(i));
    longer := Then(routines, longer, Unlock(i));
    assert pcs[i := Stored(k)][i := Idle(k + 1)] == pcs[i := Idle(k + 1)];
  }

  /** With the mutex free, a routine can write its next block without anybody coming in between. */
  lemma WriteNext<T>(routines: seq<Routine<T>>, schedule: seq<Action>, i: nat, k: nat) returns (longer: seq<Action>)
    requires Forest(routines) && Legal(routines, schedule) && i < |routines| && k < |routines[i].blocks|
    requires After(routines, schedule).pcs[i] == Idle(k) && After(routines, schedule).lock == None
    ensures Legal(routines, longer)
    ensures var s, t := After(routines, schedule), After(routines, longer);
      t.pcs == s.pcs[i := Idle(k + 1)] && t.lock == None && t.log == s.log + [routines[i].blocks[k]]
  {
    var pcs := After(routines, schedule).pcs;
    var loaded := LockAndLoad(routines, schedule, i, k);
    longer := StoreAndUnlock(routines, loaded, i, k);
    assert After(routines, loaded).pcs[i := Idle(k + 1)] == pcs[i := Idle(k + 1)];
  }

  lemma {:induction false} WriteShuffle<T>(routines: seq<Routine<T>>, picks: seq<nat>) returns (schedule: seq<Action>)
    requires Forest(routines) && PartOfShuffle(BlockLists(routines), picks)
    ensures Legal(routines, schedule)
    ensures var s := After(routines, schedule);
      && s.lock == None && s.log == Merged(BlockLists(routines), picks)
      && (forall i: nat :: i < |routines| ==> s.pcs[i] == Idle(Turns(picks, i)))
  {
    if picks == [] {
      schedule := StartAll(routines, |routines|);
    } else {
      var n := |picks| - 1;
      ShorterPart(BlockLists(routines), picks);
      var before := WriteShuffle(routines, picks[..n]);
      schedule := WriteNext(routines, before, picks[n], Turns(picks[..n], picks[n]));
    }
  }

  lemma {:induction false} LogGrows<T>(routines: seq<Routine<T>>, schedule: seq<Action>, whole: seq<Action>)
    requires Forest(routines) && Legal(routines, whole) && schedule <= whole
    ensures Legal(routines, schedule) && After(routines, schedule).log <= After(routines, whole).log
    decreases |whole|
  {
    if |schedule| < |whole| {
      LogGrows(routines, schedule, whole[..|whole| - 1]);
    } else {
      assert schedule == whole;
    }
  }

  lemma NoMoreLog<T>(routines: seq<Routine<T>>, part: seq<Action>, whole: seq<Action>)
    requires Forest(routines) && Complete(routines, whole) && part <= whole && Legal(routines, part)
    requires Permutation(After(routines, part).log, AllBlocks(routines))
    ensures After(routines, whole).log == After(routines, part).log
  {
    LogGrows(routines, part, whole);
    Conservation(routines, whole);
    PermutationLength(After(routines, part).log, After(routines, whole).log);
  }

  /** Once every routine has written its blocks the log is as long as it will ever be. */
  lemma NothingLeftToWrite<T>(routines: seq<Routine<T>>, schedule: seq<Action>)
    requires Forest(routines) && Legal(routines, schedule)
    requires forall i :: 0 <= i < |routines| ==>
      Written(routines[i], After(routines, schedule).pcs[i]) == |routines[i].blocks|
    ensures Permutation(After(routines, schedule).log, AllBlocks(routines))
  {
    InvAfter(routines, schedule);
    EverythingWritten(routines, After(routines, schedule).pcs);
  }

  /** Every shuffle of the routines' lists is the result of some schedule. */
  lemma ShuffleHappens<T>(routines: seq<Routine<T>>, picks: seq<nat>) returns (schedule: seq<Action>)
    requires Forest(routines) && IsShuffle(BlockLists(routines), picks)
    ensures Complete(routines, schedule)
    ensures Output(routines, schedule) == Concat(Merged(BlockLists(routines), picks))
  {
    var part := WriteShuffle(routines, picks);
    forall i | 0 <= i < |routines|
      ensures Written(routines[i], After(routines, part).pcs[i]) == |routines[i].blocks|
    {
      assert Turns(picks, i) == |BlockLists(routines)[i]|;
    }
    NothingLeftToWrite(routines, part);
    schedule := CanComplete(routines, part);
    NoMoreLog(routines, part, schedule);
    Conservation(routines, schedule);
  }

  /** The result of every schedule is a shuffle of the routines' lists. */
  lemma OutputIsShuffle<T>(routines: seq<Routine<T>>, schedule: seq<Action>) returns (picks: seq<nat>)
    requires Forest(routines) && Complete(routines, schedule)
    ensures IsShuffle(BlockLists(routines), picks)
    ensures Output(routines, schedule) == Concat(Merged(BlockLists(routines), picks))
  {
    picks := Writers(schedule);
    LogIsMerged(routines, schedule);
    Conservation(routines, schedule);
  }

  /** What a program of routines can return, nested or not: the shuffles of its routines' lists, and nothing else. */
  lemma OutputsAreShuffles<T>(routines: seq<Routine<T>>, output: seq<T>)
    requires Forest(routines)
    ensures (exists schedule :: Complete(routines, schedule) && Output(routines, schedule) == output)
       <==> (exists picks :: IsShuffle(BlockLists(routines), picks) &&
               Concat(Merged(BlockLists(routines), picks)) == output)
  {
    if schedule :| Complete(routines, schedule) && Output(routines, schedule) == output {
      var picks := OutputIsShuffle(routines, schedule);
    }
    if picks :| IsShuffle(BlockLists(routines), picks) && Concat(Merged(BlockLists(routines), picks)) == output {
      var schedule := ShuffleHappens(routines, picks);
    }
  }

  // ---- one routine after the other, in any order ----

  /** `order` names everybody once. */
  ghost predicate IsOrder<T>(work: seq<seq<seq<T>>>, order: seq<nat>) {
    && Distinct(order)
    && (forall k :: 0 <= k < |order| ==> order[k] < |work|)
    && (forall i: nat :: i < |work| ==> i in order)
  }

  /** The numbers below `n` that are not in `out`, in order. */
  ghost function Except(n: nat, out: set<nat>): (order: seq<nat>)
    ensures forall k: nat :: k in order <==> k < n && k !in out
    ensures Distinct(order)
    ensures out == {} ==> |order| == n && forall k :: 0 <= k < n ==> order[k] == k
  {
    if n == 0 then [] else Except(n - 1, out) + if n - 1 in out then [] else [n - 1]
  }

  ghost function BlocksIn<T>(work: seq<seq<seq<T>>>, order: seq<nat>): seq<seq<T>>
    requires forall k :: 0 <= k < |order| ==> order[k] < |work|
  {
    if order == [] then [] else BlocksIn(work, order[..|order| - 1]) + work[order[|order| - 1]]
  }

  lemma {:induction false} InOneGo<T>(work: seq<seq<seq<T>>>, before: seq<nat>, i: nat, m: nat)
    returns (picks: seq<nat>)
    requires PartOfShuffle(work, before) && i < |work| && Turns(before, i) == 0 && m <= |work[i]|
    ensures PartOfShuffle(work, picks) && Merged(work, picks) == Merged(work, before) + work[i][..m]
    ensures forall j: nat :: Turns(picks, j) == Turns(before, j) + if j == i then m else 0
  {
    if m == 0 {
      picks := before;
    } else {
      var most := InOneGo(work, before, i, m - 1);
      assert Turns(most, i) == m - 1;
      NextTurn(work, most, i);
      picks := most + [i];
      var own := work[i];
      assert own[..m] == own[..m - 1] + [own[m - 1]];
      assert Merged(work, picks) == Merged(work, before) + own[..m - 1] + [own[m - 1]];
    }
  }

  lemma {:induction false} OneAfterTheOther<T>(work: seq<seq<seq<T>>>, order: seq<nat>) returns (picks: seq<nat>)
    requires Distinct(order) && forall k :: 0 <= k < |order| ==> order[k] < |work|
    ensures PartOfShuffle(work, picks) && Merged(work, picks) == BlocksIn(work, order)
    ensures forall j: nat :: j < |work| ==> Turns(picks, j) == if j in order then |work[j]| else 0
  {
    if order == [] {
      picks := [];
    } else {
      var n := |order| - 1;
      var before := OneAfterTheOther(work, order[..n]);
      assert order[n] !in order[..n];
      picks := InOneGo(work, before, order[n], |work[order[n]]|);
      assert order == order[..n] + [order[n]];
      assert work[order[n]][..|work[order[n]]|] == work[order[n]];
    }
  }

  /** In particular the workers may come one after the other, in any order. */
  lemma EveryOrderHappens<T>(work: seq<seq<seq<T>>>, order: seq<nat>) returns (schedule: seq<Action>)
    requires IsOrder(work, order)
    ensures Complete(Flat(work), schedule)
    ensures Output(Flat(work), schedule) == Concat(BlocksIn(work, order))
  {
    assert BlockLists(Flat(work)) == work;
    var picks := OneAfterTheOther(work, order);
    schedule := ShuffleHappens(Flat(work), picks);
  }
}
