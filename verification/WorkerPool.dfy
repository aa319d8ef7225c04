/** The threads of `mysqlimport.cc`: the main thread starts one worker per table and
    keeps at most `limit` of them alive, with a mutex, a condition and a counter.
    Every step is one access to shared state; any interleaving is a run. */
module WorkerPool {
  import opened Optional

  /** Where the main thread is. A wait on the condition gives the mutex up and may
      end at any time, by a signal or by its timeout. */
  datatype MainAt =
    | AtTable      // about to take the next table, or to leave the loop
    | Locked       // holding the mutex, testing the counter
    | Waiting      // in the timed wait
    | Counted      // holding the mutex, the counter incremented
    | Creating     // about to create the thread
    | CreateFailed // the thread could not be created
    | Uncounting   // holding the mutex, about to take the count back
    | Uncounted    // holding the mutex, the counter decremented
    | Draining     // all tables taken, about to lock
    | DrainLocked  // holding the mutex, testing the counter
    | DrainWaiting // in the timed wait
    | Drained      // holding the mutex, the counter was zero
    | Unlocked     // about to destroy the mutexes and the condition
    | Joining      // they are destroyed; joining the workers
    | Done

  /** Where a worker is. */
  datatype WorkerAt =
    | Started      // before the connection
    | Connecting   // holding the mutex of `mysql_init`
    | Importing
    | Leaving      // about to lock the counter
    | Holding      // holding the mutex, about to decrement
    | Decremented  // holding the mutex, about to signal
    | Signalled    // holding the mutex, about to unlock
    | Exiting
    | Exited

  datatype Worker = Worker(table: nat, at: WorkerAt)

  datatype Owner = Nobody | Main | Thread(id: nat)

  /** What became of a table. */
  datatype Fate = Given(id: nat) | NotCreated

  datatype State = State(
    limit: nat, tables: nat, main: MainAt, counter: int, owner: Owner, initOwner: Option<nat>,
    workers: seq<Worker>, fates: seq<Fate>, destroyed: bool, joined: nat)

  function Start(limit: nat, tables: nat): State {
    State(limit, tables, AtTable, 0, Nobody, None, [], [], false, 0)
  }

  datatype MainStep =
    | Lock | Test | Wake | Unlock | Create(ok: bool) | LockFailed | Uncount | Report
    | Drain | DrainLock | DrainTest | DrainWake | DrainUnlock | Destroy | Join

  datatype WorkerStep =
    | Connect | Connected | GiveUp | Finish | LockCounter | Decrement | Signal | UnlockCounter | Exit

  datatype Step = ByMain(m: MainStep) | ByWorker(id: nat, w: WorkerStep)

  function From(w: WorkerStep): WorkerAt {
    match w
    case Connect => Started
    case Connected => Connecting
    case GiveUp => Started
    case Finish => Importing
    case LockCounter => Leaving
    case Decrement => Holding
    case Signal => Decremented
    case UnlockCounter => Signalled
    case Exit => Exiting
  }

  function To(w: WorkerStep): WorkerAt {
    match w
    case Connect => Connecting
    case Connected => Importing
    case GiveUp => Leaving
    case Finish => Leaving
    case LockCounter => Holding
    case Decrement => Decremented
    case Signal => Signalled
    case UnlockCounter => Exiting
    case Exit => Exited
  }

  predicate MainEnabled(s: State, m: MainStep) {
    match m
    case Lock => s.main == AtTable && |s.fates| < s.tables && s.owner == Nobody
    case Test => s.main == Locked
    case Wake => s.main == Waiting && s.owner == Nobody
    case Unlock => s.main == Counted
    case Create(_) => s.main == Creating
    case LockFailed => s.main == CreateFailed && s.owner == Nobody
    case Uncount => s.main == Uncounting
    case Report => s.main == Uncounted
    case Drain => s.main == AtTable && |s.fates| >= s.tables
    case DrainLock => s.main == Draining && s.owner == Nobody
    case DrainTest => s.main == DrainLocked
    case DrainWake => s.main == DrainWaiting && s.owner == Nobody
    case DrainUnlock => s.main == Drained
    case Destroy => s.main == Unlocked
    case Join => s.main == Joining && (s.joined < |s.workers| ==> s.workers[s.joined].at == Exited)
  }

  predicate Enabled(s: State, step: Step) {
    match step
    case ByMain(m) => MainEnabled(s, m)
    case ByWorker(id, w) =>
      && id < |s.workers| && s.workers[id].at == From(w)
      && (w == Connect ==> s.initOwner == None)
      && (w == LockCounter ==> s.owner == Nobody)
  }

  function MainNext(s: State, m: MainStep): State
    requires MainEnabled(s, m)
  {
    match m
    case Lock => s.(main := Locked, owner := Main)
    case Test =>
      if s.counter == s.limit then s.(main := Waiting, owner := Nobody)
      else s.(main := Counted, counter := s.counter + 1)
    case Wake => s.(main := Locked, owner := Main)
    case Unlock => s.(main := Creating, owner := Nobody)
    case Create(ok) =>
      if ok then
        s.(main := AtTable, workers := s.workers + [Worker(|s.fates|, Started)], fates := s.fates + [Given(|s.workers|)])
      else s.(main := CreateFailed)
    case LockFailed => s.(main := Uncounting, owner := Main)
    case Uncount => s.(main := Uncounted, counter := s.counter - 1)
    case Report => s.(main := AtTable, owner := Nobody, fates := s.fates + [NotCreated])
    case Drain => s.(main := Draining)
    case DrainLock => s.(main := DrainLocked, owner := Main)
    case DrainTest =>
      if s.counter != 0 then s.(main := DrainWaiting, owner := Nobody) else s.(main := Drained)
    case DrainWake => s.(main := DrainLocked, owner := Main)
    case DrainUnlock => s.(main := Unlocked, owner := Nobody)
    case Destroy => s.(main := Joining, destroyed := true)
    case Join => if s.joined < |s.workers| then s.(joined := s.joined + 1) else s.(main := Done)
  }

  function WorkerNext(s: State, id: nat, w: WorkerStep): State
    requires id < |s.workers|
  {
    s.(workers := s.workers[id := s.workers[id].(at := To(w))],
       owner := if w == LockCounter then Thread(id) else if w == UnlockCounter then Nobody else s.owner,
       initOwner := if w == Connect then Some(id) else if w == Connected then None else s.initOwner,
       counter := if w == Decrement then s.counter - 1 else s.counter)
  }

  function Next(s: State, step: Step): State
    requires Enabled(s, step)
  {
    match step
    case ByMain(m) => MainNext(s, m)
    case ByWorker(id, w) => WorkerNext(s, id, w)
  }

  // ---------------------------------------------------------------------------
  // The invariant

  /** A worker that has not given its count back. */
  predicate Live(at: WorkerAt) {
    at.Started? || at.Connecting? || at.Importing? || at.Leaving? || at.Holding?
  }

  /** A worker that holds the counter's mutex. */
  predicate Inside(at: WorkerAt) {
    at.Holding? || at.Decremented? || at.Signalled?
  }

  function LiveCount(ws: seq<Worker>): nat {
    if ws == [] then 0 else LiveCount(ws[..|ws| - 1]) + if Live(ws[|ws| - 1].at) then 1 else 0
  }

  /** The count main has taken for a thread it has not created yet. */
  function PendingSpawn(m: MainAt): nat {
    if m.Counted? || m.Creating? || m.CreateFailed? || m.Uncounting? then 1 else 0
  }

  predicate MainHolds(m: MainAt) {
    m.Locked? || m.Counted? || m.Uncounting? || m.Uncounted? || m.DrainLocked? || m.Drained?
  }

  predicate AllTaken(m: MainAt) {
    m.Draining? || m.DrainLocked? || m.DrainWaiting? || m.Drained? || m.Unlocked? || m.Joining? || m.Done?
  }

  predicate AllLeft(m: MainAt) {
    m.Drained? || m.Unlocked? || m.Joining? || m.Done?
  }

  /** A worker touches no mutex and no condition any more. */
  predicate Gone(at: WorkerAt) {
    at.Exiting? || at.Exited?
  }

  ghost predicate Counting(s: State) {
    && s.counter == LiveCount(s.workers) + PendingSpawn(s.main)
    && s.counter <= s.limit
  }

  ghost predicate Exclusive(s: State) {
    && (s.owner == Main <==> MainHolds(s.main))
    && (forall i :: 0 <= i < |s.workers| ==> (s.owner == Thread(i) <==> Inside(s.workers[i].at)))
    && (s.owner.Thread? ==> s.owner.id < |s.workers|)
    && (forall i :: 0 <= i < |s.workers| ==> (s.initOwner == Some(i) <==> s.workers[i].at == Connecting))
    && (s.initOwner.Some? ==> s.initOwner.value < |s.workers|)
  }

  /** Each table taken so far has one fate, and each worker is the one of its table. */
  ghost predicate Accounted(s: State) {
    && |s.fates| <= s.tables
    && (s.main != AtTable && !AllTaken(s.main) ==> |s.fates| < s.tables)
    && (AllTaken(s.main) ==> |s.fates| == s.tables)
    && (forall t :: 0 <= t < |s.fates| && s.fates[t].Given? ==>
          s.fates[t].id < |s.workers| && s.workers[s.fates[t].id].table == t)
    && (forall i :: 0 <= i < |s.workers| ==>
          s.workers[i].table < |s.fates| && s.fates[s.workers[i].table] == Given(i))
  }

  ghost predicate Ending(s: State) {
    && (AllLeft(s.main) ==> s.counter == 0 && forall i :: 0 <= i < |s.workers| ==> Gone(s.workers[i].at))
    && (s.destroyed <==> s.main.Joining? || s.main.Done?)
    && s.joined <= |s.workers|
    && (s.main.Done? ==> s.joined == |s.workers|)
    && (forall i :: 0 <= i < s.joined ==> s.workers[i].at == Exited)
  }

  ghost predicate Inv(s: State) {
    s.limit > 0 && Counting(s) && Exclusive(s) && Accounted(s) && Ending(s)
  }

  lemma {:induction false} LiveCountUpdate(ws: seq<Worker>, i: nat, w: Worker)
    requires i < |ws|
    ensures LiveCount(ws[i := w]) == LiveCount(ws) - (if Live(ws[i].at) then 1 else 0) + if Live(w.at) then 1 else 0
  {
    var k := |ws| - 1;
    var ws' := ws[i := w];
    if i == k {
      assert ws'[..k] == ws[..k];
    } else {
      LiveCountUpdate(ws[..k], i, w);
      assert ws'[..k] == ws[..k][i := w];
    }
  }

  lemma LiveCountAppend(ws: seq<Worker>, w: Worker)
    ensures LiveCount(ws + [w]) == LiveCount(ws) + if Live(w.at) then 1 else 0
  {
    assert (ws + [w])[..|ws|] == ws;
  }

  /** With no live worker counted, none is live. */
  lemma {:induction false} NoneLive(ws: seq<Worker>, i: nat)
    requires LiveCount(ws) == 0 && i < |ws|
    ensures !Live(ws[i].at)
  {
    if i < |ws| - 1 {
      NoneLive(ws[..|ws| - 1], i);
    }
  }

  lemma MainCounts(s: State, m: MainStep)
    requires Inv(s) && MainEnabled(s, m)
    ensures Counting(MainNext(s, m))
  {
    hide LiveCount, Exclusive, Accounted, Ending;
    LiveCountAppend(s.workers, Worker(|s.fates|, Started));
  }

  lemma WorkerCounts(s: State, id: nat, w: WorkerStep)
    requires Inv(s) && Enabled(s, ByWorker(id, w))
    ensures Counting(WorkerNext(s, id, w))
  {
    hide LiveCount, Exclusive, Accounted, Ending;
    LiveCountUpdate(s.workers, id, s.workers[id].(at := To(w)));
  }

  lemma MainExcludes(s: State, m: MainStep)
    requires Inv(s) && MainEnabled(s, m)
    ensures Exclusive(MainNext(s, m))
  {
    hide LiveCount, Counting, Accounted, Ending;
  }

  lemma WorkerExcludes(s: State, id: nat, w: WorkerStep)
    requires Inv(s) && Enabled(s, ByWorker(id, w))
    ensures Exclusive(WorkerNext(s, id, w))
  {
    hide LiveCount, Counting, Accounted, Ending;
  }

  lemma MainAccounts(s: State, m: MainStep)
    requires Inv(s) && MainEnabled(s, m)
    ensures Accounted(MainNext(s, m))
  {
    hide LiveCount, Counting, Exclusive, Ending, Accounted;
    if m == Create(true) {
      CreateAccounts(s, s.workers + [Worker(|s.fates|, Started)], s.fates + [Given(|s.workers|)]);
    } else if m == Report {
      ReportAccounts(s, s.fates + [NotCreated]);
    } else {
      StillAccounted(s, MainNext(s, m));
    }
  }

  lemma CreateAccounts(s: State, workers: seq<Worker>, fates: seq<Fate>)
    requires Accounted(s) && s.main == Creating
    requires workers == s.workers + [Worker(|s.fates|, Started)] && fates == s.fates + [Given(|s.workers|)]
    ensures Accounted(s.(main := AtTable, workers := workers, fates := fates))
  {
    assert workers[|s.workers|] == Worker(|s.fates|, Started) && fates[|s.fates|] == Given(|s.workers|);
    assert forall i :: 0 <= i < |s.workers| ==> workers[i] == s.workers[i];
    assert forall t :: 0 <= t < |s.fates| ==> fates[t] == s.fates[t];
  }

  lemma ReportAccounts(s: State, fates: seq<Fate>)
    requires Accounted(s) && s.main == Uncounted && fates == s.fates + [NotCreated]
    ensures Accounted(s.(main := AtTable, owner := Nobody, fates := fates))
  {
    assert forall t :: 0 <= t < |s.fates| ==> fates[t] == s.fates[t];
  }

  /** Moving on without a new worker or fate. */
  lemma StillAccounted(s: State, s': State)
    requires Accounted(s) && s'.workers == s.workers && s'.fates == s.fates && s'.tables == s.tables
    requires AllTaken(s'.main) ==> AllTaken(s.main) || |s.fates| >= s.tables
    requires s'.main != AtTable && !AllTaken(s'.main) ==> |s.fates| < s.tables || (s.main != AtTable && !AllTaken(s.main))
    ensures Accounted(s')
  {
  }

  lemma WorkerAccounts(s: State, id: nat, w: WorkerStep)
    requires Inv(s) && Enabled(s, ByWorker(id, w))
    ensures Accounted(WorkerNext(s, id, w))
  {
    hide LiveCount, Counting, Exclusive, Ending;
  }

  /** Main sees a zero counter only while it holds the mutex, so the last worker has
      not only decremented but also unlocked. */
  lemma ZeroMeansGone(s: State)
    requires Inv(s) && s.main == DrainLocked && s.counter == 0
    ensures forall i :: 0 <= i < |s.workers| ==> Gone(s.workers[i].at)
  {
    hide LiveCount, Accounted, Ending;
    forall i | 0 <= i < |s.workers|
      ensures Gone(s.workers[i].at)
    {
      NoneLive(s.workers, i);
    }
  }

  lemma MainEnds(s: State, m: MainStep)
    requires Inv(s) && MainEnabled(s, m)
    ensures Ending(MainNext(s, m))
  {
    hide LiveCount, Exclusive, Accounted, Counting;
    if m.DrainTest? && s.counter == 0 {
      ZeroMeansGone(s);
    }
  }

  lemma WorkerEnds(s: State, id: nat, w: WorkerStep)
    requires Inv(s) && Enabled(s, ByWorker(id, w))
    ensures Ending(WorkerNext(s, id, w))
  {
    hide LiveCount, Exclusive, Accounted, Counting;
  }

  /** Every step keeps the invariant. */
  lemma StepKeeps(s: State, step: Step)
    requires Inv(s) && Enabled(s, step)
    ensures Inv(Next(s, step))
  {
    hide Counting, Exclusive, Accounted, Ending;
    match step {
      case ByMain(m) =>
        MainCounts(s, m);
        MainExcludes(s, m);
        MainAccounts(s, m);
        MainEnds(s, m);
      case ByWorker(id, w) =>
        WorkerCounts(s, id, w);
        WorkerExcludes(s, id, w);
        WorkerAccounts(s, id, w);
        WorkerEnds(s, id, w);
    }
  }

  /** Main waits before a table if and only if as many workers are live as are allowed,
      and at the end if and only if one is still live. */
  lemma WaitsWhenFull(s: State)
    requires Inv(s)
    ensures s.main == Locked ==> (MainNext(s, Test).main == Waiting <==> LiveCount(s.workers) == s.limit)
    ensures s.main == DrainLocked ==> (MainNext(s, DrainTest).main == DrainWaiting <==> LiveCount(s.workers) > 0)
  {
    hide LiveCount, Exclusive, Accounted, Ending;
  }

  /** A run: every step is enabled where it is taken. */
  predicate IsRun(s: State, steps: seq<Step>)
    decreases steps
  {
    steps == [] || (Enabled(s, steps[0]) && IsRun(Next(s, steps[0]), steps[1..]))
  }

  function After(s: State, steps: seq<Step>): State
    requires IsRun(s, steps)
    decreases steps
  {
    if steps == [] then s else After(Next(s, steps[0]), steps[1..])
  }

  lemma {:induction false} RunKeeps(s: State, steps: seq<Step>)
    requires Inv(s) && IsRun(s, steps)
    ensures Inv(After(s, steps))
    decreases steps
  {
    hide Inv, Enabled, Next;
    if steps != [] {
      StepKeeps(s, steps[0]);
      RunKeeps(Next(s, steps[0]), steps[1..]);
    }
  }

  /** Main result: in every interleaving the counter is the number of live workers
      plus the one about to be created and never exceeds the limit; the mutexes are
      destroyed only when no worker can touch them again; and at the end every
      table was given to exactly one worker, now joined, or reported. */
  lemma PoolIsSafe(limit: nat, tables: nat, steps: seq<Step>)
    requires limit > 0 && IsRun(Start(limit, tables), steps)
    ensures var s := After(Start(limit, tables), steps);
            && s.counter == LiveCount(s.workers) + PendingSpawn(s.main) <= limit
            && (s.destroyed ==> forall i :: 0 <= i < |s.workers| ==> Gone(s.workers[i].at))
            && (forall i, j :: 0 <= i < j < |s.workers| ==> s.workers[i].table != s.workers[j].table)
            && (s.main == Done ==>
                  && |s.fates| == tables && s.joined == |s.workers|
                  && forall t :: 0 <= t < tables && s.fates[t].Given? ==>
                       s.fates[t].id < |s.workers| && s.workers[s.fates[t].id].at == Exited &&
                       s.workers[s.fates[t].id].table == t)
  {
    var s0 := Start(limit, tables);
    assert Inv(s0);
    RunKeeps(s0, steps);
    FixedParts(s0, steps);
    hide LiveCount, IsRun, After;
  }

  lemma {:induction false} FixedParts(s: State, steps: seq<Step>)
    requires IsRun(s, steps)
    ensures After(s, steps).limit == s.limit && After(s, steps).tables == s.tables
    decreases steps
  {
    if steps != [] {
      FixedParts(Next(s, steps[0]), steps[1..]);
    }
  }

  // ---------------------------------------------------------------------------
  // What the steps of a run tell about its tables and its workers

  /** What the calls that create threads returned, in order: one call for each table. */
  function Creations(steps: seq<Step>): seq<bool> {
    if steps == [] then []
    else
      (match steps[0]
       case ByMain(Create(ok)) => [ok]
       case _ => [])
      + Creations(steps[1..])
  }

  function Successes(created: seq<bool>): nat {
    if created == [] then 0
    else Successes(created[..|created| - 1]) + if created[|created| - 1] then 1 else 0
  }

  /** Main has failed to create a thread and not yet said so. */
  predicate Failing(m: MainAt) {
    m.CreateFailed? || m.Uncounting? || m.Uncounted?
  }

  /** The fates are what the calls returned, and the workers those that were created. */
  ghost predicate Told(s: State, created: seq<bool>) {
    && |created| == |s.fates| + (if Failing(s.main) then 1 else 0)
    && (Failing(s.main) ==> !created[|created| - 1])
    && |s.workers| == Successes(created)
    && forall t :: 0 <= t < |s.fates| ==>
         s.fates[t] == if created[t] then Given(Successes(created[..t])) else NotCreated
  }

  lemma SuccessesAppend(created: seq<bool>, ok: bool)
    ensures Successes(created + [ok]) == Successes(created) + if ok then 1 else 0
  {
    assert (created + [ok])[..|created|] == created;
  }

  lemma StepTells(s: State, step: Step, created: seq<bool>)
    requires Told(s, created) && Enabled(s, step)
    ensures Told(Next(s, step), created + Creations([step]))
  {
    hide Successes, WorkerNext;
    assert Creations([step]) == match step case ByMain(Create(ok)) => [ok] case _ => [] by {
      assert [step][1..] == [] && Creations([]) == [];
    }
    assert created + [] == created;
    match step {
      case ByMain(Create(ok)) =>
        SuccessesAppend(created, ok);
        CreateTells(s, ok, created);
      case ByMain(m) => OtherTells(s, m, created);
      case ByWorker(id, w) => WorkerTells(s, id, w, created);
    }
  }

  lemma OtherTells(s: State, m: MainStep, created: seq<bool>)
    requires Told(s, created) && MainEnabled(s, m) && !m.Create?
    ensures Told(MainNext(s, m), created)
  {
    hide Successes;
    assert Failing(s.main) ==> created[..|created| - 1] + [false] == created;
  }

  lemma WorkerTells(s: State, id: nat, w: WorkerStep, created: seq<bool>)
    requires Told(s, created) && id < |s.workers|
    ensures Told(WorkerNext(s, id, w), created)
  {
    hide Successes;
  }

  lemma CreateTells(s: State, ok: bool, created: seq<bool>)
    requires Told(s, created) && MainEnabled(s, Create(ok))
    ensures Told(MainNext(s, Create(ok)), created + [ok])
  {
    hide Successes;
    SuccessesAppend(created, ok);
    var now := created + [ok];
    forall t | 0 <= t < |created|
      ensures now[t] == created[t] && now[..t] == created[..t]
    {
    }
    assert now[..|created|] == created;
  }

  lemma {:induction false} RunTells(s: State, steps: seq<Step>, created: seq<bool>)
    requires Told(s, created) && IsRun(s, steps)
    ensures Told(After(s, steps), created + Creations(steps))
    decreases steps
  {
    hide Told, Enabled, Next;
    if steps == [] {
      assert created + [] == created;
    } else {
      StepTells(s, steps[0], created);
      var now := created + Creations([steps[0]]);
      RunTells(Next(s, steps[0]), steps[1..], now);
      CreationsHead(steps);
      assert now + Creations(steps[1..]) == created + (Creations([steps[0]]) + Creations(steps[1..]));
    }
  }

  lemma CreationsHead(steps: seq<Step>)
    requires steps != []
    ensures Creations(steps) == Creations([steps[0]]) + Creations(steps[1..])
  {
    assert [steps[0]][1..] == [] && Creations([]) == [];
    var head := match steps[0] case ByMain(Create(ok)) => [ok] case _ => [];
    assert head + [] == head;
  }

  /** Main result on fates: over every run a table was given to a worker if and only if
      the call that was to create its thread succeeded, and the workers are as many as
      the calls that did. */
  lemma FatesAreReturns(limit: nat, tables: nat, steps: seq<Step>)
    requires IsRun(Start(limit, tables), steps)
    ensures var s, created := After(Start(limit, tables), steps), Creations(steps);
            && |s.fates| <= |created| <= |s.fates| + 1
            && |s.workers| == Successes(created)
            && forall t :: 0 <= t < |s.fates| ==>
                 && (s.fates[t].Given? <==> created[t]) && (s.fates[t].NotCreated? <==> !created[t])
                 && (s.fates[t].Given? ==> s.fates[t].id == Successes(created[..t]))
  {
    var s0 := Start(limit, tables);
    assert Told(s0, []);
    RunTells(s0, steps, []);
    assert [] + Creations(steps) == Creations(steps);
    hide After, IsRun, Successes;
  }

  /** The steps of one worker. */
  function StepsOf(steps: seq<Step>, id: nat): seq<WorkerStep> {
    if steps == [] then []
    else
      (match steps[0]
       case ByWorker(i, w) => if i == id then [w] else []
       case _ => [])
      + StepsOf(steps[1..], id)
  }

  /** How a worker gets to where it leaves: it could not connect, or it imported. */
  predicate Worked(path: seq<WorkerStep>) {
    path == [GiveUp] || path == [Connect, Connected, Finish]
  }

  /** Where a worker is after the steps it has taken. */
  ghost predicate Walked(path: seq<WorkerStep>, at: WorkerAt) {
    match at
    case Started => path == []
    case Connecting => path == [Connect]
    case Importing => path == [Connect, Connected]
    case Leaving => Worked(path)
    case Holding => Left(path, [LockCounter])
    case Decremented => Left(path, [LockCounter, Decrement])
    case Signalled => Left(path, [LockCounter, Decrement, Signal])
    case Exiting => Left(path, [LockCounter, Decrement, Signal, UnlockCounter])
    case Exited => Left(path, [LockCounter, Decrement, Signal, UnlockCounter, Exit])
  }

  ghost predicate Left(path: seq<WorkerStep>, since: seq<WorkerStep>) {
    |path| >= |since| && Worked(path[..|path| - |since|]) && path[|path| - |since|..] == since
  }

  lemma LeftOn(path: seq<WorkerStep>, since: seq<WorkerStep>, w: WorkerStep)
    requires Left(path, since)
    ensures Left(path + [w], since + [w])
  {
    var n := |path| - |since|;
    assert (path + [w])[..n] == path[..n];
    assert (path + [w])[n..] == path[n..] + [w];
  }

  lemma WalkOn(path: seq<WorkerStep>, w: WorkerStep)
    requires Walked(path, From(w))
    ensures Walked(path + [w], To(w))
  {
    hide Left, Worked;
    match w {
      case Connect =>
      case Connected =>
      case GiveUp => FirstLeft(path, w);
      case Finish => FirstLeft(path, w);
      case LockCounter =>
        JustLeft(path);
        LeftOn(path, [], w);
        assert [] + [w] == [w];
      case Decrement =>
        LeftOn(path, [LockCounter], w);
        assert [LockCounter] + [w] == [LockCounter, Decrement];
      case Signal =>
        LeftOn(path, [LockCounter, Decrement], w);
        assert [LockCounter, Decrement] + [w] == [LockCounter, Decrement, Signal];
      case UnlockCounter =>
        LeftOn(path, [LockCounter, Decrement, Signal], w);
        assert [LockCounter, Decrement, Signal] + [w] == [LockCounter, Decrement, Signal, UnlockCounter];
      case Exit =>
        LeftOn(path, [LockCounter, Decrement, Signal, UnlockCounter], w);
        assert [LockCounter, Decrement, Signal, UnlockCounter] + [w] ==
          [LockCounter, Decrement, Signal, UnlockCounter, Exit];
    }
  }

  lemma FirstLeft(path: seq<WorkerStep>, w: WorkerStep)
    requires w == GiveUp ==> path == []
    requires w == Finish ==> path == [Connect, Connected]
    requires w == GiveUp || w == Finish
    ensures Worked(path + [w])
  {
  }

  lemma JustLeft(path: seq<WorkerStep>)
    requires Worked(path)
    ensures Left(path, [])
  {
    assert path[..|path|] == path && path[|path|..] == [];
  }

  ghost predicate AllWalked(s: State, paths: seq<seq<WorkerStep>>) {
    |paths| == |s.workers| && forall i :: 0 <= i < |paths| ==> Walked(paths[i], s.workers[i].at)
  }

  /** The paths after one more step. */
  function PathsAfter(s: State, step: Step, paths: seq<seq<WorkerStep>>): seq<seq<WorkerStep>>
    requires |paths| == |s.workers| && Enabled(s, step)
  {
    match step
    case ByMain(_) => paths + seq(|Next(s, step).workers| - |s.workers|, _ => [])
    case ByWorker(id, w) => paths[id := paths[id] + [w]]
  }

  lemma StepWalks(s: State, step: Step, paths: seq<seq<WorkerStep>>)
    requires AllWalked(s, paths) && Enabled(s, step)
    ensures AllWalked(Next(s, step), PathsAfter(s, step, paths))
  {
    hide Walked;
    match step {
      case ByWorker(id, w) => WalkOn(paths[id], w);
      case ByMain(m) => NoSteps();
    }
  }

  lemma NoSteps()
    ensures Walked([], Started)
  {
  }

  /** Main result on workers: in every run a worker has taken the steps of its thread
      one after the other; to exit it has connected and imported its table, or has
      failed to connect, and has then given its count back, signalled and unlocked. */
  lemma {:induction false} WorkersWalk(s: State, steps: seq<Step>, paths: seq<seq<WorkerStep>>)
    requires AllWalked(s, paths) && IsRun(s, steps)
    ensures var s' := After(s, steps);
            && |s.workers| <= |s'.workers|
            && forall i :: 0 <= i < |s'.workers| ==>
                 Walked((if i < |paths| then paths[i] else []) + StepsOf(steps, i), s'.workers[i].at)
    decreases steps
  {
    hide Walked, Enabled, Next;
    if steps == [] {
      forall i | 0 <= i < |paths|
        ensures Walked(paths[i] + StepsOf(steps, i), s.workers[i].at)
      {
        assert paths[i] + [] == paths[i];
      }
    } else {
      var n, more := Next(s, steps[0]), PathsAfter(s, steps[0], paths);
      StepWalks(s, steps[0], paths);
      WorkersGrow(s, steps[0]);
      WorkersWalk(n, steps[1..], more);
      var s' := After(s, steps);
      forall i | 0 <= i < |s'.workers|
        ensures Walked((if i < |paths| then paths[i] else []) + StepsOf(steps, i), s'.workers[i].at)
      {
        PathStep(s, steps, paths, i);
      }
    }
  }

  lemma WorkersGrow(s: State, step: Step)
    requires Enabled(s, step)
    ensures |s.workers| <= |Next(s, step).workers|
    ensures step.ByWorker? ==> step.id < |s.workers|
  {
  }

  lemma PathStep(s: State, steps: seq<Step>, paths: seq<seq<WorkerStep>>, i: nat)
    requires steps != [] && |paths| == |s.workers| && Enabled(s, steps[0])
    ensures var more := PathsAfter(s, steps[0], paths);
            (if i < |paths| then paths[i] else []) + StepsOf(steps, i) ==
            (if i < |more| then more[i] else []) + StepsOf(steps[1..], i)
  {
    WorkersGrow(s, steps[0]);
    hide Next, Enabled;
    var rest := StepsOf(steps[1..], i);
    assert [] + rest == rest;
    match steps[0] {
      case ByWorker(id, w) =>
        if i == id {
          assert paths[i] + ([w] + rest) == paths[i] + [w] + rest;
        }
      case ByMain(_) =>
    }
  }

  lemma EveryWorkerWalks(limit: nat, tables: nat, steps: seq<Step>)
    requires IsRun(Start(limit, tables), steps)
    ensures var s := After(Start(limit, tables), steps);
            forall i :: 0 <= i < |s.workers| ==> Walked(StepsOf(steps, i), s.workers[i].at)
  {
    hide Walked;
    var s0 := Start(limit, tables);
    WorkersWalk(s0, steps, []);
    var s := After(s0, steps);
    forall i | 0 <= i < |s.workers|
      ensures Walked(StepsOf(steps, i), s.workers[i].at)
    {
      assert [] + StepsOf(steps, i) == StepsOf(steps, i);
    }
  }

  /** No deadlock: until main is done, some thread can move. */
  lemma SomeoneCanMove(s: State)
    requires Inv(s) && s.main != Done
    ensures exists step :: Enabled(s, step)
  {
    hide LiveCount, Counting, Accounted;
    match s.owner {
      case Main => MainMoves(s);
      case Thread(id) =>
        var w := if s.workers[id].at == Holding then Decrement
                 else if s.workers[id].at == Decremented then Signal else UnlockCounter;
        assert Enabled(s, ByWorker(id, w));
      case Nobody =>
        if s.main == Joining && s.joined < |s.workers| && s.workers[s.joined].at != Exited {
          assert Enabled(s, ByWorker(s.joined, Exit));
        } else {
          MainMoves(s);
        }
    }
  }

  /** Main can move when it does not need a mutex held by a worker. */
  lemma MainMoves(s: State)
    requires Exclusive(s) && s.main != Done && !s.owner.Thread?
    requires s.main == Joining && s.joined < |s.workers| ==> s.workers[s.joined].at == Exited
    ensures exists step :: Enabled(s, step)
  {
    var m :=
      match s.main
      case AtTable => if |s.fates| < s.tables then Lock else Drain
      case Locked => Test
      case Waiting => Wake
      case Counted => Unlock
      case Creating => Create(true)
      case CreateFailed => LockFailed
      case Uncounting => Uncount
      case Uncounted => Report
      case Draining => DrainLock
      case DrainLocked => DrainTest
      case DrainWaiting => DrainWake
      case Drained => DrainUnlock
      case Unlocked => Destroy
      case Joining => Join
      case Done => Join;
    assert Enabled(s, ByMain(m));
  }
}
