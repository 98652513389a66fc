/**
 Admission of asynchronous disk loads on POSIX (AsyncLoadFromDiskJob.cpp:70-92, 110-163, 193-205,
 384-433, 735-764): one step per atomic operation on the request counter, or per critical section
 on the list of pending jobs; any number of jobs. A larger JobPriority value is less urgent.

 `admitted`, `released`, `called` and `clean` are history variables.
 */
module AsyncLoading {
  import opened Sequences

  /** `MaximumConcurrentRequestCount` */
  const MAXIMUM: nat := 64

  type Job = nat

  datatype Pc =
    | Runnable     // in the job system, to be executed
    | Bumped       // counted, but there was no slot: about to count down (line 75)
    | Rejected     // about to enter the list (line 76)
    | Pending      // in the list
    | Admitted     // has a slot, file not read yet (lines 389-432)
    | Reading      // has a slot, read under way (line 431)
    | Retrying     // gave its slot back because files ran out (line 113)
    | Finishing(read: bool)   // gave its slot back for good (line 144); did `aio_error` say 0?
    | Calling(read: bool)     // about to call back in `OnLoadingFinished` or `OnLoadingFailed` (lines 197, 203)
    | CallingAgain            // about to call back in `OnExecute` (lines 750, 755)
    | Done

  datatype State = State(
    counter: int,                      // `openFileDescriptorCount`
    pending: seq<Job>,                 // `queuedAsyncLoadFromDiskJobs`
    pcs: map<Job, Pc>,
    priority: map<Job, nat>,
    admitted: map<Job, nat>,
    released: map<Job, nat>,
    called: map<Job, nat>,             // how often `m_callback` was called
    clean: set<Job>)                   // whose read ended without error

  // ---------------------------------------------------------------- the list of pending jobs

  function PriorityOf(s: State, j: Job): nat {
    if j in s.priority then s.priority[j] else 0
  }

  /** `std::upper_bound`: the first place whose job has a smaller value than `p`. */
  function UpperBound(s: State, jobs: seq<Job>, p: nat): (i: nat)
    ensures i <= |jobs|
    ensures forall k :: 0 <= k < i ==> PriorityOf(s, jobs[k]) >= p
    ensures i < |jobs| ==> p > PriorityOf(s, jobs[i])
  {
    if jobs == [] || p > PriorityOf(s, jobs[0]) then 0 else 1 + UpperBound(s, jobs[1..], p)
  }

  function Inserted(s: State, jobs: seq<Job>, j: Job): seq<Job> {
    var i := UpperBound(s, jobs, PriorityOf(s, j));
    jobs[..i] + [j] + jobs[i..]
  }

  /** From the least urgent to the most urgent. */
  ghost predicate Sorted(s: State, jobs: seq<Job>) {
    forall i, k {:trigger jobs[i], jobs[k]} :: 0 <= i < k < |jobs| ==> PriorityOf(s, jobs[i]) >= PriorityOf(s, jobs[k])
  }

  lemma InsertedMembers(s: State, jobs: seq<Job>, j: Job)
    ensures multiset(Inserted(s, jobs, j)) == multiset(jobs) + multiset{j}
  {
    var i := UpperBound(s, jobs, PriorityOf(s, j));
    assert jobs == jobs[..i] + jobs[i..];
  }

  /** Everything behind the place of insertion has a smaller value. */
  lemma BehindUpperBound(s: State, jobs: seq<Job>, p: nat)
    requires Sorted(s, jobs)
    ensures forall k :: UpperBound(s, jobs, p) <= k < |jobs| ==> PriorityOf(s, jobs[k]) < p
  {
    var i := UpperBound(s, jobs, p);
    forall k | i <= k < |jobs| ensures PriorityOf(s, jobs[k]) < p {
      if k > i { assert PriorityOf(s, jobs[i]) >= PriorityOf(s, jobs[k]); }
    }
  }

  lemma InsertedSorted(s: State, jobs: seq<Job>, j: Job)
    requires Sorted(s, jobs)
    ensures Sorted(s, Inserted(s, jobs, j))
  {
    var p := PriorityOf(s, j);
    BehindUpperBound(s, jobs, p);
    SortedAround(s, jobs, UpperBound(s, jobs, p), j);
  }

  /** Of the jobs with the same priority, the one that enters comes last: it is taken out first. */
  lemma LastInFirstOut(s: State, jobs: seq<Job>, j: Job)
    requires Sorted(s, jobs)
    ensures var i := UpperBound(s, jobs, PriorityOf(s, j)); var r := Inserted(s, jobs, j);
            && i < |r| && r[i] == j && r[..i] == jobs[..i] && r[i + 1..] == jobs[i..]
            && forall k :: i < k < |r| ==> PriorityOf(s, r[k]) < PriorityOf(s, j)
  {
    BehindUpperBound(s, jobs, PriorityOf(s, j));
  }

  lemma SortedAround(s: State, jobs: seq<Job>, i: nat, j: Job)
    requires Sorted(s, jobs) && i <= |jobs|
    requires forall k :: 0 <= k < i ==> PriorityOf(s, jobs[k]) >= PriorityOf(s, j)
    requires forall k :: i <= k < |jobs| ==> PriorityOf(s, jobs[k]) < PriorityOf(s, j)
    ensures Sorted(s, jobs[..i] + [j] + jobs[i..])
  {
    var r := jobs[..i] + [j] + jobs[i..];
    forall a, b | 0 <= a < b < |r| ensures PriorityOf(s, r[a]) >= PriorityOf(s, r[b]) {
      assert a < i ==> r[a] == jobs[a];
      assert a > i ==> r[a] == jobs[a - 1];
      assert b < i ==> r[b] == jobs[b];
      assert b > i ==> r[b] == jobs[b - 1];
    }
  }

  // ---------------------------------------------------------------- steps

  predicate At(s: State, j: Job, pc: Pc) {
    j in s.pcs && s.pcs[j] == pc
  }

  function Goto(s: State, j: Job, pc: Pc): State {
    s.(pcs := s.pcs[j := pc])
  }

  function Count(m: map<Job, nat>, j: Job): nat {
    if j in m then m[j] else 0
  }

  /** A job that holds a slot gives it back. */
  function Release(s: State, j: Job, pc: Pc): State {
    Goto(s.(counter := s.counter - 1, released := s.released[j := Count(s.released, j) + 1]), j, pc)
  }

  /** A job enters the list. */
  function Entered(s: State, j: Job): State {
    Goto(s.(pending := Inserted(s, s.pending, j)), j, Pending)
  }

  /** The most urgent pending job is queued for execution. */
  function PopBack(s: State): State {
    if s.pending == [] then s
    else Goto(s.(pending := s.pending[..|s.pending| - 1]), s.pending[|s.pending| - 1], Runnable)
  }

  /** One call of `m_callback`. */
  function Called(s: State, j: Job): State {
    s.(called := s.called[j := Count(s.called, j) + 1])
  }

  datatype Action =
    | Submit(j: Job, priority: nat)
    | TryStart(j: Job)
    | CountDown(j: Job)
    | Enqueue(j: Job)
    | OpenBusy(j: Job)
    | Fail(j: Job)
    | StartRead(j: Job)
    | ReadEnds(j: Job, read: bool)
    | Requeue(j: Job)
    | Finish(j: Job)
    | CallBack(j: Job)
    | CallAgain(j: Job)

  /** One step; an action that is not possible in `s` leaves `s` as it is. */
  function Step(s: State, a: Action): State {
    match a
    case Submit(j, p) => if j in s.pcs then s else Goto(s.(priority := s.priority[j := p]), j, Runnable)
    case TryStart(j) =>
      if !At(s, j, Runnable) then s
      else if s.counter >= MAXIMUM then Goto(s.(counter := s.counter + 1), j, Bumped)
      else Goto(s.(counter := s.counter + 1, admitted := s.admitted[j := Count(s.admitted, j) + 1]), j, Admitted)
    case CountDown(j) => if At(s, j, Bumped) then Goto(s.(counter := s.counter - 1), j, Rejected) else s
    case Enqueue(j) => if At(s, j, Rejected) then Entered(s, j) else s
    case OpenBusy(j) => if At(s, j, Admitted) then Release(s, j, Retrying) else s
    case Fail(j) => if At(s, j, Admitted) then Release(s, j, Finishing(false)) else s
    case StartRead(j) => if At(s, j, Admitted) then Goto(s, j, Reading) else s
    case ReadEnds(j, read) => if At(s, j, Reading) then Release(if read then s.(clean := s.clean + {j}) else s, j, Finishing(read)) else s
    case Requeue(j) =>
      if At(s, j, Retrying) then PopBack(Entered(s, j)) else s
    case Finish(j) => if j in s.pcs && s.pcs[j].Finishing? then PopBack(Goto(s, j, Calling(s.pcs[j].read))) else s
    case CallBack(j) =>
      if j in s.pcs && s.pcs[j].Calling? then Goto(Called(s, j), j, if s.pcs[j].read then CallingAgain else Done) else s
    case CallAgain(j) => if At(s, j, CallingAgain) then Goto(Called(s, j), j, Done) else s
  }

  function Run(s: State, actions: seq<Action>): State
    decreases |actions|
  {
    if actions == [] then s else Run(Step(s, actions[0]), actions[1..])
  }

  // ---------------------------------------------------------------- invariant

  predicate HasSlot(pc: Pc) {
    pc.Admitted? || pc.Reading?
  }

  function Holders(pcs: map<Job, Pc>): set<Job> {
    set j | j in pcs && HasSlot(pcs[j])
  }

  function Transient(pcs: map<Job, Pc>): set<Job> {
    set j | j in pcs && pcs[j] == Bumped
  }

  ghost predicate Waiting(s: State) {
    forall j :: multiset(s.pending)[j] == if At(s, j, Pending) then 1 else 0
  }

  /** Each admission has been given back, except the one that is still held. */
  predicate Balanced(s: State, j: Job) {
    Count(s.admitted, j) == Count(s.released, j) + (if j in s.pcs && HasSlot(s.pcs[j]) then 1 else 0)
  }

  /** How the calls so far and the outcome of the read go with the program point. */
  predicate Told(s: State, j: Job) {
    if j !in s.pcs then Count(s.called, j) == 0 && j !in s.clean else
    match s.pcs[j]
    case Finishing(read) => Count(s.called, j) == 0 && (read <==> j in s.clean)
    case Calling(read) => Count(s.called, j) == 0 && (read <==> j in s.clean)
    case CallingAgain => Count(s.called, j) == 1 && j in s.clean
    case Done => Count(s.called, j) == if j in s.clean then 2 else 1
    case _ => Count(s.called, j) == 0 && j !in s.clean
  }

  ghost predicate Inv(s: State) {
    && s.counter == |Holders(s.pcs)| + |Transient(s.pcs)|
    && |Holders(s.pcs)| <= MAXIMUM
    && Sorted(s, s.pending) && Waiting(s)
    && (forall j {:trigger Balanced(s, j)} :: Balanced(s, j))
    && (forall j {:trigger Told(s, j)} :: Told(s, j))
    && s.priority.Keys == s.pcs.Keys
  }

  lemma HoldersMove(pcs: map<Job, Pc>, j: Job, pc: Pc)
    ensures |Holders(pcs[j := pc])| == |Holders(pcs)| + (if HasSlot(pc) then 1 else 0) - (if j in pcs && HasSlot(pcs[j]) then 1 else 0)
  {
    if HasSlot(pc) {
      assert Holders(pcs[j := pc]) == Holders(pcs) + {j};
    } else {
      assert Holders(pcs[j := pc]) == Holders(pcs) - {j};
    }
  }

  lemma TransientMove(pcs: map<Job, Pc>, j: Job, pc: Pc)
    ensures |Transient(pcs[j := pc])| == |Transient(pcs)| + (if pc == Bumped then 1 else 0) - (if j in pcs && pcs[j] == Bumped then 1 else 0)
  {
    if pc == Bumped {
      assert Transient(pcs[j := pc]) == Transient(pcs) + {j};
    } else {
      assert Transient(pcs[j := pc]) == Transient(pcs) - {j};
    }
  }

  lemma SetsMove(pcs: map<Job, Pc>, j: Job, pc: Pc)
    ensures |Holders(pcs[j := pc])| == |Holders(pcs)| + (if HasSlot(pc) then 1 else 0) - (if j in pcs && HasSlot(pcs[j]) then 1 else 0)
    ensures |Transient(pcs[j := pc])| == |Transient(pcs)| + (if pc == Bumped then 1 else 0) - (if j in pcs && pcs[j] == Bumped then 1 else 0)
  {
    HoldersMove(pcs, j, pc);
    TransientMove(pcs, j, pc);
  }

  lemma SameOrder(s: State, s': State, jobs: seq<Job>)
    requires Sorted(s, jobs) && forall k :: 0 <= k < |jobs| ==> PriorityOf(s', jobs[k]) == PriorityOf(s, jobs[k])
    ensures Sorted(s', jobs)
  {
  }

  predicate SameCalls(s: State, s': State, k: Job) {
    Count(s'.called, k) == Count(s.called, k) && (k in s'.clean <==> k in s.clean)
  }

  /** The counts of one job are in order, those of the others do not change. */
  lemma SameCounts(s: State, s': State, j: Job)
    requires Inv(s) && s'.pcs.Keys - {j} == s.pcs.Keys - {j} && Balanced(s', j) && Told(s', j)
    requires forall k :: k != j ==> Count(s'.admitted, k) == Count(s.admitted, k) && Count(s'.released, k) == Count(s.released, k)
    requires forall k :: k != j ==> SameCalls(s, s', k)
    requires forall k :: k in s.pcs && k != j ==> k in s'.pcs && s'.pcs[k] == s.pcs[k]
    ensures forall k :: Balanced(s', k) && Told(s', k)
  {
    forall k ensures Balanced(s', k) && Told(s', k) {
      assert Balanced(s, k) && Told(s, k) && (k != j ==> SameCalls(s, s', k));
      assert k != j ==> (k in s'.pcs <==> k in s'.pcs.Keys - {j}) && (k in s.pcs <==> k in s.pcs.Keys - {j});
    }
  }

  /** Steps that change neither the list nor who is in it. */
  lemma MoveKeeps(s: State, s': State, j: Job)
    requires Inv(s) && j in s.pcs && j in s'.pcs && s'.pcs == s.pcs[j := s'.pcs[j]]
    requires s'.pending == s.pending && s'.priority == s.priority && s.pcs[j] != Pending && s'.pcs[j] != Pending
    requires s'.counter - s.counter == (if HasSlot(s'.pcs[j]) || s'.pcs[j] == Bumped then 1 else 0) - (if HasSlot(s.pcs[j]) || s.pcs[j] == Bumped then 1 else 0)
    requires HasSlot(s'.pcs[j]) && !HasSlot(s.pcs[j]) ==> s.counter < MAXIMUM
    requires Balanced(s', j) && forall k :: k != j ==> Count(s'.admitted, k) == Count(s.admitted, k) && Count(s'.released, k) == Count(s.released, k)
    requires Told(s', j) && forall k :: k != j ==> SameCalls(s, s', k)
    ensures Inv(s')
  {
    SetsMove(s.pcs, j, s'.pcs[j]);
    SameOrder(s, s', s.pending);
    SameCounts(s, s', j);
  }

  lemma EnterWaits(s: State, j: Job)
    requires Waiting(s) && j in s.pcs && s.pcs[j] != Pending
    ensures Waiting(Entered(s, j))
  {
    var s' := Entered(s, j);
    InsertedMembers(s, s.pending, j);
    forall k ensures multiset(s'.pending)[k] == if At(s', k, Pending) then 1 else 0 {
      assert multiset(s.pending)[k] == if At(s, k, Pending) then 1 else 0;
    }
  }

  lemma EnterKeeps(s: State, j: Job)
    requires Inv(s) && (At(s, j, Rejected) || At(s, j, Retrying))
    ensures Inv(Entered(s, j))
  {
    var s' := Entered(s, j);
    SetsMove(s.pcs, j, Pending);
    InsertedSorted(s, s.pending, j);
    SameOrder(s, s', s'.pending);
    assert Balanced(s, j) && Told(s, j);
    SameCounts(s, s', j);
    EnterWaits(s, j);
  }

  /** The job at the back is pending, and of all pending jobs none is more urgent. */
  lemma BackIsMostUrgent(s: State)
    requires Sorted(s, s.pending) && Waiting(s) && s.pending != []
    ensures At(s, s.pending[|s.pending| - 1], Pending)
    ensures forall k :: At(s, k, Pending) ==> PriorityOf(s, s.pending[|s.pending| - 1]) <= PriorityOf(s, k)
  {
    var last := s.pending[|s.pending| - 1];
    assert multiset(s.pending)[last] > 0;
    forall k | At(s, k, Pending) ensures PriorityOf(s, last) <= PriorityOf(s, k) {
      assert multiset(s.pending)[k] > 0;
      var i :| 0 <= i < |s.pending| && s.pending[i] == k;
    }
  }

  lemma PopKeeps(s: State)
    requires Inv(s)
    ensures Inv(PopBack(s))
  {
    if s.pending != [] {
      var s' := PopBack(s);
      var n := |s.pending| - 1;
      var last := s.pending[n];
      BackIsMostUrgent(s);
      SetsMove(s.pcs, last, Runnable);
      SameOrder(s, s', s'.pending);
      assert s.pending == s'.pending + [last];
      assert Balanced(s, last) && Told(s, last);
      SameCounts(s, s', last);
      forall k ensures multiset(s'.pending)[k] == if At(s', k, Pending) then 1 else 0 {
        assert multiset(s.pending)[k] == if At(s, k, Pending) then 1 else 0;
      }
    }
  }

  lemma SubmitKeeps(s: State, j: Job, p: nat)
    requires Inv(s)
    ensures Inv(Step(s, Submit(j, p)))
  {
    if j !in s.pcs {
      var s' := Step(s, Submit(j, p));
      SetsMove(s.pcs, j, Runnable);
      assert multiset(s.pending)[j] == 0;
      SameOrder(s, s', s.pending);
      assert Balanced(s, j) && Told(s, j);
      SameCounts(s, s', j);
    }
  }

  lemma TryStartKeeps(s: State, j: Job)
    requires Inv(s)
    ensures Inv(Step(s, TryStart(j)))
  {
    if At(s, j, Runnable) {
      assert Balanced(s, j) && Told(s, j);
      MoveKeeps(s, Step(s, TryStart(j)), j);
    }
  }

  lemma ReleaseKeeps(s: State, j: Job, pc: Pc)
    requires Inv(s) && j in s.pcs && HasSlot(s.pcs[j]) && (pc == Retrying || pc.Finishing?)
    requires pc.Finishing? && pc.read ==> At(s, j, Reading)
    ensures Inv(Release(if pc.Finishing? && pc.read then s.(clean := s.clean + {j}) else s, j, pc))
  {
    assert Balanced(s, j) && Told(s, j);
    MoveKeeps(s, Release(if pc.Finishing? && pc.read then s.(clean := s.clean + {j}) else s, j, pc), j);
  }

  lemma CountDownKeeps(s: State, j: Job)
    requires Inv(s)
    ensures Inv(Step(s, CountDown(j)))
  {
    if At(s, j, Bumped) {
      assert Balanced(s, j) && Told(s, j);
      MoveKeeps(s, Step(s, CountDown(j)), j);
    }
  }

  lemma StartReadKeeps(s: State, j: Job)
    requires Inv(s)
    ensures Inv(Step(s, StartRead(j)))
  {
    if At(s, j, Admitted) {
      assert Balanced(s, j) && Told(s, j);
      MoveKeeps(s, Step(s, StartRead(j)), j);
    }
  }

  lemma RequeueKeeps(s: State, j: Job)
    requires Inv(s)
    ensures Inv(Step(s, Requeue(j)))
  {
    if At(s, j, Retrying) {
      EnterKeeps(s, j);
      PopKeeps(Entered(s, j));
    }
  }

  lemma FinishKeeps(s: State, j: Job)
    requires Inv(s)
    ensures Inv(Step(s, Finish(j)))
  {
    if j in s.pcs && s.pcs[j].Finishing? {
      assert Balanced(s, j) && Told(s, j);
      var t := Goto(s, j, Calling(s.pcs[j].read));
      MoveKeeps(s, t, j);
      PopKeeps(t);
    }
  }

  lemma CallKeeps(s: State, a: Action)
    requires Inv(s) && (a.CallBack? || a.CallAgain?)
    ensures Inv(Step(s, a))
  {
    if Step(s, a) != s {
      assert Balanced(s, a.j) && Told(s, a.j);
      MoveKeeps(s, Step(s, a), a.j);
    }
  }

  lemma StepKeeps(s: State, a: Action)
    requires Inv(s)
    ensures Inv(Step(s, a))
  {
    match a
    case Submit(j, p) => SubmitKeeps(s, j, p);
    case Enqueue(j) => if At(s, j, Rejected) { EnterKeeps(s, j); }
    case Requeue(j) => RequeueKeeps(s, j);
    case Finish(j) => FinishKeeps(s, j);
    case CallBack(j) => CallKeeps(s, a);
    case CallAgain(j) => CallKeeps(s, a);
    case TryStart(j) => TryStartKeeps(s, j);
    case CountDown(j) => CountDownKeeps(s, j);
    case StartRead(j) => StartReadKeeps(s, j);
    case OpenBusy(j) => if At(s, j, Admitted) { ReleaseKeeps(s, j, Retrying); }
    case Fail(j) => if At(s, j, Admitted) { ReleaseKeeps(s, j, Finishing(false)); }
    case ReadEnds(j, read) => if At(s, j, Reading) { ReleaseKeeps(s, j, Finishing(read)); }
  }

  lemma {:induction false} RunKeeps(s: State, actions: seq<Action>)
    requires Inv(s)
    ensures Inv(Run(s, actions))
    decreases |actions|
  {
    if actions != [] {
      StepKeeps(s, actions[0]);
      RunKeeps(Step(s, actions[0]), actions[1..]);
    }
  }

  // ---------------------------------------------------------------- what holds in every run

  const EMPTY := State(0, [], map[], map[], map[], map[], map[], {})

  lemma EmptyOk()
    ensures Inv(EMPTY)
  {
    assert Holders(map[]) == {} && Transient(map[]) == {};
  }

  /**
   In every run: no more jobs have a slot than allowed, the counter is the number of these and of the
   jobs that are about to count down again, and no job gives back more than it was given.
   */
  lemma SlotsAreBounded(actions: seq<Action>, j: Job)
    ensures var s := Run(EMPTY, actions);
            && |Holders(s.pcs)| <= MAXIMUM
            && s.counter == |Holders(s.pcs)| + |Transient(s.pcs)|
            && Count(s.released, j) <= Count(s.admitted, j) <= Count(s.released, j) + 1
            && (Count(s.admitted, j) == Count(s.released, j) + 1 <==> j in Holders(s.pcs))
  {
    EmptyOk();
    RunKeeps(EMPTY, actions);
    assert Balanced(Run(EMPTY, actions), j);
  }

  /** Whoever counts down finds the counter positive: it never wraps below zero. */
  lemma NeverBelowZero(actions: seq<Action>, j: Job)
    ensures var s := Run(EMPTY, actions);
            At(s, j, Bumped) || At(s, j, Admitted) || At(s, j, Reading) ==> s.counter > 0
  {
    EmptyOk();
    RunKeeps(EMPTY, actions);
    var s := Run(EMPTY, actions);
    if At(s, j, Bumped) { assert j in Transient(s.pcs); }
    if At(s, j, Admitted) || At(s, j, Reading) { assert j in Holders(s.pcs); }
  }

  /** The pending jobs are in order of urgency, each once, and the one taken out next is most urgent. */
  lemma MostUrgentFirst(actions: seq<Action>)
    ensures var s := Run(EMPTY, actions);
            && Sorted(s, s.pending)
            && (forall k :: multiset(s.pending)[k] == if At(s, k, Pending) then 1 else 0)
            && (s.pending != [] ==>
                  var last := s.pending[|s.pending| - 1];
                  At(s, last, Pending) && forall k :: At(s, k, Pending) ==> PriorityOf(s, last) <= PriorityOf(s, k))
  {
    EmptyOk();
    RunKeeps(EMPTY, actions);
    if Run(EMPTY, actions).pending != [] { BackIsMostUrgent(Run(EMPTY, actions)); }
  }

  // ---------------------------------------------------------------- who takes a pending job out

  /** The job will look at the list yet, or enter it: it does not wait there, nor is it past its turn to take one out. */
  predicate Busy(s: State, j: Job) {
    j in s.pcs && s.pcs[j] != Pending && !PastTurn(s.pcs[j])
  }

  predicate PastTurn(pc: Pc) {
    pc.Calling? || pc.CallingAgain? || pc.Done?
  }

  /** Nobody waits in the list, or somebody is busy. */
  ghost predicate Attended(s: State) {
    s.pending == [] || exists j :: Busy(s, j)
  }

  /** Only jobs of `jobs` take steps. */
  ghost predicate Within(jobs: set<Job>, actions: seq<Action>) {
    forall k :: 0 <= k < |actions| ==> actions[k].j in jobs
  }

  /** While there are jobs that wait and nobody is busy, only calls are made, until a new job comes. */
  lemma UnattendedIsStuck(s: State, a: Action)
    requires !Attended(s) && Step(s, a) != s
    ensures (a.Submit? && a.j !in s.pcs) || ((a.CallBack? || a.CallAgain?) && Step(s, a).pending == s.pending && !Attended(Step(s, a)))
  {
    assert !Busy(s, a.j);
    if a.CallBack? || a.CallAgain? {
      CallStep(s, a);
      forall k ensures !Busy(Step(s, a), k) { assert !Busy(s, k); }
    } else if !a.Enqueue? && !a.Requeue? && !a.Finish? {
      MoveStep(s, a);
    }
  }

  /** Steps that leave the list alone: one job moves on, and stays busy if it was. */
  lemma PlainStep(s: State, a: Action)
    requires !a.Enqueue? && !a.Requeue? && !a.Finish? && Step(s, a) != s
    ensures var s' := Step(s, a);
            && s'.pending == s.pending && a.j in s'.pcs && s'.pcs == s.pcs[a.j := s'.pcs[a.j]] && s'.pcs[a.j] != Pending
            && (Busy(s', a.j) <==> Busy(s, a.j) || a.j !in s.pcs)
            && (s'.pcs[a.j] == Bumped ==> a.TryStart? && s.counter >= MAXIMUM && At(s, a.j, Runnable))
            && (s'.pcs[a.j] == Rejected ==> At(s, a.j, Bumped))
  {
    if a.CallBack? || a.CallAgain? {
      CallStep(s, a);
    } else {
      MoveStep(s, a);
    }
  }

  lemma CallStep(s: State, a: Action)
    requires (a.CallBack? || a.CallAgain?) && Step(s, a) != s
    ensures var s' := Step(s, a);
            && s'.pending == s.pending && a.j in s'.pcs && s'.pcs == s.pcs[a.j := s'.pcs[a.j]]
            && PastTurn(s'.pcs[a.j]) && a.j in s.pcs && PastTurn(s.pcs[a.j])
  {
  }

  lemma MoveStep(s: State, a: Action)
    requires !a.Enqueue? && !a.Requeue? && !a.Finish? && !a.CallBack? && !a.CallAgain? && Step(s, a) != s
    ensures var s' := Step(s, a);
            && s'.pending == s.pending && a.j in s'.pcs && s'.pcs == s.pcs[a.j := s'.pcs[a.j]] && Busy(s', a.j) && (a.j in s.pcs ==> Busy(s, a.j))
            && (s'.pcs[a.j] == Bumped ==> a.TryStart? && s.counter >= MAXIMUM && At(s, a.j, Runnable))
            && (s'.pcs[a.j] == Rejected ==> At(s, a.j, Bumped))
  {
  }

  lemma StillAttended(s: State, s': State, j: Job)
    requires Attended(s) && s'.pending == s.pending && j in s'.pcs && s'.pcs == s.pcs[j := s'.pcs[j]] && (Busy(s, j) ==> Busy(s', j))
    ensures Attended(s')
  {
    if s.pending != [] {
      var k :| Busy(s, k);
      assert Busy(s', k);
    }
  }

  /** Exactly one step loses the last busy job: one that enters the list when nobody else is busy. */
  lemma OnlyEnqueueIsLost(s: State, a: Action)
    requires Attended(s)
    ensures !Attended(Step(s, a)) <==> a.Enqueue? && At(s, a.j, Rejected) && forall k :: Busy(s, k) ==> k == a.j
  {
    if Step(s, a) != s {
      match a
      case Enqueue(j) => EnterIsLost(s, j);
      case Requeue(j) => PopLeavesBusy(Entered(s, j));
      case Finish(j) => PopLeavesBusy(Goto(s, j, Calling(s.pcs[j].read)));
      case _ =>
        PlainStep(s, a);
        StillAttended(s, Step(s, a), a.j);
    }
  }

  lemma EnterIsLost(s: State, j: Job)
    requires At(s, j, Rejected)
    ensures !Attended(Entered(s, j)) <==> forall k :: Busy(s, k) ==> k == j
  {
    var s' := Entered(s, j);
    InsertedMembers(s, s.pending, j);
    assert j in multiset(s'.pending);
    forall k ensures Busy(s', k) <==> Busy(s, k) && k != j {}
  }

  lemma PopLeavesBusy(s: State)
    ensures Attended(PopBack(s))
  {
    if s.pending != [] {
      assert Busy(PopBack(s), s.pending[|s.pending| - 1]);
    }
  }

  /** The jobs that have not had their turn to take one out of the list. */
  function Open(pcs: map<Job, Pc>): set<Job> {
    set j | j in pcs && !PastTurn(pcs[j])
  }

  /** At no time of the run are more than `n` jobs open. */
  ghost predicate AtMostAtOnce(n: nat, s: State, actions: seq<Action>)
    decreases |actions|
  {
    |Open(s.pcs)| <= n && (actions == [] || AtMostAtOnce(n, Step(s, actions[0]), actions[1..]))
  }

  /** Nobody is turned away, and nobody waits between two steps. */
  ghost predicate Unhindered(s: State) {
    s.pending == [] && forall j :: j in s.pcs ==> s.pcs[j] != Bumped && s.pcs[j] != Rejected && s.pcs[j] != Pending
  }

  /** A slot is free for a job that has none. */
  lemma SlotIsFree(s: State, j: Job)
    requires s.counter == |Holders(s.pcs)| + |Transient(s.pcs)| && Unhindered(s) && At(s, j, Runnable) && |Open(s.pcs)| <= MAXIMUM
    ensures s.counter < MAXIMUM
  {
    assert Transient(s.pcs) == {};
    SubsetSize(Holders(s.pcs), Open(s.pcs) - {j});
  }

  lemma UnhinderedStep(s: State, a: Action)
    requires s.counter == |Holders(s.pcs)| + |Transient(s.pcs)| && Unhindered(s) && |Open(s.pcs)| <= MAXIMUM
    ensures Unhindered(Step(s, a))
  {
    if Step(s, a) != s {
      match a
      case Enqueue(j) =>
      case Requeue(j) =>
        assert Entered(s, j).pending == [j];
        assert s.pcs[j := Pending][j := Runnable] == s.pcs[j := Runnable];
        UnhinderedMove(s, Step(s, a), j);
      case Finish(j) => UnhinderedMove(s, Step(s, a), j);
      case _ =>
        PlainStep(s, a);
        if At(Step(s, a), a.j, Bumped) { SlotIsFree(s, a.j); }
        UnhinderedMove(s, Step(s, a), a.j);
    }
  }

  lemma UnhinderedMove(s: State, s': State, j: Job)
    requires Unhindered(s) && j in s'.pcs && s'.pcs == s.pcs[j := s'.pcs[j]] && s'.pending == []
    requires s'.pcs[j] != Bumped && s'.pcs[j] != Rejected && s'.pcs[j] != Pending
    ensures Unhindered(s')
  {
  }

  lemma {:induction false} UnhinderedRun(s: State, actions: seq<Action>)
    requires Inv(s) && Unhindered(s) && AtMostAtOnce(MAXIMUM, s, actions)
    ensures Unhindered(Run(s, actions))
    decreases |actions|
  {
    if actions != [] {
      StepKeeps(s, actions[0]);
      UnhinderedStep(s, actions[0]);
      UnhinderedRun(Step(s, actions[0]), actions[1..]);
    }
  }

  /** Whoever is in the list is known already. */
  lemma InListKnown(s: State)
    requires Waiting(s)
    ensures forall x :: x in s.pending ==> x in s.pcs
  {
    forall x | x in s.pending ensures x in s.pcs { assert multiset(s.pending)[x] > 0; }
  }

  lemma PopJobs(s: State)
    requires forall x :: x in s.pending ==> x in s.pcs
    ensures PopBack(s).pcs.Keys == s.pcs.Keys
  {
    if s.pending != [] { assert s.pending[|s.pending| - 1] in s.pending; }
  }

  /** A step brings in no other job than its own. */
  lemma StepJobs(s: State, a: Action)
    requires Inv(s)
    ensures Step(s, a).pcs.Keys <= s.pcs.Keys + {a.j}
  {
    if Step(s, a) != s {
      match a
      case Enqueue(j) =>
      case Requeue(j) =>
        EnterWaits(s, j);
        InListKnown(Entered(s, j));
        PopJobs(Entered(s, j));
      case Finish(j) =>
        InListKnown(s);
        PopJobs(Goto(s, j, Calling(s.pcs[j].read)));
      case _ => PlainStep(s, a);
    }
  }

  lemma {:induction false} WithinAtOnce(jobs: set<Job>, s: State, actions: seq<Action>)
    requires Inv(s) && s.pcs.Keys <= jobs && Within(jobs, actions)
    ensures AtMostAtOnce(|jobs|, s, actions)
    decreases |actions|
  {
    SubsetSize(Open(s.pcs), jobs);
    if actions != [] {
      assert actions[0].j in jobs;
      StepJobs(s, actions[0]);
      StepKeeps(s, actions[0]);
      WithinAtOnce(jobs, Step(s, actions[0]), actions[1..]);
    }
  }

  lemma {:induction false} MoreAtOnce(n: nat, m: nat, s: State, actions: seq<Action>)
    requires n <= m && AtMostAtOnce(n, s, actions)
    ensures AtMostAtOnce(m, s, actions)
    decreases |actions|
  {
    if actions != [] { MoreAtOnce(n, m, Step(s, actions[0]), actions[1..]); }
  }

  // A run that ends unattended: all slots are taken, one more job is turned away, all others end,
  // and only then does it enter the list.

  function Starts(q: seq<Job>): seq<Action>
  {
    if q == [] then [] else Starts(q[..|q| - 1]) + [Submit(q[|q| - 1], 0), TryStart(q[|q| - 1])]
  }

  function Ends(q: seq<Job>): seq<Action> {
    if q == [] then [] else Ends(q[..|q| - 1]) + [Fail(q[|q| - 1]), Finish(q[|q| - 1]), CallBack(q[|q| - 1])]
  }

  /** A run of the jobs `q` and of `last` that leaves `last` waiting for ever. */
  function Stalling(q: seq<Job>, last: Job): seq<Action> {
    Starts(q) + ([Submit(last, 0), TryStart(last), CountDown(last)] + (Ends(q) + [Enqueue(last)]))
  }

  lemma {:induction false} RunBoth(s: State, xs: seq<Action>, ys: seq<Action>)
    ensures Run(s, xs + ys) == Run(Run(s, xs), ys)
    decreases |xs|
  {
    if xs == [] {
      assert xs + ys == ys;
    } else {
      assert (xs + ys)[1..] == xs[1..] + ys;
      RunBoth(Step(s, xs[0]), xs[1..], ys);
    }
  }

  lemma RunTwo(s: State, a: Action, b: Action)
    ensures Run(s, [a, b]) == Step(Step(s, a), b)
  {
    assert [a, b][1..] == [b] && [b][1..] == [];
    assert Run(Step(s, a), [b]) == Run(Step(Step(s, a), b), []);
  }

  ghost predicate AllAre(s: State, q: seq<Job>, pc: Pc) {
    forall k :: 0 <= k < |q| ==> At(s, q[k], pc)
  }

  lemma StartOne(s: State, j: Job)
    requires j !in s.pcs && s.counter < MAXIMUM
    ensures var s' := Run(s, [Submit(j, 0), TryStart(j)]);
            s'.counter == s.counter + 1 && s'.pending == s.pending && s'.pcs == s.pcs[j := Admitted]
  {
    RunTwo(s, Submit(j, 0), TryStart(j));
    var t := Goto(s.(priority := s.priority[j := 0]), j, Runnable);
    assert Step(s, Submit(j, 0)) == t;
    assert Step(t, TryStart(j)).pcs == t.pcs[j := Admitted];
    assert s.pcs[j := Runnable][j := Admitted] == s.pcs[j := Admitted];
  }

  lemma RunThree(s: State, a: Action, b: Action, c: Action)
    ensures Run(s, [a, b, c]) == Step(Step(Step(s, a), b), c)
  {
    assert [a, b, c] == [a, b] + [c];
    RunBoth(s, [a, b], [c]);
    RunTwo(s, a, b);
    RunOne(Step(Step(s, a), b), c);
  }

  lemma EndOne(s: State, j: Job)
    requires At(s, j, Admitted) && s.pending == []
    ensures var s' := Run(s, [Fail(j), Finish(j), CallBack(j)]); s'.pending == [] && s'.pcs == s.pcs[j := Done]
  {
    RunThree(s, Fail(j), Finish(j), CallBack(j));
    var t := Release(s, j, Finishing(false));
    var u := Goto(t, j, Calling(false));
    assert Step(s, Fail(j)) == t;
    assert Step(t, Finish(j)) == u;
    assert Step(u, CallBack(j)) == Goto(Called(u, j), j, Done);
    assert s.pcs[j := Finishing(false)][j := Calling(false)][j := Done] == s.pcs[j := Done];
  }

  /** All slots are taken: the job is turned away. */
  lemma TurnedAway(s: State, j: Job)
    requires j !in s.pcs && s.counter == MAXIMUM
    ensures var s' := Run(s, [Submit(j, 0), TryStart(j), CountDown(j)]);
            s'.pending == s.pending && s'.pcs == s.pcs[j := Rejected]
  {
    RunThree(s, Submit(j, 0), TryStart(j), CountDown(j));
    StepsAway(s, j);
  }

  lemma StepsAway(s: State, j: Job)
    requires j !in s.pcs && s.counter == MAXIMUM
    ensures var s' := Step(Step(Step(s, Submit(j, 0)), TryStart(j)), CountDown(j));
            s'.pending == s.pending && s'.pcs == s.pcs[j := Rejected]
  {
    var t := Goto(s.(priority := s.priority[j := 0]), j, Runnable);
    var u := Goto(t.(counter := t.counter + 1), j, Bumped);
    assert Step(s, Submit(j, 0)) == t;
    assert Step(t, TryStart(j)) == u;
    assert Step(u, CountDown(j)) == Goto(u.(counter := u.counter - 1), j, Rejected);
    assert s.pcs[j := Runnable][j := Bumped][j := Rejected] == s.pcs[j := Rejected];
  }

  lemma AllAnd(s: State, s': State, front: seq<Job>, j: Job, pc: Pc)
    requires AllAre(s, front, pc) && j !in front && s'.pcs == s.pcs[j := pc]
    ensures AllAre(s', front + [j], pc)
  {
    assert forall k :: 0 <= k < |front| ==> At(s, front[k], pc);
  }

  lemma {:induction false} StartAll(q: seq<Job>)
    requires NoDup(q) && |q| <= MAXIMUM
    ensures var s := Run(EMPTY, Starts(q));
            s.counter == |q| && s.pending == [] && AllAre(s, q, Admitted) && forall j :: j in s.pcs <==> j in q
  {
    if q != [] {
      var front, j := q[..|q| - 1], q[|q| - 1];
      StartAll(front);
      var s := Run(EMPTY, Starts(front));
      RunBoth(EMPTY, Starts(front), [Submit(j, 0), TryStart(j)]);
      assert q == front + [j] && j !in front;
      StartOne(s, j);
      StartedOneMore(s, Run(EMPTY, Starts(q)), front, j);
    }
  }

  lemma StartedOneMore(s: State, s': State, front: seq<Job>, j: Job)
    requires AllAre(s, front, Admitted) && j !in front && s'.pcs == s.pcs[j := Admitted] && forall k :: k in s.pcs <==> k in front
    ensures AllAre(s', front + [j], Admitted) && forall k :: k in s'.pcs <==> k in front + [j]
  {
    AllAnd(s, s', front, j, Admitted);
  }

  /** The jobs of `q` have ended, and nothing else has changed. */
  ghost predicate Ended(s: State, s': State, q: seq<Job>) {
    && s'.pending == [] && AllAre(s', q, Done) && s'.pcs.Keys == s.pcs.Keys
    && forall j :: j in s.pcs && j !in q ==> s'.pcs[j] == s.pcs[j]
  }

  lemma EndedOneMore(s: State, t: State, s': State, front: seq<Job>, j: Job)
    requires Ended(s, t, front) && j in s.pcs && j !in front && s'.pending == [] && s'.pcs == t.pcs[j := Done]
    ensures Ended(s, s', front + [j])
  {
    AllAnd(t, s', front, j, Done);
  }

  lemma {:induction false} EndAll(s: State, q: seq<Job>)
    requires NoDup(q) && AllAre(s, q, Admitted) && s.pending == []
    ensures Ended(s, Run(s, Ends(q)), q)
  {
    if q != [] {
      var front, j := q[..|q| - 1], q[|q| - 1];
      assert q == front + [j] && j !in front;
      assert forall k :: 0 <= k < |front| ==> At(s, q[k], Admitted) && front[k] == q[k];
      assert At(s, q[|q| - 1], Admitted);
      EndAll(s, front);
      var t := Run(s, Ends(front));
      RunBoth(s, Ends(front), [Fail(j), Finish(j), CallBack(j)]);
      EndOne(t, j);
      EndedOneMore(s, t, Run(s, Ends(q)), front, j);
    }
  }

  lemma StallingIsUnattended(q: seq<Job>, last: Job)
    requires NoDup(q) && |q| == MAXIMUM && last !in q
    ensures !Attended(Run(EMPTY, Stalling(q, last)))
    ensures Run(EMPTY, Stalling(q, last)).pending == [last]
  {
    var turned := [Submit(last, 0), TryStart(last), CountDown(last)];
    StartAll(q);
    var s := Run(EMPTY, Starts(q));
    RunBoth(EMPTY, Starts(q), turned + (Ends(q) + [Enqueue(last)]));
    RunBoth(s, turned, Ends(q) + [Enqueue(last)]);
    TurnedAway(s, last);
    var t := Run(s, turned);
    EndAll(t, q);
    RunBoth(t, Ends(q), [Enqueue(last)]);
    RunOne(Run(t, Ends(q)), Enqueue(last));
    EnterAlone(Run(t, Ends(q)), q, last);
  }

  lemma RunOne(s: State, a: Action)
    ensures Run(s, [a]) == Step(s, a)
  {
    assert [a][1..] == [];
  }

  lemma EnterAlone(s: State, q: seq<Job>, last: Job)
    requires s.pending == [] && AllAre(s, q, Done) && At(s, last, Rejected) && forall j :: j in s.pcs ==> j in q || j == last
    ensures Step(s, Enqueue(last)).pending == [last] && !Attended(Step(s, Enqueue(last)))
  {
    var s' := Step(s, Enqueue(last));
    forall j ensures !Busy(s', j) {
      if j in q && j != last {
        var k :| 0 <= k < |q| && q[k] == j;
        assert At(s, q[k], Done);
      }
    }
  }

  /** `n` different jobs of a set. */
  lemma {:induction false} Choose(jobs: set<Job>, n: nat) returns (q: seq<Job>)
    requires n <= |jobs|
    ensures NoDup(q) && |q| == n && forall j :: j in q ==> j in jobs
  {
    if n == 0 {
      q := [];
    } else {
      var x :| x in jobs;
      var rest := Choose(jobs - {x}, n - 1);
      q := rest + [x];
    }
  }

  lemma WithinBoth(jobs: set<Job>, xs: seq<Action>, ys: seq<Action>)
    requires Within(jobs, xs) && Within(jobs, ys)
    ensures Within(jobs, xs + ys)
  {
  }

  lemma {:induction false} StepsWithin(jobs: set<Job>, q: seq<Job>)
    requires forall j :: j in q ==> j in jobs
    ensures Within(jobs, Starts(q)) && Within(jobs, Ends(q))
  {
    if q != [] {
      var front, j := q[..|q| - 1], q[|q| - 1];
      StepsWithin(jobs, front);
      WithinBoth(jobs, Starts(front), [Submit(j, 0), TryStart(j)]);
      WithinBoth(jobs, Ends(front), [Fail(j), Finish(j), CallBack(j)]);
    }
  }

  /** With enough jobs there is a run that ends unattended, in which no others take part. */
  lemma StallingRun(jobs: set<Job>) returns (actions: seq<Action>)
    requires |jobs| > MAXIMUM
    ensures Within(jobs, actions) && !Attended(Run(EMPTY, actions))
  {
    var all := Choose(jobs, MAXIMUM + 1);
    var q, last := all[..MAXIMUM], all[MAXIMUM];
    StallingIsUnattended(q, last);
    StepsWithin(jobs, q);
    var turned, enter := [Submit(last, 0), TryStart(last), CountDown(last)], [Enqueue(last)];
    WithinBoth(jobs, Ends(q), enter);
    WithinBoth(jobs, turned, Ends(q) + enter);
    WithinBoth(jobs, Starts(q), turned + (Ends(q) + enter));
    actions := Stalling(q, last);
  }

  /**
   Pending jobs always have somebody who may take them out if and only if there are no more jobs than
   slots: otherwise a job that is turned away may enter the list when all others are done.
   */
  lemma AttendedIffFewJobs(jobs: set<Job>)
    ensures (forall actions :: Within(jobs, actions) ==> Attended(Run(EMPTY, actions))) <==> |jobs| <= MAXIMUM
  {
    EmptyOk();
    if |jobs| <= MAXIMUM {
      forall actions | Within(jobs, actions) ensures Attended(Run(EMPTY, actions)) {
        FewJobsNeverWait(jobs, actions);
      }
    } else {
      var actions := StallingRun(jobs);
    }
  }

  /** The same for any number of jobs, of which at most `n` are open at once. */
  lemma AttendedIffFewAtOnce(n: nat)
    ensures (forall actions :: AtMostAtOnce(n, EMPTY, actions) ==> Attended(Run(EMPTY, actions))) <==> n <= MAXIMUM
  {
    EmptyOk();
    if n <= MAXIMUM {
      forall actions | AtMostAtOnce(n, EMPTY, actions) ensures Attended(Run(EMPTY, actions)) {
        MoreAtOnce(n, MAXIMUM, EMPTY, actions);
        FewAtOnceNeverWait(actions);
      }
    } else {
      var jobs := FirstJobs(MAXIMUM + 1);
      var actions := StallingRun(jobs);
      WithinAtOnce(jobs, EMPTY, actions);
      MoreAtOnce(|jobs|, n, EMPTY, actions);
    }
  }

  lemma {:induction false} FirstJobs(n: nat) returns (jobs: set<Job>)
    ensures |jobs| == n && forall j :: j in jobs ==> j < n
  {
    if n == 0 {
      jobs := {};
    } else {
      jobs := FirstJobs(n - 1);
      jobs := jobs + {n - 1};
    }
  }

  /** With no more open jobs than slots, no job is ever turned away or left in the list. */
  lemma FewAtOnceNeverWait(actions: seq<Action>)
    requires AtMostAtOnce(MAXIMUM, EMPTY, actions)
    ensures var s := Run(EMPTY, actions);
            s.pending == [] && forall j :: !At(s, j, Bumped) && !At(s, j, Rejected) && !At(s, j, Pending)
  {
    EmptyOk();
    UnhinderedRun(EMPTY, actions);
  }

  lemma FewJobsNeverWait(jobs: set<Job>, actions: seq<Action>)
    requires |jobs| <= MAXIMUM && Within(jobs, actions)
    ensures var s := Run(EMPTY, actions);
            s.pending == [] && forall j :: !At(s, j, Bumped) && !At(s, j, Rejected) && !At(s, j, Pending)
  {
    EmptyOk();
    WithinAtOnce(jobs, EMPTY, actions);
    MoreAtOnce(|jobs|, MAXIMUM, EMPTY, actions);
    FewAtOnceNeverWait(actions);
  }

  // ---------------------------------------------------------------- how often a job calls back

  /**
   After every run: a job that is done called back twice exactly if its read ended without error, and
   once otherwise; between the two calls it called once, and before them not at all.
   */
  lemma CallbackTwiceAfterRead(actions: seq<Action>, j: Job)
    ensures var s := Run(EMPTY, actions);
            && (Count(s.called, j) == 2 <==> At(s, j, Done) && j in s.clean)
            && (Count(s.called, j) == 1 <==> (At(s, j, Done) && j !in s.clean) || At(s, j, CallingAgain))
            && Count(s.called, j) <= 2
  {
    EmptyOk();
    RunKeeps(EMPTY, actions);
    assert Told(Run(EMPTY, actions), j);
  }

  /** A run of one job that calls back twice. */
  function TwoCalls(j: Job, p: nat): seq<Action> {
    [Submit(j, p), TryStart(j), StartRead(j)] + ([ReadEnds(j, true), Finish(j)] + [CallBack(j), CallAgain(j)])
  }

  lemma OneReads(j: Job, p: nat)
    ensures var s := Run(EMPTY, [Submit(j, p), TryStart(j), StartRead(j)]);
            At(s, j, Reading) && s.pending == [] && Count(s.called, j) == 0
  {
    RunThree(EMPTY, Submit(j, p), TryStart(j), StartRead(j));
  }

  lemma ReadEnded(s: State, j: Job)
    requires At(s, j, Reading)
    ensures var t := Step(s, ReadEnds(j, true)); At(t, j, Finishing(true)) && t.pending == s.pending && t.called == s.called
  {
  }

  lemma FinishedAlone(s: State, j: Job)
    requires At(s, j, Finishing(true)) && s.pending == []
    ensures var t := Step(s, Finish(j)); At(t, j, Calling(true)) && t.called == s.called
  {
    assert Step(s, Finish(j)) == Goto(s, j, Calling(true));
  }

  lemma OneFinishes(s: State, j: Job)
    requires At(s, j, Reading) && s.pending == []
    ensures var s' := Run(s, [ReadEnds(j, true), Finish(j)]); At(s', j, Calling(true)) && s'.called == s.called
  {
    RunTwo(s, ReadEnds(j, true), Finish(j));
    ReadEnded(s, j);
    FinishedAlone(Step(s, ReadEnds(j, true)), j);
  }

  lemma OneCalls(s: State, j: Job)
    requires At(s, j, Calling(true))
    ensures Count(Run(s, [CallBack(j), CallAgain(j)]).called, j) == Count(s.called, j) + 2
  {
    RunTwo(s, CallBack(j), CallAgain(j));
  }

  lemma CallsTwice(j: Job, p: nat)
    ensures Count(Run(EMPTY, TwoCalls(j, p)).called, j) == 2
  {
    var begin, ends, calls := [Submit(j, p), TryStart(j), StartRead(j)], [ReadEnds(j, true), Finish(j)], [CallBack(j), CallAgain(j)];
    RunBoth(EMPTY, begin, ends + calls);
    RunBoth(Run(EMPTY, begin), ends, calls);
    OneReads(j, p);
    OneFinishes(Run(EMPTY, begin), j);
    OneCalls(Run(Run(EMPTY, begin), ends), j);
  }
}
