/**
 Which pending job runs next, and what becomes of a job, said of the steps themselves: the order in
 which jobs leave the list, by JobPriority and by the time they entered it, and the way of one job
 through admission (AsyncLoadFromDiskJob.cpp:70-163, 384-433).
 */
module AsyncOrder {
  import opened AsyncLoading

  // ---------------------------------------------------------------- when a job entered the list

  /** With this step, job `j` enters the list. */
  predicate Enters(s: State, a: Action, j: Job) {
    a.j == j && ((a.Enqueue? && At(s, j, Rejected)) || (a.Requeue? && At(s, j, Retrying)))
  }

  /** The number of the step with which `j` entered the list last; 0 if it never did. */
  ghost function EntryOf(actions: seq<Action>, j: Job): (n: nat)
    ensures n <= |actions|
    decreases |actions|
  {
    if actions == [] then 0 else
    var front := actions[..|actions| - 1];
    if Enters(Run(EMPTY, front), actions[|actions| - 1], j) then |actions| else EntryOf(front, j)
  }

  /** `j` goes before `k`: it is more urgent, or as urgent and entered later. */
  ghost predicate Before(s: State, actions: seq<Action>, j: Job, k: Job) {
    PriorityOf(s, j) < PriorityOf(s, k) || (PriorityOf(s, j) == PriorityOf(s, k) && EntryOf(actions, j) > EntryOf(actions, k))
  }

  /** The list has who goes first at its back. */
  ghost predicate InTurn(s: State, actions: seq<Action>, jobs: seq<Job>) {
    forall i, k {:trigger jobs[i], jobs[k]} :: 0 <= i < k < |jobs| ==> Before(s, actions, jobs[k], jobs[i])
  }

  lemma RunSnoc(s: State, actions: seq<Action>, a: Action)
    ensures Run(s, actions + [a]) == Step(Run(s, actions), a)
  {
    RunBoth(s, actions, [a]);
    RunOne(Run(s, actions), a);
  }

  lemma EntrySnoc(actions: seq<Action>, a: Action, j: Job)
    ensures EntryOf(actions + [a], j) == if Enters(Run(EMPTY, actions), a, j) then |actions| + 1 else EntryOf(actions, j)
  {
    assert (actions + [a])[..|actions|] == actions;
  }

  /** The jobs of a list keep their order when they neither enter it nor change. */
  lemma StaysInTurn(s: State, s': State, actions: seq<Action>, a: Action, jobs: seq<Job>)
    requires s == Run(EMPTY, actions) && InTurn(s, actions, jobs)
    requires forall j :: j in jobs ==> !Enters(s, a, j) && PriorityOf(s', j) == PriorityOf(s, j)
    ensures InTurn(s', actions + [a], jobs)
  {
    forall i, k | 0 <= i < k < |jobs| ensures Before(s', actions + [a], jobs[k], jobs[i]) {
      assert jobs[i] in jobs && jobs[k] in jobs;
      EntrySnoc(actions, a, jobs[i]);
      EntrySnoc(actions, a, jobs[k]);
      assert Before(s, actions, jobs[k], jobs[i]);
    }
  }

  /** A job that enters goes before those that were there and are no more urgent. */
  lemma EntersBefore(s: State, actions: seq<Action>, a: Action, j: Job, k: Job)
    requires s == Run(EMPTY, actions) && Enters(s, a, j) && k != j && PriorityOf(s, k) >= PriorityOf(s, j)
    ensures Before(s, actions + [a], j, k)
  {
    EntrySnoc(actions, a, j);
    EntrySnoc(actions, a, k);
  }

  lemma InTurnAround(s: State, actions: seq<Action>, jobs: seq<Job>, i: nat, j: Job)
    requires InTurn(s, actions, jobs) && i <= |jobs|
    requires forall k :: 0 <= k < i ==> Before(s, actions, j, jobs[k])
    requires forall k :: i <= k < |jobs| ==> Before(s, actions, jobs[k], j)
    ensures InTurn(s, actions, jobs[..i] + [j] + jobs[i..])
  {
    var r := jobs[..i] + [j] + jobs[i..];
    forall m, n | 0 <= m < n < |r| ensures Before(s, actions, r[n], r[m]) {
      assert m < i ==> r[m] == jobs[m];
      assert m > i ==> r[m] == jobs[m - 1];
      assert n < i ==> r[n] == jobs[n];
      assert n > i ==> r[n] == jobs[n - 1];
    }
  }

  /** A job that enters goes in front of those that are as urgent, behind those that are more so. */
  lemma EntersInTurn(s: State, actions: seq<Action>, a: Action, jobs: seq<Job>, j: Job)
    requires s == Run(EMPTY, actions) && Enters(s, a, j) && j !in jobs && Sorted(s, jobs)
    requires InTurn(s, actions + [a], jobs)
    ensures InTurn(s, actions + [a], Inserted(s, jobs, j))
  {
    var i := UpperBound(s, jobs, PriorityOf(s, j));
    BehindUpperBound(s, jobs, PriorityOf(s, j));
    forall k | 0 <= k < i ensures Before(s, actions + [a], j, jobs[k]) {
      assert jobs[k] in jobs;
      EntersBefore(s, actions, a, j, jobs[k]);
    }
    InTurnAround(s, actions + [a], jobs, i, j);
  }

  lemma AllInTurnFront(s: State, actions: seq<Action>, jobs: seq<Job>)
    requires InTurn(s, actions, jobs) && jobs != []
    ensures InTurn(s, actions, jobs[..|jobs| - 1])
  {
  }

  lemma SamePriorities(s: State, s': State, actions: seq<Action>, jobs: seq<Job>)
    requires InTurn(s, actions, jobs) && forall j :: j in jobs ==> PriorityOf(s', j) == PriorityOf(s, j)
    ensures InTurn(s', actions, jobs)
  {
    forall i, k | 0 <= i < k < |jobs| ensures Before(s', actions, jobs[k], jobs[i]) {
      assert jobs[i] in jobs && jobs[k] in jobs && Before(s, actions, jobs[k], jobs[i]);
    }
  }

  lemma Listed(s: State, j: Job)
    requires Waiting(s)
    ensures j in s.pending <==> At(s, j, Pending)
  {
    assert multiset(s.pending)[j] == if At(s, j, Pending) then 1 else 0;
  }

  /** The list after the job of the step entered it. */
  lemma EnteredInTurn(s: State, actions: seq<Action>, a: Action)
    requires s == Run(EMPTY, actions) && Inv(s) && InTurn(s, actions, s.pending) && Enters(s, a, a.j)
    ensures InTurn(Entered(s, a.j), actions + [a], Entered(s, a.j).pending)
  {
    Listed(s, a.j);
    StaysInTurn(s, s, actions, a, s.pending);
    EntersInTurn(s, actions, a, s.pending, a.j);
    SamePriorities(s, Entered(s, a.j), actions + [a], Entered(s, a.j).pending);
  }

  lemma StepInTurn(s: State, actions: seq<Action>, a: Action)
    requires s == Run(EMPTY, actions) && Inv(s) && InTurn(s, actions, s.pending)
    ensures InTurn(Step(s, a), actions + [a], Step(s, a).pending)
  {
    var s' := Step(s, a);
    if Enters(s, a, a.j) {
      EnteredInTurn(s, actions, a);
      var t := Entered(s, a.j);
      if a.Requeue? {
        EnterWaits(s, a.j);
        if t.pending != [] {
          AllInTurnFront(t, actions + [a], t.pending);
          SamePriorities(t, s', actions + [a], s'.pending);
        }
      }
    } else {
      OthersStay(s, a);
      if s'.pending == s.pending {
        StaysInTurn(s, s', actions, a, s.pending);
      } else {
        AllInTurnFront(s, actions, s.pending);
        StaysInTurn(s, s', actions, a, s'.pending);
      }
    }
  }

  /** A step with which nobody enters leaves the list or takes the back; priorities in it do not change. */
  lemma OthersStay(s: State, a: Action)
    requires Inv(s) && !Enters(s, a, a.j)
    ensures var s' := Step(s, a);
            && (s'.pending == s.pending || (s.pending != [] && s'.pending == s.pending[..|s.pending| - 1]))
            && forall j :: j in s.pending ==> !Enters(s, a, j) && PriorityOf(s', j) == PriorityOf(s, j)
  {
    forall j | j in s.pending ensures At(s, j, Pending) { Listed(s, j); }
    if a.Finish? {
      var t := if a.j in s.pcs && s.pcs[a.j].Finishing? then Goto(s, a.j, Calling(s.pcs[a.j].read)) else s;
      assert t.pending == s.pending && t.priority == s.priority && (Step(s, a) == PopBack(t) || Step(s, a) == s);
    } else if Step(s, a) != s {
      PlainStep(s, a);
      SamePriority(s, a);
    }
  }

  lemma SamePriority(s: State, a: Action)
    requires !a.Enqueue? && !a.Requeue? && !a.Finish?
    ensures forall j :: j in s.pcs ==> PriorityOf(Step(s, a), j) == PriorityOf(s, j)
  {
  }

  lemma {:induction false} RunInTurn(actions: seq<Action>)
    ensures var s := Run(EMPTY, actions); Inv(s) && InTurn(s, actions, s.pending)
    decreases |actions|
  {
    if actions == [] {
      EmptyOk();
    } else {
      var front, a := actions[..|actions| - 1], actions[|actions| - 1];
      assert actions == front + [a];
      RunInTurn(front);
      RunSnoc(EMPTY, front, a);
      StepInTurn(Run(EMPTY, front), front, a);
      StepKeeps(Run(EMPTY, front), a);
    }
  }

  // ---------------------------------------------------------------- who is taken out

  /** The step takes `k` out of the list: a job that waited there, or one that entered with the same step. */
  predicate TakesOut(s: State, a: Action, k: Job) {
    (At(s, k, Pending) || Enters(s, a, k)) && At(Step(s, a), k, Runnable)
  }

  /** What `PopBack` leaves: the back of the list is runnable, the others wait on. */
  lemma BackRuns(s: State)
    requires Waiting(s) && s.pending != []
    ensures var k := s.pending[|s.pending| - 1]; var s' := PopBack(s);
            && At(s, k, Pending) && s'.pcs == s.pcs[k := Runnable] && s'.pending == s.pending[..|s.pending| - 1]
            && forall m :: At(s', m, Pending) <==> At(s, m, Pending) && m != k
  {
    Listed(s, s.pending[|s.pending| - 1]);
  }

  /** Everybody who still waits stands before the back of the list. */
  lemma BackIsNext(s: State, actions: seq<Action>, m: Job)
    requires Waiting(s) && s.pending != [] && InTurn(s, actions, s.pending)
    requires At(s, m, Pending) && m != s.pending[|s.pending| - 1]
    ensures Before(s, actions, s.pending[|s.pending| - 1], m)
  {
    Listed(s, m);
    var i :| 0 <= i < |s.pending| && s.pending[i] == m;
  }

  /** The list from which the step takes somebody out, if it does. */
  function ListAt(s: State, a: Action): (t: State)
    requires Step(s, a) != s && (a.Finish? || a.Requeue?)
    ensures Step(s, a) == PopBack(t) && t.pcs == s.pcs[a.j := if a.Requeue? then Pending else Calling(s.pcs[a.j].read)]
  {
    if a.Requeue? then Entered(s, a.j) else Goto(s, a.j, Calling(s.pcs[a.j].read))
  }

  lemma ListAtOk(s: State, actions: seq<Action>, a: Action)
    requires s == Run(EMPTY, actions) && Inv(s) && InTurn(s, actions, s.pending)
    requires Step(s, a) != s && (a.Finish? || a.Requeue?)
    ensures var t := ListAt(s, a);
            && Waiting(t) && InTurn(t, actions + [a], t.pending) && t.priority == s.priority
            && forall m :: At(t, m, Pending) <==> At(s, m, Pending) || Enters(s, a, m)
  {
    if a.Requeue? {
      EnteredInTurn(s, actions, a);
      EnterWaits(s, a.j);
    } else {
      var t := ListAt(s, a);
      OthersStay(s, a);
      StaysInTurn(s, t, actions, a, s.pending);
      forall m ensures multiset(t.pending)[m] == if At(t, m, Pending) then 1 else 0 { assert multiset(s.pending)[m] == if At(s, m, Pending) then 1 else 0; }
    }
  }

  /** Only the two steps that look at the list take a job out of it. */
  lemma OnlyTwoTakeOut(s: State, a: Action, k: Job)
    requires TakesOut(s, a, k)
    ensures Step(s, a) != s && (a.Finish? || a.Requeue?)
  {
  }

  /**
   After every run, when a step takes a job out of the list, no job waits on that is more urgent, nor
   one that is as urgent and entered later.
   */
  lemma TakenIsNext(actions: seq<Action>, a: Action, k: Job)
    requires TakesOut(Run(EMPTY, actions), a, k)
    ensures var s' := Run(EMPTY, actions + [a]);
            forall m :: At(s', m, Pending) ==>
              PriorityOf(s', k) < PriorityOf(s', m)
              || (PriorityOf(s', k) == PriorityOf(s', m) && EntryOf(actions + [a], k) > EntryOf(actions + [a], m))
  {
    var s := Run(EMPTY, actions);
    RunSnoc(EMPTY, actions, a);
    RunInTurn(actions);
    OnlyTwoTakeOut(s, a, k);
    ListAtOk(s, actions, a);
    var s' := Step(s, a);
    forall m | At(s', m, Pending) ensures Before(s', actions + [a], k, m) { PoppedIsNext(ListAt(s, a), actions + [a], k, m); }
  }

  lemma PoppedIsNext(t: State, actions: seq<Action>, k: Job, m: Job)
    requires Waiting(t) && InTurn(t, actions, t.pending)
    requires At(t, k, Pending) && At(PopBack(t), k, Runnable) && At(PopBack(t), m, Pending)
    ensures Before(PopBack(t), actions, k, m)
  {
    Listed(t, k);
    BackRuns(t);
    BackIsNext(t, actions, m);
  }

  /** The jobs in the list. */
  ghost predicate Waits(s: State, a: Action, m: Job) {
    At(s, m, Pending) || Enters(s, a, m)
  }

  /** The step looks at the list, and there is somebody to take out. */
  ghost predicate LooksAtList(s: State, a: Action) {
    && ((a.Finish? && a.j in s.pcs && s.pcs[a.j].Finishing?) || (a.Requeue? && At(s, a.j, Retrying)))
    && exists m :: Waits(s, a, m)
  }

  /** Of those who wait, `k` alone becomes runnable; everybody else stays where he is. */
  ghost predicate TakesOnly(s: State, s': State, a: Action, k: Job) {
    && Waits(s, a, k) && At(s', k, Runnable)
    && (forall m :: At(s', m, Pending) <==> Waits(s, a, m) && m != k)
    && (forall m :: m != k && m != a.j ==> (m in s'.pcs <==> m in s.pcs) && (m in s.pcs ==> s'.pcs[m] == s.pcs[m]))
    && (a.Finish? ==> a.j in s.pcs && s.pcs[a.j].Finishing? && At(s', a.j, Calling(s.pcs[a.j].read)))
  }

  /** A job that ends or requeues itself takes out exactly one job, if there is one. */
  lemma TakesOutOne(actions: seq<Action>, a: Action) returns (k: Job)
    requires LooksAtList(Run(EMPTY, actions), a)
    ensures TakesOnly(Run(EMPTY, actions), Run(EMPTY, actions + [a]), a, k)
  {
    var s := Run(EMPTY, actions);
    RunSnoc(EMPTY, actions, a);
    RunInTurn(actions);
    k := OneTaken(s, actions, a);
  }

  lemma OneTaken(s: State, actions: seq<Action>, a: Action) returns (k: Job)
    requires s == Run(EMPTY, actions) && Inv(s) && InTurn(s, actions, s.pending) && LooksAtList(s, a)
    ensures TakesOnly(s, Step(s, a), a, k)
  {
    EndsOrEnters(s, a);
    ListAtOk(s, actions, a);
    k := OneOut(s, a, ListAt(s, a));
  }

  lemma OneOut(s: State, a: Action, t: State) returns (k: Job)
    requires Waiting(t) && Step(s, a) == PopBack(t) && LooksAtList(s, a)
    requires a.j in t.pcs && t.pcs == s.pcs[a.j := if a.Requeue? then Pending else Calling(s.pcs[a.j].read)]
    requires forall m :: At(t, m, Pending) <==> Waits(s, a, m)
    ensures TakesOnly(s, Step(s, a), a, k)
  {
    var m :| Waits(s, a, m);
    Listed(t, m);
    k := t.pending[|t.pending| - 1];
    BackRuns(t);
  }

  lemma EndsOrEnters(s: State, a: Action)
    requires (a.Finish? && a.j in s.pcs && s.pcs[a.j].Finishing?) || (a.Requeue? && At(s, a.j, Retrying) && Inv(s))
    ensures Step(s, a) != s
  {
    if a.Finish? {
      var t := Goto(s, a.j, Calling(s.pcs[a.j].read));
      assert Step(s, a) == PopBack(t);
      if t.pending != [] { assert !PopBack(t).pcs[a.j].Finishing?; }
    } else {
      var t := Entered(s, a.j);
      assert Step(s, a) == PopBack(t);
      EnterWaits(s, a.j);
      Listed(t, a.j);
      BackRuns(t);
    }
  }

  /** With nobody in the list, a job that ends changes nothing but its own place. */
  lemma TakesOutNone(actions: seq<Action>, j: Job)
    requires var s := Run(EMPTY, actions); j in s.pcs && s.pcs[j].Finishing? && forall m :: !At(s, m, Pending)
    ensures var s := Run(EMPTY, actions); Run(EMPTY, actions + [Finish(j)]) == s.(pcs := s.pcs[j := Calling(s.pcs[j].read)])
  {
    var s := Run(EMPTY, actions);
    RunSnoc(EMPTY, actions, Finish(j));
    RunInTurn(actions);
    if s.pending != [] { Listed(s, s.pending[0]); }
  }

  // ---------------------------------------------------------------- the way of one job

  /** A new job is let in if and only if there is a slot; the counter counts it either way. */
  lemma LetIn(s: State, j: Job, p: nat)
    requires j !in s.pcs
    ensures var s' := Run(s, [Submit(j, p), TryStart(j)]);
            && At(s', j, if s.counter < MAXIMUM then Admitted else Bumped)
            && s'.counter == s.counter + 1 && PriorityOf(s', j) == p && s'.pending == s.pending
            && Count(s'.admitted, j) == Count(s.admitted, j) + (if s.counter < MAXIMUM then 1 else 0)
            && s'.called == s.called && s'.released == s.released
  {
    RunTwo(s, Submit(j, p), TryStart(j));
    var t := Goto(s.(priority := s.priority[j := p]), j, Runnable);
    assert Step(s, Submit(j, p)) == t;
    Tries(t, j);
  }

  lemma Tries(s: State, j: Job)
    requires At(s, j, Runnable)
    ensures var s' := Step(s, TryStart(j));
            && At(s', j, if s.counter < MAXIMUM then Admitted else Bumped)
            && s'.counter == s.counter + 1 && s'.priority == s.priority && s'.pending == s.pending
            && Count(s'.admitted, j) == Count(s.admitted, j) + (if s.counter < MAXIMUM then 1 else 0)
            && s'.called == s.called && s'.released == s.released
  {
  }

  /** A job that is not let in waits in the list, and the counter is what it was. */
  lemma WaitsInList(s: State, j: Job)
    requires At(s, j, Bumped)
    ensures var s' := Run(s, [CountDown(j), Enqueue(j)]);
            At(s', j, Pending) && s'.counter == s.counter - 1 && forall m :: m != j ==> (At(s', m, Pending) <==> At(s, m, Pending))
  {
    RunTwo(s, CountDown(j), Enqueue(j));
    var t := Goto(s.(counter := s.counter - 1), j, Rejected);
    assert Step(s, CountDown(j)) == t;
  }

  /** A job with a slot reads and gives the slot back. */
  lemma ReadsFile(s: State, j: Job, read: bool)
    requires At(s, j, Admitted)
    ensures var s' := Run(s, [StartRead(j), ReadEnds(j, read)]);
            && At(s', j, Finishing(read)) && s'.counter == s.counter - 1 && s'.pending == s.pending
            && Count(s'.released, j) == Count(s.released, j) + 1 && s'.called == s.called && s'.admitted == s.admitted
  {
    RunTwo(s, StartRead(j), ReadEnds(j, read));
    var t := Goto(s, j, Reading);
    assert Step(s, StartRead(j)) == t;
  }

  lemma OpensBusy(s: State, j: Job)
    requires At(s, j, Admitted)
    ensures var t := Step(s, OpenBusy(j));
            At(t, j, Retrying) && t.counter == s.counter - 1 && Count(t.released, j) == Count(s.released, j) + 1 && t.called == s.called
  {
  }

  lemma Requeues(t: State, j: Job)
    requires At(t, j, Retrying) && Inv(t)
    ensures var s' := Step(t, Requeue(j));
            (At(s', j, Pending) || At(s', j, Runnable)) && s'.counter == t.counter && s'.released == t.released && s'.called == t.called
  {
    var u := Entered(t, j);
    EnterWaits(t, j);
    Listed(u, j);
    BackRuns(u);
    assert Step(t, Requeue(j)) == PopBack(u);
  }

  /** A job whose files run out gives the slot back; it waits in the list again, or is runnable if it goes first. */
  lemma TriesAgain(s: State, j: Job)
    requires At(s, j, Admitted) && Inv(s)
    ensures var s' := Run(s, [OpenBusy(j), Requeue(j)]);
            && (At(s', j, Pending) || At(s', j, Runnable)) && s'.counter == s.counter - 1
            && Count(s'.released, j) == Count(s.released, j) + 1 && s'.called == s.called
  {
    RunTwo(s, OpenBusy(j), Requeue(j));
    OpensBusy(s, j);
    StepKeeps(s, OpenBusy(j));
    Requeues(Step(s, OpenBusy(j)), j);
  }

  /** A job that is past reading calls back once, and again if it read without error; then it is done. */
  lemma CallsBack(s: State, j: Job, read: bool)
    requires At(s, j, Calling(read))
    ensures var s' := Run(s, if read then [CallBack(j), CallAgain(j)] else [CallBack(j)]);
            && At(s', j, Done) && Count(s'.called, j) == Count(s.called, j) + (if read then 2 else 1)
            && s'.counter == s.counter && s'.pending == s.pending && s'.released == s.released && s'.admitted == s.admitted
  {
    var t := Goto(Called(s, j), j, if read then CallingAgain else Done);
    assert Step(s, CallBack(j)) == t;
    if read {
      RunTwo(s, CallBack(j), CallAgain(j));
    } else {
      RunOne(s, CallBack(j));
    }
  }

  /** The job that ends goes on to call back, whoever it takes out of the list. */
  lemma Ends(s: State, j: Job)
    requires Inv(s) && j in s.pcs && s.pcs[j].Finishing?
    ensures var s' := Step(s, Finish(j));
            && At(s', j, Calling(s.pcs[j].read)) && s'.counter == s.counter && s'.called == s.called
            && s'.released == s.released && s'.admitted == s.admitted
  {
    var t := Goto(s, j, Calling(s.pcs[j].read));
    assert Step(s, Finish(j)) == PopBack(t);
    if t.pending != [] { Listed(s, t.pending[|t.pending| - 1]); }
  }

  /** All the steps of a job that gets a slot and whose read ends. */
  function Life(j: Job, p: nat, read: bool): seq<Action> {
    ([Submit(j, p), TryStart(j)] + [StartRead(j), ReadEnds(j, read)]) + ([Finish(j)] + if read then [CallBack(j), CallAgain(j)] else [CallBack(j)])
  }

  lemma LifeParts(s: State, j: Job, p: nat, read: bool)
    ensures var t := Run(s, [Submit(j, p), TryStart(j)]);
            var u := Run(t, [StartRead(j), ReadEnds(j, read)]);
            Run(s, Life(j, p, read)) == Run(Step(u, Finish(j)), if read then [CallBack(j), CallAgain(j)] else [CallBack(j)])
  {
    var calls := if read then [CallBack(j), CallAgain(j)] else [CallBack(j)];
    RunBoth(s, [Submit(j, p), TryStart(j)] + [StartRead(j), ReadEnds(j, read)], [Finish(j)] + calls);
    RunBoth(s, [Submit(j, p), TryStart(j)], [StartRead(j), ReadEnds(j, read)]);
    var u := Run(Run(s, [Submit(j, p), TryStart(j)]), [StartRead(j), ReadEnds(j, read)]);
    RunBoth(u, [Finish(j)], calls);
    RunOne(u, Finish(j));
  }

  lemma LifeFrom(s: State, j: Job, p: nat, read: bool)
    requires Inv(s) && j !in s.pcs && s.counter < MAXIMUM
    ensures var s' := Run(s, Life(j, p, read));
            && At(s', j, Done) && s'.counter == s.counter && Count(s'.called, j) == Count(s.called, j) + (if read then 2 else 1)
            && Count(s'.admitted, j) == Count(s.admitted, j) + 1 && Count(s'.released, j) == Count(s.released, j) + 1
  {
    LifeParts(s, j, p, read);
    LetIn(s, j, p);
    var t := Run(s, [Submit(j, p), TryStart(j)]);
    ReadsFile(t, j, read);
    RunKeeps(s, [Submit(j, p), TryStart(j)]);
    RunKeeps(t, [StartRead(j), ReadEnds(j, read)]);
    var u := Run(t, [StartRead(j), ReadEnds(j, read)]);
    Ends(u, j);
    CallsBack(Step(u, Finish(j)), j, read);
  }

  /**
   From every reachable state with a slot to spare, a new job that is not disturbed gets the slot, reads,
   gives the slot back, calls back and is done; the counter ends as it began.
   */
  lemma LifeOfAJob(actions: seq<Action>, j: Job, p: nat, read: bool)
    requires j !in Run(EMPTY, actions).pcs && Run(EMPTY, actions).counter < MAXIMUM
    ensures var s := Run(EMPTY, actions); var s' := Run(EMPTY, actions + Life(j, p, read));
            && At(s', j, Done) && s'.counter == s.counter
            && Count(s'.called, j) == (if read then 2 else 1) && Count(s'.admitted, j) == Count(s'.released, j) == 1
  {
    EmptyOk();
    RunKeeps(EMPTY, actions);
    RunBoth(EMPTY, actions, Life(j, p, read));
    var s := Run(EMPTY, actions);
    assert Balanced(s, j) && Told(s, j);
    NoSlotYet(actions, j);
    LifeFrom(s, j, p, read);
  }

  /** A job that has not been submitted was given nothing. */
  lemma {:induction false} NoSlotYet(actions: seq<Action>, j: Job)
    requires j !in Run(EMPTY, actions).pcs
    ensures Count(Run(EMPTY, actions).admitted, j) == 0
    decreases |actions|
  {
    if actions != [] {
      var front, a := actions[..|actions| - 1], actions[|actions| - 1];
      assert actions == front + [a];
      RunSnoc(EMPTY, front, a);
      var s := Run(EMPTY, front);
      StaysKnown(s, a, j);
      NoSlotYet(front, j);
    }
  }

  lemma StaysKnown(s: State, a: Action, j: Job)
    requires j !in Step(s, a).pcs
    ensures j !in s.pcs && Count(Step(s, a).admitted, j) == Count(s.admitted, j)
  {
  }
}
