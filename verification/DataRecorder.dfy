// DataRecorder: producers push into a queue, one worker writes it out, and the destructor asks the worker
// to stop. One action is one atomic step of one thread; actions that are not possible change nothing.
module DataRecorders {

  // Where the worker stands in Process().
  datatype Pc =
    | Top          // about to test `working_`
    | Acquiring    // about to lock, to look whether there is anything to wait for
    | Deciding     // lock held: test the queue, wait if it is empty
    | Waiting      // in cv_.wait, lock released
    | Reacquiring  // woken, about to lock again
    | Leaving      // lock held: about to unlock
    | Testing      // about to test the queue without the lock
    | Taking       // about to lock and pop
    | Writing      // holding one item, about to write it
    | Exited

  // `pushed`, `written` and `checkpoint` are the history: `checkpoint` is how many items had been pushed
  // when the worker last found the queue empty in Testing. `pending` counts notifications not yet sent.
  datatype State<T> = State(
    pc: Pc,
    working: bool,
    queue: seq<T>,
    inFlight: seq<T>,
    written: seq<T>,
    pushed: seq<T>,
    pending: nat,
    checkpoint: nat)

  datatype Action<T> =
    | Worker         // the worker takes its next step
    | Push(item: T)  // DataSink, critical section
    | Notify         // the notify_one that follows a push or the destructor's write
    | Destroy        // the destructor clears `working_`
    | Spurious       // the wait returns for no reason

  function Start<T>(): State<T> {
    State(Top, true, [], [], [], [], 0, 0)
  }

  predicate LockHeld<T>(s: State<T>) {
    s.pc.Deciding? || s.pc.Leaving?
  }

  function WorkerStep<T>(s: State<T>): State<T> {
    match s.pc
    case Top => s.(pc := if s.working then Acquiring else Exited)
    case Acquiring => s.(pc := Deciding)
    case Deciding => s.(pc := if s.queue == [] then Waiting else Leaving)
    case Waiting => s
    case Reacquiring => s.(pc := Leaving)
    case Leaving => s.(pc := Testing)
    case Testing => if s.queue == [] then s.(pc := Top, checkpoint := |s.pushed|) else s.(pc := Taking)
    case Taking =>
      if s.queue == [] then s else s.(pc := Writing, inFlight := [s.queue[0]], queue := s.queue[1..])
    case Writing => s.(pc := Testing, written := s.written + s.inFlight, inFlight := [])
    case Exited => s
  }

  // Nothing is pushed once destruction has begun.
  function Next<T>(s: State<T>, a: Action<T>): State<T> {
    match a
    case Worker => WorkerStep(s)
    case Push(item) =>
      if LockHeld(s) || !s.working then s
      else s.(queue := s.queue + [item], pushed := s.pushed + [item], pending := s.pending + 1)
    case Notify =>
      if s.pending == 0 then s
      else s.(pending := s.pending - 1, pc := if s.pc.Waiting? then Reacquiring else s.pc)
    case Destroy => if s.working then s.(working := false, pending := s.pending + 1) else s
    case Spurious => if s.pc.Waiting? then s.(pc := Reacquiring) else s
  }

  function Run<T>(acts: seq<Action<T>>): State<T> {
    if acts == [] then Start() else Next(Run(acts[..|acts| - 1]), acts[|acts| - 1])
  }

  // ---------------------------------------------------------------- safety

  predicate Inv<T(==)>(s: State<T>) {
    && s.pushed == s.written + s.inFlight + s.queue
    && s.checkpoint <= |s.pushed|
    && (s.pc.Taking? ==> s.queue != [])
    && (if s.pc.Writing? then |s.inFlight| == 1 else s.inFlight == [])
    && (s.pc.Testing? || s.pc.Taking? || s.pc.Writing? || s.written == s.pushed[..s.checkpoint])
    && (s.pc.Exited? ==> !s.working)
  }

  lemma WorkerKeepsInv<T>(s: State<T>)
    requires Inv(s)
    ensures Inv(WorkerStep(s))
  {
    if s.pc.Taking? {
      assert s.queue == [s.queue[0]] + s.queue[1..];
    } else if s.pc.Testing? && s.queue == [] {
      assert s.pushed[..|s.pushed|] == s.pushed;
    }
  }

  lemma NextKeepsInv<T>(s: State<T>, a: Action<T>)
    requires Inv(s)
    ensures Inv(Next(s, a))
  {
    match a
    case Worker => WorkerKeepsInv(s);
    case Push(item) =>
      assert (s.pushed + [item])[..s.checkpoint] == s.pushed[..s.checkpoint];
    case _ =>
  }

  // Under every interleaving: what was pushed is what was written, then what is in flight, then what is
  // queued, in order and once; the pop never meets an empty queue; and when the worker has exited it has
  // written exactly what had been pushed when it last found the queue empty.
  lemma {:induction false} RecorderIsFifo<T>(acts: seq<Action<T>>)
    ensures Inv(Run(acts))
    ensures var s := Run(acts);
            && s.pushed == s.written + s.inFlight + s.queue
            && (s.pc.Taking? ==> s.queue != [])
            && (s.pc.Exited? ==> s.written == s.pushed[..s.checkpoint])
  {
    if acts != [] {
      RecorderIsFifo(acts[..|acts| - 1]);
      NextKeepsInv(Run(acts[..|acts| - 1]), acts[|acts| - 1]);
    }
  }

  // ---------------------------------------------------------------- nothing is left waiting

  // A worker that waits with something queued has a notification to come.
  predicate WillWake<T(==)>(s: State<T>) {
    s.pc.Waiting? && s.queue != [] ==> 0 < s.pending
  }

  lemma {:induction false} WaitersWillWake<T>(acts: seq<Action<T>>)
    ensures WillWake(Run(acts))
  {
    if acts != [] {
      WaitersWillWake(acts[..|acts| - 1]);
    }
  }

  function Onward<T>(s: State<T>, acts: seq<Action<T>>): State<T>
    decreases |acts|
  {
    if acts == [] then s else Onward(Next(s, acts[0]), acts[1..])
  }

  predicate WorkOrNotify<T>(acts: seq<Action<T>>) {
    forall i :: 0 <= i < |acts| ==> acts[i].Worker? || acts[i].Notify?
  }

  // How far a worker with something to write is from having written it.
  function Distance(pc: Pc): nat {
    match pc
    case Writing => 0
    case Taking => 1
    case Testing => 2
    case Leaving => 3
    case Reacquiring => 4
    case Waiting => 5
    case Deciding => 6
    case Acquiring => 7
    case Top => 8
    case Exited => 9
  }

  lemma NextKeepsWillWake<T>(s: State<T>, a: Action<T>)
    requires Inv(s) && WillWake(s)
    ensures WillWake(Next(s, a))
  {
  }

  // From such a state the worker, helped by notifications that are due, writes everything pushed so far.
  lemma {:induction false} Flush<T>(s: State<T>) returns (acts: seq<Action<T>>)
    requires Inv(s) && WillWake(s) && s.working
    ensures WorkOrNotify(acts) && Onward(s, acts).written == s.pushed
    decreases |s.queue| + |s.inFlight|, Distance(s.pc)
  {
    if s.queue == [] && s.inFlight == [] {
      acts := [];
    } else {
      var a := if s.pc.Waiting? then Notify else Worker;
      NextKeepsInv(s, a);
      NextKeepsWillWake(s, a);
      var rest := Flush(Next(s, a));
      acts := [a] + rest;
      assert acts[1..] == rest;
    }
  }

  // In every reachable state before destruction, some sequence of worker steps and due notifications, without
  // a spurious wakeup, writes everything pushed so far.
  lemma EverythingCanBeWritten<T>(acts: seq<Action<T>>) returns (more: seq<Action<T>>)
    requires Run(acts).working
    ensures WorkOrNotify(more) && Onward(Run(acts), more).written == Run(acts).pushed
  {
    RecorderIsFifo(acts);
    WaitersWillWake(acts);
    more := Flush(Run(acts));
  }

  // ---------------------------------------------------------------- destruction

  function WorkerAlone<T>(s: State<T>, steps: nat): State<T>
    decreases steps
  {
    if steps == 0 then s else WorkerAlone(WorkerStep(s), steps - 1)
  }

  // Waiting, or on the way into a wait, with nothing queued and nobody left to notify.
  predicate Stranded<T(==)>(s: State<T>) {
    s.pc.Waiting? || (s.queue == [] && (s.pc.Acquiring? || s.pc.Deciding?))
  }

  // How far a worker that is asked to stop is from the next pop, or from its exit.
  function Rank(pc: Pc): nat {
    match pc
    case Exited => 0
    case Top => 1
    case Taking => 2
    case Testing => 3
    case Writing => 4
    case Leaving => 5
    case Reacquiring => 6
    case Deciding => 7
    case Acquiring => 8
    case Waiting => 9
  }

  // Once `working_` is cleared and all notifications are spent, only the worker moves. The destructor's
  // join then returns exactly when the worker is not stranded, and everything pushed has been written by
  // then exactly when the worker was past its test of `working_`, or nothing was left to write.
  lemma {:induction false} JoinReturnsIff<T>(s: State<T>)
    requires Inv(s) && !s.working && s.pending == 0
    ensures (exists steps :: WorkerAlone(s, steps).pc.Exited?) <==> !Stranded(s)
    ensures forall steps :: WorkerAlone(s, steps).pc.Exited?
              ==> (WorkerAlone(s, steps).written == s.pushed
                   <==> !(s.pc.Top? || s.pc.Exited?) || s.written == s.pushed)
  {
    if Stranded(s) {
      forall steps ensures !WorkerAlone(s, steps).pc.Exited? {
        StrandedStays(s, steps);
      }
    } else {
      var steps := Drain(s);
    }
    forall steps | WorkerAlone(s, steps).pc.Exited?
      ensures WorkerAlone(s, steps).written == s.pushed
              <==> !(s.pc.Top? || s.pc.Exited?) || s.written == s.pushed
    {
      WrittenAtExit(s, steps);
    }
  }

  lemma {:induction false} StrandedStays<T>(s: State<T>, steps: nat)
    requires Stranded(s)
    ensures !WorkerAlone(s, steps).pc.Exited?
    decreases steps
  {
    if steps != 0 {
      StrandedStays(WorkerStep(s), steps - 1);
    }
  }

  lemma {:induction false} Drain<T>(s: State<T>) returns (steps: nat)
    requires Inv(s) && !s.working && !Stranded(s)
    ensures WorkerAlone(s, steps).pc.Exited?
    decreases |s.queue|, Rank(s.pc)
  {
    if s.pc.Exited? {
      steps := 0;
    } else {
      WorkerKeepsInv(s);
      steps := Drain(WorkerStep(s));
      steps := steps + 1;
    }
  }

  lemma {:induction false} WrittenAtExit<T>(s: State<T>, steps: nat)
    requires Inv(s) && !s.working && WorkerAlone(s, steps).pc.Exited?
    ensures WorkerAlone(s, steps).written == if s.pc.Top? || s.pc.Exited? then s.written else s.pushed
    decreases steps
  {
    if steps != 0 {
      WorkerKeepsInv(s);
      WrittenAtExit(WorkerStep(s), steps - 1);
    }
  }

  // With a notification still to come the join can always return: the worker runs up to its wait, if that is
  // where it is going, is notified there, and runs on to its exit.
  lemma {:induction false} PendingNotificationFrees<T>(s: State<T>) returns (before: nat, after: nat)
    requires Inv(s) && !s.working && s.pending > 0
    ensures WorkerAlone(Next(WorkerAlone(s, before), Notify), after).pc.Exited?
  {
    if s.pc.Acquiring? && s.queue == [] {
      before := 2;
      assert WorkerAlone(s, 2) == WorkerAlone(WorkerStep(s), 1) == WorkerStep(WorkerStep(s));
      WorkerKeepsInv(WorkerStep(s));
    } else if s.pc.Deciding? && s.queue == [] {
      before := 1;
      assert WorkerAlone(s, 1) == WorkerStep(s);
    } else {
      before := 0;
    }
    NextKeepsInv(WorkerAlone(s, before), Notify);
    after := Drain(Next(WorkerAlone(s, before), Notify));
  }

  // A destructor that finds the worker waiting wakes it with its own notification, and the worker then writes
  // what there is and exits.
  lemma {:induction false} DestroyWakesWaiter<T>(acts: seq<Action<T>>) returns (steps: nat)
    requires Run(acts).working && Run(acts).pc.Waiting?
    ensures var s := WorkerAlone(Next(Next(Run(acts), Destroy), Notify), steps);
            s.pc.Exited? && s.written == Run(acts).pushed
  {
    RecorderIsFifo(acts);
    NextKeepsInv(Run(acts), Destroy);
    var s := Next(Next(Run(acts), Destroy), Notify);
    NextKeepsInv(Next(Run(acts), Destroy), Notify);
    steps := Drain(s);
    WrittenAtExit(s, steps);
  }

  // A destructor whose notification arrives between the worker's test of the queue and its wait is never
  // heard: no step of any thread but a spurious wakeup ends the wait.
  lemma DestructorMayHang<T>() returns (acts: seq<Action<T>>)
    ensures var s := Run(acts); Inv(s) && !s.working && s.pending == 0 && s.pc.Waiting?
    ensures forall a: Action<T> :: !a.Spurious? ==> Next(Run(acts), a) == Run(acts)
  {
    acts := [Worker];
    assert acts[..0] == [];
    acts := Extend(acts, Worker);
    acts := Extend(acts, Destroy);
    acts := Extend(acts, Notify);
    acts := Extend(acts, Worker);
    RecorderIsFifo(acts);
  }

  // An item pushed after the last emptiness test and before the destructor is lost.
  lemma LastItemMayBeLost<T>(item: T) returns (acts: seq<Action<T>>)
    ensures var s := Run(acts); s.pc.Exited? && s.pushed == [item] && s.written == []
  {
    acts := [Push(item)];
    assert acts[..0] == [];
    acts := Extend(acts, Destroy);
    acts := Extend(acts, Worker);
  }

  lemma Extend<T>(acts: seq<Action<T>>, a: Action<T>) returns (longer: seq<Action<T>>)
    ensures longer == acts + [a] && Run(longer) == Next(Run(acts), a)
  {
    longer := acts + [a];
    assert longer[..|longer| - 1] == acts;
  }
}
