// Logging in: LogInSync and the query it runs, LogInASync, and the callbacks of the trading front, step by
// step. Each callback is the list of single operations it performs; those lists run interleaved.
module Login {
  import opened QueryManager

  datatype Status =
    | Uninitialized
    | Initializing
    | Disconnected
    | Connecting
    | Connected
    | Authorizing
    | Authorized
    | Logining
    | LoggedIn
    | Confirming
    | Confirmed
    | Done
    | LoggingOut
    | LoggedOut

  datatype Request = Authenticate | UserLogin | Settlement

  datatype Op =
    | SetStatus(status: Status)
    | Send(request: Request)
    | WriteDone(success: bool)  // first half of log_in_query_manager_.done
    | NotifyDone                // second half

  // LogInSync after its first test.
  datatype Main = Querying | Judging(result: Condition) | InitialQueries | Thrown

  // Requests the front has not answered yet, on the current connection.
  datatype Open = Open(authenticate: nat, userLogin: nat, settlement: nat)

  // `func` is what is left of LogInASync in the querying thread, `entered` whether this attempt has read the
  // login status, `spi` what is left of the running callback. `loggedIn` and `settled` count the successful
  // login and settlement answers since LogInSync began.
  datatype State = State(
    main: Main,
    query: Query,
    entered: bool,
    func: seq<Op>,
    spi: seq<Op>,
    status: Status,
    api: bool,
    open: Open,
    loggedIn: nat,
    settled: nat)

  datatype Step =
    | QueryStep(action: Action)           // the querying thread inside query(): Advance, TimeOut or Spurious
    | EnterLogInASync(sent: bool)         // func_ starts; `sent` says whether a request it posts goes out
    | FuncStep                            // its next operation
    | SpiStep                             // the next operation of the running callback
    | FrontConnected(sent: bool)
    | RspAuthenticate(ok: bool, sent: bool)
    | RspUserLogin(ok: bool, sent: bool)
    | RspSettlementInfoConfirm(ok: bool)
    | MainStep                            // LogInSync itself

  // ---------------------------------------------------------------- what callbacks do

  const FAILURE: seq<Op> := [WriteDone(false), NotifyDone]

  function SendOrFail(request: Request, sent: bool): seq<Op> {
    if sent then [Send(request)] else FAILURE
  }

  function PostingLoginRequest(sent: bool): seq<Op> {
    SendOrFail(UserLogin, sent) + [SetStatus(Logining)]
  }

  function LogInASync(status: Status, api: bool, sent: bool): seq<Op> {
    if status.Done? then []
    else if !api then [SetStatus(Connecting)]
    else PostingLoginRequest(sent)
  }

  function OnFrontConnected(status: Status, sent: bool): seq<Op> {
    if status.LoggingOut? || status.LoggedOut? then []
    else [SetStatus(Connected)] + SendOrFail(Authenticate, sent) + [SetStatus(Authorizing)]
  }

  function OnRspAuthenticate(ok: bool, sent: bool): seq<Op> {
    if ok then [SetStatus(Authorized)] + PostingLoginRequest(sent) else FAILURE
  }

  function OnRspUserLogin(ok: bool, sent: bool): seq<Op> {
    if ok then SendOrFail(Settlement, sent) + [SetStatus(LoggedIn)] else FAILURE
  }

  function OnRspSettlementInfoConfirm(ok: bool): seq<Op> {
    if ok then [SetStatus(Done), WriteDone(true), NotifyDone] else FAILURE
  }

  // ---------------------------------------------------------------- steps

  function Perform(loop: Loop, s: State, op: Op): State {
    match op
    case SetStatus(status) => s.(status := status)
    case Send(Authenticate) => s.(open := s.open.(authenticate := s.open.authenticate + 1))
    case Send(UserLogin) => s.(open := s.open.(userLogin := s.open.userLogin + 1))
    case Send(Settlement) => s.(open := s.open.(settlement := s.open.settlement + 1))
    case WriteDone(success) => s.(query := QueryManager.Next(loop, s.query, DoneWrite(success)))
    case NotifyDone => s.(query := QueryManager.Next(loop, s.query, Notify))
  }

  function QueryStepped(loop: Loop, s: State, a: Action): State {
    if a.DoneWrite? || a.Notify? || !s.main.Querying? then s
    else if s.query.pc.Calling? && a.Advance? then
      if s.entered && s.func == [] then s.(query := QueryManager.Next(loop, s.query, a), entered := false) else s
    else s.(query := QueryManager.Next(loop, s.query, a))
  }

  // After the query: a result other than Success is looked into, and passes when the status is Done.
  function MainStepped(s: State): State {
    match s.main
    case Querying => if s.query.pc.Returned? then s.(main := Judging(s.query.pc.result)) else s
    case Judging(result) =>
      if result.Success? then s.(main := InitialQueries)
      else if result.Timeout? then s.(main := Thrown)
      else if s.status.Done? then s.(main := InitialQueries)
      else s.(main := Thrown)
    case _ => s
  }

  // One callback at a time; the front answers only requests that are open; a new connection drops them.
  function Next(loop: Loop, s: State, step: Step): State {
    match step
    case QueryStep(a) => QueryStepped(loop, s, a)
    case EnterLogInASync(sent) =>
      if s.query.pc.Calling? && !s.entered then
        s.(entered := true, func := LogInASync(s.status, s.api, sent), api := s.api || !s.status.Done?)
      else s
    case FuncStep => if s.func == [] then s else Perform(loop, s.(func := s.func[1..]), s.func[0])
    case SpiStep => if s.spi == [] then s else Perform(loop, s.(spi := s.spi[1..]), s.spi[0])
    case FrontConnected(sent) =>
      if s.spi != [] || !s.api then s
      else s.(spi := OnFrontConnected(s.status, sent), open := Open(0, 0, 0))
    case RspAuthenticate(ok, sent) =>
      if s.spi != [] || s.open.authenticate == 0 then s
      else s.(spi := OnRspAuthenticate(ok, sent), open := s.open.(authenticate := s.open.authenticate - 1))
    case RspUserLogin(ok, sent) =>
      if s.spi != [] || s.open.userLogin == 0 then s
      else s.(spi := OnRspUserLogin(ok, sent), open := s.open.(userLogin := s.open.userLogin - 1),
              loggedIn := s.loggedIn + if ok then 1 else 0)
    case RspSettlementInfoConfirm(ok) =>
      if s.spi != [] || s.open.settlement == 0 then s
      else s.(spi := OnRspSettlementInfoConfirm(ok), open := s.open.(settlement := s.open.settlement - 1),
              settled := s.settled + if ok then 1 else 0)
    case MainStep => MainStepped(s)
  }

  // LogInSync has just found the account not logged in. The front may still have requests to answer, from an
  // earlier connection or an earlier LogInASync, and `spi` is what is left of a callback that is running.
  function Begin(stale: Condition, status: Status, api: bool, open: Open, spi: seq<Op>): State {
    State(Querying, QueryManager.Start(stale), false, [], spi, status, api, open, 0, 0)
  }

  function Run(loop: Loop, begin: State, steps: seq<Step>): State {
    if steps == [] then begin else Next(loop, Run(loop, begin, steps[..|steps| - 1]), steps[|steps| - 1])
  }

  // ---------------------------------------------------------------- soundness

  // What the start already holds of a success: a status Done still to be written, an answer still to be
  // given, a settlement request that is out or about to go out.
  datatype Head = Head(done: bool, answer: bool, login: bool)

  function HeadOf(open: Open, spi: seq<Op>): Head {
    Head(SetStatus(Done) in spi, WriteDone(true) in spi, 0 < open.settlement || Send(Settlement) in spi)
  }

  // What operations still to come may claim: a success only after a settlement answer, a settlement
  // request only after a login answer, unless the start held it.
  predicate Backed(head: Head, ops: seq<Op>, loggedIn: nat, settled: nat) {
    && (SetStatus(Done) in ops ==> head.done || 0 < settled)
    && (WriteDone(true) in ops ==> head.answer || 0 < settled)
    && (Send(Settlement) in ops ==> head.login || 0 < loggedIn)
  }

  predicate Sound(loop: Loop, head: Head, s: State) {
    && QueryManager.Inv(loop, s.query)
    && Backed(head, s.func, s.loggedIn, s.settled) && Backed(head, s.spi, s.loggedIn, s.settled)
    && (0 < s.open.settlement ==> head.login || 0 < s.loggedIn)
    && (0 < s.settled ==> head.login || 0 < s.loggedIn)
    && (s.status.Done? ==> head.done || 0 < s.settled)
    && (true in s.query.since ==> head.answer || 0 < s.settled)
    && (s.main == Judging(Success) ==> head.answer || 0 < s.settled)
    && (s.main.InitialQueries? ==> head.answer || head.done || 0 < s.settled)
  }

  lemma SinceGrowsBy(loop: Loop, q: Query, a: Action)
    ensures true in QueryManager.Next(loop, q, a).since ==> true in q.since || a == DoneWrite(true)
  {
    if a.DoneWrite? {
      assert forall b :: b in q.since + [a.success] ==> b in q.since || b == a.success;
    }
  }

  lemma PerformKeepsSound(loop: Loop, head: Head, s: State, op: Op)
    requires Sound(loop, head, s) && Backed(head, [op], s.loggedIn, s.settled)
    ensures Sound(loop, head, Perform(loop, s, op))
  {
    assert op in [op];
    if op.WriteDone? {
      QueryManager.NextKeepsInv(loop, s.query, DoneWrite(op.success));
      SinceGrowsBy(loop, s.query, DoneWrite(op.success));
    } else if op.NotifyDone? {
      QueryManager.NextKeepsInv(loop, s.query, Notify);
      SinceGrowsBy(loop, s.query, Notify);
    }
    hide QueryManager.Inv, Backed;
  }

  lemma TailIsBacked(head: Head, ops: seq<Op>, loggedIn: nat, settled: nat)
    requires ops != [] && Backed(head, ops, loggedIn, settled)
    ensures Backed(head, ops[1..], loggedIn, settled) && Backed(head, [ops[0]], loggedIn, settled)
  {
    assert forall op :: op in ops[1..] ==> op in ops;
    assert forall op :: op in [ops[0]] ==> op in ops;
  }

  lemma CallbacksAreBacked(head: Head, status: Status, api: bool, ok: bool, sent: bool, loggedIn: nat, settled: nat)
    ensures Backed(head, LogInASync(status, api, sent), loggedIn, settled)
    ensures Backed(head, OnFrontConnected(status, sent), loggedIn, settled)
    ensures Backed(head, OnRspAuthenticate(ok, sent), loggedIn, settled)
    ensures ok ==> 0 < loggedIn ==> Backed(head, OnRspUserLogin(ok, sent), loggedIn, settled)
    ensures !ok ==> Backed(head, OnRspUserLogin(ok, sent), loggedIn, settled)
    ensures ok ==> 0 < settled ==> Backed(head, OnRspSettlementInfoConfirm(ok), loggedIn, settled)
    ensures !ok ==> Backed(head, OnRspSettlementInfoConfirm(ok), loggedIn, settled)
  {
  }

  lemma BackedStays(head: Head, ops: seq<Op>, loggedIn: nat, settled: nat, loggedIn': nat, settled': nat)
    requires Backed(head, ops, loggedIn, settled) && loggedIn <= loggedIn' && settled <= settled'
    ensures Backed(head, ops, loggedIn', settled')
  {
  }

  lemma QueryStepKeepsSound(loop: Loop, head: Head, s: State, a: Action)
    requires Sound(loop, head, s)
    ensures Sound(loop, head, QueryStepped(loop, s, a))
  {
    QueryManager.NextKeepsInv(loop, s.query, a);
    SinceGrowsBy(loop, s.query, a);
    hide QueryManager.Inv, Backed, QueryManager.Next;
  }

  // A query that returns Success has seen `done(true)` in its latest attempt.
  lemma MainStepKeepsSound(loop: Loop, head: Head, s: State)
    requires Sound(loop, head, s)
    requires s.query.pc.Returned? ==> 0 < s.query.attempts
    ensures Sound(loop, head, MainStepped(s))
  {
    hide Backed;
  }

  // The start of a callback.
  lemma CallbackKeepsSound(loop: Loop, head: Head, s: State, step: Step)
    requires Sound(loop, head, s)
    requires step.FrontConnected? || step.RspAuthenticate? || step.RspUserLogin? || step.RspSettlementInfoConfirm?
    ensures Sound(loop, head, Next(loop, s, step))
  {
    hide QueryManager.Inv, Backed, LogInASync, OnFrontConnected, OnRspAuthenticate, OnRspUserLogin,
      OnRspSettlementInfoConfirm;
    match step
    case FrontConnected(sent) => CallbacksAreBacked(head, s.status, s.api, true, sent, s.loggedIn, s.settled);
    case RspAuthenticate(ok, sent) => CallbacksAreBacked(head, s.status, s.api, ok, sent, s.loggedIn, s.settled);
    case RspUserLogin(ok, sent) =>
      CallbacksAreBacked(head, s.status, s.api, ok, sent, s.loggedIn + 1, s.settled);
      CallbacksAreBacked(head, s.status, s.api, ok, sent, s.loggedIn, s.settled);
      BackedStays(head, s.func, s.loggedIn, s.settled, s.loggedIn + 1, s.settled);
    case RspSettlementInfoConfirm(ok) =>
      CallbacksAreBacked(head, s.status, s.api, ok, true, s.loggedIn, s.settled + 1);
      CallbacksAreBacked(head, s.status, s.api, ok, true, s.loggedIn, s.settled);
      BackedStays(head, s.func, s.loggedIn, s.settled, s.loggedIn, s.settled + 1);
  }

  // The next operation of LogInASync, or of the running callback.
  lemma OperationKeepsSound(loop: Loop, head: Head, s: State, step: Step)
    requires Sound(loop, head, s) && (step.FuncStep? || step.SpiStep?)
    ensures Sound(loop, head, Next(loop, s, step))
  {
    hide QueryManager.Inv, Backed, Perform;
    if step.FuncStep? && s.func != [] {
      TailIsBacked(head, s.func, s.loggedIn, s.settled);
      PerformKeepsSound(loop, head, s.(func := s.func[1..]), s.func[0]);
    } else if step.SpiStep? && s.spi != [] {
      TailIsBacked(head, s.spi, s.loggedIn, s.settled);
      PerformKeepsSound(loop, head, s.(spi := s.spi[1..]), s.spi[0]);
    }
  }

  lemma EnterKeepsSound(loop: Loop, head: Head, s: State, sent: bool)
    requires Sound(loop, head, s)
    ensures Sound(loop, head, Next(loop, s, EnterLogInASync(sent)))
  {
    hide QueryManager.Inv, Backed, LogInASync;
    CallbacksAreBacked(head, s.status, s.api, true, sent, s.loggedIn, s.settled);
  }

  lemma NextKeepsSound(loop: Loop, head: Head, s: State, step: Step)
    requires Sound(loop, head, s)
    requires s.query.pc.Returned? ==> 0 < s.query.attempts
    ensures Sound(loop, head, Next(loop, s, step))
  {
    match step
    case QueryStep(a) => QueryStepKeepsSound(loop, head, s, a); hide Sound, QueryStepped;
    case EnterLogInASync(sent) => EnterKeepsSound(loop, head, s, sent); hide Sound, Next;
    case MainStep => MainStepKeepsSound(loop, head, s); hide Sound, MainStepped;
    case FuncStep => OperationKeepsSound(loop, head, s, step); hide Sound, Next;
    case SpiStep => OperationKeepsSound(loop, head, s, step); hide Sound, Next;
    case _ => CallbackKeepsSound(loop, head, s, step); hide Sound, Next;
  }

  // Once the loop has an attempt to make, nothing is returned before one is made.
  predicate Attempted(loop: Loop, s: State) {
    && QueryManager.Inv(loop, s.query)
    && (s.query.pc.Returned? || s.query.pc.FinalFetch? ==> 0 < s.query.attempts)
  }

  lemma QueryKeepsAttempted(loop: Loop, q: Query, a: Action)
    requires QueryManager.Inv(loop, q) && loop != Bounded(0)
    requires q.pc.Returned? || q.pc.FinalFetch? ==> 0 < q.attempts
    ensures var next := QueryManager.Next(loop, q, a);
            next.pc.Returned? || next.pc.FinalFetch? ==> 0 < next.attempts
  {
  }

  lemma NextKeepsAttempted(loop: Loop, s: State, step: Step)
    requires Attempted(loop, s) && loop != Bounded(0)
    ensures Attempted(loop, Next(loop, s, step))
  {
    forall a {:trigger QueryManager.Next(loop, s.query, a)}
      ensures QueryManager.Inv(loop, QueryManager.Next(loop, s.query, a))
      ensures var next := QueryManager.Next(loop, s.query, a);
              next.pc.Returned? || next.pc.FinalFetch? ==> 0 < next.attempts
    {
      QueryManager.NextKeepsInv(loop, s.query, a);
      QueryKeepsAttempted(loop, s.query, a);
    }
    hide QueryManager.Next, QueryManager.Inv, LogInASync, OnFrontConnected, OnRspAuthenticate, OnRspUserLogin,
      OnRspSettlementInfoConfirm;
  }

  lemma {:induction false} RunStaysSound(loop: Loop, stale: Condition, status: Status, api: bool, open: Open, spi: seq<Op>,
                                         steps: seq<Step>)
    requires loop != Bounded(0) && status != Done
    ensures Sound(loop, HeadOf(open, spi), Run(loop, Begin(stale, status, api, open, spi), steps))
    ensures Attempted(loop, Run(loop, Begin(stale, status, api, open, spi), steps))
  {
    if steps != [] {
      RunStaysSound(loop, stale, status, api, open, spi, steps[..|steps| - 1]);
      var s := Run(loop, Begin(stale, status, api, open, spi), steps[..|steps| - 1]);
      assert s.query.pc.Returned? ==> 0 < s.query.attempts;
      hide Sound, Attempted, Next, HeadOf;
      NextKeepsSound(loop, HeadOf(open, spi), s, steps[|steps| - 1]);
      NextKeepsAttempted(loop, s, steps[|steps| - 1]);
    }
  }

  // A running callback that is about to report success on its own account.
  predicate HoldsSuccess(spi: seq<Op>) {
    SetStatus(Done) in spi || WriteDone(true) in spi
  }

  predicate HoldsLogin(open: Open, spi: seq<Op>) {
    0 < open.settlement || Send(Settlement) in spi
  }

  // From any state that is not logged in, whatever requests are open and whatever callback is running short
  // of one that already holds the success, and under every interleaving of the querying thread with the
  // callbacks: LogInSync reaches its initial queries, and the status becomes Done, only after a settlement
  // confirmation has succeeded since it began - and a login, unless the settlement request was out before.
  lemma LoginIsSound(loop: Loop, stale: Condition, status: Status, api: bool, open: Open, spi: seq<Op>, steps: seq<Step>)
    requires loop != Bounded(0) && status != Done && !HoldsSuccess(spi)
    ensures var s := Run(loop, Begin(stale, status, api, open, spi), steps);
            s.main.InitialQueries? || s.status.Done? ==> 0 < s.settled && (0 < s.loggedIn || HoldsLogin(open, spi))
  {
    RunStaysSound(loop, stale, status, api, open, spi, steps);
  }

  // ---------------------------------------------------------------- building runs

  predicate NoReconnect(steps: seq<Step>) {
    forall i :: 0 <= i < |steps| ==> !steps[i].FrontConnected?
  }

  // Some run without a new connection leads there.
  ghost predicate Reaches(loop: Loop, begin: State, to: State) {
    exists steps :: NoReconnect(steps) && Run(loop, begin, steps) == to
  }

  lemma Here(loop: Loop, begin: State)
    ensures Reaches(loop, begin, begin)
  {
    assert NoReconnect([]) && Run(loop, begin, []) == begin;
  }

  lemma Onward(loop: Loop, begin: State, s: State, step: Step)
    requires Reaches(loop, begin, s) && !step.FrontConnected?
    ensures Reaches(loop, begin, Next(loop, s, step))
  {
    var steps :| NoReconnect(steps) && Run(loop, begin, steps) == s;
    var longer := steps + [step];
    assert longer[..|longer| - 1] == steps;
    hide Next;
    assert NoReconnect(longer) && Run(loop, begin, longer) == Next(loop, s, step);
  }

  lemma RunTo(loop: Loop, begin: State, t: State) returns (steps: seq<Step>)
    requires Reaches(loop, begin, t)
    ensures NoReconnect(steps) && Run(loop, begin, steps) == t
  {
    steps :| NoReconnect(steps) && Run(loop, begin, steps) == t;
  }

  function Count(open: Open, request: Request): nat {
    match request
    case Authenticate => open.authenticate
    case UserLogin => open.userLogin
    case Settlement => open.settlement
  }

  lemma PerformsOne(loop: Loop, s: State, op: Op)
    ensures var t := Perform(loop, s, op);
            && t == s.(status := t.status, open := t.open, query := t.query)
            && (!s.query.pc.Waiting? ==> t.query.pc == s.query.pc && t.query.attempts == s.query.attempts)
            && (forall r :: Count(t.open, r) >= Count(s.open, r))
            && (op.Send? ==> 0 < Count(t.open, op.request))
            && (op.SetStatus? || t.status == s.status) && (op.SetStatus? ==> t.status == op.status)
  {
  }

  // The running callback gets `n` operations further.
  lemma {:induction false} SpiRuns(loop: Loop, begin: State, s: State, n: nat) returns (t: State)
    requires Reaches(loop, begin, s) && n <= |s.spi|
    ensures Reaches(loop, begin, t)
    ensures t == s.(spi := s.spi[n..], status := t.status, open := t.open, query := t.query)
    ensures !s.query.pc.Waiting? ==> t.query.pc == s.query.pc && t.query.attempts == s.query.attempts
    ensures forall r :: Count(t.open, r) >= Count(s.open, r)
    ensures forall i :: 0 <= i < n && s.spi[i].Send? ==> 0 < Count(t.open, s.spi[i].request)
    ensures (forall i :: 0 <= i < n ==> s.spi[i].SetStatus? ==> s.spi[i].status == s.status) ==> t.status == s.status
    decreases n
  {
    if n == 0 {
      t := s;
    } else {
      Onward(loop, begin, s, SpiStep);
      var mid := Next(loop, s, SpiStep);
      assert mid == Perform(loop, s.(spi := s.spi[1..]), s.spi[0]);
      PerformsOne(loop, s.(spi := s.spi[1..]), s.spi[0]);
      hide Reaches, Next, Perform;
      t := SpiRuns(loop, begin, mid, n - 1);
      assert forall i :: 1 <= i < n ==> s.spi[i] == mid.spi[i - 1];
    }
  }

  // LogInASync gets `n` operations further in the querying thread.
  lemma {:induction false} FuncRuns(loop: Loop, begin: State, s: State, n: nat) returns (t: State)
    requires Reaches(loop, begin, s) && n <= |s.func|
    ensures Reaches(loop, begin, t)
    ensures t == s.(func := s.func[n..], status := t.status, open := t.open, query := t.query)
    ensures !s.query.pc.Waiting? ==> t.query.pc == s.query.pc && t.query.attempts == s.query.attempts
    ensures forall r :: Count(t.open, r) >= Count(s.open, r)
    ensures forall i :: 0 <= i < n && s.func[i].Send? ==> 0 < Count(t.open, s.func[i].request)
    ensures (forall i :: 0 <= i < n ==> s.func[i].SetStatus? ==> s.func[i].status == s.status) ==> t.status == s.status
    decreases n
  {
    if n == 0 {
      t := s;
    } else {
      Onward(loop, begin, s, FuncStep);
      var mid := Next(loop, s, FuncStep);
      assert mid == Perform(loop, s.(func := s.func[1..]), s.func[0]);
      PerformsOne(loop, s.(func := s.func[1..]), s.func[0]);
      hide Reaches, Next, Perform;
      t := FuncRuns(loop, begin, mid, n - 1);
      assert forall i :: 1 <= i < n ==> s.func[i] == mid.func[i - 1];
    }
  }

  // The query has its success, or LogInSync will find the status Done when it looks into another result.
  predicate Passing(s: State) {
    match s.query.pc
    case Waiting => s.query.condition.Success?
    case Woken(timedOut) => !timedOut && s.query.condition.Success?
    case Test => s.query.condition.Success?
    case Fetch => s.query.condition.Success? || (s.query.condition.Failed? && s.status.Done?)
    case Returned(result) => result.Success? || (result.Failed? && s.status.Done?)
    case _ => false
  }

  function StepsToGo(pc: Pc): nat {
    match pc
    case Waiting => 4
    case Woken(_) => 3
    case Test => 2
    case Fetch => 1
    case _ => 0
  }

  lemma {:induction false} Passes(loop: Loop, begin: State, s: State) returns (t: State)
    requires Reaches(loop, begin, s) && s.main.Querying? && Passing(s)
    ensures Reaches(loop, begin, t) && t == s.(main := InitialQueries, query := t.query)
    ensures t.query.attempts == s.query.attempts
    decreases StepsToGo(s.query.pc)
  {
    if s.query.pc.Returned? {
      t := Next(loop, s, MainStep);
      Onward(loop, begin, s, MainStep);
      Onward(loop, begin, t, MainStep);
      t := Next(loop, t, MainStep);
    } else {
      var step := QueryStep(if s.query.pc.Waiting? then Spurious else Advance);
      Onward(loop, begin, s, step);
      hide Reaches;
      t := Passes(loop, begin, Next(loop, s, step));
    }
  }

  // ---------------------------------------------------------------- exactly which starts are safe

  // An attempt is marked, makes its call and waits.
  lemma AttemptWaits(loop: Loop, begin: State, s: State) returns (t: State)
    requires Reaches(loop, begin, s) && loop != Bounded(0)
    requires s.main.Querying? && s.query.pc.Check? && s.query.attempts == 0 && !s.entered && s.func == []
    ensures Reaches(loop, begin, t)
    ensures t.main.Querying? && t.query.pc.Waiting? && t.spi == s.spi && t.settled == s.settled
  {
    t := AttemptCalls(loop, begin, s);
    var calling := t;
    Onward(loop, begin, t, EnterLogInASync(true));
    t := Next(loop, t, EnterLogInASync(true));
    t := FuncRuns(loop, begin, t, |t.func|);
    Onward(loop, begin, t, QueryStep(Advance));
    t := Next(loop, t, QueryStep(Advance));
    hide Reaches, LogInASync;
  }

  lemma AttemptCalls(loop: Loop, begin: State, s: State) returns (t: State)
    requires Reaches(loop, begin, s) && loop != Bounded(0)
    requires s.main.Querying? && s.query.pc.Check? && s.query.attempts == 0
    ensures Reaches(loop, begin, t)
    ensures t == s.(query := Query(Calling, OnGoing, 1, [], 0))
  {
    Onward(loop, begin, s, QueryStep(Advance));
    t := Next(loop, s, QueryStep(Advance));
    Onward(loop, begin, t, QueryStep(Advance));
    t := Next(loop, t, QueryStep(Advance));
    hide Reaches;
  }

  // A callback that holds the answer gives it to the first attempt.
  lemma HeldAnswerPasses(loop: Loop, begin: State) returns (t: State)
    requires loop != Bounded(0) && begin.main.Querying? && begin.query.pc.Check? && begin.query.attempts == 0
    requires !begin.entered && begin.func == [] && WriteDone(true) in begin.spi
    ensures Reaches(loop, begin, t) && t.main.InitialQueries? && t.settled == begin.settled
  {
    Here(loop, begin);
    var n :| 0 <= n < |begin.spi| && begin.spi[n] == WriteDone(true);
    t := SpiRuns(loop, begin, begin, n);
    t := AttemptWaits(loop, begin, t);
    assert t.spi[0] == WriteDone(true);
    Onward(loop, begin, t, SpiStep);
    t := Next(loop, t, SpiStep);
    hide Reaches;
    t := Passes(loop, begin, t);
  }

  // A callback that holds the status writes it.
  lemma HeldStatusIsWritten(loop: Loop, begin: State) returns (t: State)
    requires begin.query.pc.Check? && SetStatus(Done) in begin.spi
    ensures Reaches(loop, begin, t) && t.status.Done? && t.settled == begin.settled
  {
    Here(loop, begin);
    var n :| 0 <= n < |begin.spi| && begin.spi[n] == SetStatus(Done);
    t := SpiRuns(loop, begin, begin, n);
    assert t.spi[0] == SetStatus(Done);
    Onward(loop, begin, t, SpiStep);
    t := Next(loop, t, SpiStep);
  }

  // A settlement request that is out, or about to go out, can be answered without a login.
  lemma HeldSettlementAnswered(loop: Loop, begin: State) returns (t: State)
    requires begin.query.pc.Check? && HoldsLogin(begin.open, begin.spi)
    ensures Reaches(loop, begin, t) && t.status.Done? && t.loggedIn == begin.loggedIn
  {
    Here(loop, begin);
    t := SpiRuns(loop, begin, begin, |begin.spi|);
    assert 0 < Count(t.open, Settlement) by {
      if Send(Settlement) in begin.spi {
        var i :| 0 <= i < |begin.spi| && begin.spi[i] == Send(Settlement);
      } else {
        assert 0 < Count(begin.open, Settlement);
      }
    }
    Onward(loop, begin, t, RspSettlementInfoConfirm(true));
    t := Next(loop, t, RspSettlementInfoConfirm(true));
    Onward(loop, begin, t, SpiStep);
    t := Next(loop, t, SpiStep);
  }

  // Every run from a start is sound exactly when the running callback does not hold the success already.
  lemma {:induction false} LoginSoundIff(loop: Loop, stale: Condition, status: Status, api: bool, open: Open, spi: seq<Op>)
    requires loop != Bounded(0) && status != Done
    ensures (forall steps :: var s := Run(loop, Begin(stale, status, api, open, spi), steps);
                             s.main.InitialQueries? || s.status.Done? ==> 0 < s.settled)
            <==> !HoldsSuccess(spi)
  {
    hide Run;
    if HoldsSuccess(spi) {
      var steps := HeldSuccessEscapes(loop, stale, status, api, open, spi);
    } else {
      forall steps ensures var s := Run(loop, Begin(stale, status, api, open, spi), steps);
                           s.main.InitialQueries? || s.status.Done? ==> 0 < s.settled
      {
        LoginIsSound(loop, stale, status, api, open, spi, steps);
      }
    }
  }

  lemma HeldSuccessEscapes(loop: Loop, stale: Condition, status: Status, api: bool, open: Open, spi: seq<Op>)
    returns (steps: seq<Step>)
    requires loop != Bounded(0) && HoldsSuccess(spi)
    ensures var s := Run(loop, Begin(stale, status, api, open, spi), steps);
            (s.main.InitialQueries? || s.status.Done?) && s.settled == 0
  {
    var begin := Begin(stale, status, api, open, spi);
    var t;
    if WriteDone(true) in spi {
      t := HeldAnswerPasses(loop, begin);
    } else {
      t := HeldStatusIsWritten(loop, begin);
    }
    steps := RunTo(loop, begin, t);
    hide Run;
  }

  // And it rests on a login of its own exactly when, besides, no settlement request was out or about to go.
  lemma {:induction false} LoginOwnIff(loop: Loop, stale: Condition, status: Status, api: bool, open: Open, spi: seq<Op>)
    requires loop != Bounded(0) && status != Done
    ensures (forall steps :: var s := Run(loop, Begin(stale, status, api, open, spi), steps);
                             s.main.InitialQueries? || s.status.Done? ==> 0 < s.settled && 0 < s.loggedIn)
            <==> !HoldsSuccess(spi) && !HoldsLogin(open, spi)
  {
    hide Run;
    if HoldsSuccess(spi) {
      var steps := HeldSuccessEscapes(loop, stale, status, api, open, spi);
    } else if HoldsLogin(open, spi) {
      var begin := Begin(stale, status, api, open, spi);
      var t := HeldSettlementAnswered(loop, begin);
      var steps := RunTo(loop, begin, t);
      assert Run(loop, Begin(stale, status, api, open, spi), steps).loggedIn == 0;
    } else {
      forall steps ensures var s := Run(loop, Begin(stale, status, api, open, spi), steps);
                           s.main.InitialQueries? || s.status.Done? ==> 0 < s.settled && 0 < s.loggedIn
      {
        LoginIsSound(loop, stale, status, api, open, spi, steps);
      }
    }
  }

  // ---------------------------------------------------------------- what LogInSync makes of a result

  // A success always passes, a timeout never does.
  predicate FollowsResult(s: State) {
    match s.main
    case Querying => true
    case Judging(result) => s.query.pc == Returned(result)
    case InitialQueries => s.query.pc.Returned? && s.query.pc.result != Timeout
    case Thrown => s.query.pc.Returned? && s.query.pc.result != Success
  }

  lemma ResultStays(loop: Loop, q: Query, a: Action)
    requires q.pc.Returned?
    ensures QueryManager.Next(loop, q, a).pc == q.pc
  {
  }

  lemma PerformKeepsResult(loop: Loop, s: State, op: Op)
    requires s.query.pc.Returned?
    ensures Perform(loop, s, op).query.pc == s.query.pc && Perform(loop, s, op).main == s.main
  {
  }

  lemma NextFollowsResult(loop: Loop, s: State, step: Step)
    requires FollowsResult(s)
    ensures FollowsResult(Next(loop, s, step))
  {
    hide QueryManager.Next, LogInASync, OnFrontConnected, OnRspAuthenticate, OnRspUserLogin, OnRspSettlementInfoConfirm;
    if s.query.pc.Returned? {
      match step
      case FuncStep => if s.func != [] { PerformKeepsResult(loop, s.(func := s.func[1..]), s.func[0]); }
      case SpiStep => if s.spi != [] { PerformKeepsResult(loop, s.(spi := s.spi[1..]), s.spi[0]); }
      case QueryStep(a) => ResultStays(loop, s.query, a);
      case _ =>
    }
  }

  // In every run, whatever the loop, LogInSync throws only after another result than Success and reaches its
  // initial queries only after another result than Timeout.
  lemma {:induction false} LogInSyncFollowsResult(loop: Loop, begin: State, steps: seq<Step>)
    requires begin.main.Querying?
    ensures FollowsResult(Run(loop, begin, steps))
  {
    if steps != [] {
      LogInSyncFollowsResult(loop, begin, steps[..|steps| - 1]);
      hide Next, FollowsResult;
      NextFollowsResult(loop, Run(loop, begin, steps[..|steps| - 1]), steps[|steps| - 1]);
    }
  }

  // ---------------------------------------------------------------- a refused login never comes back

  // With the loop as written, LogInSync neither returns nor throws as long as no settlement confirmation
  // has succeeded - a wrong password, a refused authentication or a dead network keep it in its query -
  // exactly when it did not begin while a callback was about to give the answer.
  lemma {:induction false} RefusedLoginNeverReturns(stale: Condition, status: Status, api: bool, open: Open, spi: seq<Op>)
    requires status != Done
    ensures (forall steps :: var s := Run(Unbounded, Begin(stale, status, api, open, spi), steps);
                             s.settled == 0 ==> s.main.Querying? && !s.query.pc.Returned?)
            <==> WriteDone(true) !in spi
  {
    var begin := Begin(stale, status, api, open, spi);
    hide Run;
    if WriteDone(true) in spi {
      var t := HeldAnswerPasses(Unbounded, begin);
      var steps := RunTo(Unbounded, begin, t);
      assert Run(Unbounded, Begin(stale, status, api, open, spi), steps).settled == 0;
    } else {
      forall steps ensures var s := Run(Unbounded, begin, steps);
                           s.settled == 0 ==> s.main.Querying? && !s.query.pc.Returned?
      {
        RunStaysSound(Unbounded, stale, status, api, open, spi, steps);
        LogInSyncFollowsResult(Unbounded, begin, steps);
      }
    }
  }

  // ---------------------------------------------------------------- reaching the queries and being logged in

  // Operations that leave a status Done alone and open no further login.
  predicate Quiet(ops: seq<Op>) {
    forall i :: 0 <= i < |ops| ==>
      && (ops[i].SetStatus? ==> ops[i].status.Done?)
      && ops[i] != Send(Authenticate) && ops[i] != Send(UserLogin)
  }

  predicate Settled(s: State) {
    s.status.Done? && Quiet(s.func) && Quiet(s.spi) && s.open.authenticate == s.open.userLogin == 0
  }

  lemma NextKeepsSettled(loop: Loop, s: State, step: Step)
    requires Settled(s) && !step.FrontConnected?
    ensures Settled(Next(loop, s, step))
  {
    hide QueryManager.Next, OnFrontConnected, OnRspAuthenticate, OnRspUserLogin;
    assert s.func != [] ==> Quiet(s.func[1..]);
    assert s.spi != [] ==> Quiet(s.spi[1..]);
    assert forall ok :: Quiet(OnRspSettlementInfoConfirm(ok));
  }

  lemma {:induction false} RunKeepsSettled(loop: Loop, s: State, steps: seq<Step>)
    requires Settled(s) && NoReconnect(steps)
    ensures Settled(Run(loop, s, steps))
  {
    if steps != [] {
      RunKeepsSettled(loop, s, steps[..|steps| - 1]);
      hide Settled, Next;
      NextKeepsSettled(loop, Run(loop, s, steps[..|steps| - 1]), steps[|steps| - 1]);
    }
  }

  // The answer to an open login or authentication request writes its own status.
  lemma AnswerCoversDone(loop: Loop, begin: State, s: State) returns (t: State)
    requires Reaches(loop, begin, s) && s.spi == [] && 0 < s.open.authenticate + s.open.userLogin
    ensures Reaches(loop, begin, t) && !t.status.Done?
  {
    if 0 < s.open.authenticate {
      Onward(loop, begin, s, RspAuthenticate(true, true));
      t := Next(loop, s, RspAuthenticate(true, true));
      Onward(loop, begin, t, SpiStep);
      t := Next(loop, t, SpiStep);
    } else {
      Onward(loop, begin, s, RspUserLogin(true, true));
      t := Next(loop, s, RspUserLogin(true, true));
      Onward(loop, begin, t, SpiStep);
      t := Next(loop, t, SpiStep);
      Onward(loop, begin, t, SpiStep);
      t := Next(loop, t, SpiStep);
    }
    hide Reaches;
  }

  lemma {:induction false} UnsettledIsCovered(loop: Loop, s: State) returns (t: State)
    requires s.status.Done? && !Settled(s)
    ensures Reaches(loop, s, t) && !t.status.Done?
  {
    Here(loop, s);
    if i :| 0 <= i < |s.func| && s.func[i].SetStatus? && !s.func[i].status.Done? {
      t := FuncRuns(loop, s, s, i);
      assert t.func[0] == s.func[i];
      Onward(loop, s, t, FuncStep);
      t := Next(loop, t, FuncStep);
    } else if i :| 0 <= i < |s.spi| && s.spi[i].SetStatus? && !s.spi[i].status.Done? {
      t := SpiRuns(loop, s, s, i);
      assert t.spi[0] == s.spi[i];
      Onward(loop, s, t, SpiStep);
      t := Next(loop, t, SpiStep);
    } else {
      t := FuncRuns(loop, s, s, |s.func|);
      var mid := t;
      t := SpiRuns(loop, s, t, |t.spi|);
      LoginIsOpen(s, mid, t);
      t := AnswerCoversDone(loop, s, t);
    }
  }

  lemma LoginIsOpen(s: State, mid: State, t: State)
    requires !Settled(s) && s.status.Done? && mid.spi == s.spi
    requires forall i :: 0 <= i < |s.func| && s.func[i].SetStatus? ==> s.func[i].status.Done?
    requires forall i :: 0 <= i < |s.spi| && s.spi[i].SetStatus? ==> s.spi[i].status.Done?
    requires forall r :: Count(t.open, r) >= Count(mid.open, r) >= Count(s.open, r)
    requires forall i :: 0 <= i < |s.func| && s.func[i].Send? ==> 0 < Count(mid.open, s.func[i].request)
    requires forall i :: 0 <= i < |s.spi| && s.spi[i].Send? ==> 0 < Count(t.open, s.spi[i].request)
    ensures 0 < t.open.authenticate + t.open.userLogin
  {
    assert Count(t.open, Authenticate) >= Count(mid.open, Authenticate) >= Count(s.open, Authenticate);
    assert Count(t.open, UserLogin) >= Count(mid.open, UserLogin) >= Count(s.open, UserLogin);
    if i :| 0 <= i < |s.func| && (s.func[i] == Send(Authenticate) || s.func[i] == Send(UserLogin)) {
      assert 0 < Count(mid.open, s.func[i].request);
    }
    if i :| 0 <= i < |s.spi| && (s.spi[i] == Send(Authenticate) || s.spi[i] == Send(UserLogin)) {
      assert 0 < Count(t.open, s.spi[i].request);
    }
  }

  // Once the status is Done it stays so in every run without a new connection exactly when no other status
  // is still to be written, and no login or authentication is open or about to be sent.
  lemma {:induction false} DoneSurvivesIff(loop: Loop, s: State)
    requires s.status.Done?
    ensures (forall steps :: NoReconnect(steps) ==> Run(loop, s, steps).status.Done?) <==> Settled(s)
  {
    if Settled(s) {
      forall steps | NoReconnect(steps) ensures Run(loop, s, steps).status.Done? {
        RunKeepsSettled(loop, s, steps);
      }
    } else {
      var t := UnsettledIsCovered(loop, s);
      var steps := RunTo(loop, s, t);
    }
  }

  // ---------------------------------------------------------------- one login at a time

  predicate NoneOpen(open: Open) {
    open.authenticate == open.userLogin == open.settlement == 0
  }

  function Sends(ops: seq<Op>): nat {
    if ops == [] then 0 else (if ops[0].Send? then 1 else 0) + Sends(ops[1..])
  }

  // Requests that are open or about to be sent.
  function Load(s: State): nat {
    s.open.authenticate + s.open.userLogin + s.open.settlement + Sends(s.func) + Sends(s.spi)
  }

  // LogInASync and the callbacks exclude each other, LogInASync does not run while a request is open unless
  // the account is logged in, and no new connection follows the settlement.
  predicate Orderly(s: State, step: Step) {
    match step
    case EnterLogInASync(_) => s.spi == [] && (s.status.Done? || NoneOpen(s.open))
    case FrontConnected(_) => s.func == [] && s.settled == 0
    case RspAuthenticate(_, _) => s.func == []
    case RspUserLogin(_, _) => s.func == []
    case RspSettlementInfoConfirm(_) => s.func == []
    case _ => true
  }

  predicate OrderlyRun(loop: Loop, begin: State, steps: seq<Step>) {
    steps == [] ||
    (OrderlyRun(loop, begin, steps[..|steps| - 1])
     && Orderly(Run(loop, begin, steps[..|steps| - 1]), steps[|steps| - 1]))
  }

  // How far the callback of the settlement has come: about to write the status, or past it.
  predicate Confirming(s: State) {
    s.spi == [SetStatus(Done), WriteDone(true), NotifyDone] && !s.status.Done?
    && true !in s.query.since && s.main != Judging(Success) && !s.main.InitialQueries?
  }

  predicate Confirmed(s: State) {
    s.status.Done? && (s.spi == [WriteDone(true), NotifyDone] || s.spi == [NotifyDone] || s.spi == [])
  }

  predicate InOrder(s: State) {
    && Load(s) <= 1
    && (s.func == [] || s.spi == [])
    && (!s.entered ==> s.func == [])
    && (0 < s.settled ==> s.func == [] && Load(s) == 0 && (Confirming(s) || Confirmed(s)))
  }

  lemma {:induction false} SendsConcat(a: seq<Op>, b: seq<Op>)
    ensures Sends(a + b) == Sends(a) + Sends(b)
  {
    if a == [] {
      assert a + b == b;
    } else {
      assert (a + b)[1..] == a[1..] + b;
      SendsConcat(a[1..], b);
    }
  }

  lemma SendsOne(op: Op)
    ensures Sends([op]) == if op.Send? then 1 else 0
  {
  }

  lemma PostSendsOnce(request: Request, sent: bool, status: Status)
    ensures Sends(FAILURE) == 0
    ensures Sends(SendOrFail(request, sent)) <= 1
    ensures Sends(SendOrFail(request, sent) + [SetStatus(status)]) <= 1
  {
    SendsConcat([WriteDone(false)], [NotifyDone]);
    assert FAILURE == [WriteDone(false)] + [NotifyDone];
    SendsOne(WriteDone(false));
    SendsOne(NotifyDone);
    SendsOne(Send(request));
    SendsOne(SetStatus(status));
    SendsConcat(SendOrFail(request, sent), [SetStatus(status)]);
    hide Sends;
  }

  lemma CallbacksSendOnce(status: Status, api: bool, ok: bool, sent: bool)
    ensures Sends(LogInASync(status, api, sent)) <= 1
    ensures Sends(OnFrontConnected(status, sent)) <= 1
    ensures Sends(OnRspAuthenticate(ok, sent)) <= 1
    ensures Sends(OnRspUserLogin(ok, sent)) <= 1
    ensures Sends(OnRspSettlementInfoConfirm(ok)) == 0
  {
    assert Sends([]) == 0;
    hide SendOrFail;
    SendsOne(SetStatus(Connecting));
    PostSendsOnce(UserLogin, sent, Logining);
    PostSendsOnce(Authenticate, sent, Authorizing);
    PostSendsOnce(Settlement, sent, LoggedIn);
    SendsOne(SetStatus(Connected));
    SendsOne(SetStatus(Authorized));
    SendsConcat([SetStatus(Connected)] + SendOrFail(Authenticate, sent), [SetStatus(Authorizing)]);
    SendsConcat([SetStatus(Connected)], SendOrFail(Authenticate, sent));
    SendsConcat(SendOrFail(Authenticate, sent), [SetStatus(Authorizing)]);
    SendsConcat([SetStatus(Authorized)], PostingLoginRequest(sent));
    ConfirmationSends();
    hide Sends;
  }

  lemma ConfirmationSends()
    ensures Sends([SetStatus(Done), WriteDone(true), NotifyDone]) == 0
  {
    SendsConcat([SetStatus(Done)], [WriteDone(true), NotifyDone]);
    SendsConcat([WriteDone(true)], [NotifyDone]);
    assert [SetStatus(Done)] + [WriteDone(true), NotifyDone] == [SetStatus(Done), WriteDone(true), NotifyDone];
    assert [WriteDone(true)] + [NotifyDone] == [WriteDone(true), NotifyDone];
  }

  lemma PerformKeepsLoad(loop: Loop, s: State, op: Op)
    ensures Load(Perform(loop, s, op)) == Load(s) + if op.Send? then 1 else 0
    ensures var t := Perform(loop, s, op); t.func == s.func && t.spi == s.spi && t.entered == s.entered
                                           && t.settled == s.settled && t.main == s.main
  {
    hide Sends;
  }

  lemma QueryStepInOrder(loop: Loop, s: State, a: Action)
    requires InOrder(s)
    ensures InOrder(QueryStepped(loop, s, a))
  {
    SinceGrowsBy(loop, s.query, a);
    hide QueryManager.Next, Sends;
  }

  lemma FuncStepInOrder(loop: Loop, s: State)
    requires InOrder(s) && s.func != []
    ensures InOrder(Next(loop, s, FuncStep))
  {
    PerformKeepsLoad(loop, s.(func := s.func[1..]), s.func[0]);
    hide Perform;
  }

  lemma SpiStepInOrder(loop: Loop, s: State)
    requires InOrder(s) && s.spi != []
    ensures InOrder(Next(loop, s, SpiStep))
  {
    PerformKeepsLoad(loop, s.(spi := s.spi[1..]), s.spi[0]);
    hide Sends, QueryManager.Next;
    if 0 < s.settled {
      assert [SetStatus(Done), WriteDone(true), NotifyDone][1..] == [WriteDone(true), NotifyDone];
      assert [WriteDone(true), NotifyDone][1..] == [NotifyDone] && [NotifyDone][1..] == [];
    }
  }

  lemma MainStepInOrder(loop: Loop, head: Head, s: State)
    requires InOrder(s) && Sound(loop, head, s) && Attempted(loop, s)
    ensures InOrder(MainStepped(s))
  {
    hide Sends, Backed;
  }

  lemma CallbackInOrder(loop: Loop, head: Head, s: State, step: Step)
    requires InOrder(s) && Sound(loop, head, s) && !head.done && !head.answer && Orderly(s, step)
    requires !step.QueryStep? && !step.FuncStep? && !step.SpiStep? && !step.MainStep?
    ensures InOrder(Next(loop, s, step))
  {
    match step
    case EnterLogInASync(sent) => CallbacksSendOnce(s.status, s.api, true, sent);
      hide OnFrontConnected, OnRspAuthenticate, OnRspUserLogin, OnRspSettlementInfoConfirm, Backed, QueryManager.Inv;
    case FrontConnected(sent) => CallbacksSendOnce(s.status, s.api, true, sent);
      hide OnFrontConnected, Backed, QueryManager.Inv;
    case RspAuthenticate(ok, sent) => CallbacksSendOnce(s.status, s.api, ok, sent);
      hide OnRspAuthenticate, Backed, QueryManager.Inv;
    case RspUserLogin(ok, sent) => CallbacksSendOnce(s.status, s.api, ok, sent);
      hide OnRspUserLogin, Backed, QueryManager.Inv;
    case RspSettlementInfoConfirm(ok) => CallbacksSendOnce(s.status, s.api, ok, true);
      hide Sends, Backed, QueryManager.Inv;
  }

  lemma NextInOrder(loop: Loop, head: Head, s: State, step: Step)
    requires InOrder(s) && Sound(loop, head, s) && Attempted(loop, s) && !head.done && !head.answer && Orderly(s, step)
    ensures InOrder(Next(loop, s, step))
  {
    match step
    case QueryStep(a) => QueryStepInOrder(loop, s, a); hide InOrder, Sound, Attempted, QueryStepped;
    case FuncStep => if s.func != [] { FuncStepInOrder(loop, s); } hide InOrder, Sound, Attempted, Perform;
    case SpiStep => if s.spi != [] { SpiStepInOrder(loop, s); } hide InOrder, Sound, Attempted, Perform;
    case MainStep => MainStepInOrder(loop, head, s); hide InOrder, Sound, Attempted, MainStepped;
    case _ => CallbackInOrder(loop, head, s, step); hide InOrder, Sound, Attempted, Next;
  }

  lemma {:induction false} OrderlyRunInOrder(loop: Loop, stale: Condition, status: Status, api: bool, open: Open,
                                             spi: seq<Op>, steps: seq<Step>)
    requires loop != Bounded(0) && status != Done && !HoldsSuccess(spi)
    requires Load(Begin(stale, status, api, open, spi)) <= 1
    requires OrderlyRun(loop, Begin(stale, status, api, open, spi), steps)
    ensures InOrder(Run(loop, Begin(stale, status, api, open, spi), steps))
  {
    if steps != [] {
      var front := steps[..|steps| - 1];
      OrderlyRunInOrder(loop, stale, status, api, open, spi, front);
      RunStaysSound(loop, stale, status, api, open, spi, front);
      assert !HeadOf(open, spi).done && !HeadOf(open, spi).answer;
      hide InOrder, Sound, Attempted, Next, HeadOf, Load, Orderly;
      NextInOrder(loop, HeadOf(open, spi), Run(loop, Begin(stale, status, api, open, spi), front), steps[|steps| - 1]);
    }
  }

  // When LogInASync and the callbacks exclude each other, one request is out at a time and no new connection
  // follows the settlement, LogInSync reaches its initial queries only with the status Done.
  lemma OrderlyLoginEndsLoggedIn(loop: Loop, stale: Condition, status: Status, api: bool, open: Open, spi: seq<Op>,
                                 steps: seq<Step>)
    requires loop != Bounded(0) && status != Done && !HoldsSuccess(spi)
    requires Load(Begin(stale, status, api, open, spi)) <= 1
    requires OrderlyRun(loop, Begin(stale, status, api, open, spi), steps)
    ensures var s := Run(loop, Begin(stale, status, api, open, spi), steps);
            s.main.InitialQueries? ==> s.status.Done?
  {
    OrderlyRunInOrder(loop, stale, status, api, open, spi, steps);
    LoginIsSound(loop, stale, status, api, open, spi, steps);
  }

  // ---------------------------------------------------------------- logged in without knowing it

  // Logged in, with nothing left to be answered, performed or written.
  predicate AllSaid(s: State) {
    && s.main.Querying? && s.status.Done? && s.func == [] && s.spi == [] && NoneOpen(s.open)
    && QueryManager.Inv(Unbounded, s.query)
  }

  predicate AboutToPass(s: State) {
    Passing(s) || (s.query.pc.Calling? && s.query.condition.Success?)
  }

  lemma StuckStays(s: State, step: Step)
    requires AllSaid(s) && !AboutToPass(s) && !step.FrontConnected?
    ensures AllSaid(Next(Unbounded, s, step)) && !AboutToPass(Next(Unbounded, s, step))
  {
    if step.QueryStep? {
      QueryManager.NextKeepsInv(Unbounded, s.query, step.action);
    }
    hide OnFrontConnected, OnRspAuthenticate, OnRspUserLogin, OnRspSettlementInfoConfirm;
  }

  lemma {:induction false} StuckForEver(s: State, steps: seq<Step>)
    requires AllSaid(s) && !AboutToPass(s) && NoReconnect(steps)
    ensures AllSaid(Run(Unbounded, s, steps)) && !AboutToPass(Run(Unbounded, s, steps))
  {
    if steps != [] {
      StuckForEver(s, steps[..|steps| - 1]);
      hide AllSaid, AboutToPass, Next;
      StuckStays(Run(Unbounded, s, steps[..|steps| - 1]), steps[|steps| - 1]);
    }
  }

  // When everything has been said and the account is logged in, LogInSync as written can still return
  // without a new connection exactly when the attempt under way has its success; later attempts find the
  // account logged in, ask for nothing and are never answered.
  lemma {:induction false} LoggedInReturnsIff(s: State)
    requires AllSaid(s)
    ensures (exists t :: Reaches(Unbounded, s, t) && !t.main.Querying?) <==> AboutToPass(s)
  {
    Here(Unbounded, s);
    if AboutToPass(s) {
      var t := s;
      if s.query.pc.Calling? {
        if !s.entered {
          Onward(Unbounded, s, t, EnterLogInASync(true));
          t := Next(Unbounded, t, EnterLogInASync(true));
        }
        Onward(Unbounded, s, t, QueryStep(Advance));
        t := Next(Unbounded, t, QueryStep(Advance));
      }
      hide Reaches;
      t := Passes(Unbounded, s, t);
    } else {
      forall t | Reaches(Unbounded, s, t) ensures t.main.Querying? {
        var steps := RunTo(Unbounded, s, t);
        StuckForEver(s, steps);
      }
    }
  }

  // ---------------------------------------------------------------- what callbacks bring about

  // A whole callback, or a whole LogInASync.
  function PerformAll(loop: Loop, s: State, ops: seq<Op>): State
    decreases |ops|
  {
    if ops == [] then s else PerformAll(loop, Perform(loop, s, ops[0]), ops[1..])
  }

  lemma Unroll(loop: Loop, s: State, x: Op, y: Op, z: Op, w: Op)
    ensures PerformAll(loop, s, [x]) == Perform(loop, s, x)
    ensures PerformAll(loop, s, [x, y]) == Perform(loop, Perform(loop, s, x), y)
    ensures PerformAll(loop, s, [x, y, z]) == Perform(loop, Perform(loop, Perform(loop, s, x), y), z)
    ensures PerformAll(loop, s, [x, y, z, w])
            == Perform(loop, Perform(loop, Perform(loop, Perform(loop, s, x), y), z), w)
  {
    hide Perform;
    var one, two, three := Perform(loop, s, x), [x, y], [x, y, z];
    assert [x][1..] == [] && two[1..] == [y] && [y][1..] == [] && three[1..] == [y, z] && [y, z][1..] == [z] && [z][1..] == [];
    assert [x, y, z, w][1..] == [y, z, w] && [y, z, w][1..] == [z, w] && [z, w][1..] == [w] && [w][1..] == [];
    assert PerformAll(loop, one, [y]) == Perform(loop, one, y);
    assert PerformAll(loop, Perform(loop, one, y), [z]) == Perform(loop, Perform(loop, one, y), z);
    assert PerformAll(loop, one, [y, z]) == Perform(loop, Perform(loop, one, y), z);
    var last := Perform(loop, Perform(loop, one, y), z);
    assert PerformAll(loop, last, [w]) == Perform(loop, last, w);
    assert PerformAll(loop, Perform(loop, one, y), [z, w]) == Perform(loop, last, w);
  }

  // `done(success)` reaches the query: the condition is written, and a wait ends.
  function Told(q: Query, success: bool): Query {
    q.(condition := if success then Success else Failed, since := q.since + [success],
       pc := if q.pc.Waiting? then Woken(false) else q.pc)
  }

  lemma DoneTells(loop: Loop, s: State, success: bool)
    ensures Perform(loop, Perform(loop, s, WriteDone(success)), NotifyDone) == s.(query := Told(s.query, success))
  {
  }

  // A new connection asks for authentication, unless the account has logged out.
  lemma ConnectionAsks(loop: Loop, s: State, sent: bool)
    ensures PerformAll(loop, s, OnFrontConnected(s.status, sent))
            == if s.status == LoggingOut || s.status == LoggedOut then s
               else if sent then s.(status := Authorizing, open := s.open.(authenticate := s.open.authenticate + 1))
               else s.(status := Authorizing, query := Told(s.query, false))
  {
    var connected := s.(status := Connected);
    DoneTells(loop, connected, false);
    Unroll(loop, s, SetStatus(Connected), Send(Authenticate), SetStatus(Authorizing), NotifyDone);
    Unroll(loop, s, SetStatus(Connected), WriteDone(false), NotifyDone, SetStatus(Authorizing));
    hide PerformAll, QueryManager.Next;
    if s.status != LoggingOut && s.status != LoggedOut {
      assert OnFrontConnected(s.status, sent)
          == if sent then [SetStatus(Connected), Send(Authenticate), SetStatus(Authorizing)]
             else [SetStatus(Connected), WriteDone(false), NotifyDone, SetStatus(Authorizing)];
    } else {
      assert PerformAll(loop, s, []) == s by { NothingPerformed(loop, s); }
    }
  }

  lemma NothingPerformed(loop: Loop, s: State)
    ensures PerformAll(loop, s, []) == s
  {
  }

  // A granted authentication posts the login request, a refused one calls `done(false)`; so does a request
  // that does not go out.
  lemma AuthenticationAnswered(loop: Loop, s: State, ok: bool, sent: bool)
    ensures PerformAll(loop, s, OnRspAuthenticate(ok, sent))
            == if !ok then s.(query := Told(s.query, false))
               else if sent then s.(status := Logining, open := s.open.(userLogin := s.open.userLogin + 1))
               else s.(status := Logining, query := Told(s.query, false))
  {
    DoneTells(loop, s, false);
    DoneTells(loop, s.(status := Authorized), false);
    Unroll(loop, s, WriteDone(false), NotifyDone, NotifyDone, NotifyDone);
    Unroll(loop, s, SetStatus(Authorized), Send(UserLogin), SetStatus(Logining), NotifyDone);
    Unroll(loop, s, SetStatus(Authorized), WriteDone(false), NotifyDone, SetStatus(Logining));
    hide PerformAll, QueryManager.Next;
    assert OnRspAuthenticate(ok, sent)
        == if !ok then [WriteDone(false), NotifyDone]
           else if sent then [SetStatus(Authorized), Send(UserLogin), SetStatus(Logining)]
           else [SetStatus(Authorized), WriteDone(false), NotifyDone, SetStatus(Logining)];
  }

  // A granted login asks for the settlement to be confirmed.
  lemma LoginAnswered(loop: Loop, s: State, ok: bool, sent: bool)
    ensures PerformAll(loop, s, OnRspUserLogin(ok, sent))
            == if !ok then s.(query := Told(s.query, false))
               else if sent then s.(status := LoggedIn, open := s.open.(settlement := s.open.settlement + 1))
               else s.(status := LoggedIn, query := Told(s.query, false))
  {
    DoneTells(loop, s, false);
    Unroll(loop, s, WriteDone(false), NotifyDone, SetStatus(LoggedIn), NotifyDone);
    Unroll(loop, s, Send(Settlement), SetStatus(LoggedIn), NotifyDone, NotifyDone);
    hide PerformAll, QueryManager.Next;
    assert OnRspUserLogin(ok, sent)
        == if !ok then [WriteDone(false), NotifyDone]
           else if sent then [Send(Settlement), SetStatus(LoggedIn)]
           else [WriteDone(false), NotifyDone, SetStatus(LoggedIn)];
  }

  // A confirmed settlement ends the login.
  lemma SettlementAnswered(loop: Loop, s: State, ok: bool)
    ensures PerformAll(loop, s, OnRspSettlementInfoConfirm(ok))
            == if ok then s.(status := Done, query := Told(s.query, true)) else s.(query := Told(s.query, false))
  {
    DoneTells(loop, s, false);
    DoneTells(loop, s.(status := Done), true);
    Unroll(loop, s, WriteDone(false), NotifyDone, NotifyDone, NotifyDone);
    Unroll(loop, s, SetStatus(Done), WriteDone(true), NotifyDone, NotifyDone);
    hide PerformAll, QueryManager.Next;
  }

  // LogInASync asks for nothing when logged in, only connects the first time, and posts the login request
  // ever after.
  lemma LogInASyncAsks(loop: Loop, s: State, sent: bool)
    ensures PerformAll(loop, s, LogInASync(s.status, s.api, sent))
            == if s.status == Done then s
               else if !s.api then s.(status := Connecting)
               else if sent then s.(status := Logining, open := s.open.(userLogin := s.open.userLogin + 1))
               else s.(status := Logining, query := Told(s.query, false))
  {
    NothingPerformed(loop, s);
    DoneTells(loop, s, false);
    Unroll(loop, s, SetStatus(Connecting), NotifyDone, NotifyDone, NotifyDone);
    Unroll(loop, s, Send(UserLogin), SetStatus(Logining), NotifyDone, NotifyDone);
    Unroll(loop, s, WriteDone(false), NotifyDone, SetStatus(Logining), NotifyDone);
    hide PerformAll, QueryManager.Next;
    assert s.status != Done && s.api
      ==> LogInASync(s.status, s.api, sent)
          == if sent then [Send(UserLogin), SetStatus(Logining)] else [WriteDone(false), NotifyDone, SetStatus(Logining)];
  }

  // ---------------------------------------------------------------- a willing front logs the account in

  // Some run leads there, new connections included.
  ghost predicate Leads(loop: Loop, begin: State, to: State) {
    exists steps :: Run(loop, begin, steps) == to
  }

  lemma {:induction false} RunConcat(loop: Loop, begin: State, a: seq<Step>, b: seq<Step>)
    ensures Run(loop, begin, a + b) == Run(loop, Run(loop, begin, a), b)
  {
    hide Next;
    if b == [] {
      assert a + b == a;
    } else {
      assert (a + b)[..|a + b| - 1] == a + b[..|b| - 1];
      RunConcat(loop, begin, a, b[..|b| - 1]);
    }
  }

  lemma LeadsOn(loop: Loop, a: State, b: State, c: State)
    requires Leads(loop, a, b) && Leads(loop, b, c)
    ensures Leads(loop, a, c)
  {
    var x :| Run(loop, a, x) == b;
    var y :| Run(loop, b, y) == c;
    RunConcat(loop, a, x, y);
    hide Run;
    assert Run(loop, a, x + y) == c;
  }

  lemma OneStepLeads(loop: Loop, s: State, step: Step)
    ensures Leads(loop, s, s) && Leads(loop, s, Next(loop, s, step))
  {
    hide Next;
    assert Run(loop, s, []) == s;
    assert [step][..0] == [];
    assert Run(loop, s, [step]) == Next(loop, s, step);
  }

  // A callback that has begun can be performed to its end.
  lemma {:induction false} CallbackEnds(loop: Loop, s: State)
    ensures Leads(loop, s, PerformAll(loop, s.(spi := []), s.spi))
    decreases |s.spi|
  {
    OneStepLeads(loop, s, SpiStep);
    if s.spi == [] {
      assert s.(spi := []) == s;
    } else {
      var next := Next(loop, s, SpiStep);
      PerformsOne(loop, s.(spi := s.spi[1..]), s.spi[0]);
      assert next.(spi := []) == Perform(loop, s.(spi := []), s.spi[0]);
      assert next.spi == s.spi[1..];
      hide Perform, Next, Leads;
      CallbackEnds(loop, next);
      LeadsOn(loop, s, next, PerformAll(loop, next.(spi := []), next.spi));
    }
  }

  // An attempt that waits while no callback is running.
  predicate Waits(s: State) {
    s.main.Querying? && s.query.pc.Waiting? && s.spi == []
  }

  lemma ReachedIsLed(loop: Loop, begin: State, t: State)
    requires Reaches(loop, begin, t)
    ensures Leads(loop, begin, t)
  {
  }

  lemma SettlementLeadsIn(loop: Loop, s: State) returns (t: State)
    requires Waits(s) && 0 < s.open.settlement
    ensures Leads(loop, s, t) && t.main.InitialQueries? && t.status.Done?
    ensures t.query.attempts == s.query.attempts && t.settled == s.settled + 1
  {
    var asked := Next(loop, s, RspSettlementInfoConfirm(true));
    OneStepLeads(loop, s, RspSettlementInfoConfirm(true));
    CallbackEnds(loop, asked);
    SettlementAnswered(loop, asked.(spi := []), true);
    var told := PerformAll(loop, asked.(spi := []), asked.spi);
    hide PerformAll, Leads;
    LeadsOn(loop, s, asked, told);
    Here(loop, told);
    t := Passes(loop, told, told);
    ReachedIsLed(loop, told, t);
    LeadsOn(loop, s, told, t);
  }

  lemma UserLoginLeadsIn(loop: Loop, s: State) returns (t: State)
    requires Waits(s) && 0 < s.open.userLogin
    ensures Leads(loop, s, t) && t.main.InitialQueries? && t.status.Done?
    ensures t.query.attempts == s.query.attempts && t.settled == s.settled + 1
  {
    var asked := Next(loop, s, RspUserLogin(true, true));
    OneStepLeads(loop, s, RspUserLogin(true, true));
    CallbackEnds(loop, asked);
    LoginAnswered(loop, asked.(spi := []), true, true);
    var answered := PerformAll(loop, asked.(spi := []), asked.spi);
    hide PerformAll, Leads;
    LeadsOn(loop, s, asked, answered);
    t := SettlementLeadsIn(loop, answered);
    LeadsOn(loop, s, answered, t);
  }

  lemma AuthenticateLeadsIn(loop: Loop, s: State) returns (t: State)
    requires Waits(s) && 0 < s.open.authenticate
    ensures Leads(loop, s, t) && t.main.InitialQueries? && t.status.Done?
    ensures t.query.attempts == s.query.attempts && t.settled == s.settled + 1
  {
    var asked := Next(loop, s, RspAuthenticate(true, true));
    OneStepLeads(loop, s, RspAuthenticate(true, true));
    CallbackEnds(loop, asked);
    AuthenticationAnswered(loop, asked.(spi := []), true, true);
    var answered := PerformAll(loop, asked.(spi := []), asked.spi);
    hide PerformAll, Leads;
    LeadsOn(loop, s, asked, answered);
    t := UserLoginLeadsIn(loop, answered);
    LeadsOn(loop, s, answered, t);
  }

  // While an attempt waits, a front that grants whatever it is asked logs the account in within this attempt,
  // from whichever request is open, and after a new connection if none is.
  lemma WillingFrontLogsIn(loop: Loop, s: State) returns (t: State)
    requires Waits(s)
    requires NoneOpen(s.open) ==> s.api && s.status != LoggingOut && s.status != LoggedOut
    ensures Leads(loop, s, t) && t.main.InitialQueries? && t.status.Done?
    ensures t.query.attempts == s.query.attempts && t.settled == s.settled + 1
  {
    if 0 < s.open.settlement {
      t := SettlementLeadsIn(loop, s);
    } else if 0 < s.open.userLogin {
      t := UserLoginLeadsIn(loop, s);
    } else if 0 < s.open.authenticate {
      t := AuthenticateLeadsIn(loop, s);
    } else {
      var asked := Next(loop, s, FrontConnected(true));
      OneStepLeads(loop, s, FrontConnected(true));
      CallbackEnds(loop, asked);
      ConnectionAsks(loop, asked.(spi := []), true);
      var connected := PerformAll(loop, asked.(spi := []), asked.spi);
      hide PerformAll, Leads;
      LeadsOn(loop, s, asked, connected);
      t := AuthenticateLeadsIn(loop, connected);
      LeadsOn(loop, s, connected, t);
    }
  }

  // So a first login succeeds in its first attempt.
  lemma FirstLoginSucceeds(loop: Loop, stale: Condition, status: Status) returns (t: State)
    requires loop != Bounded(0) && status != Done && status != LoggingOut && status != LoggedOut
    ensures Leads(loop, Begin(stale, status, false, Open(0, 0, 0), []), t)
    ensures t.main.InitialQueries? && t.status.Done? && t.query.attempts == 1 && t.settled == 1
  {
    var begin := Begin(stale, status, false, Open(0, 0, 0), []);
    Here(loop, begin);
    var s := AttemptCalls(loop, begin, begin);
    Onward(loop, begin, s, EnterLogInASync(true));
    s := Next(loop, s, EnterLogInASync(true));
    assert s.func == [SetStatus(Connecting)] && s.func[1..] == [];
    Onward(loop, begin, s, FuncStep);
    s := Next(loop, s, FuncStep);
    Onward(loop, begin, s, QueryStep(Advance));
    s := Next(loop, s, QueryStep(Advance));
    ReachedIsLed(loop, begin, s);
    hide Leads, Reaches, Run;
    t := WillingFrontLogsIn(loop, s);
    LeadsOn(loop, begin, s, t);
  }

  // ---------------------------------------------------------------- runs that go wrong

  // A login request has gone out; the status is still to be written.
  lemma RequestIsOut(stale: Condition, status: Status)
    requires status != Done
    ensures var begin := Begin(stale, status, true, Open(0, 0, 0), []);
            Reaches(Unbounded, begin, begin.(query := Query(Calling, OnGoing, 1, [], 0), entered := true,
                                             func := [SetStatus(Logining)], open := Open(0, 1, 0)))
  {
    var begin := Begin(stale, status, true, Open(0, 0, 0), []);
    Here(Unbounded, begin);
    var s0 := AttemptCalls(Unbounded, begin, begin);
    var s1 := s0.(entered := true, func := [Send(UserLogin), SetStatus(Logining)]);
    var s2 := s1.(func := [SetStatus(Logining)], open := Open(0, 1, 0));
    assert LogInASync(status, true, true) == [Send(UserLogin), SetStatus(Logining)];
    Onward(Unbounded, begin, s0, EnterLogInASync(true));
    assert s1.func[1..] == [SetStatus(Logining)];
    Onward(Unbounded, begin, s1, FuncStep);
    hide Reaches;
  }

  // The front answers the login and then the settlement request, whatever the querying thread is at.
  lemma BothAnswered(begin: State, s: State)
    requires Reaches(Unbounded, begin, s) && s.spi == [] && s.open == Open(0, 1, 0)
    ensures Reaches(Unbounded, begin,
                    s.(spi := [SetStatus(Done), WriteDone(true), NotifyDone], status := LoggedIn, open := Open(0, 0, 0),
                       loggedIn := s.loggedIn + 1, settled := s.settled + 1))
  {
    var s1 := s.(spi := [Send(Settlement), SetStatus(LoggedIn)], open := Open(0, 0, 0), loggedIn := s.loggedIn + 1);
    var s2 := s1.(spi := [SetStatus(LoggedIn)], open := Open(0, 0, 1));
    var s3 := s2.(spi := [], status := LoggedIn);
    assert OnRspUserLogin(true, true) == [Send(Settlement), SetStatus(LoggedIn)];
    Onward(Unbounded, begin, s, RspUserLogin(true, true));
    assert s1.spi[1..] == [SetStatus(LoggedIn)] && s2.spi[1..] == [];
    Onward(Unbounded, begin, s1, SpiStep);
    Onward(Unbounded, begin, s2, SpiStep);
    Onward(Unbounded, begin, s3, RspSettlementInfoConfirm(true));
    hide Reaches;
  }

  lemma DoneIsWritten(begin: State, s: State)
    requires Reaches(Unbounded, begin, s) && s.spi == [SetStatus(Done), WriteDone(true), NotifyDone]
    ensures Reaches(Unbounded, begin, s.(spi := [WriteDone(true), NotifyDone], status := Done))
  {
    assert s.spi[1..] == [WriteDone(true), NotifyDone];
    Onward(Unbounded, begin, s, SpiStep);
  }

  // LogInASync writes its status after its request has gone out. When the front answers in between, the
  // late write covers Done: LogInSync goes on to its initial queries, settled but not logged in.
  lemma LateStatusWriteHidesLogin(stale: Condition, status: Status) returns (t: State)
    requires status != Done
    ensures Reaches(Unbounded, Begin(stale, status, true, Open(0, 0, 0), []), t)
    ensures t.main.InitialQueries? && t.settled == 1 && t.status == Logining && t.func == t.spi == []
  {
    var begin := Begin(stale, status, true, Open(0, 0, 0), []);
    RequestIsOut(stale, status);
    var s0 := begin.(query := Query(Calling, OnGoing, 1, [], 0), entered := true, func := [SetStatus(Logining)],
                     open := Open(0, 1, 0));
    BothAnswered(begin, s0);
    var s1 := s0.(spi := [SetStatus(Done), WriteDone(true), NotifyDone], status := LoggedIn, open := Open(0, 0, 0),
                  loggedIn := 1, settled := 1);
    DoneIsWritten(begin, s1);
    var s2 := s1.(spi := [WriteDone(true), NotifyDone], status := Done);
    var s3 := s2.(func := [], status := Logining);
    assert s2.func[1..] == [];
    Onward(Unbounded, begin, s2, FuncStep);
    var s4 := s3.(query := Query(Waiting, OnGoing, 1, [], 0), entered := false);
    Onward(Unbounded, begin, s3, QueryStep(Advance));
    var s5 := AnswerIsGiven(begin, s4);
    hide Reaches;
    t := Passes(Unbounded, begin, s5);
  }

  // `done(true)`, both halves.
  lemma AnswerIsGiven(begin: State, s: State) returns (t: State)
    requires Reaches(Unbounded, begin, s) && s.spi == [WriteDone(true), NotifyDone] && s.query.since == []
    ensures Reaches(Unbounded, begin, t)
    ensures t == s.(spi := [], query := s.query.(condition := Success, since := [true],
                                                 pc := if s.query.pc.Waiting? then Woken(false) else s.query.pc))
  {
    assert s.spi[1..] == [NotifyDone] && [NotifyDone][1..] == [] && [] + [true] == [true];
    Onward(Unbounded, begin, s, SpiStep);
    var mid := s.(spi := [NotifyDone], query := s.query.(condition := Success, since := [true]));
    assert Next(Unbounded, s, SpiStep) == mid;
    Onward(Unbounded, begin, mid, SpiStep);
    t := Next(Unbounded, mid, SpiStep);
  }

  // The account can be logged in without LogInSync ever returning: the wait ends by its time just before
  // the answer, and the write of Timeout covers it.
  lemma LoggedInMayHang(stale: Condition, status: Status) returns (t: State)
    requires status != Done
    ensures Reaches(Unbounded, Begin(stale, status, true, Open(0, 0, 0), []), t)
    ensures t.settled == 1 && AllSaid(t) && !AboutToPass(t)
  {
    var begin := Begin(stale, status, true, Open(0, 0, 0), []);
    RequestIsOut(stale, status);
    var s0 := begin.(query := Query(Calling, OnGoing, 1, [], 0), entered := true, func := [SetStatus(Logining)],
                     open := Open(0, 1, 0));
    assert s0.func[1..] == [];
    Onward(Unbounded, begin, s0, FuncStep);
    var s1 := s0.(func := [], status := Logining);
    Onward(Unbounded, begin, s1, QueryStep(Advance));
    var s2 := s1.(query := Query(Waiting, OnGoing, 1, [], 0), entered := false);
    BothAnswered(begin, s2);
    var s3 := s2.(spi := [SetStatus(Done), WriteDone(true), NotifyDone], status := LoggedIn, open := Open(0, 0, 0),
                  loggedIn := 1, settled := 1);
    DoneIsWritten(begin, s3);
    t := AnswerIsLost(begin, s3.(spi := [WriteDone(true), NotifyDone], status := Done));
    var steps := RunTo(Unbounded, begin, t);
    RunStaysSound(Unbounded, stale, status, true, Open(0, 0, 0), [], steps);
    hide Run, Reaches, QueryManager.Inv;
  }

  lemma AnswerIsLost(begin: State, s: State) returns (t: State)
    requires Reaches(Unbounded, begin, s) && s.main.Querying?
    requires s.spi == [WriteDone(true), NotifyDone] && s.query == Query(Waiting, OnGoing, 1, [], 0)
    ensures Reaches(Unbounded, begin, t)
    ensures t == s.(spi := [], query := Query(Sleeping, Timeout, 1, [true], 1))
  {
    Onward(Unbounded, begin, s, QueryStep(TimeOut));
    var s1 := s.(query := Query(Woken(true), OnGoing, 1, [], 0));
    t := AnswerIsGiven(begin, s1);
    Onward(Unbounded, begin, t, QueryStep(Advance));
    t := Next(Unbounded, t, QueryStep(Advance));
    Onward(Unbounded, begin, t, QueryStep(Advance));
    t := Next(Unbounded, t, QueryStep(Advance));
    hide Reaches;
  }
}
