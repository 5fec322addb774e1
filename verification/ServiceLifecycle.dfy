/**
 The daemon's service lifecycle: start-or-reload, close and set-error share a mutex that a reload drops
 while it closes the old instance and again while it starts the new one.
 */
module ServiceLifecycle {
  import opened Wrappers

  datatype Status = IDLE | STARTING | STARTED | STOPPING | FATAL

  /** What the mutex guards; instances are numbered as they are built, and `published` is the status stream. */
  datatype Service = Service(
    status: Status, instance: Option<nat>, built: nat, closed: set<nat>, published: seq<Status>)

  /** Where a call stands while it does not hold the mutex. */
  datatype Call =
    | Reload               // about to begin
    | ClosingOld(previous: nat)
    | OldClosed(previous: nat)
    | StartingNew(current: nat)
    | Close
    | SetError
    | Returned(ok: bool)

  const INITIAL := Service(IDLE, None, 0, {}, [])

  // ---------- The critical sections ----------

  function WithStatus(s: Service, status: Status): Service {
    s.(status := status, published := s.published + [status])
  }

  /** From `updateStatus(STARTING)` to the unlock before `instance.Start()`. */
  function Build(s: Service, buildFails: bool): (Service, Call) {
    var starting := WithStatus(s, STARTING);
    if buildFails then (WithStatus(starting, FATAL), Returned(false))
    else (starting.(instance := Some(s.built), built := s.built + 1), StartingNew(s.built))
  }

  function BeginReload(s: Service, buildFails: bool): (Service, Call) {
    if s.status.STOPPING? then (s, Returned(false))
    else if s.instance.Some? then (WithStatus(s, STOPPING), ClosingOld(s.instance.value))
    else Build(s, buildFails)
  }

  function EndStart(s: Service, startFails: bool): (Service, Call) {
    if !s.status.STARTING? then (s, Returned(true))
    else if startFails then (WithStatus(s, FATAL), Returned(false))
    else (WithStatus(s, STARTED), Returned(true))
  }

  function CloseNow(s: Service, closeFails: bool): (Service, Call) {
    if !s.status.STARTING? && !s.status.STARTED? then (s, Returned(false))
    else
      var stopping := WithStatus(s, STOPPING);
      if s.instance.None? then (WithStatus(stopping, IDLE), Returned(true))
      else
        var gone := stopping.(instance := None, closed := s.closed + {s.instance.value});
        if closeFails then (WithStatus(gone, FATAL), Returned(false)) else (WithStatus(gone, IDLE), Returned(true))
  }

  // ---------- The code, with its mutex ----------

  class StartedService {
    var serviceStatus: Status
    var instance: Option<nat>
    var built: nat
    var closed: set<nat>
    var published: seq<Status>
    var locked: bool

    ghost function View(): Service
      reads this
    {
      Service(serviceStatus, instance, built, closed, published)
    }

    constructor ()
      ensures View() == INITIAL && !locked
    {
      serviceStatus, instance, built, closed, published, locked := IDLE, None, 0, {}, [], false;
    }

    method Lock()
      requires !locked
      modifies this`locked
      ensures locked
    {
      locked := true;
    }

    method Unlock()
      requires locked
      modifies this`locked
      ensures !locked
    {
      locked := false;
    }

    method UpdateStatus(status: Status)
      requires locked
      modifies this`serviceStatus, this`published
      ensures View() == WithStatus(old(View()), status)
    {
      published := published + [status];
      serviceStatus := status;
    }

    /** Publishes FATAL and gives the mutex back. */
    method UpdateStatusError()
      requires locked
      modifies this`serviceStatus, this`published, this`locked
      ensures !locked && View() == WithStatus(old(View()), FATAL)
    {
      UpdateStatus(FATAL);
      Unlock();
    }

    /** Up to the point where the mutex is dropped to close the old instance, or past it if there is none. */
    method StartOrReload(buildFails: bool) returns (next: Call)
      requires !locked
      modifies this
      ensures !locked && (View(), next) == BeginReload(old(View()), buildFails)
    {
      Lock();
      if serviceStatus.STOPPING? {
        Unlock();
        return Returned(false);
      }
      if instance.Some? {
        UpdateStatus(STOPPING);
        next := ClosingOld(instance.value);
        Unlock();
        return;
      }
      next := BuildInstance(buildFails);
    }

    method BuildInstance(buildFails: bool) returns (next: Call)
      requires locked
      modifies this
      ensures !locked && (View(), next) == Build(old(View()), buildFails)
    {
      UpdateStatus(STARTING);
      if buildFails {
        UpdateStatusError();
        return Returned(false);
      }
      next := StartingNew(built);
      instance, built := Some(built), built + 1;
      Unlock();
    }

    /** The mutex is taken again after the old instance was closed. */
    method ResumeReload(buildFails: bool) returns (next: Call)
      requires !locked
      modifies this
      ensures !locked && (View(), next) == Build(old(View()), buildFails)
    {
      Lock();
      next := BuildInstance(buildFails);
    }

    /** The mutex is taken again after `instance.Start()` returned. */
    method FinishReload(startFails: bool) returns (next: Call)
      requires !locked
      modifies this
      ensures !locked && (View(), next) == EndStart(old(View()), startFails)
    {
      Lock();
      if !serviceStatus.STARTING? {
        Unlock();
        return Returned(true);
      }
      if startFails {
        UpdateStatusError();
        return Returned(false);
      }
      UpdateStatus(STARTED);
      Unlock();
      next := Returned(true);
    }

    method CloseService(closeFails: bool) returns (next: Call)
      requires !locked
      modifies this
      ensures !locked && (View(), next) == CloseNow(old(View()), closeFails)
    {
      Lock();
      if !serviceStatus.STARTING? && !serviceStatus.STARTED? {
        Unlock();
        return Returned(false);
      }
      UpdateStatus(STOPPING);
      var current := instance;
      instance := None;
      if current.Some? {
        closed := closed + {current.value};
        if closeFails {
          UpdateStatusError();
          return Returned(false);
        }
      }
      UpdateStatus(IDLE);
      Unlock();
      next := Returned(true);
    }

    method ReportError()
      requires !locked
      modifies this
      ensures !locked && View() == WithStatus(old(View()), FATAL)
    {
      Lock();
      UpdateStatusError();
    }
  }

  // ---------- Interleavings ----------

  datatype State = State(service: Service, calls: seq<Call>)

  /** Call `t` makes its next move; `fails` is the result of what it runs on the way. */
  datatype Step = Step(t: nat, fails: bool)

  predicate Enabled(s: State, step: Step) {
    step.t < |s.calls| && !s.calls[step.t].Returned?
  }

  function Moved(service: Service, call: Call, fails: bool): (Service, Call) {
    match call
    case Reload => BeginReload(service, fails)
    case ClosingOld(i) => (service.(closed := service.closed + {i}), OldClosed(i))
    case OldClosed(_) => Build(service, fails)
    case StartingNew(_) => EndStart(service, fails)
    case Close => CloseNow(service, fails)
    case SetError => (WithStatus(service, FATAL), Returned(true))
    case Returned(_) => (service, call)
  }

  function Next(s: State, step: Step): State
    requires Enabled(s, step)
  {
    var (service, call) := Moved(s.service, s.calls[step.t], step.fails);
    State(service, s.calls[step.t := call])
  }

  ghost predicate Legal(s: State, steps: seq<Step>)
    decreases |steps|
  {
    steps == [] || (Enabled(s, steps[0]) && Legal(Next(s, steps[0]), steps[1..]))
  }

  ghost function Run(s: State, steps: seq<Step>): State
    requires Legal(s, steps)
    decreases |steps|
  {
    if steps == [] then s else Run(Next(s, steps[0]), steps[1..])
  }

  ghost predicate Fresh(calls: seq<Call>) {
    forall t :: 0 <= t < |calls| ==> calls[t].Reload? || calls[t].Close? || calls[t].SetError?
  }

  // ---------- Status and instance agree ----------

  /** STARTED is published only right after STARTING, and IDLE only right after STOPPING. */
  ghost predicate StreamInOrder(published: seq<Status>) {
    forall i :: 0 <= i < |published| ==> InOrderAt(published, i)
  }

  ghost predicate InOrderAt(published: seq<Status>, i: nat)
    requires i < |published|
  {
    && (published[i].STARTED? ==> i > 0 && published[i - 1].STARTING?)
    && (published[i].IDLE? ==> i > 0 && published[i - 1].STOPPING?)
  }

  ghost predicate Agrees(s: Service) {
    && (s.status.STARTING? || s.status.STARTED? ==> s.instance.Some?)
    && (s.status.IDLE? ==> s.instance.None?)
    && (s.instance.Some? ==> s.instance.value < s.built)
    && s.status == (if s.published == [] then IDLE else s.published[|s.published| - 1])
    && StreamInOrder(s.published)
  }

  lemma MoveKeepsAgreement(s: Service, call: Call, fails: bool)
    requires Agrees(s)
    ensures Agrees(Moved(s, call, fails).0)
  {
    StreamExtends(s.published, [STOPPING]);
    StreamExtends(s.published, [FATAL]);
    StreamExtends(s.published, [STARTING]);
    StreamExtends(s.published + [STARTING], [FATAL]);
    StreamExtends(s.published + [STOPPING], [IDLE]);
    StreamExtends(s.published + [STOPPING], [FATAL]);
    StreamExtends(s.published, [STARTED]);
  }

  lemma StreamExtends(published: seq<Status>, more: seq<Status>)
    requires |more| == 1
    ensures var last := if published == [] then IDLE else published[|published| - 1];
            StreamInOrder(published) && (more[0].STARTED? ==> last.STARTING?) && (more[0].IDLE? ==> last.STOPPING?)
            ==> StreamInOrder(published + more)
  {
    var all := published + more;
    if StreamInOrder(published) {
      forall i | 0 <= i < |published| ensures InOrderAt(all, i) {
        assert InOrderAt(published, i);
      }
    }
  }

  /** In every interleaving of any calls, whenever the mutex is free. */
  lemma {:induction false} RunKeepsAgreement(s: State, steps: seq<Step>)
    requires Agrees(s.service) && Legal(s, steps)
    ensures Agrees(Run(s, steps).service)
    decreases |steps|
  {
    if steps != [] {
      MoveKeepsAgreement(s.service, s.calls[steps[0].t], steps[0].fails);
      RunKeepsAgreement(Next(s, steps[0]), steps[1..]);
    }
  }

  // ---------- What a step publishes, returns and builds ----------

  /** The step builds an instance, or tries to: there is none to close first, or it is closed by now. */
  predicate Builds(s: State, step: Step)
    requires Enabled(s, step)
  {
    || s.calls[step.t].OldClosed?
    || (s.calls[step.t].Reload? && !s.service.status.STOPPING? && s.service.instance.None?)
  }

  /** The step ends a start whose outcome still counts: nothing has moved the status on in the meantime. */
  predicate Starts(s: State, step: Step)
    requires Enabled(s, step)
  {
    s.calls[step.t].StartingNew? && s.service.status.STARTING?
  }

  predicate Closes(s: State, step: Step)
    requires Enabled(s, step)
  {
    s.calls[step.t].Close? && (s.service.status.STARTING? || s.service.status.STARTED?)
  }

  predicate Replaces(s: State, step: Step)
    requires Enabled(s, step)
  {
    s.calls[step.t].Reload? && !s.service.status.STOPPING? && s.service.instance.Some?
  }

  /** A failed build, start or close; a service without an instance has nothing whose close could fail. */
  predicate Fails(s: State, step: Step)
    requires Enabled(s, step)
  {
    step.fails && (Builds(s, step) || Starts(s, step) || (Closes(s, step) && s.service.instance.Some?))
  }

  /** A reload while the service is stopping, or a close while it is neither starting nor started. */
  predicate Refused(s: State, step: Step)
    requires Enabled(s, step)
  {
    || (s.calls[step.t].Reload? && s.service.status.STOPPING?)
    || (s.calls[step.t].Close? && !Closes(s, step))
  }

  /** What the step adds to the status stream. */
  ghost function News(s: State, step: Step): seq<Status>
    requires Enabled(s, step)
  {
    var was, now := s.service.published, Next(s, step).service.published;
    if |was| <= |now| then now[|was|..] else []
  }

  /** Nothing published is taken back, and the last thing published is the status. */
  lemma StepAppends(s: State, step: Step)
    requires Enabled(s, step)
    ensures Next(s, step).service.published == s.service.published + News(s, step) && |News(s, step)| <= 2
    ensures News(s, step) == [] ==> Next(s, step).service.status == s.service.status
    ensures News(s, step) != [] ==> Next(s, step).service.status == News(s, step)[|News(s, step)| - 1]
  {
  }

  /** A start publishes its outcome, a build STARTING and a close STOPPING before theirs; the rest is silent. */
  lemma StepNews(s: State, step: Step)
    requires Enabled(s, step)
    ensures Starts(s, step) ==> News(s, step) == [if step.fails then FATAL else STARTED]
    ensures Builds(s, step) ==> News(s, step) == if step.fails then [STARTING, FATAL] else [STARTING]
    ensures Replaces(s, step) ==> News(s, step) == [STOPPING]
    ensures Closes(s, step) ==> News(s, step) == [STOPPING, if Fails(s, step) then FATAL else IDLE]
    ensures s.calls[step.t].SetError? ==> News(s, step) == [FATAL]
    ensures Starts(s, step) || Builds(s, step) || Replaces(s, step) || Closes(s, step) ||
            s.calls[step.t].SetError? || News(s, step) == []
  {
  }

  /** STARTED is published by a start that succeeded and by nothing else, FATAL by a failure or a reported error. */
  lemma StepPublishes(s: State, step: Step)
    requires Enabled(s, step)
    ensures STARTED in News(s, step) <==> Starts(s, step) && !step.fails
    ensures FATAL in News(s, step) <==> s.calls[step.t].SetError? || Fails(s, step)
  {
    StepNews(s, step);
  }

  /** A call returns an error exactly when it was refused or failed; a refused one changes nothing. */
  lemma StepReturns(s: State, step: Step)
    requires Enabled(s, step)
    ensures Next(s, step).calls[step.t] == Returned(false) <==> Refused(s, step) || Fails(s, step)
    ensures Next(s, step).calls[step.t] == Returned(true) <==>
            && !Refused(s, step) && !Fails(s, step)
            && (s.calls[step.t].StartingNew? || s.calls[step.t].Close? || s.calls[step.t].SetError?)
    ensures Refused(s, step) ==> Next(s, step).service == s.service
    ensures forall u :: 0 <= u < |s.calls| && u != step.t ==> Next(s, step).calls[u] == s.calls[u]
  {
  }

  /** Instances are numbered in the order of their builds; only a close takes the current one away. */
  lemma StepInstances(s: State, step: Step)
    requires Enabled(s, step)
    ensures var made := Builds(s, step) && !step.fails;
            && Next(s, step).service.built == s.service.built + (if made then 1 else 0)
            && Next(s, step).service.instance ==
               (if made then Some(s.service.built) else if Closes(s, step) then None else s.service.instance)
            && (made <==> Next(s, step).calls[step.t] == StartingNew(s.service.built) && !s.calls[step.t].Returned?)
    ensures Replaces(s, step) ==> Next(s, step).calls[step.t] == ClosingOld(s.service.instance.value)
    ensures s.calls[step.t].ClosingOld? ==> Next(s, step).calls[step.t] == OldClosed(s.calls[step.t].previous)
    ensures forall i :: i in Next(s, step).service.closed <==>
              || i in s.service.closed
              || s.calls[step.t] == ClosingOld(i)
              || (Closes(s, step) && s.service.instance == Some(i))
  {
  }

  ghost function AllNews(s: State, steps: seq<Step>): seq<Status>
    requires Legal(s, steps)
    decreases |steps|
  {
    if steps == [] then [] else News(s, steps[0]) + AllNews(Next(s, steps[0]), steps[1..])
  }

  /** In every run the stream is what its steps published, in their order. */
  lemma {:induction false} RunPublishes(s: State, steps: seq<Step>)
    requires Legal(s, steps)
    ensures Run(s, steps).service.published == s.service.published + AllNews(s, steps)
    decreases |steps|
  {
    if steps != [] {
      StepAppends(s, steps[0]);
      RunPublishes(Next(s, steps[0]), steps[1..]);
    }
  }

  ghost predicate AnyStarts(s: State, steps: seq<Step>)
    requires Legal(s, steps)
    decreases |steps|
  {
    && steps != []
    && ((Starts(s, steps[0]) && !steps[0].fails) || AnyStarts(Next(s, steps[0]), steps[1..]))
  }

  /** A run publishes STARTED if and only if some start in it succeeded while the service was STARTING. */
  lemma {:induction false} RunPublishesStartedIff(s: State, steps: seq<Step>)
    requires Legal(s, steps)
    ensures STARTED in AllNews(s, steps) <==> AnyStarts(s, steps)
    decreases |steps|
  {
    if steps != [] {
      StepPublishes(s, steps[0]);
      RunPublishesStartedIff(Next(s, steps[0]), steps[1..]);
    }
  }

  // ---------- Whose start STARTED reports ----------

  /** The instances whose start the step saw succeed. */
  ghost function Ups(s: State, step: Step): set<nat>
    requires Enabled(s, step)
  {
    if s.calls[step.t].StartingNew? && !step.fails then {s.calls[step.t].current} else {}
  }

  /** A service that is STARTED has an instance, and its start has succeeded. */
  ghost predicate Truthful(s: Service, up: set<nat>) {
    s.status.STARTED? ==> s.instance.Some? && s.instance.value in up
  }

  ghost predicate AlwaysTruthful(s: State, steps: seq<Step>, up: set<nat>)
    requires Legal(s, steps)
    decreases |steps|
  {
    && Truthful(s.service, up)
    && (steps == [] || AlwaysTruthful(Next(s, steps[0]), steps[1..], up + Ups(s, steps[0])))
  }

  /** A reload that was overtaken by another one reports the success of an instance that is no longer current. */
  ghost predicate Misreports(s: State, step: Step)
    requires Enabled(s, step)
  {
    Starts(s, step) && !step.fails && s.service.instance != Some(s.calls[step.t].current)
  }

  ghost predicate AnyMisreports(s: State, steps: seq<Step>)
    requires Legal(s, steps)
    decreases |steps|
  {
    steps != [] && (Misreports(s, steps[0]) || AnyMisreports(Next(s, steps[0]), steps[1..]))
  }

  /** While the service is STARTING, the latest instance is current and its start has not ended. */
  ghost predicate StartPending(s: State, up: set<nat>) {
    && (forall i :: i in up ==> i < s.service.built)
    && (forall t :: 0 <= t < |s.calls| && s.calls[t].StartingNew? ==> s.calls[t].current < s.service.built)
    && (s.service.status.STARTING? ==>
          && s.service.built > 0 && s.service.instance == Some(s.service.built - 1)
          && s.service.built - 1 !in up)
  }

  lemma StepKeepsPending(s: State, step: Step, up: set<nat>)
    requires StartPending(s, up) && Enabled(s, step)
    ensures StartPending(Next(s, step), up + Ups(s, step))
  {
    var n := Next(s, step);
    forall t | 0 <= t < |n.calls| && n.calls[t].StartingNew? ensures n.calls[t].current < n.service.built {
      assert t != step.t ==> n.calls[t] == s.calls[t];
    }
  }

  lemma TruthfulIff(s: State, step: Step, up: set<nat>)
    requires StartPending(s, up) && Truthful(s.service, up) && Enabled(s, step)
    ensures Truthful(Next(s, step).service, up + Ups(s, step)) <==> !Misreports(s, step)
  {
  }

  /** STARTED always speaks of the current instance in exactly those runs in which no overtaken reload reports. */
  lemma {:induction false} AlwaysTruthfulIff(s: State, steps: seq<Step>, up: set<nat>)
    requires StartPending(s, up) && Truthful(s.service, up) && Legal(s, steps)
    ensures AlwaysTruthful(s, steps, up) <==> !AnyMisreports(s, steps)
    decreases |steps|
  {
    if steps != [] {
      var n, now := Next(s, steps[0]), up + Ups(s, steps[0]);
      StepKeepsPending(s, steps[0], up);
      TruthfulIff(s, steps[0], up);
      if Misreports(s, steps[0]) {
        assert !AlwaysTruthful(n, steps[1..], now);
      } else {
        AlwaysTruthfulIff(n, steps[1..], now);
      }
    }
  }

  /** For calls made on a new service. */
  lemma StartedIsTruthfulIff(calls: seq<Call>, steps: seq<Step>)
    requires Fresh(calls) && Legal(State(INITIAL, calls), steps)
    ensures AlwaysTruthful(State(INITIAL, calls), steps, {}) <==> !AnyMisreports(State(INITIAL, calls), steps)
  {
    AlwaysTruthfulIff(State(INITIAL, calls), steps, {});
  }

  /** The instances whose start succeeded in the run. */
  ghost function AllUps(s: State, steps: seq<Step>): set<nat>
    requires Legal(s, steps)
    decreases |steps|
  {
    if steps == [] then {} else Ups(s, steps[0]) + AllUps(Next(s, steps[0]), steps[1..])
  }

  /** A second reload overtakes the first while that starts; then the first start succeeds and the second fails. */
  function StaleSteps(any: bool): seq<Step> {
    [Step(0, false), Step(1, any), Step(1, any), Step(1, false), Step(0, false), Step(1, true)]
  }

  /** The first reload starts instance 0, which the second has closed, and the second starts instance 1. */
  const OVERTAKEN := State(
    Service(STARTING, Some(1), 2, {0}, [STARTING, STOPPING, STARTING]), [StartingNew(0), StartingNew(1)])

  /** Both calls have returned success and the service is STARTED, but the start of its instance did not succeed. */
  ghost predicate Deceptive(s: State, up: set<nat>) {
    && s.calls == [Returned(true), Returned(true)]
    && s.service.status.STARTED? && s.service.instance.Some? && s.service.instance.value !in up
  }

  lemma StaleStartWins(steps: seq<Step>, any: bool)
    requires steps == StaleSteps(any)
    ensures Legal(OVERTAKEN, steps[4..]) && Deceptive(Run(OVERTAKEN, steps[4..]), AllUps(OVERTAKEN, steps[4..]))
  {
    var s5 := Next(OVERTAKEN, steps[4]);
    var s6 := Next(s5, steps[5]);
    assert s6.calls == [Returned(true), Returned(true)];
    assert steps[6..] == [];
    assert Legal(s6, steps[6..]) && Run(s6, steps[6..]) == s6;
    Unroll(s5, steps[5..]);
    Unroll(OVERTAKEN, steps[4..]);
  }

  /** Two reloads return success and leave the service STARTED with an instance whose start has failed. */
  lemma OvertakenReloadReportsStarted(steps: seq<Step>, any: bool)
    requires steps == StaleSteps(any)
    ensures var s := State(INITIAL, [Reload, Reload]);
            Legal(s, steps) && Deceptive(Run(s, steps), AllUps(s, steps))
  {
    var s := State(INITIAL, [Reload, Reload]);
    StaleStartWins(steps, any);
    var s1 := Next(s, steps[0]);
    var s2 := Next(s1, steps[1]);
    var s3 := Next(s2, steps[2]);
    assert Next(s3, steps[3]) == OVERTAKEN;
    Unroll(s3, steps[3..]);
    Unroll(s2, steps[2..]);
    Unroll(s1, steps[1..]);
    Unroll(s, steps);
  }

  // ---------- Every call returns ----------

  ghost function CallWeight(c: Call): nat {
    match c
    case Reload => 4
    case ClosingOld(_) => 3
    case OldClosed(_) => 2
    case StartingNew(_) | Close | SetError => 1
    case Returned(_) => 0
  }

  ghost function Weight(calls: seq<Call>): nat {
    if calls == [] then 0 else Weight(calls[..|calls| - 1]) + CallWeight(calls[|calls| - 1])
  }

  lemma {:induction false} WeightUpdate(calls: seq<Call>, t: nat, c: Call)
    requires t < |calls|
    ensures Weight(calls[t := c]) + CallWeight(calls[t]) == Weight(calls) + CallWeight(c)
  {
    var last := |calls| - 1;
    if t == last {
      assert calls[t := c][..last] == calls[..last];
    } else {
      assert calls[t := c][..last] == calls[..last][t := c];
      WeightUpdate(calls[..last], t, c);
    }
  }

  ghost function Turns(steps: seq<Step>, t: nat): nat {
    if steps == [] then 0 else (if steps[0].t == t then 1 else 0) + Turns(steps[1..], t)
  }

  /** No call takes more than four turns. */
  lemma {:induction false} CallIsBounded(s: State, steps: seq<Step>, t: nat)
    requires Legal(s, steps) && t < |s.calls|
    ensures t < |Run(s, steps).calls|
    ensures Turns(steps, t) + CallWeight(Run(s, steps).calls[t]) <= CallWeight(s.calls[t]) <= 4
    decreases |steps|
  {
    if steps != [] { CallIsBounded(Next(s, steps[0]), steps[1..], t); }
  }

  /** So every run ends: all calls together take no more turns than they weigh. */
  lemma {:induction false} RunIsBounded(s: State, steps: seq<Step>)
    requires Legal(s, steps)
    ensures |steps| + Weight(Run(s, steps).calls) <= Weight(s.calls)
    decreases |steps|
  {
    if steps != [] {
      WeightUpdate(s.calls, steps[0].t, Next(s, steps[0]).calls[steps[0].t]);
      RunIsBounded(Next(s, steps[0]), steps[1..]);
    }
  }

  // ---------- No instance is lost ----------

  /** Every instance ever built is the current one or was closed. */
  ghost predicate NothingLost(s: Service) {
    forall i: nat :: i < s.built ==> i in s.closed || s.instance == Some(i)
  }

  /** The instance is closed, current, or some reload is about to close it. */
  ghost predicate Held(s: State, i: nat) {
    || i in s.service.closed
    || s.service.instance == Some(i)
    || exists t :: 0 <= t < |s.calls| && s.calls[t] == ClosingOld(i)
  }

  ghost predicate AllHeld(s: State) {
    forall i: nat :: i < s.service.built ==> Held(s, i)
  }

  /** The step finishes replacing an instance, and puts the new one over another that nobody has closed or will. */
  ghost predicate Overwrites(s: State, step: Step) {
    && Enabled(s, step) && s.calls[step.t].OldClosed? && !step.fails
    && s.service.instance.Some? && s.service.instance.value !in s.service.closed
    && forall u :: 0 <= u < |s.calls| ==> s.calls[u] != ClosingOld(s.service.instance.value)
  }

  ghost predicate AnyOverwrites(s: State, steps: seq<Step>)
    requires Legal(s, steps)
    decreases |steps|
  {
    steps != [] && (Overwrites(s, steps[0]) || AnyOverwrites(Next(s, steps[0]), steps[1..]))
  }

  lemma StepKeepsHeld(s: State, step: Step, i: nat)
    requires Enabled(s, step) && !Overwrites(s, step) && Held(s, i)
    ensures Held(Next(s, step), i)
  {
    var n := Next(s, step);
    if u :| 0 <= u < |s.calls| && s.calls[u] == ClosingOld(i) {
      assert u != step.t ==> n.calls[u] == ClosingOld(i);
    }
    if s.service.instance == Some(i) && s.calls[step.t].Reload? && !s.service.status.STOPPING? {
      assert n.calls[step.t] == ClosingOld(i);
    }
  }

  /** What nobody holds any more stays that way. */
  lemma StepKeepsLost(s: State, step: Step, i: nat)
    requires Enabled(s, step) && i < s.service.built && !Held(s, i)
    ensures i < Next(s, step).service.built && !Held(Next(s, step), i)
  {
    var n := Next(s, step);
    forall u | 0 <= u < |n.calls| ensures n.calls[u] != ClosingOld(i) {
      assert s.calls[u] != ClosingOld(i);
    }
    assert s.calls[step.t] != ClosingOld(i);
  }

  lemma {:induction false} RunKeepsLost(s: State, steps: seq<Step>, i: nat)
    requires Legal(s, steps) && i < s.service.built && !Held(s, i)
    ensures i < Run(s, steps).service.built && !Held(Run(s, steps), i)
    decreases |steps|
  {
    if steps != [] {
      StepKeepsLost(s, steps[0], i);
      RunKeepsLost(Next(s, steps[0]), steps[1..], i);
    }
  }

  lemma StepKeepsAllHeld(s: State, step: Step)
    requires Agrees(s.service) && AllHeld(s) && Enabled(s, step) && !Overwrites(s, step)
    ensures AllHeld(Next(s, step))
  {
    var n := Next(s, step);
    forall i: nat | i < n.service.built ensures Held(n, i) {
      if i < s.service.built { StepKeepsHeld(s, step, i); }
    }
  }

  lemma OverwriteLoses(s: State, step: Step)
    requires Agrees(s.service) && Overwrites(s, step)
    ensures s.service.instance.value < Next(s, step).service.built && !Held(Next(s, step), s.service.instance.value)
  {
    var n := Next(s, step);
    var i := s.service.instance.value;
    forall u | 0 <= u < |n.calls| ensures n.calls[u] != ClosingOld(i) {
      assert s.calls[u] != ClosingOld(i);
    }
  }

  /** Every instance stays accounted for in exactly those runs in which no step overwrites one. */
  lemma {:induction false} AllHeldIff(s: State, steps: seq<Step>)
    requires Agrees(s.service) && AllHeld(s) && Legal(s, steps)
    ensures AllHeld(Run(s, steps)) <==> !AnyOverwrites(s, steps)
    decreases |steps|
  {
    if steps != [] {
      var n := Next(s, steps[0]);
      MoveKeepsAgreement(s.service, s.calls[steps[0].t], steps[0].fails);
      if Overwrites(s, steps[0]) {
        OverwriteLoses(s, steps[0]);
        RunKeepsLost(n, steps[1..], s.service.instance.value);
      } else {
        StepKeepsAllHeld(s, steps[0]);
        AllHeldIff(n, steps[1..]);
      }
    }
  }

  ghost predicate AllReturned(s: State) {
    forall t :: 0 <= t < |s.calls| ==> s.calls[t].Returned?
  }

  /** Once every call has returned, an instance was lost if and only if some step overwrote one. */
  lemma NothingLostIff(calls: seq<Call>, steps: seq<Step>)
    requires Fresh(calls) && Legal(State(INITIAL, calls), steps) && AllReturned(Run(State(INITIAL, calls), steps))
    ensures NothingLost(Run(State(INITIAL, calls), steps).service) <==> !AnyOverwrites(State(INITIAL, calls), steps)
  {
    var s := State(INITIAL, calls);
    var end := Run(s, steps);
    AllHeldIff(s, steps);
    assert forall i: nat :: Held(end, i) <==> i in end.service.closed || end.service.instance == Some(i);
  }

  predicate Replacing(c: Call) {
    c.ClosingOld? || c.OldClosed?
  }

  /**
   While a reload replaces an instance the status is STOPPING, it is the only one, and the instance is still
   current.
   */
  ghost predicate OneReplacing(s: State) {
    && (forall t :: 0 <= t < |s.calls| && Replacing(s.calls[t]) ==>
          && s.service.status.STOPPING? && s.service.instance == Some(s.calls[t].previous)
          && (s.calls[t].OldClosed? ==> s.calls[t].previous in s.service.closed))
    && (forall t, u :: 0 <= t < u < |s.calls| ==> !(Replacing(s.calls[t]) && Replacing(s.calls[u])))
    && (s.service.status.STOPPING? ==> exists t :: 0 <= t < |s.calls| && Replacing(s.calls[t]))
  }

  ghost predicate Tidy(s: State) {
    Agrees(s.service) && OneReplacing(s)
  }

  /** The step does not report an error while the service is stopping. */
  predicate Considerate(s: State, step: Step) {
    Enabled(s, step) && (s.calls[step.t].SetError? ==> !s.service.status.STOPPING?)
  }

  lemma StepStaysTidy(s: State, step: Step)
    requires Tidy(s) && Considerate(s, step)
    ensures Tidy(Next(s, step)) && !Overwrites(s, step)
  {
    var n := Next(s, step);
    MoveKeepsAgreement(s.service, s.calls[step.t], step.fails);
    assert forall u :: 0 <= u < |s.calls| && u != step.t ==> n.calls[u] == s.calls[u];
    if Replacing(s.calls[step.t]) {
      assert forall u :: 0 <= u < |s.calls| && u != step.t ==> !Replacing(s.calls[u]);
    } else if s.service.status.STOPPING? {
      var t :| 0 <= t < |s.calls| && Replacing(s.calls[t]);
      assert n.calls[t] == s.calls[t];
    } else {
      assert forall u :: 0 <= u < |s.calls| ==> !Replacing(s.calls[u]);
    }
    if n.service.status.STOPPING? && !s.service.status.STOPPING? { assert Replacing(n.calls[step.t]); }
    if s.calls[step.t].ClosingOld? { assert Replacing(n.calls[step.t]); }
  }

  ghost predicate AllConsiderate(s: State, steps: seq<Step>)
    decreases |steps|
  {
    steps == [] || (Considerate(s, steps[0]) && AllConsiderate(Next(s, steps[0]), steps[1..]))
  }

  /**
   If no error is reported while the service is stopping, no step overwrites, and the service is STOPPING
   only while some reload is under way.
   */
  lemma {:induction false} ConsiderateRunsStayTidy(s: State, steps: seq<Step>)
    requires Tidy(s) && AllConsiderate(s, steps)
    ensures Legal(s, steps) && Tidy(Run(s, steps)) && !AnyOverwrites(s, steps)
    decreases |steps|
  {
    if steps != [] {
      StepStaysTidy(s, steps[0]);
      ConsiderateRunsStayTidy(Next(s, steps[0]), steps[1..]);
    }
  }

  /** So no instance is lost in such a run, wherever it stands. */
  lemma ConsiderateRunsLoseNothing(calls: seq<Call>, steps: seq<Step>)
    requires Fresh(calls) && AllConsiderate(State(INITIAL, calls), steps)
    ensures Legal(State(INITIAL, calls), steps) && NothingLost(Run(State(INITIAL, calls), steps).service)
  {
    var s := State(INITIAL, calls);
    ConsiderateRunsStayTidy(s, steps);
    AllHeldIff(s, steps);
    var end := Run(s, steps);
    forall i: nat | i < end.service.built ensures i in end.service.closed || end.service.instance == Some(i) {
      assert Held(end, i);
    }
  }

  /** Every call has returned, and some instance was neither kept nor closed. */
  ghost predicate Lost(s: State) {
    AllReturned(s) && !NothingLost(s.service)
  }

  /** Three reloads and a reported error; `any` is the unused result of the report. */
  function LosingSteps(any: bool): seq<Step> {
    [Step(0, false), Step(0, false), Step(1, false), Step(3, any), Step(2, false), Step(1, false),
     Step(1, false), Step(2, false), Step(2, false), Step(1, false), Step(2, false)]
  }

  const START := State(INITIAL, [Reload, Reload, Reload, SetError])

  /** After five steps two reloads are about to close the same instance. */
  const TWO_CLOSING := State(
    Service(STOPPING, Some(0), 1, {}, [STARTING, STARTED, STOPPING, FATAL, STOPPING]),
    [Returned(true), ClosingOld(0), ClosingOld(0), Returned(true)])

  lemma SecondBuildOverwrites(steps: seq<Step>, any: bool)
    requires steps == LosingSteps(any)
    ensures Legal(TWO_CLOSING, steps[5..])
    ensures Lost(Run(TWO_CLOSING, steps[5..]))
  {
    var s6 := Next(TWO_CLOSING, steps[5]);
    var s7 := Next(s6, steps[6]);
    var s8 := Next(s7, steps[7]);
    var s9 := Next(s8, steps[8]);
    var s10 := Next(s9, steps[9]);
    var s11 := Next(s10, steps[10]);
    assert s11.service.built == 3 && s11.service.instance == Some(2) && s11.service.closed == {0};
    assert steps[11..] == [];
    assert Legal(s11, steps[11..]) && Run(s11, steps[11..]) == s11;
    Unroll(s10, steps[10..]);
    Unroll(s9, steps[9..]);
    Unroll(s8, steps[8..]);
    Unroll(s7, steps[7..]);
    Unroll(s6, steps[6..]);
    Unroll(TWO_CLOSING, steps[5..]);
  }

  lemma TwoReloadsClose(steps: seq<Step>, any: bool)
    requires steps == LosingSteps(any) && Legal(TWO_CLOSING, steps[5..])
    ensures Legal(START, steps) && Run(START, steps) == Run(TWO_CLOSING, steps[5..])
  {
    var s1 := Next(START, steps[0]);
    var s2 := Next(s1, steps[1]);
    var s3 := Next(s2, steps[2]);
    var s4 := Next(s3, steps[3]);
    assert Next(s4, steps[4]) == TWO_CLOSING;
    Unroll(s4, steps[4..]);
    Unroll(s3, steps[3..]);
    Unroll(s2, steps[2..]);
    Unroll(s1, steps[1..]);
    Unroll(START, steps);
  }

  /**
   An error reported while a reload closes the old instance lets a second reload in, and the instance the
   first one builds is overwritten without being closed.
   */
  lemma ErrorWhileStoppingLosesInstance(steps: seq<Step>, any: bool)
    requires steps == LosingSteps(any)
    ensures Legal(START, steps) && Lost(Run(START, steps))
  {
    SecondBuildOverwrites(steps, any);
    TwoReloadsClose(steps, any);
  }

  lemma Unroll(s: State, steps: seq<Step>)
    requires steps != [] && Enabled(s, steps[0]) && Legal(Next(s, steps[0]), steps[1..])
    ensures Legal(s, steps) && Run(s, steps) == Run(Next(s, steps[0]), steps[1..])
    ensures AllUps(s, steps) == Ups(s, steps[0]) + AllUps(Next(s, steps[0]), steps[1..])
  {
  }
}
