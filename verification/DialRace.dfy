/**
 Racing dials: one goroutine per interface, an unbuffered result channel, and a one-shot timer that
 launches the fallback dials. Every interleaving of racers, timer and main loop is a sequence of steps.
 */
module DialRace {

  /** One dialing goroutine. A racer that holds a result is inside its final select. */
  datatype Racer =
    | Waiting     // a fallback racer that has not been launched
    | Dialing
    | HoldsConn
    | HoldsError
    | SentConn
    | SentError
    | ClosedConn  // the main loop had returned: the connection was closed instead of sent
    | DroppedError
  {
    predicate Opened() { HoldsConn? || SentConn? || ClosedConn? }
    predicate Holds() { HoldsConn? || HoldsError? }
    predicate Finished() { SentConn? || SentError? || ClosedConn? || DroppedError? }
  }

  /** `Due`: expired with its tick not yet received. `Fired`: the tick was received. */
  datatype Timer = NoTimer | Armed | Due | Fired

  datatype Main = Looping | ReturnedConn(winner: nat) | ReturnedErrors | NoInterface

  /** Racers below `primaries` are the primary ones; `errors` lists the racers whose error was received. */
  datatype State = State(primaries: nat, racers: seq<Racer>, timer: Timer, errors: seq<nat>, main: Main)

  /** `drained`: a Stop on an expired timer withdraws the pending tick and reports success (Go 1.23 and later). */
  datatype Step =
    | TimerExpires
    | LaunchFallback
    | DialSucceeds(racer: nat)
    | DialFails(racer: nat)
    | Deliver(racer: nat, drained: bool)
    | Abandon(racer: nat)

  /** `eager` is the fast-fallback variant: fallback racers start at once and there is no timer. */
  function Initial(primaries: nat, fallbacks: nat, eager: bool): State {
    State(primaries,
          seq(primaries, _ => Dialing) + seq(fallbacks, _ => if eager then Dialing else Waiting),
          if fallbacks > 0 && !eager then Armed else NoTimer,
          [],
          if primaries + fallbacks == 0 then NoInterface else Looping)
  }

  predicate Enabled(s: State, step: Step) {
    match step
    case TimerExpires => s.main.Looping? && s.timer.Armed?
    case LaunchFallback => s.main.Looping? && s.timer.Due?
    case DialSucceeds(i) => i < |s.racers| && s.racers[i].Dialing?
    case DialFails(i) => i < |s.racers| && s.racers[i].Dialing?
    case Deliver(i, _) => s.main.Looping? && i < |s.racers| && s.racers[i].Holds()
    case Abandon(i) => !s.main.Looping? && i < |s.racers| && s.racers[i].Holds()
  }

  function Launched(racers: seq<Racer>): seq<Racer> {
    seq(|racers|, i requires 0 <= i < |racers| => if racers[i].Waiting? then Dialing else racers[i])
  }

  /** `if fallbackTimer.Stop() { fallbackTimer.Reset(0) }` */
  function Hastened(timer: Timer, drained: bool): Timer {
    if timer.Due? && drained then Armed else timer
  }

  function Next(s: State, step: Step): State
    requires Enabled(s, step)
  {
    match step
    case TimerExpires => s.(timer := Due)
    case LaunchFallback => s.(timer := Fired, racers := Launched(s.racers))
    case DialSucceeds(i) => s.(racers := s.racers[i := HoldsConn])
    case DialFails(i) => s.(racers := s.racers[i := HoldsError])
    case Deliver(i, drained) =>
      if s.racers[i].HoldsConn? then
        s.(racers := s.racers[i := SentConn], main := ReturnedConn(i))
      else
        var received := s.(racers := s.racers[i := SentError], errors := s.errors + [i]);
        if |received.errors| == |s.racers| then received.(main := ReturnedErrors)
        else if i < s.primaries then received.(timer := Hastened(s.timer, drained))
        else received
    case Abandon(i) =>
      s.(racers := s.racers[i := if s.racers[i].HoldsConn? then ClosedConn else DroppedError])
  }

  ghost predicate Legal(s: State, steps: seq<Step>)
    decreases |steps|
  {
    steps == [] || (Enabled(s, steps[0]) && Legal(Next(s, steps[0]), steps[1..]))
  }

  ghost function Run(s: State, steps: seq<Step>): State
    requires Legal(s, steps)
    decreases |steps|
  {
    if steps == [] then s else Run(Next(s, steps[0]), steps[1..])
  }

  // ---------- What every interleaving keeps ----------

  function SentErrors(racers: seq<Racer>): nat {
    if racers == [] then 0
    else SentErrors(racers[..|racers| - 1]) + if racers[|racers| - 1].SentError? then 1 else 0
  }

  ghost predicate TimerExact(s: State) {
    forall r :: 0 <= r < |s.racers| ==>
      (s.racers[r].Waiting? <==> r >= s.primaries && (s.timer.Armed? || s.timer.Due?))
  }

  ghost predicate MainExact(s: State) {
    match s.main
    case Looping =>
      |s.errors| < |s.racers| &&
      forall r :: 0 <= r < |s.racers| ==>
        !s.racers[r].SentConn? && !s.racers[r].ClosedConn? && !s.racers[r].DroppedError?
    case ReturnedConn(w) =>
      w < |s.racers| && forall r :: 0 <= r < |s.racers| ==> (s.racers[r].SentConn? <==> r == w)
    case ReturnedErrors => |s.errors| == |s.racers|
    case NoInterface => |s.racers| == 0
  }

  ghost predicate Inv(s: State) {
    s.primaries <= |s.racers| && |s.errors| == SentErrors(s.racers) && TimerExact(s) && MainExact(s)
  }

  lemma {:induction false} SentErrorsUpdate(racers: seq<Racer>, i: nat, r: Racer)
    requires i < |racers| && !racers[i].SentError?
    ensures SentErrors(racers[i := r]) == SentErrors(racers) + if r.SentError? then 1 else 0
  {
    var last := |racers| - 1;
    if i == last {
      assert racers[i := r][..last] == racers[..last];
    } else {
      assert racers[i := r][..last] == racers[..last][i := r];
      SentErrorsUpdate(racers[..last], i, r);
    }
  }

  lemma {:induction false} SentErrorsLaunched(racers: seq<Racer>)
    ensures SentErrors(Launched(racers)) == SentErrors(racers)
  {
    if racers != [] {
      var last := |racers| - 1;
      assert Launched(racers)[..last] == Launched(racers[..last]);
      SentErrorsLaunched(racers[..last]);
    }
  }

  lemma {:induction false} SentErrorsFull(racers: seq<Racer>)
    ensures SentErrors(racers) <= |racers|
    ensures SentErrors(racers) == |racers| <==> forall r :: 0 <= r < |racers| ==> racers[r].SentError?
  {
    if racers != [] { SentErrorsFull(racers[..|racers| - 1]); }
  }

  lemma {:induction false} NoSentErrors(racers: seq<Racer>)
    requires forall r :: 0 <= r < |racers| ==> !racers[r].SentError?
    ensures SentErrors(racers) == 0
  {
    if racers != [] { NoSentErrors(racers[..|racers| - 1]); }
  }

  lemma InitialInv(primaries: nat, fallbacks: nat, eager: bool)
    ensures Inv(Initial(primaries, fallbacks, eager))
  {
    NoSentErrors(Initial(primaries, fallbacks, eager).racers);
  }

  lemma DeliverKeepsInv(s: State, i: nat, drained: bool)
    requires Inv(s) && Enabled(s, Deliver(i, drained))
    ensures Inv(Next(s, Deliver(i, drained)))
  {
    SentErrorsUpdate(s.racers, i, if s.racers[i].HoldsConn? then SentConn else SentError);
    SentErrorsFull(Next(s, Deliver(i, drained)).racers);
  }

  lemma LaunchKeepsInv(s: State)
    requires Inv(s) && Enabled(s, LaunchFallback)
    ensures Inv(Next(s, LaunchFallback))
  {
    SentErrorsLaunched(s.racers);
  }

  lemma AbandonKeepsInv(s: State, i: nat)
    requires Inv(s) && Enabled(s, Abandon(i))
    ensures Inv(Next(s, Abandon(i)))
  {
    SentErrorsUpdate(s.racers, i, if s.racers[i].HoldsConn? then ClosedConn else DroppedError);
  }

  lemma StepKeepsInv(s: State, step: Step)
    requires Inv(s) && Enabled(s, step)
    ensures Inv(Next(s, step))
  {
    match step
    case TimerExpires =>
    case LaunchFallback => LaunchKeepsInv(s);
    case DialSucceeds(i) => SentErrorsUpdate(s.racers, i, HoldsConn);
    case DialFails(i) => SentErrorsUpdate(s.racers, i, HoldsError);
    case Deliver(i, drained) => DeliverKeepsInv(s, i, drained);
    case Abandon(i) => AbandonKeepsInv(s, i);
  }

  lemma {:induction false} RunKeepsInv(s: State, steps: seq<Step>)
    requires Inv(s) && Legal(s, steps)
    ensures Inv(Run(s, steps)) && |Run(s, steps).racers| == |s.racers|
    decreases |steps|
  {
    if steps != [] {
      StepKeepsInv(s, steps[0]);
      RunKeepsInv(Next(s, steps[0]), steps[1..]);
    }
  }

  /** The received errors are those of the racers that sent one, each of them once. */
  ghost predicate ErrorsListed(s: State) {
    && (forall r: nat :: r in s.errors <==> r < |s.racers| && s.racers[r].SentError?)
    && (forall i, j :: 0 <= i < j < |s.errors| ==> s.errors[i] != s.errors[j])
  }

  lemma StepKeepsListed(s: State, step: Step)
    requires ErrorsListed(s) && Enabled(s, step)
    ensures ErrorsListed(Next(s, step))
  {
    var n := Next(s, step);
    forall r: nat ensures r in n.errors <==> r < |n.racers| && n.racers[r].SentError? {
      assert r in s.errors <==> r < |s.racers| && s.racers[r].SentError?;
      assert r in n.errors <==> r in s.errors || (|n.errors| > |s.errors| && r == n.errors[|s.errors|]);
    }
  }

  /** In every run the list is exact and in the order of arrival: what was received stays at its place. */
  lemma {:induction false} RunKeepsListed(s: State, steps: seq<Step>)
    requires ErrorsListed(s) && Legal(s, steps)
    ensures ErrorsListed(Run(s, steps)) && s.errors <= Run(s, steps).errors
    decreases |steps|
  {
    if steps != [] {
      StepKeepsListed(s, steps[0]);
      RunKeepsListed(Next(s, steps[0]), steps[1..]);
    }
  }

  /** Errors are returned only after every primary and every fallback attempt was launched and failed. */
  lemma ErrorMeansAllFailed(s: State)
    requires Inv(s) && s.main.ReturnedErrors?
    ensures forall r :: 0 <= r < |s.racers| ==> s.racers[r].SentError?
  {
    SentErrorsFull(s.racers);
  }

  // ---------- Histories ----------

  ghost function Launches(steps: seq<Step>): nat {
    if steps == [] then 0 else (if steps[0].LaunchFallback? then 1 else 0) + Launches(steps[1..])
  }

  lemma {:induction false} FallbackLaunchedAtMostOnce(s: State, steps: seq<Step>)
    requires Inv(s) && Legal(s, steps)
    ensures Launches(steps) <= if s.timer.Armed? || s.timer.Due? then 1 else 0
    decreases |steps|
  {
    if steps != [] {
      StepKeepsInv(s, steps[0]);
      FallbackLaunchedAtMostOnce(Next(s, steps[0]), steps[1..]);
    }
  }

  /** A racer has opened a connection at the end of a run exactly when its dial succeeded during it. */
  lemma {:induction false} OpenedIffDialSucceeded(s: State, steps: seq<Step>, r: nat)
    requires Legal(s, steps) && r < |s.racers|
    ensures |Run(s, steps).racers| == |s.racers|
    ensures Run(s, steps).racers[r].Opened() <==> s.racers[r].Opened() || DialSucceeds(r) in steps
    decreases |steps|
  {
    if steps != [] {
      assert steps == [steps[0]] + steps[1..];
      OpenedIffDialSucceeded(Next(s, steps[0]), steps[1..], r);
    }
  }

  // ---------- Every run ends, and ends clean ----------

  ghost function RacerWeight(r: Racer): nat {
    if r.Waiting? || r.Dialing? then 4 else if r.Holds() then 2 else 0
  }

  ghost function TimerWeight(t: Timer): nat {
    if t.Armed? then 2 else if t.Due? then 1 else 0
  }

  ghost function RacersWeight(racers: seq<Racer>): nat {
    if racers == [] then 0 else RacersWeight(racers[..|racers| - 1]) + RacerWeight(racers[|racers| - 1])
  }

  ghost function Weight(s: State): nat {
    RacersWeight(s.racers) + TimerWeight(s.timer)
  }

  lemma {:induction false} WeightUpdate(racers: seq<Racer>, i: nat, r: Racer)
    requires i < |racers|
    ensures RacersWeight(racers[i := r]) + RacerWeight(racers[i]) == RacersWeight(racers) + RacerWeight(r)
  {
    var last := |racers| - 1;
    if i == last {
      assert racers[i := r][..last] == racers[..last];
    } else {
      assert racers[i := r][..last] == racers[..last][i := r];
      WeightUpdate(racers[..last], i, r);
    }
  }

  lemma {:induction false} WeightSame(a: seq<Racer>, b: seq<Racer>)
    requires |a| == |b| && forall i :: 0 <= i < |a| ==> RacerWeight(a[i]) == RacerWeight(b[i])
    ensures RacersWeight(a) == RacersWeight(b)
  {
    if a != [] { WeightSame(a[..|a| - 1], b[..|b| - 1]); }
  }

  lemma StepLosesWeight(s: State, step: Step)
    requires Enabled(s, step)
    ensures Weight(Next(s, step)) < Weight(s)
  {
    match step
    case TimerExpires =>
    case LaunchFallback => WeightSame(s.racers, Launched(s.racers));
    case DialSucceeds(i) => WeightUpdate(s.racers, i, HoldsConn);
    case DialFails(i) => WeightUpdate(s.racers, i, HoldsError);
    case Deliver(i, _) => WeightUpdate(s.racers, i, if s.racers[i].HoldsConn? then SentConn else SentError);
    case Abandon(i) => WeightUpdate(s.racers, i, if s.racers[i].HoldsConn? then ClosedConn else DroppedError);
  }

  lemma {:induction false} RunIsBounded(s: State, steps: seq<Step>)
    requires Legal(s, steps)
    ensures |steps| + Weight(Run(s, steps)) <= Weight(s)
    decreases |steps|
  {
    if steps != [] {
      StepLosesWeight(s, steps[0]);
      RunIsBounded(Next(s, steps[0]), steps[1..]);
    }
  }

  lemma {:induction false} InitialWeight(racers: seq<Racer>)
    ensures RacersWeight(racers) <= 4 * |racers|
  {
    if racers != [] { InitialWeight(racers[..|racers| - 1]); }
  }

  ghost predicate Quiescent(s: State) {
    forall step :: !Enabled(s, step)
  }

  /** No deadlock and no leak: where nothing can move, the call has returned and every launched racer is done. */
  lemma QuiescentMeansDone(s: State)
    requires Inv(s) && Quiescent(s)
    ensures !s.main.Looping?
    ensures forall r :: 0 <= r < |s.racers| ==> s.racers[r].Finished() || s.racers[r].Waiting?
    ensures forall r :: 0 <= r < |s.racers| && s.racers[r].Opened() ==>
              (s.main == ReturnedConn(r) <==> !s.racers[r].ClosedConn?)
  {
    forall r | 0 <= r < |s.racers|
      ensures s.racers[r].Finished() || s.racers[r].Waiting?
    {
      assert !Enabled(s, DialFails(r)) && !Enabled(s, Deliver(r, true)) && !Enabled(s, Abandon(r));
    }
    assert !Enabled(s, TimerExpires) && !Enabled(s, LaunchFallback);
    SentErrorsFull(s.racers);
  }

  /** What an error return means: every dial failed, and the error of every racer is listed once. */
  ghost predicate AllFailed(s: State, n: nat, steps: seq<Step>) {
    && |s.errors| == n
    && (forall i, j :: 0 <= i < j < |s.errors| ==> s.errors[i] != s.errors[j])
    && (forall r: nat :: r < n ==> r in s.errors && DialSucceeds(r) !in steps)
  }

  /** What rest means: the call has returned, and every opened connection is the one returned or was closed. */
  ghost predicate AtRest(s: State, n: nat, steps: seq<Step>) {
    && !s.main.Looping? && |s.racers| == n
    && (forall r :: 0 <= r < n && DialSucceeds(r) in steps ==>
          (s.main == ReturnedConn(r) <==> !s.racers[r].ClosedConn?))
  }

  /** A racer of a race from the start has opened a connection exactly when its dial succeeded. */
  lemma OpenedInRace(primaries: nat, fallbacks: nat, eager: bool, steps: seq<Step>, r: nat)
    requires Legal(Initial(primaries, fallbacks, eager), steps) && r < primaries + fallbacks
    ensures var s := Run(Initial(primaries, fallbacks, eager), steps);
            r < |s.racers| && (s.racers[r].Opened() <==> DialSucceeds(r) in steps)
  {
    OpenedIffDialSucceeded(Initial(primaries, fallbacks, eager), steps, r);
  }

  lemma RaceFails(primaries: nat, fallbacks: nat, eager: bool, steps: seq<Step>)
    requires Legal(Initial(primaries, fallbacks, eager), steps)
    requires Run(Initial(primaries, fallbacks, eager), steps).main.ReturnedErrors?
    ensures AllFailed(Run(Initial(primaries, fallbacks, eager), steps), primaries + fallbacks, steps)
  {
    var init := Initial(primaries, fallbacks, eager);
    var s := Run(init, steps);
    InitialInv(primaries, fallbacks, eager);
    RunKeepsInv(init, steps);
    RunKeepsListed(init, steps);
    ErrorMeansAllFailed(s);
    forall r: nat | r < primaries + fallbacks ensures r in s.errors && DialSucceeds(r) !in steps {
      OpenedInRace(primaries, fallbacks, eager, steps, r);
      assert s.racers[r].SentError?;
    }
  }

  lemma RaceRests(primaries: nat, fallbacks: nat, eager: bool, steps: seq<Step>)
    requires Legal(Initial(primaries, fallbacks, eager), steps)
    requires Quiescent(Run(Initial(primaries, fallbacks, eager), steps))
    ensures AtRest(Run(Initial(primaries, fallbacks, eager), steps), primaries + fallbacks, steps)
  {
    var init := Initial(primaries, fallbacks, eager);
    var s := Run(init, steps);
    InitialInv(primaries, fallbacks, eager);
    RunKeepsInv(init, steps);
    QuiescentMeansDone(s);
    forall r | 0 <= r < primaries + fallbacks && DialSucceeds(r) in steps
      ensures s.main == ReturnedConn(r) <==> !s.racers[r].ClosedConn?
    {
      OpenedInRace(primaries, fallbacks, eager, steps, r);
    }
  }

  /**
   The race as a whole: from the initial state every run is short, and a run that cannot be prolonged has
   returned; every connection whose dial succeeded is then the one returned or was closed, never both; an
   error return means that every dial failed, and lists the error of every racer once.
   */
  lemma RaceIsClean(primaries: nat, fallbacks: nat, eager: bool, steps: seq<Step>)
    requires Legal(Initial(primaries, fallbacks, eager), steps)
    ensures |steps| <= 4 * (primaries + fallbacks) + 2 && Launches(steps) <= 1
    ensures var s := Run(Initial(primaries, fallbacks, eager), steps);
            && (s.main.ReturnedErrors? ==> AllFailed(s, primaries + fallbacks, steps))
            && (Quiescent(s) ==> AtRest(s, primaries + fallbacks, steps))
  {
    var init := Initial(primaries, fallbacks, eager);
    InitialInv(primaries, fallbacks, eager);
    RunIsBounded(init, steps);
    InitialWeight(init.racers);
    FallbackLaunchedAtMostOnce(init, steps);
    var s := Run(init, steps);
    if s.main.ReturnedErrors? { RaceFails(primaries, fallbacks, eager, steps); }
    if Quiescent(s) { RaceRests(primaries, fallbacks, eager, steps); }
  }

  // ---------- The two-family race ----------

  /** `DialParallelNetwork`: racer 0 dials the preferred address family in turn, racer 1 the other one. */
  datatype Network = Network(
    preferred: Racer, other: Racer, timer: Timer, preferredDone: bool, otherDone: bool, main: NetworkMain)

  datatype NetworkMain = NetworkLooping | NetworkConn(fromPreferred: bool) | NetworkPreferredError

  const NetworkInitial := Network(Dialing, Waiting, Armed, false, false, NetworkLooping)

  predicate NetworkEnabled(n: Network, step: Step) {
    match step
    case TimerExpires => n.main.NetworkLooping? && n.timer.Armed?
    case LaunchFallback => n.main.NetworkLooping? && n.timer.Due?
    case DialSucceeds(i) => i < 2 && NetworkRacer(n, i).Dialing?
    case DialFails(i) => i < 2 && NetworkRacer(n, i).Dialing?
    case Deliver(i, _) => n.main.NetworkLooping? && i < 2 && NetworkRacer(n, i).Holds()
    case Abandon(i) => !n.main.NetworkLooping? && i < 2 && NetworkRacer(n, i).Holds()
  }

  function NetworkRacer(n: Network, i: nat): Racer {
    if i == 0 then n.preferred else n.other
  }

  function WithRacer(n: Network, i: nat, r: Racer): Network {
    if i == 0 then n.(preferred := r) else n.(other := r)
  }

  function NetworkNext(n: Network, step: Step): Network
    requires NetworkEnabled(n, step)
  {
    match step
    case TimerExpires => n.(timer := Due)
    case LaunchFallback => n.(timer := Fired, other := Dialing)
    case DialSucceeds(i) => WithRacer(n, i, HoldsConn)
    case DialFails(i) => WithRacer(n, i, HoldsError)
    case Deliver(i, drained) =>
      if NetworkRacer(n, i).HoldsConn? then WithRacer(n, i, SentConn).(main := NetworkConn(i == 0))
      else
        var received := if i == 0 then WithRacer(n, i, SentError).(preferredDone := true)
                        else WithRacer(n, i, SentError).(otherDone := true);
        if received.preferredDone && received.otherDone then received.(main := NetworkPreferredError)
        else if i == 0 then received.(timer := Hastened(n.timer, drained))
        else received
    case Abandon(i) => WithRacer(n, i, if NetworkRacer(n, i).HoldsConn? then ClosedConn else DroppedError)
  }

  ghost predicate NetworkLegal(n: Network, steps: seq<Step>)
    decreases |steps|
  {
    steps == [] || (NetworkEnabled(n, steps[0]) && NetworkLegal(NetworkNext(n, steps[0]), steps[1..]))
  }

  ghost function NetworkRun(n: Network, steps: seq<Step>): Network
    requires NetworkLegal(n, steps)
    decreases |steps|
  {
    if steps == [] then n else NetworkRun(NetworkNext(n, steps[0]), steps[1..])
  }

  /** The two done flags stand for the list of received errors of a race with one racer on each side. */
  ghost predicate Simulates(s: State, n: Network) {
    && s.primaries == 1
    && s.racers == [n.preferred, n.other]
    && s.timer == n.timer
    && |s.errors| == (if n.preferredDone then 1 else 0) + (if n.otherDone then 1 else 0)
    && (n.preferredDone <==> n.preferred.SentError?)
    && (n.otherDone <==> n.other.SentError?)
    && match n.main
       case NetworkLooping => s.main.Looping?
       case NetworkConn(fromPreferred) => s.main == ReturnedConn(if fromPreferred then 0 else 1)
       case NetworkPreferredError => s.main.ReturnedErrors?
  }

  lemma SimulatesEnabled(s: State, n: Network, step: Step)
    requires Simulates(s, n)
    ensures Enabled(s, step) <==> NetworkEnabled(n, step)
  {
  }

  lemma SimulatesStep(s: State, n: Network, step: Step)
    requires Inv(s) && Simulates(s, n) && NetworkEnabled(n, step)
    ensures Enabled(s, step) && Simulates(Next(s, step), NetworkNext(n, step))
  {
  }

  lemma {:induction false} SimulatesRun(s: State, n: Network, steps: seq<Step>)
    requires Inv(s) && Simulates(s, n) && NetworkLegal(n, steps)
    ensures Legal(s, steps) && Simulates(Run(s, steps), NetworkRun(n, steps))
    decreases |steps|
  {
    if steps != [] {
      SimulatesStep(s, n, steps[0]);
      StepKeepsInv(s, steps[0]);
      SimulatesRun(Next(s, steps[0]), NetworkNext(n, steps[0]), steps[1..]);
    }
  }

  /**
   Every run of the two-family race is a run of the interface race with one racer per side. Hence at most
   ten steps, one launch of the other family, and the preferred family's error only when both failed.
   */
  lemma NetworkRaceIsClean(steps: seq<Step>)
    requires NetworkLegal(NetworkInitial, steps)
    ensures Legal(Initial(1, 1, false), steps)
    ensures Simulates(Run(Initial(1, 1, false), steps), NetworkRun(NetworkInitial, steps))
    ensures |steps| <= 10 && Launches(steps) <= 1
    ensures var n := NetworkRun(NetworkInitial, steps);
            n.main.NetworkPreferredError? ==>
              n.preferred.SentError? && n.other.SentError? && DialSucceeds(0) !in steps && DialSucceeds(1) !in steps
    ensures var n := NetworkRun(NetworkInitial, steps);
            (forall step :: !NetworkEnabled(n, step)) ==>
              && !n.main.NetworkLooping?
              && (DialSucceeds(0) in steps ==> (n.main == NetworkConn(true) <==> !n.preferred.ClosedConn?))
              && (DialSucceeds(1) in steps ==> (n.main == NetworkConn(false) <==> !n.other.ClosedConn?))
  {
    InitialInv(1, 1, false);
    assert Initial(1, 1, false).racers == [Dialing, Waiting];
    SimulatesRun(Initial(1, 1, false), NetworkInitial, steps);
    RaceIsClean(1, 1, false, steps);
    var s := Run(Initial(1, 1, false), steps);
    var n := NetworkRun(NetworkInitial, steps);
    assert s.racers[0] == n.preferred && s.racers[1] == n.other;
    if forall step :: !NetworkEnabled(n, step) {
      forall step ensures !Enabled(s, step) { SimulatesEnabled(s, n, step); }
    }
  }

  /** The serial attempts inside one racer: addresses are dialed in order up to the first success. */
  method DialSerial(dials: seq<bool>) returns (conn: bool, attempts: nat)
    ensures conn <==> true in dials
    ensures conn ==> 0 < attempts <= |dials| && dials[attempts - 1] && true !in dials[..attempts - 1]
    ensures !conn ==> attempts == |dials|
  {
    attempts := 0;
    while attempts < |dials|
      invariant attempts <= |dials| && true !in dials[..attempts]
    {
      attempts := attempts + 1;
      if dials[attempts - 1] { return true, attempts; }
    }
    conn := false;
  }
}
