/**
 The per-question lock of the DNS client: the first exchange of a question registers a channel, later ones
 wait for that channel to be closed. While an exchange queries its server it may begin further ones, to
 resolve that server's name, and it ends only after them. Every interleaving of any number of exchanges is
 a sequence of steps.
 */
module SingleFlight {
  import opened Wrappers

  /** Exchange `t` makes one channel, named `t`. */
  datatype Phase =
    | Arriving
    | Waiting(channel: nat)
    | Owning            // registered its own channel
    | Unregistered      // deferred: entry deleted, channel not yet closed
    | Proceeding        // was woken, or does not use the cache; queries without holding the lock
    | Finished(owned: bool)

  /** `parents[t]` is the exchange whose query begins `t`, if one does. */
  datatype State = State(
    questions: seq<nat>, parents: seq<Option<nat>>, phases: seq<Phase>, locks: map<nat, nat>, closed: seq<nat>)

  datatype Step =
    | LoadOrStore(t: nat)
    | Bypass(t: nat)   // the cache is disabled for this exchange
    | Wake(t: nat)
    | Cancel(t: nat)   // the context of a waiter is done
    | Delete(t: nat)
    | CloseChannel(t: nat)
    | Return(t: nat)

  /** Parents come before their children. */
  ghost predicate Nested(questions: seq<nat>, parents: seq<Option<nat>>) {
    && |questions| == |parents|
    && forall t :: 0 <= t < |parents| && parents[t].Some? ==> parents[t].value < t
  }

  function Initial(questions: seq<nat>, parents: seq<Option<nat>>): State {
    State(questions, parents, seq(|questions|, _ => Arriving), map[], [])
  }

  predicate Active(p: Phase) {
    !p.Arriving? && !p.Finished?
  }

  /** The exchange may be inside its server query. */
  predicate Querying(p: Phase) {
    p.Owning? || p.Proceeding?
  }

  predicate MayBegin(s: State, t: nat)
    requires t < |s.parents|
  {
    s.parents[t].None? || (s.parents[t].value < |s.phases| && Querying(s.phases[s.parents[t].value]))
  }

  predicate ChildrenDone(s: State, t: nat) {
    forall u :: 0 <= u < |s.parents| && u < |s.phases| && s.parents[u] == Some(t) ==> !Active(s.phases[u])
  }

  predicate Enabled(s: State, step: Step) {
    step.t < |s.phases| && step.t < |s.questions| && step.t < |s.parents| &&
    match step
    case LoadOrStore(t) => s.phases[t].Arriving? && MayBegin(s, t)
    case Bypass(t) => s.phases[t].Arriving? && MayBegin(s, t)
    case Wake(t) => s.phases[t].Waiting? && s.phases[t].channel in s.closed
    case Cancel(t) => s.phases[t].Waiting?
    case Delete(t) => s.phases[t].Owning? && ChildrenDone(s, t)
    case CloseChannel(t) => s.phases[t].Unregistered?
    case Return(t) => s.phases[t].Proceeding? && ChildrenDone(s, t)
  }

  function Next(s: State, step: Step): State
    requires Enabled(s, step)
  {
    match step
    case LoadOrStore(t) =>
      var q := s.questions[t];
      if q in s.locks then s.(phases := s.phases[t := Waiting(s.locks[q])])
      else s.(phases := s.phases[t := Owning], locks := s.locks[q := t])
    case Bypass(t) => s.(phases := s.phases[t := Proceeding])
    case Wake(t) => s.(phases := s.phases[t := Proceeding])
    case Cancel(t) => s.(phases := s.phases[t := Finished(false)])
    case Delete(t) => s.(phases := s.phases[t := Unregistered], locks := s.locks - {s.questions[t]})
    case CloseChannel(t) => s.(phases := s.phases[t := Finished(true)], closed := s.closed + [t])
    case Return(t) => s.(phases := s.phases[t := Finished(false)])
  }

  ghost predicate Legal(s: State, steps: seq<Step>)
    decreases |steps|
  {
    steps == [] || (Enabled(s, steps[0]) && Legal(Next(s, steps[0]), steps[1..]))
  }

  ghost function Run(s: State, steps: seq<Step>): State
    requires Legal(s, steps)
    decreases |steps|
  {
    if steps == [] then s else Run(Next(s, steps[0]), steps[1..])
  }

  lemma Prepend(s: State, step: Step, rest: seq<Step>)
    requires Enabled(s, step) && Legal(Next(s, step), rest)
    ensures Legal(s, [step] + rest) && Run(s, [step] + rest) == Run(Next(s, step), rest)
  {
    assert ([step] + rest)[1..] == rest;
  }

  // ---------- What every interleaving keeps ----------

  /** A question has an entry exactly while one exchange owns it, and the entry is that owner's channel. */
  ghost predicate LocksExact(s: State)
    requires |s.questions| == |s.phases|
  {
    && (forall q :: q in s.locks ==>
          s.locks[q] < |s.phases| && s.phases[s.locks[q]].Owning? && s.questions[s.locks[q]] == q)
    && (forall t :: 0 <= t < |s.phases| && s.phases[t].Owning? ==>
          s.questions[t] in s.locks && s.locks[s.questions[t]] == t)
  }

  /** The closed channels are those of the finished owners, each closed once. */
  ghost predicate ClosedExact(s: State)
    requires |s.questions| == |s.phases|
  {
    && (forall i, j :: 0 <= i < j < |s.closed| ==> s.closed[i] != s.closed[j])
    && (forall c: nat :: c in s.closed <==> c < |s.phases| && s.phases[c] == Finished(true))
  }

  /** A waiter waits on a channel of its own question that is closed or whose owner is still there to close it. */
  ghost predicate WaitersServed(s: State)
    requires |s.questions| == |s.phases|
  {
    forall t :: 0 <= t < |s.phases| && s.phases[t].Waiting? ==>
      var c := s.phases[t].channel;
      && c < |s.phases| && c != t && s.questions[c] == s.questions[t]
      && (s.phases[c].Owning? || s.phases[c].Unregistered? || s.phases[c] == Finished(true))
  }

  /** Whoever is under way was begun by an exchange that is still querying. */
  ghost predicate ParentsQuery(s: State)
    requires |s.parents| == |s.phases|
  {
    forall t :: 0 <= t < |s.phases| && Active(s.phases[t]) ==> MayBegin(s, t)
  }

  ghost predicate Inv(s: State) {
    && Nested(s.questions, s.parents) && |s.questions| == |s.phases|
    && LocksExact(s) && ClosedExact(s) && WaitersServed(s) && ParentsQuery(s)
  }

  lemma RegisterKeepsLocks(s: State, t: nat)
    requires Inv(s) && Enabled(s, LoadOrStore(t))
    ensures LocksExact(Next(s, LoadOrStore(t)))
  {
  }

  lemma DeleteKeepsLocks(s: State, t: nat)
    requires Inv(s) && Enabled(s, Delete(t))
    ensures LocksExact(Next(s, Delete(t)))
  {
  }

  lemma StepKeepsLocks(s: State, step: Step)
    requires Inv(s) && Enabled(s, step)
    ensures LocksExact(Next(s, step))
  {
    match step {
      case LoadOrStore(t) => RegisterKeepsLocks(s, t);
      case Delete(t) => DeleteKeepsLocks(s, t);
      case _ =>
        var n := Next(s, step);
        assert n.locks == s.locks && !n.phases[step.t].Owning? && !s.phases[step.t].Owning?;
    }
  }

  lemma StepKeepsClosed(s: State, step: Step)
    requires Inv(s) && Enabled(s, step)
    ensures ClosedExact(Next(s, step))
  {
  }

  lemma StepKeepsWaiters(s: State, step: Step)
    requires Inv(s) && Enabled(s, step)
    ensures WaitersServed(Next(s, step))
  {
  }

  lemma StepKeepsParents(s: State, step: Step)
    requires Inv(s) && Enabled(s, step)
    ensures ParentsQuery(Next(s, step))
  {
    var n := Next(s, step);
    forall t | 0 <= t < |n.phases| && Active(n.phases[t]) ensures MayBegin(n, t) {
      if s.parents[t] == Some(step.t) { assert t != step.t && Active(s.phases[t]); }
    }
  }

  lemma StepKeepsInv(s: State, step: Step)
    requires Inv(s) && Enabled(s, step)
    ensures Inv(Next(s, step))
  {
    StepKeepsLocks(s, step);
    StepKeepsClosed(s, step);
    StepKeepsWaiters(s, step);
    StepKeepsParents(s, step);
  }

  lemma {:induction false} RunKeepsInv(s: State, steps: seq<Step>)
    requires Inv(s) && Legal(s, steps)
    ensures Inv(Run(s, steps)) && Run(s, steps).questions == s.questions && Run(s, steps).parents == s.parents
    decreases |steps|
  {
    if steps != [] {
      StepKeepsInv(s, steps[0]);
      RunKeepsInv(Next(s, steps[0]), steps[1..]);
    }
  }

  /** One live owner at most for each question. */
  lemma OneOwner(s: State, t: nat, u: nat)
    requires Inv(s) && t < |s.phases| && u < |s.phases|
    requires s.phases[t].Owning? && s.phases[u].Owning? && s.questions[t] == s.questions[u]
    ensures t == u
  {
  }

  // ---------- Who gets to query ----------

  /** The step lets `t` query: it does without the cache, finds no entry, or finds its channel closed. */
  predicate Enters(s: State, step: Step, t: nat)
    requires Enabled(s, step)
  {
    && step.t == t
    && (|| step.Bypass?
        || (step.LoadOrStore? && s.questions[t] !in s.locks)
        || (step.Wake? && s.phases[t].Waiting? && s.phases[t].channel in s.closed))
  }

  lemma StepQueries(s: State, step: Step, t: nat)
    requires Enabled(s, step) && t < |s.phases|
    ensures Querying(Next(s, step).phases[t]) && !Querying(s.phases[t]) <==> Enters(s, step, t)
    ensures Next(s, step).phases[t].Finished? && !s.phases[t].Finished? <==>
            step.t == t && (step.Cancel? || step.CloseChannel? || step.Return?)
  {
  }

  ghost predicate EverQueries(s: State, steps: seq<Step>, t: nat)
    requires Legal(s, steps) && t < |s.phases|
    decreases |steps|
  {
    Querying(s.phases[t]) || (steps != [] && EverQueries(Next(s, steps[0]), steps[1..], t))
  }

  ghost predicate EverEnters(s: State, steps: seq<Step>, t: nat)
    requires Legal(s, steps)
    decreases |steps|
  {
    steps != [] && (Enters(s, steps[0], t) || EverEnters(Next(s, steps[0]), steps[1..], t))
  }

  lemma {:induction false} QueriesIffEnters(s: State, steps: seq<Step>, t: nat)
    requires Legal(s, steps) && t < |s.phases| && !Querying(s.phases[t])
    ensures EverQueries(s, steps, t) <==> EverEnters(s, steps, t)
    decreases |steps|
  {
    if steps != [] {
      StepQueries(s, steps[0], t);
      if !Enters(s, steps[0], t) { QueriesIffEnters(Next(s, steps[0]), steps[1..], t); }
    }
  }

  lemma {:induction false} FinishedStays(s: State, steps: seq<Step>, t: nat)
    requires Legal(s, steps) && t < |s.phases| && s.phases[t].Finished?
    ensures !EverQueries(s, steps, t) && forall step :: step in steps ==> step.t != t
    decreases |steps|
  {
    if steps != [] {
      FinishedStays(Next(s, steps[0]), steps[1..], t);
      assert steps == [steps[0]] + steps[1..];
    }
  }

  /** A waiter that is cancelled never queries: it returns with the error of its context. */
  lemma {:induction false} CancelledNeverQueries(s: State, steps: seq<Step>, t: nat)
    requires Legal(s, steps) && t < |s.phases| && !Querying(s.phases[t]) && Cancel(t) in steps
    ensures !EverQueries(s, steps, t)
    decreases |steps|
  {
    var n, rest := Next(s, steps[0]), steps[1..];
    assert steps == [steps[0]] + rest;
    if steps[0] == Cancel(t) {
      FinishedStays(n, rest, t);
    } else {
      StepQueries(s, steps[0], t);
      if Querying(n.phases[t]) { EnteredIsNotCancelled(n, rest, t); }
      CancelledNeverQueries(n, rest, t);
    }
  }

  lemma {:induction false} EnteredIsNotCancelled(s: State, steps: seq<Step>, t: nat)
    requires Legal(s, steps) && t < |s.phases|
    requires Querying(s.phases[t]) || s.phases[t].Unregistered? || s.phases[t].Finished?
    ensures Cancel(t) !in steps
    decreases |steps|
  {
    if steps != [] {
      EnteredIsNotCancelled(Next(s, steps[0]), steps[1..], t);
      assert steps == [steps[0]] + steps[1..];
    }
  }

  // ---------- Every run ends ----------

  ghost function PhaseWeight(p: Phase): nat {
    match p
    case Arriving => 3
    case Waiting(_) | Owning => 2
    case Unregistered | Proceeding => 1
    case Finished(_) => 0
  }

  ghost function Weight(phases: seq<Phase>): nat {
    if phases == [] then 0 else Weight(phases[..|phases| - 1]) + PhaseWeight(phases[|phases| - 1])
  }

  lemma {:induction false} WeightUpdate(phases: seq<Phase>, t: nat, p: Phase)
    requires t < |phases|
    ensures Weight(phases[t := p]) + PhaseWeight(phases[t]) == Weight(phases) + PhaseWeight(p)
  {
    var last := |phases| - 1;
    if t == last {
      assert phases[t := p][..last] == phases[..last];
    } else {
      assert phases[t := p][..last] == phases[..last][t := p];
      WeightUpdate(phases[..last], t, p);
    }
  }

  lemma StepLightens(s: State, step: Step)
    requires Enabled(s, step)
    ensures |Next(s, step).phases| == |s.phases| && Next(s, step).parents == s.parents
    ensures Weight(Next(s, step).phases) < Weight(s.phases)
  {
    WeightUpdate(s.phases, step.t, Next(s, step).phases[step.t]);
  }

  lemma {:induction false} RunIsBounded(s: State, steps: seq<Step>)
    requires Legal(s, steps)
    ensures |steps| + Weight(Run(s, steps).phases) <= Weight(s.phases)
    decreases |steps|
  {
    if steps != [] {
      StepLightens(s, steps[0]);
      RunIsBounded(Next(s, steps[0]), steps[1..]);
    }
  }

  lemma {:induction false} InitialWeight(phases: seq<Phase>)
    ensures Weight(phases) <= 3 * |phases|
  {
    if phases != [] { InitialWeight(phases[..|phases| - 1]); }
  }

  // ---------- Where nothing can move ----------

  /** An exchange under way whose children are done can end its phase, a waiter by being cancelled. */
  function Ending(s: State, t: nat): (step: Step)
    requires t < |s.phases| && Active(s.phases[t])
    ensures step.t == t
  {
    match s.phases[t]
    case Waiting(_) => Cancel(t)
    case Owning => Delete(t)
    case Unregistered => CloseChannel(t)
    case _ => Return(t)
  }

  ghost predicate Ancestor(parents: seq<Option<nat>>, a: nat, t: nat)
    requires forall u :: 0 <= u < |parents| && parents[u].Some? ==> parents[u].value < u
    decreases t
  {
    t < |parents| && parents[t].Some? && (parents[t].value == a || Ancestor(parents, a, parents[t].value))
  }

  /** The last exchange under way at or below `root` waits for nobody it has begun. */
  lemma LastBelow(s: State, root: nat) returns (t: nat)
    requires Inv(s) && root < |s.phases| && Active(s.phases[root])
    ensures t < |s.phases| && Active(s.phases[t]) && Enabled(s, Ending(s, t))
    ensures t == root || Ancestor(s.parents, root, t)
  {
    t := |s.phases| - 1;
    while t != root && !(Active(s.phases[t]) && Ancestor(s.parents, root, t))
      invariant root <= t < |s.phases|
      invariant forall u :: t < u < |s.phases| ==> !(Active(s.phases[u]) && Ancestor(s.parents, root, u))
      decreases t
    {
      t := t - 1;
    }
    forall u | 0 <= u < |s.parents| && s.parents[u] == Some(t) ensures !Active(s.phases[u]) {
      assert Ancestor(s.parents, root, u) && t < u;
    }
  }

  /**
   Where nothing can move, no exchange is under way, no entry is left, and every owner's channel was closed
   once. What never began was to be begun by another exchange.
   */
  lemma QuiescentMeansDone(s: State)
    requires Inv(s) && forall step :: !Enabled(s, step)
    ensures forall t :: 0 <= t < |s.phases| ==> s.phases[t].Finished? || (s.phases[t].Arriving? && s.parents[t].Some?)
    ensures s.locks == map[]
    ensures forall t: nat :: t in s.closed <==> t < |s.phases| && s.phases[t] == Finished(true)
  {
    forall t | 0 <= t < |s.phases| ensures s.phases[t].Finished? || (s.phases[t].Arriving? && s.parents[t].Some?) {
      assert !Enabled(s, LoadOrStore(t));
      if Active(s.phases[t]) { var last := LastBelow(s, t); }
    }
    assert s.locks == map[];
  }

  // ---------- Waiters that only cancellation can end ----------

  lemma {:induction false} AncestorsQuery(s: State, a: nat, t: nat)
    requires Inv(s) && t < |s.phases| && Active(s.phases[t]) && Ancestor(s.parents, a, t)
    ensures a < |s.phases| && Querying(s.phases[a])
    decreases t
  {
    assert MayBegin(s, t);
    if s.parents[t].value != a { AncestorsQuery(s, a, s.parents[t].value); }
  }

  /** Some run lets `t` go on without cancelling it. */
  ghost predicate CanWake(s: State, t: nat) {
    exists steps :: Legal(s, steps) && Cancel(t) !in steps && Enabled(Run(s, steps), Wake(t))
  }

  lemma OnlyCancelMoves(s: State, t: nat, step: Step)
    requires Inv(s) && t < |s.phases| && s.phases[t].Waiting? && Ancestor(s.parents, s.phases[t].channel, t)
    requires Enabled(s, step) && step != Cancel(t)
    ensures Next(s, step).phases[t] == s.phases[t] && Next(s, step).parents == s.parents
  {
    AncestorsQuery(s, s.phases[t].channel, t);
  }

  lemma {:induction false} AncestorNeverCloses(s: State, t: nat, steps: seq<Step>)
    requires Inv(s) && t < |s.phases| && s.phases[t].Waiting? && Ancestor(s.parents, s.phases[t].channel, t)
    requires Legal(s, steps) && Cancel(t) !in steps
    ensures !Enabled(Run(s, steps), Wake(t))
    decreases |steps|
  {
    if steps == [] {
      AncestorsQuery(s, s.phases[t].channel, t);
    } else {
      OnlyCancelMoves(s, t, steps[0]);
      StepKeepsInv(s, steps[0]);
      AncestorNeverCloses(Next(s, steps[0]), t, steps[1..]);
    }
  }

  lemma OwnerStep(s: State, t: nat) returns (step: Step)
    requires Inv(s) && t < |s.phases| && s.phases[t].Waiting? && !Ancestor(s.parents, s.phases[t].channel, t)
    requires Active(s.phases[s.phases[t].channel])
    ensures Enabled(s, step) && step.t != t && Inv(Next(s, step))
    ensures Next(s, step).parents == s.parents && Weight(Next(s, step).phases) < Weight(s.phases)
  {
    var u := LastBelow(s, s.phases[t].channel);
    step := Ending(s, u);
    StepKeepsInv(s, step);
    StepLightens(s, step);
  }

  /** Whatever the owner waits for can be ended, by cancelling it if need be, until the channel is closed. */
  lemma {:induction false} OwnerCanClose(s: State, t: nat) returns (steps: seq<Step>)
    requires Inv(s) && t < |s.phases| && s.phases[t].Waiting? && !Ancestor(s.parents, s.phases[t].channel, t)
    ensures Legal(s, steps) && Cancel(t) !in steps && Enabled(Run(s, steps), Wake(t))
    decreases Weight(s.phases)
  {
    var c := s.phases[t].channel;
    if !Active(s.phases[c]) {
      steps := [];
    } else {
      var step := OwnerStep(s, t);
      var rest := OwnerCanClose(Next(s, step), t);
      steps := [step] + rest;
      Prepend(s, step, rest);
    }
  }

  /**
   A waiter depends on its own cancellation exactly when the owner of its channel is waiting for it: when the
   owner's query began the waiter, directly or through further exchanges.
   */
  lemma WaiterNeedsCancellationIff(s: State, t: nat)
    requires Inv(s) && t < |s.phases| && s.phases[t].Waiting?
    ensures !CanWake(s, t) <==> Ancestor(s.parents, s.phases[t].channel, t)
  {
    if Ancestor(s.parents, s.phases[t].channel, t) {
      forall steps | Legal(s, steps) && Cancel(t) !in steps ensures !Enabled(Run(s, steps), Wake(t)) {
        AncestorNeverCloses(s, t, steps);
      }
    } else {
      var steps := OwnerCanClose(s, t);
    }
  }

  /** A query that asks its own question again gets there in two steps. */
  lemma NestedQuestionNeedsCancellation(q: nat)
    ensures var s := Initial([q, q], [None, Some(0)]);
            var steps := [LoadOrStore(0), LoadOrStore(1)];
            Legal(s, steps) && Run(s, steps).phases == [Owning, Waiting(0)] && !CanWake(Run(s, steps), 1)
  {
    var s := Initial([q, q], [None, Some(0)]);
    var steps := [LoadOrStore(0), LoadOrStore(1)];
    var s1 := Next(s, steps[0]);
    var s2 := Next(s1, steps[1]);
    assert steps[1..][1..] == [];
    assert Legal(s2, steps[1..][1..]) && Run(s2, steps[1..][1..]) == s2;
    assert Legal(s1, steps[1..]) && Run(s1, steps[1..]) == s2;
    RunKeepsInv(s, steps);
    assert s2.phases == [Owning, Waiting(0)];
    WaiterNeedsCancellationIff(s2, 1);
  }

  // ---------- Deadlocks ----------

  /** `t` cannot go on before `u` does: it waits for the channel of `u`, or has begun `u`, which is under way. */
  ghost predicate WaitsFor(s: State, t: nat, u: nat) {
    && t < |s.phases| && u < |s.phases| && u < |s.parents|
    && (|| (s.phases[t] == Waiting(u) && u !in s.closed)
        || (Querying(s.phases[t]) && s.parents[u] == Some(t) && Active(s.phases[u])))
  }

  ghost predicate WaitsWithin(s: State, t: nat, group: set<nat>) {
    exists u :: u in group && WaitsFor(s, t, u)
  }

  /** Each exchange of the group waits for another one of it. */
  ghost predicate Deadlock(s: State, group: set<nat>) {
    forall t {:trigger WaitsWithin(s, t, group)} :: t in group ==> WaitsWithin(s, t, group)
  }

  ghost predicate Deadlocked(s: State, t: nat) {
    exists group :: t in group && Deadlock(s, group)
  }

  ghost predicate CancelsNobody(steps: seq<Step>) {
    forall step :: step in steps ==> !step.Cancel?
  }

  /** Some run ends `t` without cancelling anyone. */
  ghost predicate CanFinish(s: State, t: nat) {
    exists steps ::
      && Legal(s, steps) && CancelsNobody(steps)
      && t < |Run(s, steps).phases| && Run(s, steps).phases[t].Finished?
  }

  /** Whoever waits for another cannot move unless cancelled. */
  lemma WaiterCannotMove(s: State, step: Step, u: nat)
    requires Inv(s) && Enabled(s, step) && !step.Cancel?
    ensures !WaitsFor(s, step.t, u)
  {
  }

  /** A wait lasts until one of the two moves. */
  lemma WaitStays(s: State, step: Step, t: nat, u: nat)
    requires Inv(s) && Enabled(s, step) && step.t != t && step.t != u && WaitsFor(s, t, u)
    ensures WaitsFor(Next(s, step), t, u)
  {
  }

  lemma MemberCannotMove(s: State, group: set<nat>, step: Step)
    requires Inv(s) && Deadlock(s, group) && Enabled(s, step) && !step.Cancel?
    ensures step.t !in group
  {
    if WaitsWithin(s, step.t, group) {
      var u :| u in group && WaitsFor(s, step.t, u);
      WaiterCannotMove(s, step, u);
    }
  }

  lemma DeadlockStays(s: State, group: set<nat>, step: Step)
    requires Inv(s) && Deadlock(s, group) && Enabled(s, step) && !step.Cancel?
    ensures Deadlock(Next(s, step), group)
  {
    MemberCannotMove(s, group, step);
    forall t | t in group ensures WaitsWithin(Next(s, step), t, group) {
      assert WaitsWithin(s, t, group);
      var u :| u in group && WaitsFor(s, t, u);
      WaitStays(s, step, t, u);
    }
  }

  lemma {:induction false} DeadlockIsForever(s: State, group: set<nat>, t: nat, steps: seq<Step>)
    requires Inv(s) && t in group && Deadlock(s, group)
    requires Legal(s, steps) && CancelsNobody(steps)
    ensures t < |Run(s, steps).phases| && !Run(s, steps).phases[t].Finished?
    decreases |steps|
  {
    if steps == [] {
      assert WaitsWithin(s, t, group);
    } else {
      StepKeepsInv(s, steps[0]);
      DeadlockStays(s, group, steps[0]);
      DeadlockIsForever(Next(s, steps[0]), group, t, steps[1..]);
    }
  }

  /** The next move of an exchange under way, other than being cancelled. */
  function Going(s: State, t: nat): (step: Step)
    requires t < |s.phases| && Active(s.phases[t])
    ensures step.t == t && !step.Cancel?
  {
    if s.phases[t].Waiting? then Wake(t) else Ending(s, t)
  }

  lemma FreeCanGo(s: State, t: nat)
    requires Inv(s) && t < |s.phases| && Active(s.phases[t]) && forall u :: !WaitsFor(s, t, u)
    ensures Enabled(s, Going(s, t))
  {
    if s.phases[t].Waiting? { assert !WaitsFor(s, t, s.phases[t].channel); }
    if Querying(s.phases[t]) {
      forall u | 0 <= u < |s.parents| && s.parents[u] == Some(t) ensures !Active(s.phases[u]) {
        assert !WaitsFor(s, t, u);
      }
    }
  }

  lemma WaitsWithinMore(s: State, t: nat, group: set<nat>, larger: set<nat>)
    requires WaitsWithin(s, t, group) && group <= larger
    ensures WaitsWithin(s, t, larger)
  {
  }

  lemma DeadlockGrows(s: State, group: set<nat>, t: nat, u: nat)
    requires Deadlock(s, group) && u in group && WaitsFor(s, t, u)
    ensures Deadlock(s, group + {t})
  {
    forall v | v in group + {t} ensures WaitsWithin(s, v, group + {t}) {
      assert v == t || WaitsWithin(s, v, group);
      WaitsWithinMore(s, v, group, group + {t});
    }
  }

  lemma WaitsForTheDeadlocked(s: State, t: nat, u: nat)
    requires WaitsFor(s, t, u) && Deadlocked(s, u)
    ensures Deadlocked(s, t)
  {
    var group :| u in group && Deadlock(s, group);
    DeadlockGrows(s, group, t, u);
    assert t in group + {t};
  }

  /** If everyone outside a deadlock waited, they would be one. */
  lemma SomeoneIsFree(s: State, t: nat) returns (u: nat)
    requires Inv(s) && t < |s.phases| && Active(s.phases[t]) && !Deadlocked(s, t)
    ensures u < |s.phases| && Active(s.phases[u]) && forall v :: !WaitsFor(s, u, v)
  {
    var group := set v | 0 <= v < |s.phases| && Active(s.phases[v]) && !Deadlocked(s, v);
    assert t in group && !Deadlock(s, group);
    u :| u in group && !WaitsWithin(s, u, group);
    forall v: nat ensures !WaitsFor(s, u, v) {
      if WaitsFor(s, u, v) && Deadlocked(s, v) { WaitsForTheDeadlocked(s, u, v); }
      assert WaitsFor(s, u, v) ==> Active(s.phases[v]);
    }
  }

  lemma GoingAddsNoWait(s: State, u: nat, t: nat, v: nat)
    requires Inv(s) && u < |s.phases| && Active(s.phases[u]) && Enabled(s, Going(s, u))
    requires WaitsFor(Next(s, Going(s, u)), t, v)
    ensures WaitsFor(s, t, v)
  {
    assert s.phases[u].Waiting? && s.parents[v] == Some(u) ==> !Active(s.phases[v]) by {
      if Active(s.phases[v]) { assert MayBegin(s, v); }
    }
  }

  lemma GoingDeadlocksNobody(s: State, u: nat, t: nat)
    requires Inv(s) && u < |s.phases| && Active(s.phases[u]) && Enabled(s, Going(s, u))
    requires Deadlocked(Next(s, Going(s, u)), t)
    ensures Deadlocked(s, t)
  {
    var n := Next(s, Going(s, u));
    var group :| t in group && Deadlock(n, group);
    forall v | v in group ensures WaitsWithin(s, v, group) {
      assert WaitsWithin(n, v, group);
      var w :| w in group && WaitsFor(n, v, w);
      GoingAddsNoWait(s, u, v, w);
    }
    assert Deadlock(s, group);
  }

  lemma FreeStep(s: State, t: nat) returns (step: Step)
    requires Inv(s) && t < |s.phases| && Active(s.phases[t]) && !Deadlocked(s, t)
    ensures Enabled(s, step) && !step.Cancel? && Inv(Next(s, step)) && !Deadlocked(Next(s, step), t)
    ensures |Next(s, step).phases| == |s.phases| && !Next(s, step).phases[t].Arriving?
    ensures Weight(Next(s, step).phases) < Weight(s.phases)
  {
    var u := SomeoneIsFree(s, t);
    FreeCanGo(s, u);
    step := Going(s, u);
    StepKeepsInv(s, step);
    StepLightens(s, step);
    if Deadlocked(Next(s, step), t) { GoingDeadlocksNobody(s, u, t); }
  }

  lemma {:induction false} OthersGoFirst(s: State, t: nat) returns (steps: seq<Step>)
    requires Inv(s) && t < |s.phases| && !s.phases[t].Arriving? && !Deadlocked(s, t)
    ensures Legal(s, steps) && CancelsNobody(steps)
    ensures t < |Run(s, steps).phases| && Run(s, steps).phases[t].Finished?
    decreases Weight(s.phases)
  {
    if s.phases[t].Finished? {
      steps := [];
    } else {
      var step := FreeStep(s, t);
      var rest := OthersGoFirst(Next(s, step), t);
      steps := [step] + rest;
      Prepend(s, step, rest);
    }
  }

  /**
   An exchange under way can end without any cancellation exactly when it belongs to no group of exchanges
   that wait for one another.
   */
  lemma FinishesIffNotDeadlocked(s: State, t: nat)
    requires Inv(s) && t < |s.phases| && !s.phases[t].Arriving?
    ensures CanFinish(s, t) <==> !Deadlocked(s, t)
  {
    if Deadlocked(s, t) {
      var group :| t in group && Deadlock(s, group);
      forall steps | Legal(s, steps) && CancelsNobody(steps)
        ensures t < |Run(s, steps).phases| && !Run(s, steps).phases[t].Finished?
      {
        DeadlockIsForever(s, group, t, steps);
      }
    } else {
      var steps := OthersGoFirst(s, t);
    }
  }

  /** The lock protocol as a whole, for any number of exchanges of any questions, nested in any way. */
  lemma ProtocolIsSound(questions: seq<nat>, parents: seq<Option<nat>>, steps: seq<Step>)
    requires Nested(questions, parents) && Legal(Initial(questions, parents), steps)
    ensures Inv(Run(Initial(questions, parents), steps))
    ensures |steps| <= 3 * |questions|
    ensures var s := Run(Initial(questions, parents), steps);
            (forall step :: !Enabled(s, step)) ==>
              s.locks == map[] && forall t :: 0 <= t < |s.phases| ==> !Active(s.phases[t])
  {
    var init := Initial(questions, parents);
    RunKeepsInv(init, steps);
    RunIsBounded(init, steps);
    InitialWeight(init.phases);
    var s := Run(init, steps);
    if forall step :: !Enabled(s, step) { QuiescentMeansDone(s); }
  }
}
