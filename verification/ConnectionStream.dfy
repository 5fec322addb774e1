/**
 The connection event stream of the daemon: the server keeps one snapshot per connection it has
 announced and sends differences; the client rebuilds its connection table from them.
 */
module ConnectionStream {
  import opened Wrappers

  datatype Id = Id(uuid: nat)

  const NIL := Id(0)

  /**
   A tracked connection as read from the traffic manager; `closedAt == 0` is the zero time. Times are
   milliseconds.
   */
  datatype Tracked = Tracked(id: Id, upload: int, download: int, closedAt: nat)

  /** Events queued by the traffic manager. */
  datatype TrackerEvent =
    | Joined(id: Id, metadata: Tracked)
    | Updated(id: Id)
    | Left(id: Id, metadata: Tracked, at: nat)

  /** The client's row for one connection; `closedAt == 0` means open. */
  datatype Connection = Connection(uplinkTotal: int, downlinkTotal: int, uplink: int, downlink: int, closedAt: int)

  datatype Event =
    | New(id: Id, connection: Connection)
    | Update(id: Id, uplinkDelta: int, downlinkDelta: int)
    | Closed(id: Id, closedAt: int, last: Option<Connection>)

  datatype Snapshot = Snapshot(uplink: int, downlink: int, hadTraffic: bool)

  type Snapshots = map<Id, Snapshot>
  type Client = map<Id, Connection>

  // ---------- The client: ApplyEvents ----------

  function ApplyEvent(client: Client, event: Event): Client {
    match event
    case New(id, connection) => client[id := connection]
    case Update(id, up, down) =>
      if id !in client then client
      else
        var c := client[id];
        client[id := Connection(c.uplinkTotal + up, c.downlinkTotal + down, up, down, c.closedAt)]
    case Closed(id, at, Some(final)) => client[id := final.(closedAt := at, uplink := 0, downlink := 0)]
    case Closed(id, at, None) =>
      if id !in client then client else client[id := client[id].(closedAt := at, uplink := 0, downlink := 0)]
  }

  function Apply(client: Client, events: seq<Event>): Client {
    if events == [] then client
    else ApplyEvent(Apply(client, events[..|events| - 1]), events[|events| - 1])
  }

  /** Closed rows older than five minutes are dropped after every batch. */
  function Evict(client: Client, now: int): Client {
    map id | id in client && (client[id].closedAt == 0 || now - client[id].closedAt <= 300_000) :: client[id]
  }

  /** What the client shows as open, with its totals. */
  function Open(client: Client): map<Id, (int, int)> {
    map id | id in client && client[id].closedAt == 0 :: (client[id].uplinkTotal, client[id].downlinkTotal)
  }

  /** No event updates a connection that the client does not hold open. */
  ghost predicate UpdatesOpen(client: Client, events: seq<Event>) {
    events == [] ||
    (&& UpdatesOpen(client, events[..|events| - 1])
     && (events[|events| - 1].Update? ==> events[|events| - 1].id in Open(Apply(client, events[..|events| - 1]))))
  }

  lemma {:induction false} ApplyAppend(client: Client, a: seq<Event>, b: seq<Event>)
    ensures Apply(client, a + b) == Apply(Apply(client, a), b)
    ensures UpdatesOpen(client, a + b) <==> UpdatesOpen(client, a) && UpdatesOpen(Apply(client, a), b)
  {
    if b == [] {
      assert a + b == a;
    } else {
      var last := |b| - 1;
      assert (a + b)[..|a + b| - 1] == a + b[..last];
      ApplyAppend(client, a, b[..last]);
    }
  }

  lemma ApplyOne(client: Client, event: Event)
    ensures Apply(client, [event]) == ApplyEvent(client, event)
    ensures UpdatesOpen(client, [event]) <==> (event.Update? ==> event.id in Open(client))
  {
  }

  // ---------- The server ----------

  function Totals(snapshots: Snapshots): map<Id, (int, int)> {
    map id | id in snapshots :: (snapshots[id].uplink, snapshots[id].downlink)
  }

  /** `buildConnectionProto` */
  function Proto(m: Tracked): Connection {
    Connection(m.upload, m.download, 0, 0, 0)
  }

  /** `time.Time.UnixMilli`; the zero time lies before 1970. */
  function UnixMilli(at: nat): (milli: int)
    ensures milli != 0
  {
    if at == 0 then -62_135_596_800_000 else at
  }

  predicate DistinctIds(list: seq<Tracked>) {
    forall i, j :: 0 <= i < j < |list| ==> list[i].id != list[j].id
  }

  function Ids(list: seq<Tracked>): set<Id> {
    set m | m in list :: m.id
  }

  function Counters(list: seq<Tracked>): (counters: map<Id, (int, int)>)
    ensures counters.Keys == Ids(list)
  {
    if list == [] then map[]
    else
      var m := list[|list| - 1];
      assert list == list[..|list| - 1] + [m];
      Counters(list[..|list| - 1])[m.id := (m.upload, m.download)]
  }

  function InitialSnapshots(active: seq<Tracked>): Snapshots {
    if active == [] then map[]
    else
      var m := active[|active| - 1];
      InitialSnapshots(active[..|active| - 1])[m.id := Snapshot(m.upload, m.download, false)]
  }

  function ActiveRows(active: seq<Tracked>): seq<Event> {
    seq(|active|, i requires 0 <= i < |active| => New(active[i].id, Proto(active[i])))
  }

  function ClosedRows(closed: seq<Tracked>): seq<Event> {
    seq(|closed|, i requires 0 <= i < |closed| =>
      New(closed[i].id, Proto(closed[i]).(closedAt := UnixMilli(closed[i].closedAt))))
  }

  datatype Turn = Turn(snapshots: Snapshots, events: seq<Event>)

  /** `applyConnectionEvent` */
  function EventTurn(snapshots: Snapshots, event: TrackerEvent, now: nat): Turn {
    match event
    case Joined(id, m) =>
      if id in snapshots then Turn(snapshots, [])
      else Turn(snapshots[id := Snapshot(m.upload, m.download, false)], [New(id, Proto(m))])
    case Updated(_) => Turn(snapshots, [])
    case Left(id, m, at) =>
      var closedAt := if at != 0 then at else if m.closedAt != 0 then m.closedAt else now;
      Turn(snapshots - {id},
           [Closed(id, UnixMilli(closedAt),
                   if m.id != NIL then Some(Proto(m).(closedAt := UnixMilli(closedAt))) else None)])
  }

  /** One active connection inside `buildTrafficUpdates`. */
  function ScanTurn(snapshots: Snapshots, m: Tracked): Turn {
    var current := Snapshot(m.upload, m.download, false);
    if m.id !in snapshots then Turn(snapshots[m.id := current], [New(m.id, Proto(m))])
    else
      var s := snapshots[m.id];
      var up, down := m.upload - s.uplink, m.download - s.downlink;
      if up < 0 || down < 0 then
        Turn(snapshots[m.id := current], if s.hadTraffic then [Update(m.id, 0, 0)] else [])
      else if up > 0 || down > 0 then
        Turn(snapshots[m.id := current.(hadTraffic := true)], [Update(m.id, up, down)])
      else if s.hadTraffic then
        Turn(snapshots[m.id := current], [Update(m.id, 0, 0)])
      else Turn(snapshots, [])
  }

  function Scan(snapshots: Snapshots, active: seq<Tracked>): Turn {
    if active == [] then Turn(snapshots, [])
    else
      var before := Scan(snapshots, active[..|active| - 1]);
      var turn := ScanTurn(before.snapshots, active[|active| - 1]);
      Turn(turn.snapshots, before.events + turn.events)
  }

  function LastClosed(closed: seq<Tracked>, id: Id): Option<Tracked> {
    if closed == [] then None
    else if closed[|closed| - 1].id == id then Some(closed[|closed| - 1])
    else LastClosed(closed[..|closed| - 1], id)
  }

  function CloseEvent(closed: seq<Tracked>, id: Id, now: nat): Event {
    match LastClosed(closed, id)
    case None => Closed(id, UnixMilli(now), None)
    case Some(m) =>
      var at := UnixMilli(if m.closedAt != 0 then m.closedAt else now);
      Closed(id, at, Some(Proto(m).(closedAt := at)))
  }

  /** Removal of stale snapshots, in whatever order the map iteration takes. */
  function CloseEvents(closed: seq<Tracked>, order: seq<Id>, now: nat): seq<Event> {
    seq(|order|, i requires 0 <= i < |order| => CloseEvent(closed, order[i], now))
  }

  function Elements(order: seq<Id>): set<Id> {
    set id | id in order
  }

  /** `buildTrafficUpdates`; `order` lists the announced ids that are no longer active. */
  function TickTurn(snapshots: Snapshots, active: seq<Tracked>, closed: seq<Tracked>, order: seq<Id>, now: nat): Turn {
    var scanned := Scan(snapshots, active);
    Turn(scanned.snapshots - Elements(order), scanned.events + CloseEvents(closed, order, now))
  }

  // ---------- The imperative form ----------

  /** The server side of one subscription. */
  class Feed {
    var snapshots: Snapshots

    constructor ()
      ensures snapshots == map[]
    {
      snapshots := map[];
    }

    method BuildInitialState(active: seq<Tracked>, closed: seq<Tracked>) returns (events: seq<Event>)
      requires snapshots == map[]
      modifies this
      ensures snapshots == InitialSnapshots(active)
      ensures events == ActiveRows(active) + ClosedRows(closed)
    {
      events := [];
      for i := 0 to |active|
        invariant snapshots == InitialSnapshots(active[..i])
        invariant events == ActiveRows(active[..i])
      {
        assert active[..i + 1][..i] == active[..i];
        events := events + [New(active[i].id, Proto(active[i]))];
        snapshots := snapshots[active[i].id := Snapshot(active[i].upload, active[i].download, false)];
      }
      assert active[..|active|] == active;
      for i := 0 to |closed|
        invariant snapshots == InitialSnapshots(active)
        invariant events == ActiveRows(active) + ClosedRows(closed[..i])
      {
        assert ClosedRows(closed[..i + 1])[..i] == ClosedRows(closed[..i]);
        events := events + [New(closed[i].id, Proto(closed[i]).(closedAt := UnixMilli(closed[i].closedAt)))];
      }
      assert closed[..|closed|] == closed;
    }

    method ApplyConnectionEvent(event: TrackerEvent, now: nat) returns (events: seq<Event>)
      modifies this
      ensures Turn(snapshots, events) == EventTurn(old(snapshots), event, now)
    {
      events := [];
      match event
      case Joined(id, m) =>
        if id !in snapshots {
          snapshots := snapshots[id := Snapshot(m.upload, m.download, false)];
          events := [New(id, Proto(m))];
        }
      case Updated(_) =>
      case Left(id, m, at) =>
        snapshots := snapshots - {id};
        var closedAt := at;
        if closedAt == 0 && m.closedAt != 0 { closedAt := m.closedAt; }
        if closedAt == 0 { closedAt := now; }
        var last := None;
        if m.id != NIL { last := Some(Proto(m).(closedAt := UnixMilli(closedAt))); }
        events := [Closed(id, UnixMilli(closedAt), last)];
    }

    method ScanActive(active: seq<Tracked>) returns (events: seq<Event>)
      modifies this
      ensures Turn(snapshots, events) == Scan(old(snapshots), active)
    {
      events := [];
      ghost var start := snapshots;
      for i := 0 to |active|
        invariant Turn(snapshots, events) == Scan(start, active[..i])
      {
        assert active[..i + 1][..i] == active[..i];
        var m := active[i];
        if m.id !in snapshots {
          snapshots := snapshots[m.id := Snapshot(m.upload, m.download, false)];
          events := events + [New(m.id, Proto(m))];
        } else {
          var snapshot := snapshots[m.id];
          var uplinkDelta, downlinkDelta := m.upload - snapshot.uplink, m.download - snapshot.downlink;
          if uplinkDelta < 0 || downlinkDelta < 0 {
            if snapshot.hadTraffic { events := events + [Update(m.id, 0, 0)]; }
            snapshots := snapshots[m.id := Snapshot(m.upload, m.download, false)];
          } else if uplinkDelta > 0 || downlinkDelta > 0 {
            snapshots := snapshots[m.id := Snapshot(m.upload, m.download, true)];
            events := events + [Update(m.id, uplinkDelta, downlinkDelta)];
          } else if snapshot.hadTraffic {
            snapshots := snapshots[m.id := Snapshot(m.upload, m.download, false)];
            events := events + [Update(m.id, 0, 0)];
          }
        }
      }
      assert active[..|active|] == active;
    }

    method CloseStale(active: seq<Tracked>, closed: seq<Tracked>, now: nat)
      returns (events: seq<Event>, ghost order: seq<Id>)
      modifies this
      ensures Elements(order) == old(snapshots).Keys - Ids(active)
      ensures snapshots == old(snapshots) - Elements(order) && events == CloseEvents(closed, order, now)
    {
      var pending := snapshots.Keys - Ids(active);
      events, order := [], [];
      while pending != {}
        invariant pending !! Elements(order)
        invariant pending + Elements(order) == old(snapshots).Keys - Ids(active)
        invariant snapshots == old(snapshots) - Elements(order)
        invariant events == CloseEvents(closed, order, now)
        decreases pending
      {
        var id :| id in pending;
        assert CloseEvents(closed, order + [id], now)[..|order|] == CloseEvents(closed, order, now);
        assert Elements(order + [id]) == Elements(order) + {id};
        events := events + [CloseEvent(closed, id, now)];
        snapshots := snapshots - {id};
        pending := pending - {id};
        order := order + [id];
      }
    }

    method BuildTrafficUpdates(active: seq<Tracked>, closed: seq<Tracked>, now: nat)
      returns (events: seq<Event>, ghost order: seq<Id>)
      modifies this
      ensures Elements(order) == old(snapshots).Keys - Ids(active)
      ensures Turn(snapshots, events) == TickTurn(old(snapshots), active, closed, order, now)
    {
      ScanKeys(snapshots, active);
      events := ScanActive(active);
      var closing;
      closing, order := CloseStale(active, closed, now);
      events := events + closing;
    }
  }

  // ---------- Replay ----------

  /** The counters of `m` fell below what the server last announced. */
  predicate Regressed(snapshots: Snapshots, m: Tracked) {
    m.id in snapshots && (m.upload < snapshots[m.id].uplink || m.download < snapshots[m.id].downlink)
  }

  /** What the client holds for `m` after a tick: the counters, unless they regressed. */
  function Shown(snapshots: Snapshots, m: Tracked): (int, int) {
    if Regressed(snapshots, m) then (snapshots[m.id].uplink, snapshots[m.id].downlink) else (m.upload, m.download)
  }

  function ShownAll(snapshots: Snapshots, active: seq<Tracked>): (shown: map<Id, (int, int)>)
    ensures shown.Keys == Ids(active)
  {
    if active == [] then map[]
    else
      var m := active[|active| - 1];
      assert active == active[..|active| - 1] + [m];
      ShownAll(snapshots, active[..|active| - 1])[m.id := Shown(snapshots, m)]
  }

  /** The client holds open what the snapshots of the listed connections say. */
  ghost predicate AgreesOn(client: Client, snapshots: Snapshots, ids: set<Id>) {
    forall id :: id in ids && id in snapshots ==> id in Open(client) && Open(client)[id] == Totals(snapshots)[id]
  }

  lemma ScanTurnTotals(snapshots: Snapshots, m: Tracked)
    ensures Totals(ScanTurn(snapshots, m).snapshots) == Totals(snapshots)[m.id := (m.upload, m.download)]
  {
  }

  lemma ScanTurnReplays(client: Client, snapshots: Snapshots, m: Tracked)
    requires AgreesOn(client, snapshots, {m.id})
    ensures var turn := ScanTurn(snapshots, m);
            && Open(Apply(client, turn.events)) == Open(client)[m.id := Shown(snapshots, m)]
            && UpdatesOpen(client, turn.events)
  {
    var turn := ScanTurn(snapshots, m);
    if turn.events == [] {
      assert Open(client)[m.id] == Shown(snapshots, m);
    } else {
      ApplyOne(client, turn.events[0]);
      if turn.events[0].New? {
        OpenAfterNew(client, m.id, Proto(m));
      } else {
        OpenAfterUpdate(client, m.id, turn.events[0].uplinkDelta, turn.events[0].downlinkDelta);
      }
    }
  }

  lemma OpenAfterUpdate(client: Client, id: Id, up: int, down: int)
    requires id in Open(client)
    ensures var (upTotal, downTotal) := Open(client)[id];
            Open(ApplyEvent(client, Update(id, up, down))) == Open(client)[id := (upTotal + up, downTotal + down)]
  {
  }

  lemma StillAgrees(client: Client, snapshots: Snapshots, init: seq<Tracked>, m: Tracked)
    requires m.id !in Ids(init) && AgreesOn(client, snapshots, {m.id})
    requires Open(Apply(client, Scan(snapshots, init).events)) == Open(client) + ShownAll(snapshots, init)
    ensures AgreesOn(Apply(client, Scan(snapshots, init).events), Scan(snapshots, init).snapshots, {m.id})
    ensures Shown(Scan(snapshots, init).snapshots, m) == Shown(snapshots, m)
  {
    ScanUntouched(snapshots, init, m.id);
    MergeAt(Open(client), ShownAll(snapshots, init), m.id);
  }

  lemma {:induction false} ScanReplays(client: Client, snapshots: Snapshots, active: seq<Tracked>)
    requires DistinctIds(active) && AgreesOn(client, snapshots, Ids(active))
    ensures var turn := Scan(snapshots, active);
            && Open(Apply(client, turn.events)) == Open(client) + ShownAll(snapshots, active)
            && Totals(turn.snapshots) == Totals(snapshots) + Counters(active)
            && UpdatesOpen(client, turn.events)
  {
    if active == [] {
      assert Open(client) + map[] == Open(client) && Totals(snapshots) + map[] == Totals(snapshots);
    } else {
      var init, m := active[..|active| - 1], active[|active| - 1];
      LastIsNew(active);
      assert AgreesOn(client, snapshots, Ids(init)) && DistinctIds(init);
      ScanReplays(client, snapshots, init);
      var before := Scan(snapshots, init);
      var turn := ScanTurn(before.snapshots, m);
      var mid := Apply(client, before.events);
      assert AgreesOn(client, snapshots, {m.id});
      StillAgrees(client, snapshots, init, m);
      ScanTurnReplays(mid, before.snapshots, m);
      ScanTurnTotals(before.snapshots, m);
      ApplyAppend(client, before.events, turn.events);
      MergeUpdate(Open(client), ShownAll(snapshots, init), m.id, Shown(snapshots, m));
      MergeUpdate(Totals(snapshots), Counters(init), m.id, (m.upload, m.download));
    }
  }

  lemma LastIsNew(active: seq<Tracked>)
    requires DistinctIds(active) && active != []
    ensures Ids(active) == Ids(active[..|active| - 1]) + {active[|active| - 1].id}
    ensures active[|active| - 1].id !in Ids(active[..|active| - 1])
  {
  }

  lemma MergeAt<K, V>(a: map<K, V>, b: map<K, V>, k: K)
    requires k !in b
    ensures k in a + b <==> k in a
    ensures k in a ==> (a + b)[k] == a[k]
  {
  }

  lemma MergeUpdate<K, V>(a: map<K, V>, b: map<K, V>, k: K, v: V)
    ensures (a + b)[k := v] == a + b[k := v]
  {
  }

  lemma MergeThenRemove<K, V>(a: map<K, V>, b: map<K, V>, gone: set<K>)
    requires a.Keys - b.Keys <= gone && gone !! b.Keys
    ensures (a + b) - gone == b
  {
  }

  lemma {:induction false} ScanKeys(snapshots: Snapshots, active: seq<Tracked>)
    ensures Scan(snapshots, active).snapshots.Keys == snapshots.Keys + Ids(active)
  {
    if active != [] {
      assert active == active[..|active| - 1] + [active[|active| - 1]];
      ScanKeys(snapshots, active[..|active| - 1]);
    }
  }

  lemma {:induction false} ScanUntouched(snapshots: Snapshots, active: seq<Tracked>, id: Id)
    requires id !in Ids(active)
    ensures id in Scan(snapshots, active).snapshots <==> id in snapshots
    ensures id in snapshots ==> Scan(snapshots, active).snapshots[id] == snapshots[id]
  {
    if active != [] {
      assert active == active[..|active| - 1] + [active[|active| - 1]];
      ScanUntouched(snapshots, active[..|active| - 1], id);
    }
  }

  lemma OpenAfterClosed(client: Client, event: Event)
    requires event.Closed? && event.closedAt != 0
    ensures Open(ApplyEvent(client, event)) == Open(client) - {event.id}
  {
  }

  lemma OpenAfterNew(client: Client, id: Id, c: Connection)
    ensures Open(ApplyEvent(client, New(id, c))) ==
            if c.closedAt == 0 then Open(client)[id := (c.uplinkTotal, c.downlinkTotal)] else Open(client) - {id}
  {
  }

  lemma CloseEventsLast(closed: seq<Tracked>, order: seq<Id>, now: nat)
    requires order != []
    ensures var init, id := order[..|order| - 1], order[|order| - 1];
            && Elements(order) == Elements(init) + {id}
            && CloseEvents(closed, order, now) == CloseEvents(closed, init, now) + [CloseEvent(closed, id, now)]
  {
    var init, id := order[..|order| - 1], order[|order| - 1];
    assert order == init + [id];
  }

  lemma {:induction false} CloseEventsReplay(client: Client, closed: seq<Tracked>, order: seq<Id>, now: nat)
    ensures Open(Apply(client, CloseEvents(closed, order, now))) == Open(client) - Elements(order)
    ensures UpdatesOpen(client, CloseEvents(closed, order, now))
  {
    if order == [] {
      assert Open(client) - {} == Open(client);
    } else {
      var init, id := order[..|order| - 1], order[|order| - 1];
      var before, last := CloseEvents(closed, init, now), CloseEvent(closed, id, now);
      CloseEventsLast(closed, order, now);
      CloseEventsReplay(client, closed, init, now);
      ApplyAppend(client, before, [last]);
      ApplyOne(Apply(client, before), last);
      OpenAfterClosed(Apply(client, before), last);
      RemoveTwice(Open(client), Elements(init), id);
    }
  }

  lemma RemoveTwice<K, V>(a: map<K, V>, gone: set<K>, k: K)
    ensures (a - gone) - {k} == a - (gone + {k})
  {
  }

  /** One tick, from any client that agrees on the connections still active. */
  lemma TickReplays(
    client: Client, snapshots: Snapshots, active: seq<Tracked>, closed: seq<Tracked>, order: seq<Id>, now: nat)
    requires DistinctIds(active) && AgreesOn(client, snapshots, Ids(active)) && Open(client).Keys <= snapshots.Keys
    requires Elements(order) == snapshots.Keys - Ids(active)
    ensures var turn := TickTurn(snapshots, active, closed, order, now);
            && Open(Apply(client, turn.events)) == ShownAll(snapshots, active)
            && Totals(turn.snapshots) == Counters(active)
            && UpdatesOpen(client, turn.events)
  {
    var scanned := Scan(snapshots, active);
    ScanReplays(client, snapshots, active);
    ApplyAppend(client, scanned.events, CloseEvents(closed, order, now));
    CloseEventsReplay(Apply(client, scanned.events), closed, order, now);
    TotalsKeys(snapshots);
    MergeThenRemove(Open(client), ShownAll(snapshots, active), Elements(order));
    MergeThenRemove(Totals(snapshots), Counters(active), Elements(order));
    TotalsRemove(scanned.snapshots, Elements(order));
  }

  lemma TotalsKeys(snapshots: Snapshots)
    ensures Totals(snapshots).Keys == snapshots.Keys
  {
  }

  lemma TotalsRemove(snapshots: Snapshots, gone: set<Id>)
    ensures Totals(snapshots - gone) == Totals(snapshots) - gone
  {
  }

  lemma {:induction false} ShownAt(snapshots: Snapshots, active: seq<Tracked>, m: Tracked)
    requires DistinctIds(active) && m in active
    ensures ShownAll(snapshots, active)[m.id] == Shown(snapshots, m)
    ensures Counters(active)[m.id] == (m.upload, m.download)
  {
    var init := active[..|active| - 1];
    LastIsNew(active);
    if m != active[|active| - 1] {
      ShownAt(snapshots, init, m);
      assert m.id in Ids(init);
    }
  }

  lemma ShownIsExact(snapshots: Snapshots, active: seq<Tracked>)
    requires DistinctIds(active)
    ensures ShownAll(snapshots, active) == Counters(active) <==>
            forall m :: m in active ==> !Regressed(snapshots, m)
  {
    var shown, counters := ShownAll(snapshots, active), Counters(active);
    if m :| m in active && Regressed(snapshots, m) {
      ShownAt(snapshots, active, m);
      assert shown[m.id] != counters[m.id];
    } else {
      forall id | id in shown ensures shown[id] == counters[id] {
        var m :| m in active && m.id == id;
        ShownAt(snapshots, active, m);
      }
      assert shown == counters;
    }
  }

  /** After a tick the client shows exactly the active connections; its totals are right iff no counter fell. */
  lemma TickExactIffMonotone(
    client: Client, snapshots: Snapshots, active: seq<Tracked>, closed: seq<Tracked>, order: seq<Id>, now: nat)
    requires DistinctIds(active) && Open(client) == Totals(snapshots)
    requires Elements(order) == snapshots.Keys - Ids(active)
    ensures var turn := TickTurn(snapshots, active, closed, order, now);
            && Open(Apply(client, turn.events)).Keys == Ids(active)
            && (Open(Apply(client, turn.events)) == Totals(turn.snapshots) <==>
                  forall m :: m in active ==> !Regressed(snapshots, m))
  {
    assert Totals(snapshots).Keys == snapshots.Keys;
    TickReplays(client, snapshots, active, closed, order, now);
    ShownIsExact(snapshots, active);
  }

  lemma EventReplays(client: Client, snapshots: Snapshots, event: TrackerEvent, now: nat)
    requires Open(client) == Totals(snapshots)
    ensures var turn := EventTurn(snapshots, event, now);
            && Open(Apply(client, turn.events)) == Totals(turn.snapshots)
            && UpdatesOpen(client, turn.events)
  {
    var turn := EventTurn(snapshots, event, now);
    if turn.events != [] {
      ApplyOne(client, turn.events[0]);
      if event.Joined? { OpenAfterNew(client, event.id, turn.events[0].connection); }
      else {
        OpenAfterClosed(client, turn.events[0]);
        TotalsRemove(snapshots, {event.id});
      }
    }
  }

  lemma {:induction false} ActiveRowsReplay(active: seq<Tracked>)
    ensures Open(Apply(map[], ActiveRows(active))) == Counters(active) == Totals(InitialSnapshots(active))
  {
    if active != [] {
      var init := active[..|active| - 1];
      var m := active[|active| - 1];
      assert ActiveRows(active)[..|active| - 1] == ActiveRows(init);
      ActiveRowsReplay(init);
      OpenAfterNew(Apply(map[], ActiveRows(init)), m.id, Proto(m));
    }
  }

  lemma {:induction false} ClosedRowsReplay(client: Client, closed: seq<Tracked>)
    ensures Open(Apply(client, ClosedRows(closed))) == Open(client) - Ids(closed)
  {
    if closed == [] {
      assert Open(client) - {} == Open(client);
    } else {
      var init, m := closed[..|closed| - 1], closed[|closed| - 1];
      assert ClosedRows(closed)[..|closed| - 1] == ClosedRows(init);
      assert Ids(closed) == Ids(init) + {m.id} by { assert closed == init + [m]; }
      ClosedRowsReplay(client, init);
      OpenAfterNew(Apply(client, ClosedRows(init)), m.id, Proto(m).(closedAt := UnixMilli(m.closedAt)));
      RemoveTwice(Open(client), Ids(init), m.id);
    }
  }

  /** The first batch agrees with the snapshots unless a connection was read both as active and as closed. */
  lemma InitialExactIffDisjoint(active: seq<Tracked>, closed: seq<Tracked>)
    ensures var client := Apply(map[], ActiveRows(active) + ClosedRows(closed));
            && Open(client) == Totals(InitialSnapshots(active)) - Ids(closed)
            && (Open(client) == Totals(InitialSnapshots(active)) <==> Ids(active) !! Ids(closed))
  {
    ApplyAppend(map[], ActiveRows(active), ClosedRows(closed));
    ActiveRowsReplay(active);
    ClosedRowsReplay(Apply(map[], ActiveRows(active)), closed);
    var totals := Totals(InitialSnapshots(active));
    assert totals.Keys == Ids(active);
    if totals - Ids(closed) == totals {
      assert (totals - Ids(closed)).Keys == totals.Keys - Ids(closed);
    }
  }

  /** One connection in both reads is enough: the client shows it closed while the server takes it for announced. */
  lemma ReadTwiceIsHidden(m: Tracked)
    ensures var client := Apply(map[], ActiveRows([m]) + ClosedRows([m]));
            m.id !in Open(client) && m.id in InitialSnapshots([m])
  {
    InitialExactIffDisjoint([m], [m]);
  }

  lemma EvictKeepsOpen(client: Client, now: int)
    ensures Open(Evict(client, now)) == Open(client)
  {
  }

  // ---------- What a closed connection shows ----------

  /**
   A closing event leaves the time it carries, or else the tracked one, or else the current; and the final
   totals, or those shown so far if it carries no connection.
   */
  lemma LeftShowsFinal(client: Client, snapshots: Snapshots, id: Id, m: Tracked, at: nat, now: nat)
    ensures var turn := EventTurn(snapshots, Left(id, m, at), now);
            var after := Apply(client, turn.events);
            var time := UnixMilli(if at != 0 then at else if m.closedAt != 0 then m.closedAt else now);
            && id !in turn.snapshots
            && (m.id != NIL ==> id in after && after[id] == Connection(m.upload, m.download, 0, 0, time))
            && (m.id == NIL && id in client ==>
                  id in after && after[id] == client[id].(uplink := 0, downlink := 0, closedAt := time))
            && (m.id == NIL && id !in client ==> id !in after)
  {
    ApplyOne(client, EventTurn(snapshots, Left(id, m, at), now).events[0]);
  }

  /** The record that counts is the last one of the connection. */
  lemma {:induction false} LastClosedIsLast(closed: seq<Tracked>, id: Id)
    ensures LastClosed(closed, id).None? <==> id !in Ids(closed)
    ensures LastClosed(closed, id).Some? ==>
              exists i :: 0 <= i < |closed| && closed[i] == LastClosed(closed, id).value && closed[i].id == id
                          && forall j :: i < j < |closed| ==> closed[j].id != id
  {
    if closed != [] {
      var init, m := closed[..|closed| - 1], closed[|closed| - 1];
      assert closed == init + [m];
      LastClosedIsLast(init, id);
    }
  }

  /** The first batch shows a closed connection with the totals and the time of its last record. */
  lemma {:induction false} InitialShowsClosed(client: Client, closed: seq<Tracked>, id: Id)
    ensures var after := Apply(client, ClosedRows(closed));
            match LastClosed(closed, id)
            case Some(m) =>
              id in after && after[id] == Connection(m.upload, m.download, 0, 0, UnixMilli(m.closedAt))
            case None => (id in after <==> id in client) && (id in client ==> after[id] == client[id])
  {
    if closed != [] {
      var init, m := closed[..|closed| - 1], closed[|closed| - 1];
      assert ClosedRows(closed)[..|closed| - 1] == ClosedRows(init);
      InitialShowsClosed(client, init, id);
    }
  }

  /** What the client shows for a connection that was found closed, from what it showed before. */
  ghost predicate ShowsFinal(client: Client, after: Client, closed: seq<Tracked>, now: nat, id: Id) {
    match LastClosed(closed, id)
    case Some(m) =>
      var at := UnixMilli(if m.closedAt != 0 then m.closedAt else now);
      id in after && after[id] == Connection(m.upload, m.download, 0, 0, at)
    case None =>
      && (id in after <==> id in client)
      && (id in client ==>
            after[id] == Connection(client[id].uplinkTotal, client[id].downlinkTotal, 0, 0, UnixMilli(now)))
  }

  lemma {:induction false} CloseEventsShowFinal(client: Client, closed: seq<Tracked>, order: seq<Id>, now: nat, id: Id)
    requires id in order
    ensures ShowsFinal(client, Apply(client, CloseEvents(closed, order, now)), closed, now, id)
  {
    var init, last := order[..|order| - 1], order[|order| - 1];
    assert order == init + [last];
    CloseEventsLast(closed, order, now);
    assert CloseEvents(closed, order, now)[..|order| - 1] == CloseEvents(closed, init, now);
    if id in init {
      CloseEventsShowFinal(client, closed, init, now, id);
    } else {
      CloseEventsSkip(client, closed, init, now, id);
    }
  }

  /** A connection found closed by a tick shows its latest record among the closed ones, or its last known totals. */
  lemma TickShowsFinal(
    client: Client, snapshots: Snapshots, active: seq<Tracked>, closed: seq<Tracked>, order: seq<Id>, now: nat, id: Id)
    requires id in order && id !in Ids(active)
    ensures ShowsFinal(client, Apply(client, TickTurn(snapshots, active, closed, order, now).events), closed, now, id)
  {
    var scanned := Scan(snapshots, active).events;
    ScanSkips(client, snapshots, active, id);
    ApplyAppend(client, scanned, CloseEvents(closed, order, now));
    CloseEventsShowFinal(Apply(client, scanned), closed, order, now, id);
  }

  lemma ApplyElsewhere(client: Client, event: Event, id: Id)
    requires event.id != id
    ensures id in ApplyEvent(client, event) <==> id in client
    ensures id in client ==> ApplyEvent(client, event)[id] == client[id]
  {
  }

  lemma {:induction false} ScanSkips(client: Client, snapshots: Snapshots, active: seq<Tracked>, id: Id)
    requires id !in Ids(active)
    ensures var after := Apply(client, Scan(snapshots, active).events);
            (id in after <==> id in client) && (id in client ==> after[id] == client[id])
  {
    if active != [] {
      var init, m := active[..|active| - 1], active[|active| - 1];
      assert active == init + [m];
      ScanSkips(client, snapshots, init, id);
      var before := Scan(snapshots, init);
      var turn := ScanTurn(before.snapshots, m);
      ApplyAppend(client, before.events, turn.events);
      if turn.events != [] {
        ApplyOne(Apply(client, before.events), turn.events[0]);
        ApplyElsewhere(Apply(client, before.events), turn.events[0], id);
      }
    }
  }

  lemma {:induction false} CloseEventsSkip(client: Client, closed: seq<Tracked>, order: seq<Id>, now: nat, id: Id)
    requires id !in order
    ensures var after := Apply(client, CloseEvents(closed, order, now));
            (id in after <==> id in client) && (id in client ==> after[id] == client[id])
  {
    if order != [] {
      assert order == order[..|order| - 1] + [order[|order| - 1]];
      assert CloseEvents(closed, order, now)[..|order| - 1] == CloseEvents(closed, order[..|order| - 1], now);
      CloseEventsSkip(client, closed, order[..|order| - 1], now, id);
    }
  }

  // ---------- The rates ----------

  /** The rates of `m` after a tick: what its counters gained since they were announced, nothing if it is new. */
  function Gained(snapshots: Snapshots, m: Tracked): (int, int) {
    if m.id !in snapshots || Regressed(snapshots, m) then (0, 0)
    else (m.upload - snapshots[m.id].uplink, m.download - snapshots[m.id].downlink)
  }

  function Rates(c: Connection): (int, int) {
    (c.uplink, c.downlink)
  }

  /** A connection shows rates if and only if it had traffic when it was last read. */
  ghost predicate QuietAt(client: Client, snapshots: Snapshots, id: Id) {
    id in client && id in snapshots ==> (snapshots[id].hadTraffic <==> Rates(client[id]) != (0, 0))
  }

  ghost predicate ShowsRates(client: Client, snapshots: Snapshots, id: Id, rates: (int, int)) {
    id in client && Rates(client[id]) == rates && QuietAt(client, snapshots, id)
  }

  ghost predicate Quiet(client: Client, snapshots: Snapshots) {
    forall id :: id in snapshots ==> QuietAt(client, snapshots, id)
  }

  lemma ScanTurnRates(client: Client, snapshots: Snapshots, m: Tracked)
    requires QuietAt(client, snapshots, m.id) && (m.id in snapshots ==> m.id in client)
    ensures var turn := ScanTurn(snapshots, m);
            ShowsRates(Apply(client, turn.events), turn.snapshots, m.id, Gained(snapshots, m))
  {
    var turn := ScanTurn(snapshots, m);
    if turn.events != [] { ApplyOne(client, turn.events[0]); }
  }

  lemma ScanTurnElsewhere(client: Client, snapshots: Snapshots, m: Tracked, id: Id)
    requires m.id != id
    ensures var turn := ScanTurn(snapshots, m);
            var after := Apply(client, turn.events);
            && (id in turn.snapshots <==> id in snapshots)
            && (id in snapshots ==> turn.snapshots[id] == snapshots[id])
            && (id in after <==> id in client) && (id in client ==> after[id] == client[id])
  {
    var turn := ScanTurn(snapshots, m);
    if turn.events != [] {
      ApplyOne(client, turn.events[0]);
      ApplyElsewhere(client, turn.events[0], id);
    }
  }

  /** The last connection read meets what the client and the snapshots said before the scan. */
  lemma ScanLastRates(client: Client, snapshots: Snapshots, init: seq<Tracked>, m: Tracked)
    requires m.id !in Ids(init) && QuietAt(client, snapshots, m.id) && (m.id in snapshots ==> m.id in client)
    ensures var before := Scan(snapshots, init);
            var turn := ScanTurn(before.snapshots, m);
            ShowsRates(Apply(Apply(client, before.events), turn.events), turn.snapshots, m.id, Gained(snapshots, m))
  {
    var before := Scan(snapshots, init);
    ScanUntouched(snapshots, init, m.id);
    ScanSkips(client, snapshots, init, m.id);
    ScanTurnRates(Apply(client, before.events), before.snapshots, m);
  }

  lemma {:induction false} ScanRates(client: Client, snapshots: Snapshots, active: seq<Tracked>, m: Tracked)
    requires DistinctIds(active) && m in active
    requires QuietAt(client, snapshots, m.id) && (m.id in snapshots ==> m.id in client)
    ensures var turn := Scan(snapshots, active);
            ShowsRates(Apply(client, turn.events), turn.snapshots, m.id, Gained(snapshots, m))
  {
    var init, last := active[..|active| - 1], active[|active| - 1];
    LastIsNew(active);
    var before := Scan(snapshots, init);
    ApplyAppend(client, before.events, ScanTurn(before.snapshots, last).events);
    if m == last {
      ScanLastRates(client, snapshots, init, m);
    } else {
      assert m in init && m.id in Ids(init);
      ScanRates(client, snapshots, init, m);
      ScanTurnElsewhere(Apply(client, before.events), before.snapshots, last, m.id);
    }
  }

  /** After a tick every active connection shows as rates what it gained since it was announced. */
  lemma TickShowsRates(
    client: Client, snapshots: Snapshots, active: seq<Tracked>, closed: seq<Tracked>, order: seq<Id>, now: nat,
    m: Tracked)
    requires DistinctIds(active) && m in active && m.id !in order
    requires QuietAt(client, snapshots, m.id) && (m.id in snapshots ==> m.id in client)
    ensures var turn := TickTurn(snapshots, active, closed, order, now);
            ShowsRates(Apply(client, turn.events), turn.snapshots, m.id, Gained(snapshots, m))
  {
    var scanned := Scan(snapshots, active);
    ScanRates(client, snapshots, active, m);
    ApplyAppend(client, scanned.events, CloseEvents(closed, order, now));
    CloseEventsSkip(Apply(client, scanned.events), closed, order, now, m.id);
  }

  // ---------- Whole sessions ----------

  /** A batch of queued events drained together, or a tick. */
  datatype Step =
    | Drain(queued: seq<TrackerEvent>, at: nat)
    | Tick(active: seq<Tracked>, closed: seq<Tracked>, order: seq<Id>, at: nat)

  function DrainTurn(snapshots: Snapshots, queued: seq<TrackerEvent>, now: nat): Turn {
    if queued == [] then Turn(snapshots, [])
    else
      var before := DrainTurn(snapshots, queued[..|queued| - 1], now);
      var turn := EventTurn(before.snapshots, queued[|queued| - 1], now);
      Turn(turn.snapshots, before.events + turn.events)
  }

  function StepTurn(snapshots: Snapshots, step: Step): Turn {
    match step
    case Drain(queued, at) => DrainTurn(snapshots, queued, at)
    case Tick(active, closed, order, at) => TickTurn(snapshots, active, closed, order, at)
  }

  /** A step the traffic manager can produce: a tick reads each connection once, with counters that never fall. */
  ghost predicate Possible(snapshots: Snapshots, step: Step) {
    step.Tick? ==>
      && DistinctIds(step.active)
      && Elements(step.order) == snapshots.Keys - Ids(step.active)
      && forall m :: m in step.active ==> !Regressed(snapshots, m)
  }

  datatype Session = Session(client: Client, snapshots: Snapshots)

  function Advance(session: Session, step: Step): Session {
    var turn := StepTurn(session.snapshots, step);
    Session(Evict(Apply(session.client, turn.events), step.at), turn.snapshots)
  }

  function Begin(active: seq<Tracked>, closed: seq<Tracked>, now: int): Session {
    Session(Evict(Apply(map[], ActiveRows(active) + ClosedRows(closed)), now), InitialSnapshots(active))
  }

  function Play(session: Session, steps: seq<Step>): Session {
    if steps == [] then session else Advance(Play(session, steps[..|steps| - 1]), steps[|steps| - 1])
  }

  ghost predicate AllPossible(session: Session, steps: seq<Step>) {
    forall i :: 0 <= i < |steps| ==> Possible(Play(session, steps[..i]).snapshots, steps[i])
  }

  lemma {:induction false} DrainReplays(client: Client, snapshots: Snapshots, queued: seq<TrackerEvent>, now: nat)
    requires Open(client) == Totals(snapshots)
    ensures var turn := DrainTurn(snapshots, queued, now);
            && Open(Apply(client, turn.events)) == Totals(turn.snapshots)
            && UpdatesOpen(client, turn.events)
  {
    if queued != [] {
      var init := queued[..|queued| - 1];
      DrainReplays(client, snapshots, init, now);
      var before := DrainTurn(snapshots, init, now);
      var turn := EventTurn(before.snapshots, queued[|queued| - 1], now);
      ApplyAppend(client, before.events, turn.events);
      EventReplays(Apply(client, before.events), before.snapshots, queued[|queued| - 1], now);
    }
  }

  lemma StepReplays(session: Session, step: Step)
    requires Open(session.client) == Totals(session.snapshots) && Possible(session.snapshots, step)
    ensures UpdatesOpen(session.client, StepTurn(session.snapshots, step).events)
    ensures var after := Advance(session, step);
            && Open(after.client) == Totals(after.snapshots)
            && (step.Tick? ==> Open(after.client) == Counters(step.active))
  {
    var turn := StepTurn(session.snapshots, step);
    EvictKeepsOpen(Apply(session.client, turn.events), step.at);
    match step
    case Drain(queued, at) => DrainReplays(session.client, session.snapshots, queued, at);
    case Tick(active, closed, order, at) =>
      assert Totals(session.snapshots).Keys == session.snapshots.Keys;
      TickReplays(session.client, session.snapshots, active, closed, order, at);
      ShownIsExact(session.snapshots, active);
  }

  lemma {:induction false} SessionAgrees(begin: Session, steps: seq<Step>)
    requires Open(begin.client) == Totals(begin.snapshots) && AllPossible(begin, steps)
    ensures var end := Play(begin, steps); Open(end.client) == Totals(end.snapshots)
  {
    if steps != [] {
      var init, step := steps[..|steps| - 1], steps[|steps| - 1];
      PrefixPossible(begin, steps, |steps| - 1);
      SessionAgrees(begin, init);
      assert Possible(Play(begin, init).snapshots, step);
      StepReplays(Play(begin, init), step);
    }
  }

  lemma PrefixPossible(begin: Session, steps: seq<Step>, n: nat)
    requires n <= |steps| && AllPossible(begin, steps)
    ensures AllPossible(begin, steps[..n])
  {
    forall i | 0 <= i < n ensures Possible(Play(begin, steps[..n][..i]).snapshots, steps[..n][i]) {
      assert steps[..n][..i] == steps[..i];
    }
  }

  /**
   Any mix of drained events and ticks: the client's open table equals the server's snapshots after every
   step, equals the traffic manager's counters after every tick, and no UPDATE names a connection not open.
   */
  lemma SessionReplays(active: seq<Tracked>, closed: seq<Tracked>, now: int, steps: seq<Step>, i: nat)
    requires Ids(active) !! Ids(closed) && AllPossible(Begin(active, closed, now), steps) && i < |steps|
    ensures var before := Play(Begin(active, closed, now), steps[..i]);
            var after := Advance(before, steps[i]);
            && Open(before.client) == Totals(before.snapshots)
            && UpdatesOpen(before.client, StepTurn(before.snapshots, steps[i]).events)
            && Open(after.client) == Totals(after.snapshots)
            && (steps[i].Tick? ==> Open(after.client) == Counters(steps[i].active))
  {
    var begin := Begin(active, closed, now);
    InitialExactIffDisjoint(active, closed);
    EvictKeepsOpen(Apply(map[], ActiveRows(active) + ClosedRows(closed)), now);
    PrefixPossible(begin, steps, i);
    SessionAgrees(begin, steps[..i]);
    StepReplays(Play(begin, steps[..i]), steps[i]);
  }

  // ---------- Sessions that begin with a connection read twice ----------

  /** The client shows open what the snapshots say, except perhaps some of the connections in `gone`. */
  ghost predicate Near(client: Client, snapshots: Snapshots, gone: set<Id>) {
    && Open(client).Keys <= snapshots.Keys
    && AgreesOn(client, snapshots, Open(client).Keys)
    && AgreesOn(client, snapshots, snapshots.Keys - gone)
  }

  lemma EventStaysNear(client: Client, snapshots: Snapshots, event: TrackerEvent, now: nat, gone: set<Id>)
    requires Near(client, snapshots, gone)
    ensures var turn := EventTurn(snapshots, event, now);
            Near(Apply(client, turn.events), turn.snapshots, gone) && UpdatesOpen(client, turn.events)
  {
    var turn := EventTurn(snapshots, event, now);
    if turn.events != [] {
      ApplyOne(client, turn.events[0]);
      if event.Joined? { OpenAfterNew(client, event.id, turn.events[0].connection); }
      else { OpenAfterClosed(client, turn.events[0]); }
    }
  }

  lemma {:induction false} DrainStaysNear(
    client: Client, snapshots: Snapshots, queued: seq<TrackerEvent>, now: nat, gone: set<Id>)
    requires Near(client, snapshots, gone)
    ensures var turn := DrainTurn(snapshots, queued, now);
            Near(Apply(client, turn.events), turn.snapshots, gone) && UpdatesOpen(client, turn.events)
  {
    if queued != [] {
      var init := queued[..|queued| - 1];
      DrainStaysNear(client, snapshots, init, now, gone);
      var before := DrainTurn(snapshots, init, now);
      var turn := EventTurn(before.snapshots, queued[|queued| - 1], now);
      ApplyAppend(client, before.events, turn.events);
      EventStaysNear(Apply(client, before.events), before.snapshots, queued[|queued| - 1], now, gone);
    }
  }

  /** A tick settles it, since what was read as closed is not active any more. */
  lemma TickRecovers(session: Session, step: Step, gone: set<Id>)
    requires Near(session.client, session.snapshots, gone) && Possible(session.snapshots, step)
    requires step.Tick? && Ids(step.active) !! gone
    ensures UpdatesOpen(session.client, StepTurn(session.snapshots, step).events)
    ensures var after := Advance(session, step);
            Open(after.client) == Totals(after.snapshots) == Counters(step.active)
  {
    var Tick(active, closed, order, at) := step;
    EvictKeepsOpen(Apply(session.client, StepTurn(session.snapshots, step).events), at);
    assert AgreesOn(session.client, session.snapshots, Ids(active));
    TickReplays(session.client, session.snapshots, active, closed, order, at);
    ShownIsExact(session.snapshots, active);
  }

  ghost predicate AnyTick(steps: seq<Step>) {
    steps != [] && (steps[|steps| - 1].Tick? || AnyTick(steps[..|steps| - 1]))
  }

  ghost predicate NeverActiveAgain(steps: seq<Step>, gone: set<Id>) {
    forall i :: 0 <= i < |steps| && steps[i].Tick? ==> Ids(steps[i].active) !! gone
  }

  ghost predicate Recovering(session: Session, ticked: bool, gone: set<Id>) {
    if ticked then Open(session.client) == Totals(session.snapshots) else Near(session.client, session.snapshots, gone)
  }

  lemma StepRecovers(session: Session, step: Step, ticked: bool, gone: set<Id>)
    requires Recovering(session, ticked, gone) && Possible(session.snapshots, step)
    requires step.Tick? ==> Ids(step.active) !! gone
    ensures UpdatesOpen(session.client, StepTurn(session.snapshots, step).events)
    ensures Recovering(Advance(session, step), ticked || step.Tick?, gone)
    ensures step.Tick? ==> Open(Advance(session, step).client) == Counters(step.active)
  {
    if ticked {
      StepReplays(session, step);
    } else if step.Tick? {
      TickRecovers(session, step, gone);
    } else {
      DrainStaysNear(session.client, session.snapshots, step.queued, step.at, gone);
      EvictKeepsOpen(Apply(session.client, StepTurn(session.snapshots, step).events), step.at);
    }
  }

  lemma LastStep(begin: Session, steps: seq<Step>, gone: set<Id>)
    requires steps != [] && AllPossible(begin, steps) && NeverActiveAgain(steps, gone)
    ensures var init, step := steps[..|steps| - 1], steps[|steps| - 1];
            && AllPossible(begin, init) && NeverActiveAgain(init, gone)
            && Possible(Play(begin, init).snapshots, step) && (step.Tick? ==> Ids(step.active) !! gone)
  {
    PrefixPossible(begin, steps, |steps| - 1);
  }

  lemma {:induction false} SessionRecoversFrom(begin: Session, steps: seq<Step>, gone: set<Id>)
    requires Near(begin.client, begin.snapshots, gone) && AllPossible(begin, steps) && NeverActiveAgain(steps, gone)
    ensures Recovering(Play(begin, steps), AnyTick(steps), gone)
  {
    if steps != [] {
      var init, step := steps[..|steps| - 1], steps[|steps| - 1];
      LastStep(begin, steps, gone);
      SessionRecoversFrom(begin, init, gone);
      StepRecovers(Play(begin, init), step, AnyTick(init), gone);
    }
  }

  lemma BeginIsNear(active: seq<Tracked>, closed: seq<Tracked>, now: int)
    ensures var begin := Begin(active, closed, now);
            Near(begin.client, begin.snapshots, Ids(active) * Ids(closed))
  {
    ActiveRowsReplay(active);
    TotalsKeys(InitialSnapshots(active));
    InitialExactIffDisjoint(active, closed);
    EvictKeepsOpen(Apply(map[], ActiveRows(active) + ClosedRows(closed)), now);
  }

  /**
   Even when connections were first read both as active and as closed, as long as those do not become active
   again: no UPDATE names a connection not open, and the client agrees with the server from the first tick on.
   */
  lemma SessionRecovers(active: seq<Tracked>, closed: seq<Tracked>, now: int, steps: seq<Step>, i: nat)
    requires AllPossible(Begin(active, closed, now), steps) && i < |steps|
    requires NeverActiveAgain(steps, Ids(active) * Ids(closed))
    ensures var before := Play(Begin(active, closed, now), steps[..i]);
            var after := Advance(before, steps[i]);
            && UpdatesOpen(before.client, StepTurn(before.snapshots, steps[i]).events)
            && (AnyTick(steps[..i + 1]) ==> Open(after.client) == Totals(after.snapshots))
            && (steps[i].Tick? ==> Open(after.client) == Counters(steps[i].active))
  {
    var begin := Begin(active, closed, now);
    BeginIsNear(active, closed, now);
    PrefixPossible(begin, steps, i);
    SessionRecoversFrom(begin, steps[..i], Ids(active) * Ids(closed));
    StepRecovers(Play(begin, steps[..i]), steps[i], AnyTick(steps[..i]), Ids(active) * Ids(closed));
    assert steps[..i + 1][..i] == steps[..i];
  }

  // ---------- Rates over whole sessions ----------

  lemma EventStaysQuiet(client: Client, snapshots: Snapshots, event: TrackerEvent, now: nat)
    requires Quiet(client, snapshots)
    ensures var turn := EventTurn(snapshots, event, now); Quiet(Apply(client, turn.events), turn.snapshots)
  {
    var turn := EventTurn(snapshots, event, now);
    if turn.events != [] {
      ApplyOne(client, turn.events[0]);
      forall id | id in turn.snapshots ensures QuietAt(Apply(client, turn.events), turn.snapshots, id) {
        if id != event.id {
          assert QuietAt(client, snapshots, id);
          ApplyElsewhere(client, turn.events[0], id);
        }
      }
    }
  }

  lemma {:induction false} DrainStaysQuiet(client: Client, snapshots: Snapshots, queued: seq<TrackerEvent>, now: nat)
    requires Quiet(client, snapshots)
    ensures var turn := DrainTurn(snapshots, queued, now); Quiet(Apply(client, turn.events), turn.snapshots)
  {
    if queued != [] {
      var init, last := queued[..|queued| - 1], queued[|queued| - 1];
      DrainStaysQuiet(client, snapshots, init, now);
      var before := DrainTurn(snapshots, init, now);
      ApplyAppend(client, before.events, EventTurn(before.snapshots, last, now).events);
      EventStaysQuiet(Apply(client, before.events), before.snapshots, last, now);
    }
  }

  lemma EvictStaysQuiet(client: Client, snapshots: Snapshots, now: int)
    requires Quiet(client, snapshots)
    ensures Quiet(Evict(client, now), snapshots)
  {
    forall id | id in snapshots ensures QuietAt(Evict(client, now), snapshots, id) {
      assert QuietAt(client, snapshots, id);
    }
  }

  lemma {:induction false} RowsAreQuiet(events: seq<Event>)
    requires forall i :: 0 <= i < |events| ==> events[i].New? && Rates(events[i].connection) == (0, 0)
    ensures forall id :: id in Apply(map[], events) ==> Rates(Apply(map[], events)[id]) == (0, 0)
  {
    if events != [] { RowsAreQuiet(events[..|events| - 1]); }
  }

  lemma {:induction false} SnapshotsBeginQuiet(active: seq<Tracked>)
    ensures forall id :: id in InitialSnapshots(active) ==> !InitialSnapshots(active)[id].hadTraffic
  {
    if active != [] { SnapshotsBeginQuiet(active[..|active| - 1]); }
  }

  lemma BeginIsQuiet(active: seq<Tracked>, closed: seq<Tracked>, now: int)
    ensures var begin := Begin(active, closed, now); Quiet(begin.client, begin.snapshots)
  {
    var rows := ActiveRows(active) + ClosedRows(closed);
    RowsAreQuiet(rows);
    SnapshotsBeginQuiet(active);
    assert forall id :: id in InitialSnapshots(active) ==> QuietAt(Apply(map[], rows), InitialSnapshots(active), id);
    EvictStaysQuiet(Apply(map[], rows), InitialSnapshots(active), now);
  }

  /** What a tick must find: the client shows every active connection that was announced. */
  ghost predicate Follows(session: Session, step: Step) {
    step.Tick? ==> forall m :: m in step.active && m.id in session.snapshots ==> m.id in session.client
  }

  lemma RecoveringFollows(session: Session, step: Step, ticked: bool, gone: set<Id>)
    requires Recovering(session, ticked, gone) && (step.Tick? ==> Ids(step.active) !! gone)
    ensures Follows(session, step)
    ensures step.Tick? ==> AgreesOn(session.client, session.snapshots, Ids(step.active))
    ensures Open(session.client).Keys <= session.snapshots.Keys
  {
    TotalsKeys(session.snapshots);
    if step.Tick? {
      assert AgreesOn(session.client, session.snapshots, Ids(step.active));
      forall m | m in step.active && m.id in session.snapshots ensures m.id in session.client {
        assert m.id in Ids(step.active);
      }
    }
  }

  lemma TickStaysQuiet(session: Session, step: Step)
    requires Quiet(session.client, session.snapshots) && Possible(session.snapshots, step)
    requires step.Tick? && Follows(session, step)
    ensures var turn := StepTurn(session.snapshots, step);
            Quiet(Apply(session.client, turn.events), turn.snapshots)
  {
    var Tick(active, closed, order, at) := step;
    var turn := TickTurn(session.snapshots, active, closed, order, at);
    ScanKeys(session.snapshots, active);
    forall id | id in turn.snapshots ensures QuietAt(Apply(session.client, turn.events), turn.snapshots, id) {
      var m :| m in active && m.id == id;
      assert id !in Elements(order);
      TickShowsRates(session.client, session.snapshots, active, closed, order, at, m);
    }
  }

  lemma StepStaysQuiet(session: Session, step: Step)
    requires Quiet(session.client, session.snapshots) && Possible(session.snapshots, step) && Follows(session, step)
    ensures var after := Advance(session, step); Quiet(after.client, after.snapshots)
  {
    var turn := StepTurn(session.snapshots, step);
    if step.Tick? {
      TickStaysQuiet(session, step);
    } else {
      DrainStaysQuiet(session.client, session.snapshots, step.queued, step.at);
    }
    EvictStaysQuiet(Apply(session.client, turn.events), turn.snapshots, step.at);
  }

  lemma {:induction false} SessionStaysQuiet(begin: Session, steps: seq<Step>, gone: set<Id>)
    requires Near(begin.client, begin.snapshots, gone) && Quiet(begin.client, begin.snapshots)
    requires AllPossible(begin, steps) && NeverActiveAgain(steps, gone)
    ensures var end := Play(begin, steps); Quiet(end.client, end.snapshots)
  {
    if steps != [] {
      var init, step := steps[..|steps| - 1], steps[|steps| - 1];
      LastStep(begin, steps, gone);
      SessionRecoversFrom(begin, init, gone);
      RecoveringFollows(Play(begin, init), step, AnyTick(init), gone);
      SessionStaysQuiet(begin, init, gone);
      StepStaysQuiet(Play(begin, init), step);
    }
  }

  /** The row of an active connection after a tick, from what the client showed before. */
  function Row(client: Client, m: Tracked): Connection {
    if m.id in Open(client) then
      var (up, down) := Open(client)[m.id];
      Connection(m.upload, m.download, m.upload - up, m.download - down, 0)
    else Connection(m.upload, m.download, 0, 0, 0)
  }

  lemma RowIsGained(client: Client, snapshots: Snapshots, m: Tracked)
    requires AgreesOn(client, snapshots, {m.id}) && (m.id in Open(client) ==> m.id in snapshots)
    requires !Regressed(snapshots, m)
    ensures var (up, down) := Gained(snapshots, m); Row(client, m) == Connection(m.upload, m.download, up, down, 0)
  {
  }

  lemma OpenRow(client: Client, now: int, id: Id)
    requires id in Open(client)
    ensures id in Evict(client, now) && Evict(client, now)[id] == client[id] && client[id].closedAt == 0
    ensures Open(client)[id] == (client[id].uplinkTotal, client[id].downlinkTotal)
  {
  }

  lemma TickShowsRow(
    client: Client, snapshots: Snapshots, active: seq<Tracked>, closed: seq<Tracked>, order: seq<Id>, now: nat,
    m: Tracked)
    requires DistinctIds(active) && Elements(order) == snapshots.Keys - Ids(active)
    requires m in active && !Regressed(snapshots, m) && QuietAt(client, snapshots, m.id)
    requires AgreesOn(client, snapshots, Ids(active)) && Open(client).Keys <= snapshots.Keys
    ensures var after := Evict(Apply(client, TickTurn(snapshots, active, closed, order, now).events), now);
            m.id in after && after[m.id] == Row(client, m)
  {
    var mid := Apply(client, TickTurn(snapshots, active, closed, order, now).events);
    assert m.id in Ids(active) && m.id !in Elements(order);
    RowIsGained(client, snapshots, m);
    TickReplays(client, snapshots, active, closed, order, now);
    ShownAt(snapshots, active, m);
    OpenRow(mid, now, m.id);
    TickShowsRates(client, snapshots, active, closed, order, now, m);
  }

  lemma SessionBeforeTick(active: seq<Tracked>, closed: seq<Tracked>, now: int, steps: seq<Step>, i: nat)
    requires AllPossible(Begin(active, closed, now), steps) && i < |steps|
    requires NeverActiveAgain(steps, Ids(active) * Ids(closed)) && steps[i].Tick?
    ensures var before := Play(Begin(active, closed, now), steps[..i]);
            && Quiet(before.client, before.snapshots)
            && AgreesOn(before.client, before.snapshots, Ids(steps[i].active))
            && Open(before.client).Keys <= before.snapshots.Keys
  {
    var begin, gone := Begin(active, closed, now), Ids(active) * Ids(closed);
    BeginIsNear(active, closed, now);
    BeginIsQuiet(active, closed, now);
    PrefixPossible(begin, steps, i);
    SessionRecoversFrom(begin, steps[..i], gone);
    SessionStaysQuiet(begin, steps[..i], gone);
    RecoveringFollows(Play(begin, steps[..i]), steps[i], AnyTick(steps[..i]), gone);
  }

  /**
   After every tick of a session the client's row of each active connection is exact: the counters as totals,
   and as rates what they gained over the totals shown before, or none if it was not shown open.
   */
  lemma SessionShowsRates(active: seq<Tracked>, closed: seq<Tracked>, now: int, steps: seq<Step>, i: nat, m: Tracked)
    requires AllPossible(Begin(active, closed, now), steps) && i < |steps|
    requires NeverActiveAgain(steps, Ids(active) * Ids(closed))
    requires steps[i].Tick? && m in steps[i].active
    ensures var before := Play(Begin(active, closed, now), steps[..i]);
            var after := Advance(before, steps[i]);
            m.id in after.client && after.client[m.id] == Row(before.client, m)
  {
    var before := Play(Begin(active, closed, now), steps[..i]);
    SessionBeforeTick(active, closed, now, steps, i);
    assert QuietAt(before.client, before.snapshots, m.id);
    var Tick(reading, found, order, at) := steps[i];
    TickShowsRow(before.client, before.snapshots, reading, found, order, at, m);
  }

  // ---------- What is sent and what is dropped ----------

  ghost predicate Mentions(events: seq<Event>, id: Id) {
    exists i :: 0 <= i < |events| && events[i].id == id
  }

  lemma MentionsAppend(a: seq<Event>, b: seq<Event>, id: Id)
    ensures Mentions(a + b, id) <==> Mentions(a, id) || Mentions(b, id)
  {
    if i :| 0 <= i < |a| && a[i].id == id { assert (a + b)[i].id == id; }
    if i :| 0 <= i < |b| && b[i].id == id { assert (a + b)[|a| + i].id == id; }
  }

  lemma {:induction false} UnmentionedStays(client: Client, events: seq<Event>, id: Id)
    requires !Mentions(events, id)
    ensures id in Apply(client, events) <==> id in client
    ensures id in client ==> Apply(client, events)[id] == client[id]
  {
    if events != [] {
      var init, last := events[..|events| - 1], events[|events| - 1];
      assert events == init + [last];
      MentionsAppend(init, [last], id);
      UnmentionedStays(client, init, id);
      assert [last][0].id != id;
      ApplyElsewhere(Apply(client, init), last, id);
    }
  }

  /** The client drops a closed connection once it has been closed for more than five minutes, and not before. */
  lemma ClosedRowsExpire(session: Session, step: Step, id: Id)
    ensures var after := Advance(session, step);
            && (id in after.client && after.client[id].closedAt != 0 ==>
                  step.at <= after.client[id].closedAt + 5 * 60 * 1000)
            && (!Mentions(StepTurn(session.snapshots, step).events, id) ==>
                  (id in after.client <==>
                     id in session.client
                     && (session.client[id].closedAt == 0 || step.at <= session.client[id].closedAt + 5 * 60 * 1000)))
  {
    var events := StepTurn(session.snapshots, step).events;
    if !Mentions(events, id) { UnmentionedStays(session.client, events, id); }
  }

  lemma {:induction false} ScanMentions(snapshots: Snapshots, active: seq<Tracked>, m: Tracked)
    requires DistinctIds(active) && m in active
    ensures Mentions(Scan(snapshots, active).events, m.id) <==>
            m.id !in snapshots || snapshots[m.id].hadTraffic || Gained(snapshots, m) != (0, 0)
  {
    var init, last := active[..|active| - 1], active[|active| - 1];
    LastIsNew(active);
    var before := Scan(snapshots, init);
    var turn := ScanTurn(before.snapshots, last);
    MentionsAppend(before.events, turn.events, m.id);
    if m == last {
      ScanUntouched(snapshots, init, m.id);
      ScanNeverMentions(snapshots, init, m.id);
      if turn.events != [] { assert turn.events[0].id == m.id; }
    } else {
      assert m in init && m.id in Ids(init);
      ScanMentions(snapshots, init, m);
    }
  }

  lemma {:induction false} ScanNeverMentions(snapshots: Snapshots, active: seq<Tracked>, id: Id)
    requires id !in Ids(active)
    ensures !Mentions(Scan(snapshots, active).events, id)
  {
    if active != [] {
      var init, last := active[..|active| - 1], active[|active| - 1];
      assert active == init + [last];
      ScanNeverMentions(snapshots, init, id);
      MentionsAppend(Scan(snapshots, init).events, ScanTurn(Scan(snapshots, init).snapshots, last).events, id);
    }
  }

  lemma TickMentions(
    client: Client, snapshots: Snapshots, active: seq<Tracked>, closed: seq<Tracked>, order: seq<Id>, now: nat,
    m: Tracked)
    requires DistinctIds(active) && Elements(order) == snapshots.Keys - Ids(active)
    requires m in active && !Regressed(snapshots, m) && QuietAt(client, snapshots, m.id)
    requires AgreesOn(client, snapshots, Ids(active)) && Open(client).Keys <= snapshots.Keys
    ensures Mentions(TickTurn(snapshots, active, closed, order, now).events, m.id) <==>
            !(m.id in client && client[m.id] == Row(client, m))
  {
    assert m.id in Ids(active) && m.id !in Elements(order);
    ScanMentions(snapshots, active, m);
    RowIsGained(client, snapshots, m);
    MentionsAppend(Scan(snapshots, active).events, CloseEvents(closed, order, now), m.id);
  }

  /** A tick sends something about an active connection if and only if the client's row of it has to change. */
  lemma SessionSendsIffChanged(
    active: seq<Tracked>, closed: seq<Tracked>, now: int, steps: seq<Step>, i: nat, m: Tracked)
    requires AllPossible(Begin(active, closed, now), steps) && i < |steps|
    requires NeverActiveAgain(steps, Ids(active) * Ids(closed))
    requires steps[i].Tick? && m in steps[i].active
    ensures var before := Play(Begin(active, closed, now), steps[..i]);
            Mentions(StepTurn(before.snapshots, steps[i]).events, m.id) <==>
            !(m.id in before.client && before.client[m.id] == Row(before.client, m))
  {
    var before := Play(Begin(active, closed, now), steps[..i]);
    SessionBeforeTick(active, closed, now, steps, i);
    assert QuietAt(before.client, before.snapshots, m.id);
    var Tick(reading, found, order, at) := steps[i];
    TickMentions(before.client, before.snapshots, reading, found, order, at, m);
  }
}
