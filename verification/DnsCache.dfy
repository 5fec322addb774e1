/** The DNS client's cache: which TTL a response is kept for, and how it ages while cached. */
module DnsCache {
  import opened Wrappers

  const TWO_32: int := 0x1_0000_0000

  type uint32 = x: int | 0 <= x < TWO_32

  /** `minimum` is the SOA record's last field; `rest` stands for name, type and data. */
  datatype Record = Record(ttl: uint32, minimum: Option<uint32>, rest: nat)

  datatype Message = Message(answer: seq<Record>, ns: seq<Record>, extra: seq<Record>, rcode: nat)

  function Records(m: Message): seq<Record> {
    m.answer + m.ns + m.extra
  }

  // ---------- Choosing the TTL ----------

  function Min(a: uint32, b: uint32): uint32 {
    if a < b then a else b
  }

  /** `extractNegativeTTL`: the first SOA record of the authority section decides. */
  function NegativeTTL(ns: seq<Record>): (ttl: Option<uint32>)
    ensures ttl.None? <==> forall r :: r in ns ==> r.minimum.None?
  {
    if ns == [] then None
    else if ns[0].minimum.Some? then Some(Min(ns[0].ttl, ns[0].minimum.value))
    else NegativeTTL(ns[1..])
  }

  /** It gives the smaller one of its own TTL and of its last field. */
  lemma {:induction false} NegativeTTLIsFirstSOA(ns: seq<Record>, i: nat)
    requires i < |ns| && ns[i].minimum.Some? && forall k :: 0 <= k < i ==> ns[k].minimum.None?
    ensures NegativeTTL(ns).Some?
    ensures NegativeTTL(ns).value <= ns[i].ttl && NegativeTTL(ns).value <= ns[i].minimum.value
    ensures NegativeTTL(ns).value == ns[i].ttl || NegativeTTL(ns).value == ns[i].minimum.value
  {
    if i > 0 { NegativeTTLIsFirstSOA(ns[1..], i - 1); }
  }

  /** The smallest positive TTL of the records, 0 if there is none. */
  ghost predicate LeastPositive(records: seq<Record>, ttl: int) {
    && (ttl > 0 ==> exists r :: r in records && r.ttl == ttl)
    && (forall r :: r in records && r.ttl > 0 ==> 0 < ttl <= r.ttl)
  }

  lemma LeastPositiveIsUnique(records: seq<Record>, a: int, b: int)
    requires a >= 0 && b >= 0 && LeastPositive(records, a) && LeastPositive(records, b)
    ensures a == b
  {
  }

  lemma LeastPositiveStep(seen: seq<Record>, ttl: int, r: Record)
    requires LeastPositive(seen, ttl) && ttl >= 0
    ensures LeastPositive(seen + [r], if ttl == 0 || (r.ttl > 0 && r.ttl < ttl) then r.ttl else ttl)
  {
  }

  /** One section of the loop that both `Exchange` and `loadResponse` run. */
  method ScanSection(section: seq<Record>, ttl0: uint32, ghost seen: seq<Record>) returns (ttl: uint32)
    requires LeastPositive(seen, ttl0)
    ensures LeastPositive(seen + section, ttl)
  {
    ttl := ttl0;
    assert seen + section[..0] == seen;
    for j := 0 to |section|
      invariant LeastPositive(seen + section[..j], ttl)
    {
      var r := section[j];
      LeastPositiveStep(seen + section[..j], ttl, r);
      assert seen + section[..j] + [r] == seen + section[..j + 1];
      if ttl == 0 || (r.ttl > 0 && r.ttl < ttl) { ttl := r.ttl; }
    }
    assert section[..|section|] == section;
  }

  method ScanTTL(m: Message) returns (ttl: uint32)
    ensures LeastPositive(Records(m), ttl)
  {
    ttl := ScanSection(m.answer, 0, []);
    assert [] + m.answer == m.answer;
    ttl := ScanSection(m.ns, ttl, m.answer);
    ttl := ScanSection(m.extra, ttl, m.answer + m.ns);
  }

  /** What the TTL of a response must be: the rewrite, else a nonzero negative TTL, else the least positive one. */
  ghost predicate RightTTL(m: Message, rewrite: Option<uint32>, ttl: uint32) {
    if rewrite.Some? then ttl == rewrite.value
    else if m.answer == [] && NegativeTTL(m.ns).Some? && NegativeTTL(m.ns).value > 0 then ttl == NegativeTTL(m.ns).value
    else LeastPositive(Records(m), ttl)
  }

  method ChooseTTL(m: Message, rewrite: Option<uint32>) returns (ttl: uint32)
    ensures RightTTL(m, rewrite, ttl)
  {
    ttl := 0;
    if |m.answer| == 0 {
      var negative := NegativeTTL(m.ns);
      if negative.Some? { ttl := negative.value; }
    }
    if ttl == 0 { ttl := ScanTTL(m); }
    if rewrite.Some? { ttl := rewrite.value; }
  }

  // ---------- Storing and ageing ----------

  function WithTTL(records: seq<Record>, ttl: uint32): (r: seq<Record>)
    ensures |r| == |records|
  {
    seq(|records|, i requires 0 <= i < |records| => records[i].(ttl := ttl))
  }

  function Stamped(m: Message, ttl: uint32): Message {
    Message(WithTTL(m.answer, ttl), WithTTL(m.ns, ttl), WithTTL(m.extra, ttl), m.rcode)
  }

  ghost predicate Uniform(m: Message, ttl: int) {
    forall r :: r in Records(m) ==> r.ttl == ttl
  }

  lemma StampedIsUniform(m: Message, ttl: uint32)
    ensures Uniform(Stamped(m, ttl), ttl)
  {
  }

  /** `record.Ttl - duration` in 32 bits, where `duration` is the 32-bit value of an int. */
  function Sub32(ttl: uint32, duration: int): uint32 {
    (ttl - duration) % TWO_32
  }

  function Aged(records: seq<Record>, origin: uint32, now: nat): (r: seq<Record>)
    ensures |r| == |records|
  {
    seq(|records|, i requires 0 <= i < |records| =>
      records[i].(ttl := if origin > 0 then Sub32(records[i].ttl, origin - now) else now % TWO_32))
  }

  function AgedMessage(m: Message, origin: uint32, now: nat): Message {
    Message(Aged(m.answer, origin, now), Aged(m.ns, origin, now), Aged(m.extra, origin, now), m.rcode)
  }

  const SECOND: int := 1_000_000_000

  /** Expiry times are in nanoseconds. */
  datatype Entry = Entry(message: Message, expireAt: int)

  /** Whole seconds left, never negative. */
  function Remaining(expireAt: int, now: int): nat {
    if expireAt <= now then 0 else (expireAt - now) / SECOND
  }

  lemma Sub32Exact(ttl: uint32, origin: uint32, now: nat)
    requires now <= origin
    ensures Sub32(ttl, origin - now) == now <==> ttl == origin
  {
  }

  /**
   Ageing a message by its least positive TTL shows the whole seconds left on every record exactly when all
   records carry that TTL; then nothing wraps around.
   */
  lemma AgedShowsRemainingIff(m: Message, origin: uint32, now: nat)
    requires origin > 0 && now <= origin
    ensures Uniform(AgedMessage(m, origin, now), now) <==> Uniform(m, origin)
  {
    var a := AgedMessage(m, origin, now);
    var before, after := Records(m), Records(a);
    assert |before| == |after|;
    forall i | 0 <= i < |before|
      ensures after[i].ttl == now <==> before[i].ttl == origin
    {
      AgedAt(m, origin, now, i);
      Sub32Exact(before[i].ttl, origin, now);
    }
    if Uniform(m, origin) {
      forall r | r in after ensures r.ttl == now {
        var i :| 0 <= i < |after| && after[i] == r;
        assert before[i] in before;
      }
    }
    if Uniform(a, now) {
      forall r | r in before ensures r.ttl == origin {
        var i :| 0 <= i < |before| && before[i] == r;
        assert after[i] in after;
      }
    }
  }

  lemma AgedAt(m: Message, origin: uint32, now: nat, i: nat)
    requires origin > 0 && i < |Records(m)|
    ensures |Records(AgedMessage(m, origin, now))| == |Records(m)|
    ensures Records(AgedMessage(m, origin, now))[i] == Records(m)[i].(ttl := Sub32(Records(m)[i].ttl, origin - now))
  {
  }

  // ---------- The cache ----------

  /** The question, with the transport's tag when caches are kept per transport. */
  datatype Key = Key(question: nat, transport: Option<string>)

  type Cache = map<Key, Entry>

  class Client {
    const disableExpire: bool
    var cache: Cache

    constructor (disableExpire: bool)
      ensures this.disableExpire == disableExpire && cache == map[]
    {
      this.disableExpire := disableExpire;
      cache := map[];
    }

    /** The tail of `Exchange`: choose the TTL, stamp every record with it, and keep the message unless it is 0. */
    method Keep(key: Key, m: Message, rewrite: Option<uint32>, cacheable: bool, now: int)
      returns (r: Message, ttl: uint32)
      modifies this
      ensures RightTTL(m, rewrite, ttl) && r == Stamped(m, ttl)
      ensures cache == if cacheable then Stored(old(cache), key, r, ttl, now) else old(cache)
    {
      ttl := ChooseTTL(m, rewrite);
      r := Stamped(m, ttl);
      if cacheable && ttl != 0 {
        cache := cache[key := Entry(r, now + ttl * SECOND)];
      }
    }

    /** `loadResponse` */
    method Load(key: Key, now: int) returns (r: Option<Message>, ghost origin: uint32)
      modifies this
      ensures key !in old(cache) ==> r.None? && cache == old(cache)
      ensures key in old(cache) && disableExpire ==> r == Some(old(cache)[key].message) && cache == old(cache)
      ensures key in old(cache) && !disableExpire && now > old(cache)[key].expireAt ==>
                r.None? && cache == old(cache) - {key}
      ensures key in old(cache) && !disableExpire && now <= old(cache)[key].expireAt ==>
                var e := old(cache)[key];
                cache == old(cache) && LeastPositive(Records(e.message), origin)
                && r == Some(AgedMessage(e.message, origin, Remaining(e.expireAt, now)))
    {
      origin := 0;
      if key !in cache { return None, 0; }
      var e := cache[key];
      if disableExpire { return Some(e.message), 0; }
      if now > e.expireAt {
        cache := cache - {key};
        return None, 0;
      }
      var originTTL := ScanTTL(e.message);
      var nowTTL := if e.expireAt <= now then 0 else (e.expireAt - now) / SECOND;
      origin := originTTL;
      r := Some(AgedMessage(e.message, originTTL, nowTTL));
    }
  }

  /** `storeCache`: a TTL of 0 stores nothing, and keeps what was there. */
  function Stored(cache: Cache, key: Key, m: Message, ttl: uint32, now: int): Cache {
    if ttl == 0 then cache else cache[key := Entry(m, now + ttl * SECOND)]
  }

  // ---------- Histories ----------

  /** The cache may lose any entry at any time; expired entries are lost when loaded. */
  datatype Event =
    | Exchanged(key: Key, response: Message, ttl: uint32, at: int)
    | Lost(key: Key)
    | Purged

  ghost function After(events: seq<Event>): Cache {
    if events == [] then map[]
    else
      var before := After(events[..|events| - 1]);
      match events[|events| - 1]
      case Exchanged(key, response, ttl, at) => Stored(before, key, Stamped(response, ttl), ttl, at)
      case Lost(key) => before - {key}
      case Purged => map[]
  }

  /** Event `i` is the latest exchange for `key` that was kept. */
  ghost predicate LatestKept(events: seq<Event>, key: Key, i: nat) {
    && i < |events| && events[i].Exchanged? && events[i].key == key && events[i].ttl > 0
    && forall j :: i < j < |events| && events[j].Exchanged? && events[j].key == key ==> events[j].ttl == 0
  }

  lemma {:induction false} EntryIsLatestKept(events: seq<Event>, key: Key) returns (i: nat)
    requires key in After(events)
    ensures LatestKept(events, key, i)
    ensures After(events)[key] ==
            Entry(Stamped(events[i].response, events[i].ttl), events[i].at + events[i].ttl * SECOND)
  {
    var init, last := events[..|events| - 1], events[|events| - 1];
    if last.Exchanged? && last.key == key && last.ttl > 0 {
      i := |events| - 1;
    } else {
      i := EntryIsLatestKept(init, key);
      assert forall j :: 0 <= j < |init| ==> init[j] == events[j];
    }
  }

  /** And what was kept is there, unless the cache lost it since. */
  lemma {:induction false} LatestKeptIsCached(events: seq<Event>, key: Key, i: nat)
    requires LatestKept(events, key, i)
    requires forall j :: i < j < |events| ==> !events[j].Purged? && events[j] != Lost(key)
    ensures key in After(events)
  {
    var init, last := events[..|events| - 1], events[|events| - 1];
    if i < |init| {
      assert forall j :: 0 <= j < |init| ==> init[j] == events[j];
      LatestKeptIsCached(init, key, i);
    }
  }

  lemma RemainingBound(at: int, ttl: uint32, now: int)
    requires at <= now <= at + ttl * SECOND
    ensures Remaining(at + ttl * SECOND, now) <= ttl
    ensures var left := at + ttl * SECOND - now;
            Remaining(at + ttl * SECOND, now) * SECOND <= left < (Remaining(at + ttl * SECOND, now) + 1) * SECOND
  {
  }

  /**
   After any history: what is loaded for a key before its expiry is the latest kept response, record by
   record, with every TTL equal to the whole seconds left, and no subtraction wraps around.
   */
  lemma LoadShowsRemaining(events: seq<Event>, key: Key, now: int, origin: uint32) returns (i: nat)
    requires key in After(events) && now <= After(events)[key].expireAt
    requires forall k :: 0 <= k < |events| && events[k].Exchanged? ==> events[k].at <= now
    requires LeastPositive(Records(After(events)[key].message), origin)
    ensures LatestKept(events, key, i)
    ensures var e := After(events)[key];
            var left := Remaining(e.expireAt, now);
            && left <= events[i].ttl
            && AgedMessage(e.message, origin, left) == Stamped(events[i].response, left)
  {
    i := EntryIsLatestKept(events, key);
    var ttl := events[i].ttl;
    var stored := Stamped(events[i].response, ttl);
    RemainingBound(events[i].at, ttl, now);
    StampedIsUniform(events[i].response, ttl);
    if Records(stored) != [] {
      assert Records(stored)[0] in Records(stored) && Records(stored)[0].ttl == ttl;
      assert LeastPositive(Records(stored), ttl);
      LeastPositiveIsUnique(Records(stored), origin, ttl);
    }
    AgedStamped(events[i].response, ttl, origin, Remaining(After(events)[key].expireAt, now));
  }

  lemma AgedStamped(m: Message, ttl: uint32, origin: uint32, left: nat)
    requires left <= ttl && (Records(Stamped(m, ttl)) != [] ==> origin == ttl > 0)
    ensures AgedMessage(Stamped(m, ttl), origin, left) == Stamped(m, left)
  {
  }
}
