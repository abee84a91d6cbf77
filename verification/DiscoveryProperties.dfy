/** What a log of cache calls guarantees about the entries and endpoints it leaves. */
module DiscoveryProperties {
  import opened Bytes
  import opened Wrappers
  import opened DiscoveryCache

  // ---- how long a record lasts ----

  /** A nanosecond clock's value when a record that came in at `now` has expired: its TTL in seconds, cut off at an hour. */
  function LastsUntil(ttl: int, now: int): int {
    now + (if ttl < 0 then 0 else if ttl < 3600 then ttl else 3600) * 1_000_000_000
  }

  /** What the cache computes as a record's expiry. */
  lemma ExpiryIs(ttl: int, now: int)
    ensures Expiry(ttl, now) == LastsUntil(ttl, now)
    ensures ttl <= 0 ==> Expiry(ttl, now) == now
    ensures 0 <= ttl <= 3600 ==> Expiry(ttl, now) == now + ttl * 1_000_000_000
    ensures 3600 <= ttl ==> Expiry(ttl, now) == now + 3_600_000_000_000
  {
  }

  // ---- expiring is invisible to readers ----

  lemma CleanedLive(e: Entry, now: int, later: int)
    requires now <= later
    ensures Live(e, later) <==> e.ptrExpires > now && Live(Cleaned(e, now), later)
    ensures Live(e, later) ==> EndpointOf(Cleaned(e, now)) == EndpointOf(e)
  {
  }

  lemma {:induction false} ReadyAppend(es: seq<Entry>, e: Entry, now: int)
    ensures ReadyIn(es + [e], now) == ReadyIn(es, now) + if Live(e, now) then [EndpointOf(e)] else []
  {
    assert (es + [e])[..|es|] == es;
  }

  /** A reader at any time from `now` on cannot tell whether the cache was expired at `now`. */
  lemma {:induction false} ExpireIsInvisible(es: seq<Entry>, now: int, later: int)
    requires now <= later
    ensures ReadyIn(Expired(es, now), later) == ReadyIn(es, later)
  {
    if es != [] {
      var front, e := es[..|es| - 1], es[|es| - 1];
      ExpireIsInvisible(front, now, later);
      CleanedLive(e, now, later);
      if e.ptrExpires > now {
        ReadyAppend(Expired(front, now), Cleaned(e, now), later);
      } else {
        assert Expired(es, now) == Expired(front, now);
      }
    }
  }

  // ---- bounds ----

  predicate Distinct(xs: seq<Text>) {
    forall i, j | 0 <= i < j < |xs| :: xs[i] != xs[j]
  }

  predicate DistinctInstances(es: seq<Entry>) {
    forall i, j | 0 <= i < j < |es| :: es[i].instance != es[j].instance
  }

  /** The latest clock value in a log, if any call carried one. */
  function Latest(log: seq<Record>): Option<int> {
    if log == [] then None
    else
      var before := Latest(log[..|log| - 1]);
      match log[|log| - 1]
      case Clear => before
      case r => if before.Some? then Some(Max(before.value, r.now)) else Some(r.now)
  }

  /** In clock ticks. */
  const HOUR := 3_600_000_000_000

  /** Zero, or not more than an hour past the latest clock value. */
  predicate Timely(expiry: int, latest: Option<int>) {
    expiry == 0 || (latest.Some? && expiry <= latest.value + HOUR)
  }

  predicate BoundedEntry(e: Entry, latest: Option<int>) {
    && 0 < |e.instance| <= 253
    && |e.addresses| <= 8
    && Distinct(e.addresses)
    && Timely(e.ptrExpires, latest) && Timely(e.srvExpires, latest) && Timely(e.addressExpires, latest)
  }

  predicate Bounded(es: seq<Entry>, latest: Option<int>) {
    && |es| <= 64
    && DistinctInstances(es)
    && forall i | 0 <= i < |es| :: BoundedEntry(es[i], latest)
  }

  lemma ExpiryIsTimely(ttl: int, now: int)
    ensures now <= Expiry(ttl, now) <= now + HOUR
  {
  }

  /** What Expired keeps, in order: an increasing choice of indices. */
  lemma {:induction false} ExpiredKeepsOrder(es: seq<Entry>, now: int) returns (from: seq<nat>)
    ensures |from| == |Expired(es, now)|
    ensures forall k | 0 <= k < |from| :: from[k] < |es| && Expired(es, now)[k] == Cleaned(es[from[k]], now) && es[from[k]].ptrExpires > now
    ensures forall j, k | 0 <= j < k < |from| :: from[j] < from[k]
  {
    from := [];
    if es != [] {
      var n := |es| - 1;
      from := ExpiredKeepsOrder(es[..n], now);
      if es[n].ptrExpires > now {
        from := from + [n];
      }
    }
  }

  /** Time passes: what was timely stays timely. */
  predicate NotBefore(before: Option<int>, after: Option<int>) {
    before.Some? ==> after.Some? && before.value <= after.value
  }

  lemma PtrKeepsBounds(es: seq<Entry>, before: Option<int>, instance: Text, ttl: int, now: int, after: Option<int>)
    requires Bounded(es, before) && NotBefore(before, after) && after.Some? && now <= after.value
    ensures Bounded(WithPtr(es, instance, ttl, now), after)
  {
    ExpiryIsTimely(ttl, now);
  }

  lemma SrvKeepsBounds(es: seq<Entry>, before: Option<int>, instance: Text, host: Text, port: u16, ttl: int, now: int, after: Option<int>)
    requires Bounded(es, before) && NotBefore(before, after) && after.Some? && now <= after.value
    ensures Bounded(WithSrv(es, instance, host, port, ttl, now), after)
  {
    ExpiryIsTimely(ttl, now);
  }

  lemma AddressKeepsBounds(es: seq<Entry>, before: Option<int>, host: Text, address: Text, ttl: int, now: int, after: Option<int>)
    requires Bounded(es, before) && NotBefore(before, after) && after.Some? && now <= after.value
    ensures Bounded(WithAddress(es, host, address, ttl, now), after)
  {
    ExpiryIsTimely(ttl, now);
    var es' := WithAddress(es, host, address, ttl, now);
    forall i | 0 <= i < |es'| ensures BoundedEntry(es'[i], after) {
      assert BoundedEntry(es[i], before);
    }
    assert forall i | 0 <= i < |es'| :: es'[i].instance == es[i].instance;
  }

  lemma ExpireKeepsBounds(es: seq<Entry>, before: Option<int>, now: int, after: Option<int>)
    requires Bounded(es, before) && NotBefore(before, after)
    ensures Bounded(Expired(es, now), after)
  {
    var from := ExpiredKeepsOrder(es, now);
    forall k | 0 <= k < |from| ensures BoundedEntry(Expired(es, now)[k], after) {
      assert BoundedEntry(es[from[k]], before);
    }
  }

  lemma BoundedStep(es: seq<Entry>, before: Option<int>, r: Record, after: Option<int>)
    requires Bounded(es, before) && NotBefore(before, after)
    requires !r.Clear? ==> after.Some? && r.now <= after.value
    ensures Bounded(Applied(es, r), after)
  {
    match r
    case Ptr(instance, ttl, now) => PtrKeepsBounds(es, before, instance, ttl, now, after);
    case Srv(instance, host, port, ttl, now) => SrvKeepsBounds(es, before, instance, host, port, ttl, now, after);
    case Address(host, address, ttl, now) => AddressKeepsBounds(es, before, host, address, ttl, now, after);
    case Expire(now) => ExpireKeepsBounds(es, before, now, after);
    case Clear =>
  }

  /** Every reachable cache is small, free of duplicates, and looks at most an hour ahead. */
  lemma {:induction false} CacheStaysBounded(log: seq<Record>)
    ensures Bounded(Replay(log), Latest(log))
  {
    if log != [] {
      var front := log[..|log| - 1];
      CacheStaysBounded(front);
      BoundedStep(Replay(front), Latest(front), log[|log| - 1], Latest(log));
    }
  }

  /** No expiry is more than an hour past a clock value. */
  predicate WithinAnHour(es: seq<Entry>, latest: int) {
    forall i | 0 <= i < |es| ::
      es[i].ptrExpires <= latest + HOUR && es[i].srvExpires <= latest + HOUR && es[i].addressExpires <= latest + HOUR
  }

  /** Every entry has had its three expiries set since it was made. */
  predicate AllSet(es: seq<Entry>) {
    forall i | 0 <= i < |es| :: es[i].ptrExpires != 0 && es[i].srvExpires != 0 && es[i].addressExpires != 0
  }

  /** An expiry that was never set is zero, so on a clock more than an hour below zero it is too far ahead. */
  lemma WithinAnHourIff(log: seq<Record>)
    requires Latest(log).Some?
    ensures WithinAnHour(Replay(log), Latest(log).value) <==> Latest(log).value >= -HOUR || AllSet(Replay(log))
  {
    CacheStaysBounded(log);
    var es, latest := Replay(log), Latest(log).value;
    forall i | 0 <= i < |es|
      ensures BoundedEntry(es[i], Some(latest))
    {
    }
  }

  /** So the bound holds of every log exactly from an hour below zero on. */
  lemma AllWithinAnHourIff(latest: int)
    ensures (forall log: seq<Record> | Latest(log) == Some(latest) :: WithinAnHour(Replay(log), latest)) <==> latest >= -HOUR
  {
    forall log: seq<Record> | latest >= -HOUR && Latest(log) == Some(latest)
      ensures WithinAnHour(Replay(log), latest)
    {
      WithinAnHourIff(log);
    }
    var log := [Ptr([1], 1, latest)];
    assert log[..0] == [];
    assert Latest(log) == Some(latest);
    assert Replay(log) == [Entry([1], [], 0, [], Expiry(1, latest), 0, 0)];
    assert Replay(log)[0].srvExpires == 0;
  }

  // ---- every endpoint is backed by the log ----

  /** The expiry of the latest well-formed PTR record for an instance. */
  function LastPtr(log: seq<Record>, instance: Text): Option<int> {
    if log == [] then None
    else
      var r := log[|log| - 1];
      if r.Ptr? && r.instance == instance && 0 < |instance| <= 253 then Some(LastsUntil(r.ttl, r.now))
      else LastPtr(log[..|log| - 1], instance)
  }

  datatype Service = Service(host: Text, port: u16, expires: int)

  /** The latest well-formed SRV record for an instance. */
  function LastSrv(log: seq<Record>, instance: Text): Option<Service> {
    if log == [] then None
    else
      var r := log[|log| - 1];
      if r.Srv? && r.instance == instance && instance != [] && r.host != [] && r.port != 0 then
        Some(Service(r.host, r.port, LastsUntil(r.ttl, r.now)))
      else LastSrv(log[..|log| - 1], instance)
  }

  predicate HasEntry(es: seq<Entry>, instance: Text) {
    exists k | 0 <= k < |es| :: es[k].instance == instance
  }

  predicate Lists(es: seq<Entry>, instance: Text, address: Text) {
    exists k | 0 <= k < |es| :: es[k].instance == instance && address in es[k].addresses
  }

  /** An entry that an address record of that host is put into: it names the host and has room or the address. */
  predicate Takes(e: Entry, instance: Text, host: Text, address: Text) {
    && e.instance == instance && e.host == host
    && (address in e.addresses || |e.addresses| < 8)
  }

  /** Record i is an address that the cache put into the instance's entry when it came in. */
  ghost predicate Matched(log: seq<Record>, i: nat, instance: Text) {
    && i < |log| && log[i].Address? && log[i].host != [] && log[i].address != []
    && exists k | 0 <= k < |Replay(log[..i])| :: Takes(Replay(log[..i])[k], instance, log[i].host, log[i].address)
  }

  /** The instance has had an entry ever since record i. */
  ghost predicate PresentSince(log: seq<Record>, i: nat, instance: Text) {
    forall j | i < j <= |log| :: HasEntry(Replay(log[..j]), instance)
  }

  /** And that entry has listed the address ever since. */
  ghost predicate ListedSince(log: seq<Record>, i: nat, instance: Text, address: Text) {
    forall j | i < j <= |log| :: Lists(Replay(log[..j]), instance, address)
  }

  ghost predicate AddressBacked(log: seq<Record>, instance: Text, address: Text) {
    exists i: nat :: Matched(log, i, instance) && log[i].address == address && ListedSince(log, i, instance, address)
  }

  ghost predicate BacksExpiry(log: seq<Record>, i: nat, instance: Text, expiry: int) {
    Matched(log, i, instance) && LastsUntil(log[i].ttl, log[i].now) == expiry && PresentSince(log, i, instance)
  }

  ghost predicate ExpiryBacked(log: seq<Record>, instance: Text, expiry: int) {
    expiry == 0 || exists i: nat :: BacksExpiry(log, i, instance, expiry)
  }

  /** The address half of an entry's backing. */
  ghost predicate AddressesBacked(log: seq<Record>, e: Entry) {
    && (forall address | address in e.addresses :: AddressBacked(log, e.instance, address))
    && ExpiryBacked(log, e.instance, e.addressExpires)
  }

  ghost predicate RecordsBacked(log: seq<Record>, e: Entry) {
    && LastPtr(log, e.instance) == Some(e.ptrExpires)
    && (e.host != [] ==> LastSrv(log, e.instance) == Some(Service(e.host, e.port, e.srvExpires)))
  }

  ghost predicate BackedEntry(log: seq<Record>, e: Entry) {
    RecordsBacked(log, e) && AddressesBacked(log, e)
  }

  lemma MatchedStays(log: seq<Record>, r: Record, i: nat, instance: Text)
    requires Matched(log, i, instance)
    ensures Matched(log + [r], i, instance) && (log + [r])[i] == log[i]
  {
    assert (log + [r])[..i] == log[..i];
  }

  lemma PresentStays(log: seq<Record>, r: Record, i: nat, instance: Text)
    requires PresentSince(log, i, instance) && HasEntry(Replay(log + [r]), instance)
    ensures PresentSince(log + [r], i, instance)
  {
    forall j | i < j <= |log + [r]|
      ensures HasEntry(Replay((log + [r])[..j]), instance)
    {
      assert (log + [r])[..j] == if j <= |log| then log[..j] else log + [r];
    }
  }

  lemma ListedStays(log: seq<Record>, r: Record, i: nat, instance: Text, address: Text)
    requires ListedSince(log, i, instance, address) && Lists(Replay(log + [r]), instance, address)
    ensures ListedSince(log + [r], i, instance, address)
  {
    forall j | i < j <= |log + [r]|
      ensures Lists(Replay((log + [r])[..j]), instance, address)
    {
      assert (log + [r])[..j] == if j <= |log| then log[..j] else log + [r];
    }
  }

  lemma AddressStaysBacked(log: seq<Record>, r: Record, instance: Text, address: Text)
    requires AddressBacked(log, instance, address) && Lists(Replay(log + [r]), instance, address)
    ensures AddressBacked(log + [r], instance, address)
  {
    var i: nat :| Matched(log, i, instance) && log[i].address == address && ListedSince(log, i, instance, address);
    MatchedStays(log, r, i, instance);
    ListedStays(log, r, i, instance, address);
  }

  lemma ExpiryStaysBacked(log: seq<Record>, r: Record, instance: Text, expiry: int)
    requires ExpiryBacked(log, instance, expiry) && HasEntry(Replay(log + [r]), instance)
    ensures ExpiryBacked(log + [r], instance, expiry)
  {
    if expiry != 0 {
      var i: nat :| BacksExpiry(log, i, instance, expiry);
      MatchedStays(log, r, i, instance);
      PresentStays(log, r, i, instance);
      assert BacksExpiry(log + [r], i, instance, expiry);
    }
  }

  /** e' is what entry e has become, at place k, with no new address and no new address expiry. */
  lemma AddressesStayBacked(log: seq<Record>, r: Record, e: Entry, k: nat)
    requires k < |Replay(log + [r])| && AddressesBacked(log, e)
    requires var e' := Replay(log + [r])[k];
      && e'.instance == e.instance && e'.addressExpires == e.addressExpires
      && forall address | address in e'.addresses :: address in e.addresses
    ensures AddressesBacked(log + [r], Replay(log + [r])[k])
  {
    var es := Replay(log + [r]);
    forall address | address in es[k].addresses
      ensures AddressBacked(log + [r], e.instance, address)
    {
      AddressStaysBacked(log, r, e.instance, address);
    }
    ExpiryStaysBacked(log, r, e.instance, e.addressExpires);
  }

  /** A record that is neither a good PTR nor a good SRV of the instance leaves those two clauses alone. */
  lemma RecordsStayBacked(log: seq<Record>, r: Record, e: Entry)
    requires RecordsBacked(log, e)
    requires r.Ptr? ==> r.instance != e.instance || !GoodPtr(r.instance)
    requires r.Srv? ==> r.instance != e.instance || !GoodSrv(r.instance, r.host, r.port)
    ensures RecordsBacked(log + [r], e)
  {
    assert (log + [r])[..|log|] == log;
  }

  lemma ReplayOneMore(log: seq<Record>, r: Record)
    ensures Replay(log + [r]) == Applied(Replay(log), r)
  {
    assert (log + [r])[..|log|] == log;
  }

  lemma PtrStep(log: seq<Record>, r: Record, k: nat)
    requires r.Ptr? && AllBacked(log, Replay(log)) && DistinctInstances(Replay(log)) && k < |Replay(log + [r])|
    ensures BackedEntry(log + [r], Replay(log + [r])[k])
  {
    var es := Replay(log);
    ReplayOneMore(log, r);
    assert (log + [r])[..|log|] == log;
    if k < |es| {
      AddressesStayBacked(log, r, es[k], k);
      if !GoodPtr(r.instance) || k != IndexOf(es, r.instance) {
        RecordsStayBacked(log, r, es[k]);
      }
    }
  }

  lemma SrvStep(log: seq<Record>, r: Record, k: nat)
    requires r.Srv? && AllBacked(log, Replay(log)) && DistinctInstances(Replay(log)) && k < |Replay(log + [r])|
    ensures BackedEntry(log + [r], Replay(log + [r])[k])
  {
    var es := Replay(log);
    ReplayOneMore(log, r);
    assert (log + [r])[..|log|] == log;
    AddressesStayBacked(log, r, es[k], k);
    if !GoodSrv(r.instance, r.host, r.port) || k != IndexOf(es, r.instance) {
      RecordsStayBacked(log, r, es[k]);
    }
  }

  /** The new record backs its own address and expiry in every entry that takes it. */
  lemma AddressBacksItself(log: seq<Record>, r: Record, k: nat)
    requires r.Address? && GoodAddress(r.host, r.address) && k < |Replay(log)| == |Replay(log + [r])|
    requires Takes(Replay(log)[k], Replay(log)[k].instance, r.host, r.address)
    requires Replay(log + [r])[k].instance == Replay(log)[k].instance && r.address in Replay(log + [r])[k].addresses
    ensures AddressBacked(log + [r], Replay(log)[k].instance, r.address)
    ensures BacksExpiry(log + [r], |log|, Replay(log)[k].instance, Expiry(r.ttl, r.now))
  {
    var all := log + [r];
    assert all[..|log|] == log && all[..|log| + 1] == all;
    assert Matched(all, |log|, Replay(log)[k].instance);
    assert ListedSince(all, |log|, Replay(log)[k].instance, r.address);
  }

  lemma AddressStep(log: seq<Record>, r: Record, k: nat)
    requires r.Address? && AllBacked(log, Replay(log)) && k < |Replay(log + [r])|
    ensures BackedEntry(log + [r], Replay(log + [r])[k])
  {
    var es := Replay(log);
    ReplayOneMore(log, r);
    var e, e' := es[k], Replay(log + [r])[k];
    RecordsStayBacked(log, r, e);
    assert RecordsBacked(log + [r], e');
    if e == e' && !(GoodAddress(r.host, r.address) && Takes(e, e.instance, r.host, r.address)) {
      AddressesStayBacked(log, r, e, k);
    } else {
      AddressBacksItself(log, r, k);
      forall address | address in e'.addresses
        ensures AddressBacked(log + [r], e.instance, address)
      {
        if address != r.address {
          AddressStaysBacked(log, r, e.instance, address);
        }
      }
      if e'.addressExpires == e.addressExpires {
        ExpiryStaysBacked(log, r, e.instance, e.addressExpires);
      }
    }
  }

  lemma ExpireStep(log: seq<Record>, r: Record, k: nat)
    requires r.Expire? && AllBacked(log, Replay(log)) && k < |Replay(log + [r])|
    ensures BackedEntry(log + [r], Replay(log + [r])[k])
  {
    var es := Replay(log);
    ReplayOneMore(log, r);
    var from := ExpiredKeepsOrder(es, r.now);
    var e := es[from[k]];
    assert BackedEntry(log, e);
    AddressesStayBacked(log, r, e, k);
    RecordsStayBacked(log, r, Cleaned(e, r.now));
  }

  ghost predicate AllBacked(log: seq<Record>, es: seq<Entry>) {
    forall i | 0 <= i < |es| :: BackedEntry(log, es[i])
  }

  lemma BackedStep(log: seq<Record>, r: Record)
    requires AllBacked(log, Replay(log)) && DistinctInstances(Replay(log))
    ensures AllBacked(log + [r], Replay(log + [r]))
  {
    ReplayOneMore(log, r);
    forall k | 0 <= k < |Replay(log + [r])|
      ensures BackedEntry(log + [r], Replay(log + [r])[k])
    {
      match r
      case Ptr(_, _, _) => PtrStep(log, r, k);
      case Srv(_, _, _, _, _) => SrvStep(log, r, k);
      case Address(_, _, _, _) => AddressStep(log, r, k);
      case Expire(_) => ExpireStep(log, r, k);
      case Clear => assert false;
    }
  }

  lemma {:induction false} EveryEntryIsBacked(log: seq<Record>)
    ensures AllBacked(log, Replay(log))
  {
    if log != [] {
      var front, r := log[..|log| - 1], log[|log| - 1];
      EveryEntryIsBacked(front);
      CacheStaysBounded(front);
      assert front + [r] == log;
      BackedStep(front, r);
    }
  }

  lemma {:induction false} ReadyComesFromEntries(es: seq<Entry>, now: int, k: nat) returns (i: nat)
    requires k < |ReadyIn(es, now)|
    ensures i < |es| && Live(es[i], now) && ReadyIn(es, now)[k] == EndpointOf(es[i])
  {
    var n := |es| - 1;
    if k < |ReadyIn(es[..n], now)| {
      i := ReadyComesFromEntries(es[..n], now, k);
    } else {
      i := n;
    }
  }

  /**
   * Every ready endpoint is backed by records: the latest PTR and the latest SRV of its instance are
   * unexpired and the SRV gave its host and port, and each address listed was put in by a record the
   * cache took, and has been there since. From clock zero on some record the cache took is also
   * unexpired.
   */
  lemma ReadyIsBacked(log: seq<Record>, now: int, k: nat)
    requires k < |ReadyIn(Replay(log), now)|
    ensures var p := ReadyIn(Replay(log), now)[k];
      && LastPtr(log, p.instance).Some? && LastPtr(log, p.instance).value > now
      && LastSrv(log, p.instance).Some? && LastSrv(log, p.instance).value.expires > now
      && LastSrv(log, p.instance).value.host == p.host && LastSrv(log, p.instance).value.port == p.port
      && p.addresses != []
      && (forall address | address in p.addresses :: AddressBacked(log, p.instance, address))
      && (0 <= now ==> exists i: nat ::
            Matched(log, i, p.instance) && LastsUntil(log[i].ttl, log[i].now) > now && PresentSince(log, i, p.instance))
  {
    EveryEntryIsBacked(log);
    var j := ReadyComesFromEntries(Replay(log), now, k);
    var e := Replay(log)[j];
    assert BackedEntry(log, e);
    if 0 <= now {
      var i: nat :| BacksExpiry(log, i, e.instance, e.addressExpires);
      assert Matched(log, i, e.instance);
    }
  }

  /**
   * Before clock zero the address half fails: an entry starts with address expiry zero, so an
   * address record that is already expired when it comes in still makes its entry ready.
   */
  lemma BeforeZeroAnExpiredAddressIsReady(now: int)
    requires now < 0
    ensures var log := [Ptr([1], 1, now), Srv([1], [2], 3, 1, now), Address([2], [4], 0, now)];
      && ReadyIn(Replay(log), now) == [Endpoint([1], [2], 3, [[4]])]
      && forall i: nat | Matched(log, i, [1]) :: LastsUntil(log[i].ttl, log[i].now) <= now
  {
    var p, v, a := Ptr([1], 1, now), Srv([1], [2], 3, 1, now), Address([2], [4], 0, now);
    var log := [p, v, a];
    assert log[..2] == [p, v] && [p, v][..1] == [p] && [p][..0] == [];
    assert Replay([p]) == [Entry([1], [], 0, [], Expiry(1, now), 0, 0)];
    assert IndexOf(Replay([p]), [1]) == 0;
    assert Replay([p, v]) == [Entry([1], [2], 3, [], Expiry(1, now), Expiry(1, now), 0)];
    var e := Entry([1], [2], 3, [], Expiry(1, now), Expiry(1, now), 0);
    assert AddressedEntry(e, [2], [4], Expiry(0, now)) == e.(addresses := [[4]]);
    assert Replay(log) == WithAddress([e], [2], [4], 0, now) == [e.(addresses := [[4]])];
    assert Replay(log)[..0] == [];
  }

  /** No two ready endpoints have the same instance. */
  lemma {:induction false} ReadyInstancesAreDistinct(es: seq<Entry>, now: int)
    requires DistinctInstances(es)
    ensures forall j, k | 0 <= j < k < |ReadyIn(es, now)| :: ReadyIn(es, now)[j].instance != ReadyIn(es, now)[k].instance
  {
    if es != [] {
      var n := |es| - 1;
      ReadyInstancesAreDistinct(es[..n], now);
      forall j | 0 <= j < |ReadyIn(es[..n], now)| ensures ReadyIn(es[..n], now)[j].instance != es[n].instance {
        var i := ReadyComesFromEntries(es[..n], now, j);
      }
    }
  }

  // ---- and records make endpoints ready ----

  /** Room for the instance and the address: at most 64 entries, at most 8 addresses in each. */
  predicate HasRoom(es: seq<Entry>, instance: Text, address: Text) {
    var i := IndexOf(es, instance);
    if i == |es| then |es| < 64
    else address in es[i].addresses || |es[i].addresses| < 8
  }

  lemma IndexIs(es: seq<Entry>, instance: Text, i: nat)
    requires i < |es| && es[i].instance == instance
    requires forall j | 0 <= j < i :: es[j].instance != instance
    ensures IndexOf(es, instance) == i
  {
  }

  lemma {:induction false} LiveIsListed(es: seq<Entry>, now: int, i: nat)
    requires i < |es| && Live(es[i], now)
    ensures EndpointOf(es[i]) in ReadyIn(es, now)
  {
    if i < |es| - 1 {
      LiveIsListed(es[..|es| - 1], now, i);
    }
  }

  /** A PTR, an SRV of its instance and an address of its host, all well-formed. */
  predicate Describes(p: Record, v: Record, a: Record) {
    && p.Ptr? && v.Srv? && a.Address? && p.instance == v.instance && v.host == a.host
    && 0 < |p.instance| <= 253 && v.host != [] && v.port != 0 && a.address != []
  }

  /** What the three records in a row leave at the instance's place. */
  lemma ThreeInARow(log: seq<Record>, p: Record, v: Record, a: Record) returns (i: nat, e: Entry)
    requires Describes(p, v, a) && HasRoom(Replay(log), p.instance, a.address)
    ensures i == IndexOf(Replay(log), p.instance) < |Replay(log + [p, v, a])| && e == Replay(log + [p, v, a])[i]
    ensures e.instance == p.instance && e.host == v.host && e.port == v.port && a.address in e.addresses
    ensures e.ptrExpires == LastsUntil(p.ttl, p.now) && e.srvExpires == LastsUntil(v.ttl, v.now)
    ensures i == |Replay(log)| ==> e.addresses == [a.address] && e.addressExpires == Max(0, LastsUntil(a.ttl, a.now))
    ensures e.addressExpires >= LastsUntil(a.ttl, a.now)
  {
    assert log + [p, v, a] == ((log + [p]) + [v]) + [a];
    assert (((log + [p]) + [v]) + [a])[..|log| + 2] == (log + [p]) + [v];
    assert ((log + [p]) + [v])[..|log| + 1] == log + [p] && (log + [p])[..|log|] == log;
    var es := Replay(log);
    i := IndexOf(es, p.instance);
    var es1 := WithPtr(es, p.instance, p.ttl, p.now);
    IndexIs(es1, p.instance, i);
    var es2 := WithSrv(es1, v.instance, v.host, v.port, v.ttl, v.now);
    var es3 := WithAddress(es2, a.host, a.address, a.ttl, a.now);
    assert Replay(log + [p]) == es1;
    assert Replay((log + [p]) + [v]) == es2;
    assert Replay(((log + [p]) + [v]) + [a]) == es3;
    e := es3[i];
    assert e == AddressedEntry(es2[i], a.host, a.address, Expiry(a.ttl, a.now));
  }

  /** A PTR, an SRV and an address in a row make the service ready while all three last, if there is room. */
  lemma RecordsMakeReady(log: seq<Record>, p: Record, v: Record, a: Record, now: int)
    requires Describes(p, v, a) && HasRoom(Replay(log), p.instance, a.address)
    requires now < LastsUntil(p.ttl, p.now) && now < LastsUntil(v.ttl, v.now) && now < LastsUntil(a.ttl, a.now)
    ensures exists e | e in ReadyIn(Replay(log + [p, v, a]), now) ::
              e.instance == p.instance && e.host == v.host && e.port == v.port && a.address in e.addresses
  {
    var i, e := ThreeInARow(log, p, v, a);
    LiveIsListed(Replay(log + [p, v, a]), now, i);
  }

  /**
   * The first three records of a service make it ready exactly as long as all three last, and on a
   * clock below zero the address is not asked.
   */
  lemma FirstRecordsReadyIff(log: seq<Record>, p: Record, v: Record, a: Record, now: int)
    requires Describes(p, v, a) && |Replay(log)| < 64 && !HasEntry(Replay(log), p.instance)
    ensures Endpoint(p.instance, v.host, v.port, [a.address]) in ReadyIn(Replay(log + [p, v, a]), now) <==>
      now < LastsUntil(p.ttl, p.now) && now < LastsUntil(v.ttl, v.now) && (now < LastsUntil(a.ttl, a.now) || now < 0)
    ensures forall e | e in ReadyIn(Replay(log + [p, v, a]), now) && e.instance == p.instance ::
      e == Endpoint(p.instance, v.host, v.port, [a.address])
  {
    var es := Replay(log + [p, v, a]);
    var i, e := ThreeInARow(log, p, v, a);
    CacheStaysBounded(log + [p, v, a]);
    forall k | 0 <= k < |ReadyIn(es, now)| && ReadyIn(es, now)[k].instance == p.instance
      ensures ReadyIn(es, now)[k] == EndpointOf(e) && Live(e, now)
    {
      var j := ReadyComesFromEntries(es, now, k);
      assert j == i;
    }
    if Live(e, now) {
      LiveIsListed(es, now, i);
    }
  }

  // ---- and stop being ready ----

  /** Record i is the last PTR of its instance. */
  predicate IsLastPtr(log: seq<Record>, i: nat) {
    && i < |log| && log[i].Ptr? && 0 < |log[i].instance| <= 253
    && forall j | i < j < |log| :: !(log[j].Ptr? && log[j].instance == log[i].instance)
  }

  /** Record i is the last well-formed SRV of its instance. */
  predicate IsLastSrv(log: seq<Record>, i: nat) {
    && i < |log| && log[i].Srv? && log[i].instance != [] && log[i].host != [] && log[i].port != 0
    && forall j | i < j < |log| :: !(log[j].Srv? && log[j].instance == log[i].instance && log[j].host != [] && log[j].port != 0)
  }

  lemma {:induction false} LastPtrIs(log: seq<Record>, i: nat)
    requires IsLastPtr(log, i)
    ensures LastPtr(log, log[i].instance) == Some(LastsUntil(log[i].ttl, log[i].now))
  {
    if i < |log| - 1 {
      LastPtrIs(log[..|log| - 1], i);
    }
  }

  lemma {:induction false} LastSrvIs(log: seq<Record>, i: nat)
    requires IsLastSrv(log, i)
    ensures LastSrv(log, log[i].instance) == Some(Service(log[i].host, log[i].port, LastsUntil(log[i].ttl, log[i].now)))
  {
    if i < |log| - 1 {
      LastSrvIs(log[..|log| - 1], i);
    }
  }

  /** Whatever else came in, a service is gone once its last PTR has, or its last SRV. */
  lemma ReadyOnlyWhileRecordsLast(log: seq<Record>, i: nat, now: int, e: Endpoint)
    requires IsLastPtr(log, i) || IsLastSrv(log, i)
    requires now >= LastsUntil(log[i].ttl, log[i].now)
    requires e in ReadyIn(Replay(log), now)
    ensures e.instance != log[i].instance
  {
    var k :| 0 <= k < |ReadyIn(Replay(log), now)| && ReadyIn(Replay(log), now)[k] == e;
    ReadyIsBacked(log, now, k);
    if IsLastPtr(log, i) {
      LastPtrIs(log, i);
    } else {
      LastSrvIs(log, i);
    }
  }

  // ---- what a call changes and what it leaves ----

  /** The record speaks of this entry: its instance, or for an address the host it names. */
  predicate About(r: Record, e: Entry) {
    match r
    case Ptr(instance, _, _) => instance == e.instance
    case Srv(instance, _, _, _, _) => instance == e.instance
    case Address(host, _, _, _) => host == e.host
    case _ => true
  }

  /** Records leave the other entries where they are, and an address record never takes anything away. */
  lemma RecordLeavesOthers(es: seq<Entry>, r: Record, k: nat)
    requires k < |es| && !r.Expire? && !r.Clear?
    ensures |es| <= |Applied(es, r)| <= |es| + 1
    ensures !About(r, es[k]) ==> Applied(es, r)[k] == es[k]
    ensures r.Address? ==> es[k].addresses <= Applied(es, r)[k].addresses && es[k].addressExpires <= Applied(es, r)[k].addressExpires
  {
  }

  /** What is left of an entry that is not past its PTR: the parts that are not past theirs. */
  predicate LivePartsOf(f: Entry, e: Entry, now: int) {
    && f.instance == e.instance && f.ptrExpires == e.ptrExpires && f.ptrExpires > now
    && f.srvExpires == e.srvExpires && f.addressExpires == e.addressExpires
    && f.addresses == (if e.addressExpires > now then e.addresses else [])
    && f.host == (if e.srvExpires > now then e.host else [])
    && f.port == (if e.srvExpires > now then e.port else 0)
  }

  /** Expiring drops the entries past their PTR and what is past its expiry in the others, and nothing else. */
  lemma {:induction false} ExpireForgets(es: seq<Entry>, now: int)
    ensures forall f | f in Expired(es, now) :: exists e | e in es :: LivePartsOf(f, e, now)
    ensures forall e | e in es && e.ptrExpires > now :: exists f | f in Expired(es, now) :: LivePartsOf(f, e, now)
  {
    if es != [] {
      var n := |es| - 1;
      ExpireForgets(es[..n], now);
      if es[n].ptrExpires > now {
        assert LivePartsOf(Cleaned(es[n], now), es[n], now);
        assert Cleaned(es[n], now) in Expired(es, now);
      }
    }
  }

  /** Addresses that expired do not come back with the next address record. */
  lemma ExpiredAddressesStayGone(es: seq<Entry>, now: int, a: Record, f: Entry)
    requires a.Address? && f in WithAddress(Expired(es, now), a.host, a.address, a.ttl, a.now)
    requires forall e | e in es && e.instance == f.instance :: e.addressExpires <= now
    ensures f.addresses == [] || f.addresses == [a.address]
  {
    var from := ExpiredKeepsOrder(es, now);
    var before := Expired(es, now);
    var k :| 0 <= k < |before| && f == WithAddress(before, a.host, a.address, a.ttl, a.now)[k];
    assert es[from[k]] in es;
  }
}
