/** The discovery record cache: a bounded vector of entries with three independent expiries. */
module DiscoveryCache {
  import opened Bytes

  type Text = seq<byte>

  const MAX_ENTRIES := 64
  const MAX_ADDRESSES := 8
  const MAX_INSTANCE := 253
  const MAX_TTL := 3600
  /** Clock ticks in a second. */
  const TICKS := 1_000_000_000

  datatype Entry = Entry(
    instance: Text, host: Text, port: u16, addresses: seq<Text>,
    ptrExpires: int, srvExpires: int, addressExpires: int)

  datatype Endpoint = Endpoint(instance: Text, host: Text, port: u16, addresses: seq<Text>)

  /** One call that changes the cache, with the clock value it was given. */
  datatype Record =
    | Ptr(instance: Text, ttl: int, now: int)
    | Srv(instance: Text, host: Text, port: u16, ttl: int, now: int)
    | Address(host: Text, address: Text, ttl: int, now: int)
    | Expire(now: int)
    | Clear

  function Max(a: int, b: int): int {
    if a < b then b else a
  }

  function BoundedTtl(ttl: int): (seconds: int)
    ensures 0 <= seconds <= MAX_TTL
  {
    if ttl <= 0 then 0 else if ttl < MAX_TTL then ttl else MAX_TTL
  }

  function Expiry(ttl: int, now: int): int {
    now + BoundedTtl(ttl) * TICKS
  }

  // ---- what each call does to the entries ----

  function IndexOf(es: seq<Entry>, instance: Text): (i: nat)
    ensures i <= |es|
    ensures i < |es| ==> es[i].instance == instance
    ensures forall j | 0 <= j < i :: es[j].instance != instance
  {
    if es == [] || es[0].instance == instance then 0 else 1 + IndexOf(es[1..], instance)
  }

  predicate GoodPtr(instance: Text) {
    0 < |instance| <= MAX_INSTANCE
  }

  predicate GoodSrv(instance: Text, host: Text, port: u16) {
    instance != [] && host != [] && port != 0
  }

  predicate GoodAddress(host: Text, address: Text) {
    host != [] && address != []
  }

  function WithPtr(es: seq<Entry>, instance: Text, ttl: int, now: int): seq<Entry> {
    var i := IndexOf(es, instance);
    if !GoodPtr(instance) then es
    else if i < |es| then es[i := es[i].(ptrExpires := Expiry(ttl, now))]
    else if |es| >= MAX_ENTRIES then es
    else es + [Entry(instance, [], 0, [], Expiry(ttl, now), 0, 0)]
  }

  function WithSrv(es: seq<Entry>, instance: Text, host: Text, port: u16, ttl: int, now: int): seq<Entry> {
    var i := IndexOf(es, instance);
    if !GoodSrv(instance, host, port) || i == |es| then es
    else es[i := es[i].(host := host, port := port, srvExpires := Expiry(ttl, now))]
  }

  function AddressedEntry(e: Entry, host: Text, address: Text, expiry: int): Entry {
    if e.host != host then e
    else if address in e.addresses then e.(addressExpires := Max(e.addressExpires, expiry))
    else if |e.addresses| >= MAX_ADDRESSES then e
    else e.(addresses := e.addresses + [address], addressExpires := Max(e.addressExpires, expiry))
  }

  function WithAddress(es: seq<Entry>, host: Text, address: Text, ttl: int, now: int): seq<Entry> {
    if !GoodAddress(host, address) then es
    else seq(|es|, i requires 0 <= i < |es| => AddressedEntry(es[i], host, address, Expiry(ttl, now)))
  }

  predicate Live(e: Entry, now: int) {
    && e.ptrExpires > now && e.srvExpires > now && e.addressExpires > now
    && e.host != [] && e.port != 0 && e.addresses != []
  }

  function EndpointOf(e: Entry): Endpoint {
    Endpoint(e.instance, e.host, e.port, e.addresses)
  }

  function ReadyIn(es: seq<Entry>, now: int): seq<Endpoint> {
    if es == [] then []
    else ReadyIn(es[..|es| - 1], now) + if Live(es[|es| - 1], now) then [EndpointOf(es[|es| - 1])] else []
  }

  function Cleaned(e: Entry, now: int): Entry {
    var a := if e.addressExpires <= now then e.(addresses := []) else e;
    if a.srvExpires <= now then a.(host := [], port := 0) else a
  }

  function Expired(es: seq<Entry>, now: int): (r: seq<Entry>)
    ensures |r| <= |es|
  {
    if es == [] then []
    else Expired(es[..|es| - 1], now) + if es[|es| - 1].ptrExpires <= now then [] else [Cleaned(es[|es| - 1], now)]
  }

  function Applied(es: seq<Entry>, r: Record): seq<Entry> {
    match r
    case Ptr(instance, ttl, now) => WithPtr(es, instance, ttl, now)
    case Srv(instance, host, port, ttl, now) => WithSrv(es, instance, host, port, ttl, now)
    case Address(host, address, ttl, now) => WithAddress(es, host, address, ttl, now)
    case Expire(now) => Expired(es, now)
    case Clear => []
  }

  /** The entries a whole log of calls leaves. */
  function Replay(log: seq<Record>): seq<Entry> {
    if log == [] then [] else Applied(Replay(log[..|log| - 1]), log[|log| - 1])
  }

  /** The cache as it runs; `log` is every call made on it. */
  class RecordCache {
    var entries: seq<Entry>
    ghost var log: seq<Record>

    ghost predicate Valid()
      reads this
    {
      entries == Replay(log)
    }

    constructor ()
      ensures Valid() && log == []
    {
      entries := [];
      log := [];
    }

    ghost method Note(r: Record)
      requires entries == Applied(Replay(log), r)
      modifies `log
      ensures Valid() && log == old(log) + [r]
    {
      log := log + [r];
      assert log[..|log| - 1] == old(log);
    }

    method FindEntry(instance: Text) returns (i: nat)
      ensures i == IndexOf(entries, instance)
    {
      i := 0;
      while i < |entries| && entries[i].instance != instance
        invariant 0 <= i <= |entries|
        invariant forall j | 0 <= j < i :: entries[j].instance != instance
      {
        i := i + 1;
      }
    }

    method ApplyPtr(instance: Text, ttl: int, now: int)
      requires Valid()
      modifies this
      ensures Valid() && log == old(log) + [Ptr(instance, ttl, now)]
    {
      if GoodPtr(instance) {
        var i := FindEntry(instance);
        if i < |entries| {
          entries := entries[i := entries[i].(ptrExpires := Expiry(ttl, now))];
        } else if |entries| < MAX_ENTRIES {
          entries := entries + [Entry(instance, [], 0, [], 0, 0, 0)];
          entries := entries[i := entries[i].(ptrExpires := Expiry(ttl, now))];
        }
      }
      Note(Ptr(instance, ttl, now));
    }

    method ApplySrv(instance: Text, host: Text, port: u16, ttl: int, now: int)
      requires Valid()
      modifies this
      ensures Valid() && log == old(log) + [Srv(instance, host, port, ttl, now)]
    {
      if GoodSrv(instance, host, port) {
        var i := FindEntry(instance);
        if i < |entries| {
          entries := entries[i := entries[i].(host := host)];
          entries := entries[i := entries[i].(port := port)];
          entries := entries[i := entries[i].(srvExpires := Expiry(ttl, now))];
        }
      }
      Note(Srv(instance, host, port, ttl, now));
    }

    method ApplyAddress(host: Text, address: Text, ttl: int, now: int)
      requires Valid()
      modifies this
      ensures Valid() && log == old(log) + [Address(host, address, ttl, now)]
    {
      if GoodAddress(host, address) {
        var expiry := Expiry(ttl, now);
        var i := 0;
        while i < |entries|
          invariant 0 <= i <= |entries| == |old(entries)| && log == old(log)
          invariant forall j | 0 <= j < i :: entries[j] == AddressedEntry(old(entries)[j], host, address, expiry)
          invariant forall j | i <= j < |entries| :: entries[j] == old(entries)[j]
        {
          var e := entries[i];
          if e.host == host {
            var room := true;
            if address !in e.addresses {
              if |e.addresses| >= MAX_ADDRESSES {
                room := false;
              } else {
                e := e.(addresses := e.addresses + [address]);
              }
            }
            if room {
              e := e.(addressExpires := Max(e.addressExpires, expiry));
            }
          }
          entries := entries[i := e];
          i := i + 1;
        }
        assert entries == WithAddress(old(entries), host, address, ttl, now);
      }
      Note(Address(host, address, ttl, now));
    }

    method Ready(now: int) returns (result: seq<Endpoint>)
      requires Valid()
      ensures result == ReadyIn(Replay(log), now)
    {
      result := [];
      for i := 0 to |entries|
        invariant result == ReadyIn(entries[..i], now)
      {
        assert entries[..i + 1][..i] == entries[..i];
        var e := entries[i];
        if e.ptrExpires <= now || e.srvExpires <= now || e.addressExpires <= now
           || e.host == [] || e.port == 0 || e.addresses == [] {
          continue;
        }
        result := result + [Endpoint(e.instance, e.host, e.port, e.addresses)];
      }
      assert entries[..|entries|] == entries;
    }

    method ExpireAt(now: int)
      requires Valid()
      modifies this
      ensures Valid() && log == old(log) + [Expire(now)]
    {
      var i := 0;
      while i < |entries|
        invariant 0 <= i <= |entries| == |old(entries)| && log == old(log)
        invariant forall j | 0 <= j < i :: entries[j] == Cleaned(old(entries)[j], now)
        invariant forall j | i <= j < |entries| :: entries[j] == old(entries)[j]
      {
        var e := entries[i];
        if e.addressExpires <= now {
          e := e.(addresses := []);
        }
        if e.srvExpires <= now {
          e := e.(host := [], port := 0);
        }
        entries := entries[i := e];
        i := i + 1;
      }
      var kept: seq<Entry> := [];
      for k := 0 to |entries|
        invariant kept == Expired(old(entries)[..k], now)
      {
        assert old(entries)[..k + 1][..k] == old(entries)[..k];
        if entries[k].ptrExpires > now {
          kept := kept + [entries[k]];
        }
      }
      assert old(entries)[..|entries|] == old(entries);
      entries := kept;
      Note(Expire(now));
    }

    method ClearAll()
      requires Valid()
      modifies this
      ensures Valid() && log == old(log) + [Clear] && entries == []
    {
      entries := [];
      Note(Clear);
    }
  }
}
