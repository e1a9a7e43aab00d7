/** The TTL cache of fetched DNSKEY and DS RRsets (`rrsetCache`).  Its contents are unverified. */
module KeyCache {
  import opened Dns

  const MIN_TTL: nat := 60
  const MAX_TTL: nat := 86400

  type Slot = (Name, nat)

  datatype Entry = Entry(rrs: seq<RR>, expiresAt: int)

  type Entries = map<Slot, Entry>

  function SlotOf(zone: Name, rrtype: nat): Slot {
    (Canonical(zone), rrtype)
  }

  function Lookup(es: Entries, slot: Slot, now: int): Option<seq<RR>> {
    if slot in es && now <= es[slot].expiresAt then Some(es[slot].rrs) else None
  }

  /** A lookup drops the entry it finds expired. */
  function AfterLookup(es: Entries, slot: Slot, now: int): Entries {
    if slot in es && now > es[slot].expiresAt then es - {slot} else es
  }

  function Clamp(ttl: nat): (r: nat)
    ensures MIN_TTL <= r <= MAX_TTL
    ensures MIN_TTL <= ttl <= MAX_TTL ==> r == ttl
  {
    if ttl < MIN_TTL then MIN_TTL else if ttl > MAX_TTL then MAX_TTL else ttl
  }

  function Store(es: Entries, slot: Slot, rrs: seq<RR>, ttl: nat, now: int): Entries {
    if rrs == [] then es else es[slot := Entry(rrs, now + Clamp(ttl) * SECOND)]
  }

  class RRsetCache {
    var entries: Entries

    constructor ()
      ensures entries == map[]
    {
      entries := map[];
    }

    method Get(zone: Name, rrtype: nat, now: int) returns (r: Option<seq<RR>>)
      modifies this
      ensures r == Lookup(old(entries), SlotOf(zone, rrtype), now)
      ensures entries == AfterLookup(old(entries), SlotOf(zone, rrtype), now)
    {
      var slot := SlotOf(zone, rrtype);
      if slot !in entries {
        return None;
      }
      var e := entries[slot];
      if now > e.expiresAt {
        entries := entries - {slot};
        return None;
      }
      return Some(e.rrs);
    }

    method Put(zone: Name, rrtype: nat, rrs: seq<RR>, ttl: nat, now: int)
      modifies this
      ensures entries == Store(old(entries), SlotOf(zone, rrtype), rrs, ttl, now)
    {
      if |rrs| == 0 {
        return;
      }
      var kept := ttl;
      if kept < MIN_TTL {
        kept := MIN_TTL;
      } else if kept > MAX_TTL {
        kept := MAX_TTL;
      }
      entries := entries[SlotOf(zone, rrtype) := Entry(rrs, now + kept * SECOND)];
    }
  }
}
