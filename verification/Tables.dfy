/** The loops that sweep the scoreboard's maps, each against the order-free table it builds.
    Go iterates maps in an arbitrary order, and so do these. */
module Tables {
  import opened Types
  import opened Selection
  import opened Regions
  import opened Invariants

  // ---------------------------------------------------------------- counting

  function Pairs(host: Host, ids: set<Id>): set<(Host, Id)> {
    set i | i in ids :: (host, i)
  }

  /** The (host, upstream) pairs the table holds. */
  function Sites(entries: Entries): set<(Host, Id)> {
    set h, i | h in entries && i in entries[h] :: (h, i)
  }

  lemma {:induction false} PairsCount(host: Host, ids: set<Id>)
    ensures |Pairs(host, ids)| == |ids|
    decreases |ids|
  {
    if ids != {} {
      var id :| id in ids;
      PairsCount(host, ids - {id});
      assert Pairs(host, ids) == Pairs(host, ids - {id}) + {(host, id)};
    }
  }

  lemma SitesWithout(entries: Entries, host: Host)
    requires host in entries
    ensures |Sites(entries)| == |Sites(entries - {host})| + |entries[host]|
  {
    assert Sites(entries) == Sites(entries - {host}) + Pairs(host, entries[host].Keys);
    PairsCount(host, entries[host].Keys);
  }

  lemma SitesReplaced(entries: Entries, host: Host, m: map<Id, Entry>)
    requires host in entries
    ensures |Sites(entries[host := m])| == |Sites(entries)| - |entries[host]| + |m|
  {
    SitesWithout(entries, host);
    SitesWithout(entries[host := m], host);
    assert entries[host := m] - {host} == entries - {host};
  }

  /** `EntriesCount`. */
  method CountEntries(entries: Entries) returns (total: nat)
    ensures total == |Sites(entries)|
  {
    total := 0;
    var seen: Entries := map[];
    var todo := entries.Keys;
    while todo != {}
      invariant todo <= entries.Keys
      invariant seen == map h | h in entries && h !in todo :: entries[h]
      invariant total == |Sites(seen)|
    {
      var host :| host in todo;
      total := total + |entries[host]|;
      SitesWithout(seen[host := entries[host]], host);
      assert seen[host := entries[host]] - {host} == seen;
      seen := seen[host := entries[host]];
      todo := todo - {host};
    }
    assert seen == entries;
  }

  // ---------------------------------------------------------------- decay

  method DecayUpstreams(perUpstream: map<Id, Entry>, step: real) returns (r: map<Id, Entry>)
    requires step > 0.0
    ensures r == DecayHost(perUpstream, step)
  {
    r := perUpstream;
    var todo := perUpstream.Keys;
    while todo != {}
      invariant todo <= perUpstream.Keys && r.Keys == perUpstream.Keys
      invariant forall i :: i in perUpstream ==>
        r[i] == if i in todo then perUpstream[i] else perUpstream[i].(score := Decayed(perUpstream[i].score, step))
    {
      var id :| id in todo;
      var score := r[id].score;
      if score > 0.0 {
        score := score - step;
        if score < 0.0 {
          score := 0.0;
        }
      } else if score < 0.0 {
        score := score + step;
        if score > 0.0 {
          score := 0.0;
        }
      }
      r := r[id := r[id].(score := score)];
      todo := todo - {id};
    }
  }

  method DecayEntries(entries: Entries, step: real) returns (r: Entries)
    requires step > 0.0
    ensures r == DecayAll(entries, step)
  {
    r := entries;
    var todo := entries.Keys;
    while todo != {}
      invariant todo <= entries.Keys && r.Keys == entries.Keys
      invariant forall h :: h in entries ==> r[h] == if h in todo then entries[h] else DecayHost(entries[h], step)
    {
      var host :| host in todo;
      var perUpstream := DecayUpstreams(r[host], step);
      r := r[host := perUpstream];
      todo := todo - {host};
    }
  }

  // ---------------------------------------------------------------- prune

  /** Deletes the stale entries of one host while iterating over them. */
  method DropStale(perUp: map<Id, Entry>, now: Time, after: Duration) returns (r: map<Id, Entry>, dropped: nat)
    ensures r == PruneHost(perUp, now, after)
    ensures |r| + dropped == |perUp|
  {
    r := perUp;
    dropped := 0;
    if after <= 0 {
      return;
    }
    var todo := perUp.Keys;
    while todo != {}
      invariant todo <= r.Keys
      invariant r == map i | i in perUp && (i in todo || !Stale(perUp[i], now, after)) :: perUp[i]
      invariant |r| + dropped == |perUp|
    {
      var id :| id in todo;
      var e := r[id];
      if e.score == 0.0 && e.lastSeen != 0 && now - e.lastSeen > after {
        ghost var before := r;
        r := r - {id};
        assert r.Keys == before.Keys - {id};
        dropped := dropped + 1;
      }
      todo := todo - {id};
    }
  }

  method DropEntries(entries: Entries, now: Time, after: Duration)
    returns (r: Entries, dropped: nat, hosts: nat)
    ensures r == PruneAll(entries, now, after)
    ensures |Sites(r)| + dropped == |Sites(entries)|
    ensures |r| + hosts == |entries|
  {
    r := entries;
    dropped, hosts := 0, 0;
    var todo := entries.Keys;
    while todo != {}
      invariant todo <= r.Keys
      invariant forall h :: h in r <==> h in entries && (h in todo || PruneHost(entries[h], now, after) != map[])
      invariant forall h :: h in r ==> r[h] == if h in todo then entries[h] else PruneHost(entries[h], now, after)
      invariant |Sites(r)| + dropped == |Sites(entries)|
      invariant |r| + hosts == |entries|
    {
      var host :| host in todo;
      var perUp, n := DropStale(r[host], now, after);
      SitesReplaced(r, host, perUp);
      dropped := dropped + n;
      r := r[host := perUp];
      if perUp == map[] {
        SitesWithout(r, host);
        ghost var before := r;
        r := r - {host};
        assert r.Keys == before.Keys - {host};
        hosts := hosts + 1;
      }
      todo := todo - {host};
    }
  }

  method DropCascades(cascade: map<Host, Time>, now: Time) returns (r: map<Host, Time>, dropped: nat)
    ensures r == PruneCascade(cascade, now)
    ensures |r| + dropped == |cascade|
  {
    r := cascade;
    dropped := 0;
    var todo := cascade.Keys;
    while todo != {}
      invariant todo <= r.Keys
      invariant r == map h | h in cascade && (h in todo || cascade[h] > now) :: cascade[h]
      invariant |r| + dropped == |cascade|
    {
      var host :| host in todo;
      if r[host] <= now {
        ghost var before := r;
        r := r - {host};
        assert r.Keys == before.Keys - {host};
        dropped := dropped + 1;
      }
      todo := todo - {host};
    }
  }

  method DropStamps(stamps: map<Key, Time>, now: Time, window: Duration) returns (r: map<Key, Time>, dropped: nat)
    ensures r == PruneDebounce(stamps, now, window)
    ensures |r| + dropped == |stamps|
  {
    r := stamps;
    dropped := 0;
    if window <= 0 {
      return;
    }
    var stale := 10 * window;
    var todo := stamps.Keys;
    while todo != {}
      invariant todo <= r.Keys
      invariant r == map k | k in stamps && (k in todo || now - stamps[k] <= stale) :: stamps[k]
      invariant |r| + dropped == |stamps|
    {
      var key :| key in todo;
      if now - r[key] > stale {
        ghost var before := r;
        r := r - {key};
        assert r.Keys == before.Keys - {key};
        dropped := dropped + 1;
      }
      todo := todo - {key};
    }
  }

  method DropHostStamps(stamps: map<Key, Time>, host: Host) returns (r: map<Key, Time>, had: bool)
    ensures r == WithoutHost(stamps, host)
    ensures had <==> r != stamps
  {
    r := stamps;
    had := false;
    var todo := stamps.Keys;
    while todo != {}
      invariant todo <= stamps.Keys
      invariant r == map k | k in stamps && (k in todo || k.host != host) :: stamps[k]
      invariant had <==> exists k :: k in stamps && k !in todo && k.host == host
    {
      var key :| key in todo;
      if key.host == host {
        r := r - {key};
        had := true;
      }
      todo := todo - {key};
    }
    if had {
      var k :| k in stamps && k.host == host;
      assert k !in r;
    }
  }

  // ---------------------------------------------------------------- pins

  method KnownIds(pool: seq<PoolEntry>) returns (known: set<Id>)
    ensures forall id :: id in known <==> FindId(pool, id).Some?
  {
    known := {};
    for k := 0 to |pool|
      invariant forall id :: id in known <==> exists j :: 0 <= j < k && pool[j].up.id == id
    {
      known := known + {pool[k].up.id};
    }
    forall id ensures id in known <==> FindId(pool, id).Some? {
      FindIdMeaning(pool, id);
    }
  }

  /** Drops the pins whose upstream is not in `pool`. */
  method DropUnknownPins(forces: map<Host, Pin>, pool: seq<PoolEntry>) returns (r: map<Host, Pin>)
    ensures r == KnownPins(forces, pool)
  {
    var known := KnownIds(pool);
    r := forces;
    var todo := forces.Keys;
    while todo != {}
      invariant todo <= r.Keys
      invariant r == map h | h in forces && (h in todo || forces[h].id in known) :: forces[h]
    {
      var host :| host in todo;
      if r[host].id !in known {
        r := r - {host};
      }
      todo := todo - {host};
    }
  }

  // ---------------------------------------------------------------- snapshots

  /** The ids, hosts or cascades listed so far, as sets. */
  function ListedIds(es: seq<EntrySnapshot>): set<Id> { set i | 0 <= i < |es| :: es[i].id }

  function ListedHosts(hosts: seq<HostSnapshot>): set<Host> { set i | 0 <= i < |hosts| :: hosts[i].host }

  function ListedCascades(cs: seq<CascadeSnapshot>): set<Host> { set i | 0 <= i < |cs| :: cs[i].host }

  method SnapshotHost(perUp: map<Id, Entry>) returns (es: seq<EntrySnapshot>)
    ensures ListsHost(perUp, es)
  {
    es := [];
    var todo := perUp.Keys;
    while todo != {}
      invariant todo <= perUp.Keys && ListedIds(es) == perUp.Keys - todo
      invariant forall i, j :: 0 <= i < j < |es| ==> es[i].id != es[j].id
      invariant forall i :: 0 <= i < |es| ==> es[i].id in perUp && perUp[es[i].id] == es[i].entry
    {
      var id :| id in todo;
      assert forall i :: 0 <= i < |es| ==> es[i].id in ListedIds(es);
      ghost var before := es;
      es := es + [EntrySnapshot(id, perUp[id])];
      todo := todo - {id};
      assert ListedIds(es) == ListedIds(before) + {id} by {
        assert es[|before|].id == id;
        assert forall i :: 0 <= i < |before| ==> es[i] == before[i];
      }
    }
    forall id | id in perUp ensures exists i :: 0 <= i < |es| && es[i].id == id {
      assert id in ListedIds(es);
    }
  }

  method SnapshotHosts(entries: Entries) returns (hosts: seq<HostSnapshot>)
    ensures forall i, j :: 0 <= i < j < |hosts| ==> hosts[i].host != hosts[j].host
    ensures forall i :: 0 <= i < |hosts| ==>
      hosts[i].host in entries && ListsHost(entries[hosts[i].host], hosts[i].entries)
    ensures forall h :: h in entries ==> exists i :: 0 <= i < |hosts| && hosts[i].host == h
  {
    hosts := [];
    var todo := entries.Keys;
    while todo != {}
      invariant todo <= entries.Keys && ListedHosts(hosts) == entries.Keys - todo
      invariant forall i, j :: 0 <= i < j < |hosts| ==> hosts[i].host != hosts[j].host
      invariant forall i :: 0 <= i < |hosts| ==>
        hosts[i].host in entries && ListsHost(entries[hosts[i].host], hosts[i].entries)
    {
      var host :| host in todo;
      assert forall i :: 0 <= i < |hosts| ==> hosts[i].host in ListedHosts(hosts);
      var es := SnapshotHost(entries[host]);
      ghost var before := hosts;
      hosts := hosts + [HostSnapshot(host, es)];
      todo := todo - {host};
      assert ListedHosts(hosts) == ListedHosts(before) + {host} by {
        assert hosts[|before|].host == host;
        assert forall i :: 0 <= i < |before| ==> hosts[i] == before[i];
      }
    }
    forall h | h in entries ensures exists i :: 0 <= i < |hosts| && hosts[i].host == h {
      assert h in ListedHosts(hosts);
    }
  }

  method SnapshotCascade(cascade: map<Host, Time>, now: Time) returns (cs: seq<CascadeSnapshot>)
    ensures ListsCascade(cascade, now, cs)
  {
    cs := [];
    var todo := cascade.Keys;
    while todo != {}
      invariant todo <= cascade.Keys
      invariant ListedCascades(cs) == set h | h in cascade && h !in todo && cascade[h] > now
      invariant forall i, j :: 0 <= i < j < |cs| ==> cs[i].host != cs[j].host
      invariant forall i :: 0 <= i < |cs| ==> cs[i].host in cascade && cascade[cs[i].host] == cs[i].until > now
    {
      var host :| host in todo;
      assert forall i :: 0 <= i < |cs| ==> cs[i].host in ListedCascades(cs);
      ghost var before := cs;
      todo := todo - {host};
      if cascade[host] > now {
        cs := cs + [CascadeSnapshot(host, cascade[host])];
        assert ListedCascades(cs) == ListedCascades(before) + {host} by {
          assert cs[|before|].host == host;
          assert forall i :: 0 <= i < |before| ==> cs[i] == before[i];
        }
      }
    }
    forall h | h in cascade && cascade[h] > now ensures exists i :: 0 <= i < |cs| && cs[i].host == h {
      assert h in ListedCascades(cs);
    }
  }

  method RestoreHost(es: seq<EntrySnapshot>) returns (perUp: map<Id, Entry>)
    ensures perUp == LoadHost(es)
  {
    perUp := map[];
    for i := 0 to |es|
      invariant perUp == LoadHost(es[..i])
    {
      assert es[..i + 1][..i] == es[..i];
      perUp := perUp[es[i].id := es[i].entry];
    }
    assert es[..|es|] == es;
  }

  method RestoreHosts(hosts: seq<HostSnapshot>) returns (entries: Entries)
    ensures entries == LoadHosts(hosts)
  {
    entries := map[];
    for i := 0 to |hosts|
      invariant entries == LoadHosts(hosts[..i])
    {
      assert hosts[..i + 1][..i] == hosts[..i];
      var perUp := RestoreHost(hosts[i].entries);
      if |perUp| > 0 {
        entries := entries[hosts[i].host := perUp];
      }
    }
    assert hosts[..|hosts|] == hosts;
  }

  method RestoreCascade(cs: seq<CascadeSnapshot>) returns (cascade: map<Host, Time>)
    ensures cascade == LoadCascade(cs)
  {
    cascade := map[];
    for i := 0 to |cs|
      invariant cascade == LoadCascade(cs[..i])
    {
      assert cs[..i + 1][..i] == cs[..i];
      cascade := cascade[cs[i].host := cs[i].until];
    }
    assert cs[..|cs|] == cs;
  }
}
