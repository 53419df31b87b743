/** Which auth-heal driver a failing upstream id reaches, and the startup check that makes
    the prefix match exact (cmd/tunnelsmith/healdriver.go:132-140, 361-393). */
module HealRouting {
  import opened Types

  /** `HasPrefix(upstreamID, idPrefix + "-")`. */
  predicate Matches(prefix: string, id: Id) { prefix + "-" <= id }

  /** `Observe`'s filter: the kind, then the prefix. */
  predicate Reaches(prefix: string, id: Id, kind: Kind) {
    kind.ProxyAuth? && Matches(prefix, id)
  }

  datatype Verdict =
    | Accepted
    | StaticCollision(id: Id, prefix: string)
    | PoolCollision(inner: string, outer: string)

  predicate StaticClash(statics: seq<Id>, prefix: string) {
    exists i :: 0 <= i < |statics| && prefix + "-" <= statics[i]
  }

  predicate PoolClash(pools: seq<string>, prefix: string) {
    exists i :: 0 <= i < |pools| && pools[i] != prefix && prefix + "-" <= pools[i] + "-"
  }

  /** `validateNoPoolPrefixCollision`. */
  method Validate(statics: seq<Id>, drivers: seq<string>, pools: seq<string>) returns (v: Verdict)
    ensures v.Accepted? <==>
      forall d :: 0 <= d < |drivers| ==>
        && (forall i :: 0 <= i < |statics| ==> !(drivers[d] + "-" <= statics[i]))
        && (forall i :: 0 <= i < |pools| && pools[i] != drivers[d] ==> !(drivers[d] + "-" <= pools[i] + "-"))
    ensures v.StaticCollision? ==>
      v.id in statics && v.prefix in drivers && v.prefix + "-" <= v.id
    ensures v.PoolCollision? ==>
      v.inner in drivers && v.outer in pools && v.inner != v.outer && v.inner + "-" <= v.outer + "-"
  {
    for d := 0 to |drivers|
      invariant forall k :: 0 <= k < d ==> !StaticClash(statics, drivers[k])
    {
      var prefix := drivers[d] + "-";
      for i := 0 to |statics|
        invariant forall k :: 0 <= k < i ==> !(prefix <= statics[k])
      {
        if prefix <= statics[i] {
          return StaticCollision(statics[i], drivers[d]);
        }
      }
    }
    for d := 0 to |drivers|
      invariant forall k :: 0 <= k < d ==> !PoolClash(pools, drivers[k])
    {
      var dMatcher := drivers[d] + "-";
      for i := 0 to |pools|
        invariant forall k :: 0 <= k < i ==> pools[k] == drivers[d] || !(dMatcher <= pools[k] + "-")
      {
        if pools[i] == drivers[d] {
          continue;
        }
        var pMatcher := pools[i] + "-";
        if dMatcher <= pMatcher {
          return PoolCollision(drivers[d], pools[i]);
        }
      }
    }
    return Accepted;
  }

  /** An accepted configuration: every driver's prefix is a pool prefix and clashes with nothing. */
  ghost predicate Sane(statics: seq<Id>, drivers: seq<string>, pools: seq<string>) {
    && (forall d :: 0 <= d < |drivers| ==> drivers[d] in pools)
    && (forall d :: 0 <= d < |drivers| ==> !StaticClash(statics, drivers[d]) && !PoolClash(pools, drivers[d]))
  }

  /** No configuration is refused without cause: every clash is an id some driver would match
      that is not its own pool's. */
  lemma ClashesMisroute(statics: seq<Id>, pools: seq<string>, d: string)
    ensures StaticClash(statics, d) ==> exists id :: id in statics && Matches(d, id)
    ensures PoolClash(pools, d) ==> exists p :: p in pools && p != d && forall suffix :: Matches(d, p + "-" + suffix)
  {
    if StaticClash(statics, d) {
      var i :| 0 <= i < |statics| && d + "-" <= statics[i];
      assert statics[i] in statics && Matches(d, statics[i]);
    }
    if PoolClash(pools, d) {
      var i :| 0 <= i < |pools| && pools[i] != d && d + "-" <= pools[i] + "-";
      var p := pools[i];
      forall suffix ensures Matches(d, p + "-" + suffix) {
        assert (p + "-" + suffix)[..|d| + 1] == (p + "-")[..|d| + 1];
      }
    }
  }

  /** Two prefixes of one string are comparable. */
  lemma PrefixesCompare(a: string, b: string, s: string)
    requires a <= s && b <= s && |a| <= |b|
    ensures a <= b
  {
    assert b == s[..|b|] && a == s[..|a|];
  }

  /** A driver matching an id of pool `p` is `p`'s own, or its prefix continues `p + "-"`. */
  lemma MatchedBy(p: string, suffix: string, d: string)
    requires d + "-" <= p + "-" + suffix
    ensures d + "-" <= p + "-" || p + "-" <= d
  {
    var id := p + "-" + suffix;
    if |d| <= |p| {
      PrefixesCompare(d + "-", p + "-", id);
    } else {
      PrefixesCompare(p + "-", d + "-", id);
      assert p + "-" == (d + "-")[..|p| + 1];
    }
  }

  /** Exact routing in every accepted configuration, for every suffix a provider may produce. */
  lemma RoutingIsExact(statics: seq<Id>, drivers: seq<string>, pools: seq<string>, d: string)
    requires Sane(statics, drivers, pools) && d in drivers
    // a static upstream reaches no driver
    ensures forall id, kind :: id in statics ==> !Reaches(d, id, kind)
    // an id of a pool with a driver reaches that driver and no other
    ensures forall p, suffix :: p in drivers ==> (Reaches(d, p + "-" + suffix, ProxyAuth) <==> d == p)
    // an id of another pool can reach the driver only if the driver's prefix continues the pool's
    ensures forall p, suffix :: p in pools && p != d && Reaches(d, p + "-" + suffix, ProxyAuth) ==> p + "-" <= d
  {
    var k :| 0 <= k < |drivers| && drivers[k] == d;
    forall id, kind | id in statics
      ensures !Reaches(d, id, kind)
    {
      var i :| 0 <= i < |statics| && statics[i] == id;
    }
    forall p, suffix | p in pools && p != d && Reaches(d, p + "-" + suffix, ProxyAuth)
      ensures p + "-" <= d
    {
      MatchedBy(p, suffix, d);
      var i :| 0 <= i < |pools| && pools[i] == p;
    }
    forall p, suffix | p in drivers
      ensures Reaches(d, p + "-" + suffix, ProxyAuth) <==> d == p
    {
      if d != p && Reaches(d, p + "-" + suffix, ProxyAuth) {
        DriversDoNotOverlap(statics, drivers, pools, d, p, suffix);
      }
    }
  }

  lemma DriversDoNotOverlap(statics: seq<Id>, drivers: seq<string>, pools: seq<string>, d: string, p: string, suffix: string)
    requires Sane(statics, drivers, pools) && d in drivers && p in drivers && d != p
    ensures !(d + "-" <= p + "-" + suffix)
  {
    var i :| 0 <= i < |drivers| && drivers[i] == d;
    var j :| 0 <= j < |drivers| && drivers[j] == p;
    var m :| 0 <= m < |pools| && pools[m] == p;
    var n :| 0 <= n < |pools| && pools[n] == d;
    assert !PoolClash(pools, drivers[i]) && !PoolClash(pools, drivers[j]);
    assert !(d + "-" <= p + "-");
    assert p + "-" <= d ==> p + "-" <= d + "-";
    assert !(p + "-" <= d);
    if d + "-" <= p + "-" + suffix {
      MatchedBy(p, suffix, d);
    }
  }

  // ---------------------------------------------------------------- pools without a driver

  /** What the configuration accepts as a prefix. */
  predicate PrefixChar(c: char) {
    'A' <= c <= 'Z' || 'a' <= c <= 'z' || '0' <= c <= '9' || c == '_' || c == '-'
  }

  predicate ValidPrefix(p: string) { 1 <= |p| <= 64 && forall i :: 0 <= i < |p| ==> PrefixChar(p[i]) }

  predicate Digits(s: string) { s != "" && forall i :: 0 <= i < |s| ==> '0' <= s[i] <= '9' }

  predicate Line(s: string) { s != "" && forall i :: 0 <= i < |s| ==> s[i] != '\n' }

  /** A relay hostname the Mullvad expander does not skip: `^(.+-wg)-(\d+)$`. */
  ghost predicate Relay(h: string) {
    exists head, number :: Line(head) && Digits(number) && h == head + "-wg-" + number
  }

  /** Only Mullvad pools have no driver, and their ids end in relay hostnames. The gap the
      check leaves is exact: some such id of pool `p` matches driver `d` exactly when `d`
      continues `p`'s prefix. */
  lemma GapIsExact(statics: seq<Id>, drivers: seq<string>, pools: seq<string>, d: string, p: string)
    requires Sane(statics, drivers, pools) && d in drivers && p in pools && p != d && ValidPrefix(d)
    ensures (exists relay :: Relay(relay) && Matches(d, p + "-" + relay)) <==> p + "-" <= d
  {
    RoutingIsExact(statics, drivers, pools, d);
    if relay :| Relay(relay) && Matches(d, p + "-" + relay) {
      assert Reaches(d, p + "-" + relay, ProxyAuth);
    }
    if p + "-" <= d {
      var relay := RelayBehind(d, p);
    }
  }

  lemma RelayBehind(d: string, p: string) returns (relay: string)
    requires ValidPrefix(d) && p + "-" <= d
    ensures Relay(relay) && Matches(d, p + "-" + relay)
  {
    var rest := d[|p| + 1..];
    var head := rest + "-x";
    var number := "1";
    relay := head + "-wg-" + number;
    assert d == p + "-" + rest;
    assert p + "-" + relay == d + "-" + "x-wg-1";
    assert forall i :: 0 <= i < |d| ==> PrefixChar(d[i]);
    assert Line(head) by {
      forall i | 0 <= i < |head| ensures head[i] != '\n' {
        if i < |rest| {
          assert rest[i] == d[|p| + 1 + i];
        }
      }
    }
    assert Digits(number);
  }

  /** The check's own comment says a pool without a driver is caught when its prefix is inside
      a driver's "or vice-versa"; the latter is not: a Mullvad pool "ws" beside a Webshare pool
      "ws-us" is accepted, and the id of relay us-nyc-wg-301 matches the Webshare driver. */
  lemma GapIsReal()
    ensures ValidPrefix("ws") && ValidPrefix("ws-us") && Relay("us-nyc-wg-301")
    ensures Sane([], ["ws-us"], ["ws", "ws-us"])
    ensures Matches("ws-us", "ws" + "-" + "us-nyc-wg-301")
  {
    assert Line("us-nyc") && Digits("301") && "us-nyc-wg-301" == "us-nyc" + "-wg-" + "301";
    assert "ws-us" + "-" == "ws-us-";
    assert "ws" + "-" == "ws-";
    assert "ws" + "-" + "us-nyc-wg-301" == "ws-us-nyc-wg-301";
    assert "ws-us-nyc-wg-301"[..6] == "ws-us-";
  }

  /** Where an upstream comes from. Relays are SOCKS5; the others may be of any kind. */
  datatype Origin = Static(id: Id) | Healed(prefix: string, suffix: string) | OfRelay(prefix: string, relay: string)

  function IdOf(o: Origin): Id {
    match o
    case Static(id) => id
    case Healed(prefix, suffix) => prefix + "-" + suffix
    case OfRelay(prefix, relay) => prefix + "-" + relay
  }

  ghost predicate Configured(o: Origin, statics: seq<Id>, drivers: seq<string>, pools: seq<string>) {
    match o
    case Static(id) => id in statics
    case Healed(prefix, _) => prefix in drivers
    case OfRelay(prefix, relay) => prefix in pools && prefix !in drivers && Relay(relay)
  }

  /** A proxy-authentication failure is recorded only for a dial through an HTTP proxy. */
  predicate CanFail(o: Origin, kind: Kind) { kind.ProxyAuth? ==> !o.OfRelay? }

  /** So the gap stays harmless: every failure the proxy can record reaches exactly the driver
      of the pool its upstream came from, if that has one, and only for the kind it heals. */
  lemma FailuresRouteExactly(statics: seq<Id>, drivers: seq<string>, pools: seq<string>, d: string, o: Origin, kind: Kind)
    requires Sane(statics, drivers, pools) && d in drivers
    requires Configured(o, statics, drivers, pools) && CanFail(o, kind)
    ensures Reaches(d, IdOf(o), kind) <==> kind.ProxyAuth? && o.Healed? && o.prefix == d
  {
    RoutingIsExact(statics, drivers, pools, d);
  }
}
