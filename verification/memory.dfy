/**
  The in-memory aggregate store (backend/internal/storage/memory.go): a
  connection table and an interface table keyed by string, a bounded list of
  snapshots, and the read paths over them. Every public method of the source
  holds the store's lock for its whole body, so each method here is atomic.

  The source stores the caller's pointers (memory.go:39, memory.go:47), and
  the capture session hands it the same live objects on every tick and then
  zeroes their per-second fields. This model gives the store value semantics:
  it keeps what it was passed at the moment of the call. See MergeSelf for
  what the upsert amounts to under the source's aliasing.
 */
module MemoryStore {
  import opened Models

  /** Both read paths keep connections seen within the last five seconds. */
  const ActiveWindow: int := 5 * Second

  /** Snapshot list capacity: one hour of one-second snapshots. */
  const MaxSnapshots: nat := 3600

  /** Go's `string(uint16)`: the port as one code point; the surrogate range
      has no code point and becomes U+FFFD. */
  function PortRune(p: Port): (r: char)
    ensures r == '\U{FFFD}' <==> 0xD800 <= p <= 0xDFFF || p == 0xFFFD
  {
    if 0xD800 <= p <= 0xDFFF then '\U{FFFD}' else p as char
  }

  /** The store's connection key (memory.go:158-161). Each port takes
      exactly one character, whatever its value. */
  function ConnectionKey(c: Connection): (k: string)
    ensures |k| == |c.SrcIP| + |c.DstIP| + |c.Protocol| + 6
  {
    c.SrcIP + ":" + [PortRune(c.SrcPort)] + "-" + c.DstIP + ":" + [PortRune(c.DstPort)] + "-" + c.Protocol
  }

  /** The key depends on the 5-tuple only, never on the counters. */
  lemma KeyOfTuple(a: Connection, b: Connection)
    requires a.SrcIP == b.SrcIP && a.SrcPort == b.SrcPort && a.DstIP == b.DstIP
    requires a.DstPort == b.DstPort && a.Protocol == b.Protocol
    ensures ConnectionKey(a) == ConnectionKey(b)
  {
  }

  /** The key is not injective: every surrogate-range port and port 0xFFFD
      itself render as U+FFFD. */
  lemma SurrogatePortsCollide(c: Connection, p: Port, q: Port)
    requires 0xD800 <= p <= 0xDFFF || p == 0xFFFD
    requires 0xD800 <= q <= 0xDFFF || q == 0xFFFD
    ensures ConnectionKey(c.(SrcPort := p)) == ConnectionKey(c.(SrcPort := q))
    ensures ConnectionKey(c.(DstPort := p)) == ConnectionKey(c.(DstPort := q))
  {
  }

  /** Connections that GetSnapshot reports: last seen strictly after now - 5s. */
  predicate InSnapshotWindow(c: Connection, now: Time)
  {
    c.LastSeen > now - ActiveWindow
  }

  /** Connections that GetFilteredConnections considers: not before now - 5s. */
  predicate InFilterWindow(c: Connection, now: Time)
  {
    !(c.LastSeen < now - ActiveWindow)
  }

  /** The two windows differ exactly at the boundary instant. */
  lemma WindowsDifferAtBoundary(c: Connection, now: Time)
    ensures InSnapshotWindow(c, now) ==> InFilterWindow(c, now)
    ensures InFilterWindow(c, now) && !InSnapshotWindow(c, now) <==> c.LastSeen == now - ActiveWindow
  {
  }

  /** The filter criteria of GetFilteredConnections (memory.go:100-108). */
  predicate Matches(f: Filter, c: Connection)
    ensures f.IP == "" && f.Port == 0 && f.Protocol == "" ==> Matches(f, c)
    ensures Matches(f, c) && f.Protocol != "" ==> c.Protocol == f.Protocol
  {
    && (f.IP == "" || c.SrcIP == f.IP || c.DstIP == f.IP)
    && (f.Port == 0 || c.SrcPort == f.Port || c.DstPort == f.Port)
    && (f.Protocol == "" || c.Protocol == f.Protocol)
  }

  /** Merging an incoming connection into the stored one (memory.go:32-37):
      floor average of the rates, plain overwrite of the cumulative fields. */
  function Merge(existing: Connection, incoming: Connection): (r: Connection)
    ensures 2 * r.BytesPerSec <= existing.BytesPerSec + incoming.BytesPerSec < 2 * r.BytesPerSec + 2
  {
    existing.(BytesPerSec := (existing.BytesPerSec + incoming.BytesPerSec) / 2,
              Bytes := incoming.Bytes,
              Packets := incoming.Packets,
              LastSeen := incoming.LastSeen)
  }

  /** The connection table after UpdateConnection(c). */
  function Upsert(m: map<string, Connection>, c: Connection): (r: map<string, Connection>)
    ensures r.Keys == m.Keys + {ConnectionKey(c)}
    ensures var e := r[ConnectionKey(c)];
      e.Bytes == c.Bytes && e.Packets == c.Packets && e.LastSeen == c.LastSeen
  {
    var k := ConnectionKey(c);
    if k in m then m[k := Merge(m[k], c)] else m[k := c]
  }

  /** On an absent key the upsert inserts exactly the incoming connection. */
  lemma UpsertAbsent(m: map<string, Connection>, c: Connection)
    requires ConnectionKey(c) !in m
    ensures Upsert(m, c).Keys == m.Keys + {ConnectionKey(c)}
    ensures Upsert(m, c)[ConnectionKey(c)] == c
    ensures forall k :: k in m ==> Upsert(m, c)[k] == m[k]
  {
  }

  /** On a present key the upsert overwrites the counters, averages the rate
      and keeps the stored tuple and start time; other entries are unchanged. */
  lemma UpsertPresent(m: map<string, Connection>, c: Connection)
    requires ConnectionKey(c) in m
    ensures Upsert(m, c).Keys == m.Keys
    ensures forall k :: k in m && k != ConnectionKey(c) ==> Upsert(m, c)[k] == m[k]
    ensures var old_ := m[ConnectionKey(c)]; var new_ := Upsert(m, c)[ConnectionKey(c)];
      && new_.Bytes == c.Bytes && new_.Packets == c.Packets && new_.LastSeen == c.LastSeen
      && new_.BytesPerSec == (old_.BytesPerSec + c.BytesPerSec) / 2
      && new_.SrcIP == old_.SrcIP && new_.SrcPort == old_.SrcPort && new_.DstIP == old_.DstIP
      && new_.DstPort == old_.DstPort && new_.Protocol == old_.Protocol && new_.StartTime == old_.StartTime
  {
  }

  /** In the source the store keeps the session's own object. For a
      connection whose store key no other session entry shares, the stored
      pointer and the incoming one are then the same object from the second
      tick on, so its merge is a merge of a connection with itself, and that
      changes nothing. (When two session entries share a store key, the
      second one is merged into the first one's live object instead.) */
  lemma MergeSelf(c: Connection)
    ensures Merge(c, c) == c
  {
  }

  /** The merge is order-sensitive: two updates applied in opposite orders
      leave different rates and different cumulative counters. */
  lemma MergeOrderMatters()
    ensures exists e: Connection, a: Connection, b: Connection ::
      && Merge(Merge(e, a), b).BytesPerSec != Merge(Merge(e, b), a).BytesPerSec
      && Merge(Merge(e, a), b).Bytes != Merge(Merge(e, b), a).Bytes
  {
    var e := Connection("1.2.3.4", 1111, "10.0.0.5", 80, "TCP", 0, 0, 0, 0, 0);
    var a := e.(Bytes := 100, BytesPerSec := 100);
    var b := e.(Bytes := 300, BytesPerSec := 200);
    assert Merge(Merge(e, a), b).BytesPerSec == 125;
    assert Merge(Merge(e, b), a).BytesPerSec == 100;
  }

  /** The table after upserting every connection of `cs`, first to last. */
  function UpsertAll(m: map<string, Connection>, cs: seq<Connection>): map<string, Connection>
    decreases |cs|
  {
    if cs == [] then m else Upsert(UpsertAll(m, cs[..|cs| - 1]), cs[|cs| - 1])
  }

  /** A table is well keyed when every entry sits under its own key. */
  ghost predicate WellKeyed(m: map<string, Connection>)
  {
    forall k :: k in m ==> ConnectionKey(m[k]) == k
  }

  /** A flush adds exactly the keys of the flushed connections. */
  lemma {:induction false} UpsertAllKeys(m: map<string, Connection>, cs: seq<Connection>)
    ensures UpsertAll(m, cs).Keys == m.Keys + set c | c in cs :: ConnectionKey(c)
    decreases |cs|
  {
    if cs != [] {
      var init := cs[..|cs| - 1];
      UpsertAllKeys(m, init);
      assert cs == init + [cs[|cs| - 1]];
      assert (set c | c in cs :: ConnectionKey(c)) == (set c | c in init :: ConnectionKey(c)) + {ConnectionKey(cs[|cs| - 1])};
    }
  }

  /** A flush keeps every entry under its own key. */
  lemma {:induction false} UpsertAllWellKeyed(m: map<string, Connection>, cs: seq<Connection>)
    requires WellKeyed(m)
    ensures WellKeyed(UpsertAll(m, cs))
    decreases |cs|
  {
    if cs != [] {
      UpsertAllWellKeyed(m, cs[..|cs| - 1]);
    }
  }

  /** A key that no flushed connection maps to keeps its entry, or its absence. */
  lemma {:induction false} UpsertAllUntouched(m: map<string, Connection>, cs: seq<Connection>, k: string)
    requires forall i :: 0 <= i < |cs| ==> ConnectionKey(cs[i]) != k
    ensures k in UpsertAll(m, cs) <==> k in m
    ensures k in m ==> UpsertAll(m, cs)[k] == m[k]
    decreases |cs|
  {
    if cs != [] {
      UpsertAllUntouched(m, cs[..|cs| - 1], k);
    }
  }

  /** When the flushed connections have pairwise different keys, each one's
      entry is the single upsert of it into the original table, whatever
      the order of the flush. */
  lemma {:induction false} UpsertAllDistinct(m: map<string, Connection>, cs: seq<Connection>, i: nat)
    requires forall a, b :: 0 <= a < b < |cs| ==> ConnectionKey(cs[a]) != ConnectionKey(cs[b])
    requires i < |cs|
    ensures ConnectionKey(cs[i]) in UpsertAll(m, cs)
    ensures UpsertAll(m, cs)[ConnectionKey(cs[i])] == Upsert(m, cs[i])[ConnectionKey(cs[i])]
    decreases |cs|
  {
    var init := cs[..|cs| - 1];
    var k := ConnectionKey(cs[i]);
    if i == |cs| - 1 {
      UpsertAllUntouched(m, init, k);
    } else {
      UpsertAllDistinct(m, init, i);
    }
  }

  /** Without distinct keys the order of the flush matters: two
      connections with one store key but different 5-tuples, flushed into a
      table without that key, leave the tuple of whichever came first. Ports
      that render alike (SurrogatePortsCollide) make such pairs. */
  lemma UpsertAllOrderMatters(m: map<string, Connection>, a: Connection, b: Connection)
    requires ConnectionKey(a) == ConnectionKey(b) && ConnectionKey(a) !in m
    requires (a.SrcIP, a.SrcPort, a.DstIP, a.DstPort, a.Protocol) != (b.SrcIP, b.SrcPort, b.DstIP, b.DstPort, b.Protocol)
    ensures UpsertAll(m, [a, b]) != UpsertAll(m, [b, a])
  {
    var k := ConnectionKey(a);
    assert [a, b][..1] == [a] && [b, a][..1] == [b] && [a][..0] == [] && [b][..0] == [];
    assert UpsertAll(m, [a]) == m[k := a];
    assert UpsertAll(m, [b]) == m[k := b];
    assert UpsertAll(m, [a, b])[k] == Merge(a, b);
    assert UpsertAll(m, [b, a])[k] == Merge(b, a);
  }

  /** The newest `n` elements of `xs`, oldest first (memory.go:121-127). */
  function Newest<T>(xs: seq<T>, n: nat): (r: seq<T>)
    ensures |r| <= n && |r| <= |xs| && r == xs[|xs| - |r|..]
  {
    if |xs| <= n then xs else xs[|xs| - n..]
  }

  /** The trimmed list is the last min(|xs|, n) elements, in order. */
  lemma NewestIsSuffix<T>(xs: seq<T>, n: nat)
    ensures |Newest(xs, n)| == if |xs| <= n then |xs| else n
    ensures forall i :: 0 <= i < |Newest(xs, n)| ==> Newest(xs, n)[i] == xs[|xs| - |Newest(xs, n)| + i]
  {
  }

  /** Trimming after every append equals trimming the whole history once. */
  lemma NewestAppend<T>(xs: seq<T>, s: T, n: nat)
    ensures Newest(Newest(xs, n) + [s], n) == Newest(xs + [s], n)
  {
    if |xs| > n {
      var t := xs[|xs| - n..];
      if n > 0 {
        assert (t + [s])[1..] == (xs + [s])[|xs| + 1 - n..];
      } else {
        assert Newest(t + [s], n) == [];
      }
    }
  }

  class MemoryStorage {
    var connections: map<string, Connection>
    var interfaces: map<string, InterfaceStats>
    var snapshots: seq<TrafficSnapshot>
    const maxSnapshots: nat
    /** Every snapshot ever added, oldest first. */
    ghost var history: seq<TrafficSnapshot>

    ghost predicate Valid()
      reads this
    {
      && maxSnapshots == MaxSnapshots
      && WellKeyed(connections)
      && (forall n :: n in interfaces ==> interfaces[n].Interface == n)
      && snapshots == Newest(history, maxSnapshots)
    }

    constructor ()
      ensures Valid()
      ensures connections == map[] && interfaces == map[] && snapshots == [] && history == []
    {
      connections := map[];
      interfaces := map[];
      snapshots := [];
      maxSnapshots := MaxSnapshots;
      history := [];
    }

    method UpdateConnection(conn: Connection)
      requires Valid()
      modifies this
      ensures Valid()
      ensures connections == Upsert(old(connections), conn)
      ensures interfaces == old(interfaces) && snapshots == old(snapshots) && history == old(history)
    {
      var key := ConnectionKey(conn);
      if key in connections {
        var existing := connections[key];
        existing := existing.(BytesPerSec := (existing.BytesPerSec + conn.BytesPerSec) / 2);
        existing := existing.(Bytes := conn.Bytes);
        existing := existing.(Packets := conn.Packets);
        existing := existing.(LastSeen := conn.LastSeen);
        connections := connections[key := existing];
      } else {
        connections := connections[key := conn];
      }
    }

    method UpdateInterface(stats: InterfaceStats)
      requires Valid()
      modifies this
      ensures Valid()
      ensures interfaces == old(interfaces)[stats.Interface := stats]
      ensures connections == old(connections) && snapshots == old(snapshots) && history == old(history)
    {
      interfaces := interfaces[stats.Interface := stats];
    }

    /** The connections satisfying `keep`, each once, in map iteration order. */
    method Select(keep: Connection -> bool) returns (out: seq<Connection>)
      requires Valid()
      ensures forall c :: c in out <==> c in connections.Values && keep(c)
      ensures forall i, j :: 0 <= i < j < |out| ==> out[i] != out[j]
    {
      var todo := connections.Keys;
      out := [];
      while todo != {}
        invariant todo <= connections.Keys
        invariant forall i :: 0 <= i < |out| ==>
          var k := ConnectionKey(out[i]); k in connections && k !in todo && connections[k] == out[i] && keep(out[i])
        invariant forall k :: k in connections && k !in todo && keep(connections[k]) ==> connections[k] in out
        invariant forall i, j :: 0 <= i < j < |out| ==> out[i] != out[j]
        decreases |todo|
      {
        var k :| k in todo;
        var conn := connections[k];
        if keep(conn) {
          out := out + [conn];
        }
        todo := todo - {k};
      }
      forall c | c in connections.Values && keep(c)
        ensures c in out
      {
        var k :| k in connections && connections[k] == c;
      }
    }

    /** A snapshot at `now` (memory.go:55-85); the source reads the clock. */
    method GetSnapshot(now: Time) returns (snapshot: TrafficSnapshot)
      requires Valid()
      ensures snapshot.Timestamp == now
      ensures snapshot.Interface.None? <==> interfaces == map[]
      ensures snapshot.Interface.Some? ==> snapshot.Interface.value in interfaces.Values
      ensures forall c :: c in snapshot.Connections <==> c in connections.Values && InSnapshotWindow(c, now)
      ensures forall i, j :: 0 <= i < j < |snapshot.Connections| ==>
        snapshot.Connections[i] != snapshot.Connections[j]
    {
      var iface: Option<InterfaceStats> := None;
      if interfaces != map[] {
        // The source takes the first entry of a map iteration: any entry.
        var n :| n in interfaces;
        iface := Some(interfaces[n]);
      }
      var active := Select(c => InSnapshotWindow(c, now));
      snapshot := TrafficSnapshot(now, iface, active);
    }

    /** Active connections matching `filter` (memory.go:87-113). */
    method GetFilteredConnections(filter: Filter, now: Time) returns (result: seq<Connection>)
      requires Valid()
      ensures forall c :: c in result <==> c in connections.Values && InFilterWindow(c, now) && Matches(filter, c)
      ensures forall i, j :: 0 <= i < j < |result| ==> result[i] != result[j]
    {
      result := Select(c => InFilterWindow(c, now) && Matches(filter, c));
    }

    method AddSnapshot(snapshot: TrafficSnapshot)
      requires Valid()
      modifies this
      ensures Valid()
      ensures history == old(history) + [snapshot]
      ensures snapshots == Newest(old(snapshots) + [snapshot], maxSnapshots)
      ensures |snapshots| <= maxSnapshots
      ensures connections == old(connections) && interfaces == old(interfaces)
    {
      NewestAppend(history, snapshot, maxSnapshots);
      history := history + [snapshot];
      snapshots := snapshots + [snapshot];
      if |snapshots| > maxSnapshots {
        snapshots := snapshots[|snapshots| - maxSnapshots..];
      }
    }

    /** Points of the retained snapshots in [start, end]; `interval` is
        ignored, as in the source (memory.go:130-156). */
    method GetHistoricalData(start: Time, end: Time, interval: int) returns (result: seq<HistoricalData>)
      requires Valid()
      ensures result == Points(snapshots, start, end)
    {
      result := [];
      var i := 0;
      while i < |snapshots|
        invariant 0 <= i <= |snapshots|
        invariant result == Points(snapshots[..i], start, end)
      {
        var snapshot := snapshots[i];
        assert snapshots[..i + 1][..i] == snapshots[..i];
        if !(snapshot.Timestamp < start || snapshot.Timestamp > end) {
          if snapshot.Interface.Some? {
            var s := snapshot.Interface.value;
            result := result + [HistoricalData(snapshot.Timestamp, s.InBytesPerSec, s.OutBytesPerSec,
                                               s.InPacketsPerSec, s.OutPacketsPerSec)];
          }
        }
        i := i + 1;
      }
      assert snapshots[..i] == snapshots;
    }

    /** Empties both tables; used on interface switch (memory.go:164-171). */
    method ClearConnections()
      requires Valid()
      modifies this
      ensures Valid()
      ensures connections == map[] && interfaces == map[]
      ensures snapshots == old(snapshots) && history == old(history)
    {
      connections := map[];
      interfaces := map[];
    }
  }

  /** After ClearConnections, a snapshot reports no connection and no
      interface, while the snapshot list is kept. */
  method ClearThenSnapshot(store: MemoryStorage, now: Time) returns (snapshot: TrafficSnapshot)
    requires store.Valid()
    modifies store
    ensures (forall c :: c !in snapshot.Connections) && snapshot.Interface.None?
    ensures store.snapshots == old(store.snapshots)
  {
    store.ClearConnections();
    snapshot := store.GetSnapshot(now);
    assert store.connections.Values == {};
  }
}
