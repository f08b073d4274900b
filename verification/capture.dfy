/**
  The capture session (backend/internal/capture/capture.go): classification
  of a decoded packet, the session's running interface and connection
  counters, the one-second flush into the aggregate store, the session loop,
  and the choice of a device when none is named.

  Decoding by the capture library is replaced by the Packet datatype below;
  the session loop reads a finite list of events instead of three channels;
  the wall clock is the `now` carried by each packet event.
 */
module Capture {
  import opened Models
  import opened Strings
  import MemoryStore

  datatype NetworkLayer =
    | IPv4(SrcIP: string, DstIP: string)
    | IPv6(SrcIP: string, DstIP: string)
    | OtherNetwork

  datatype TransportLayer =
    | TCP(SrcPort: Port, DstPort: Port)
    | UDP(SrcPort: Port, DstPort: Port)
    | OtherTransport

  /** A decoded packet: its layers as far as the source inspects them, and
      the length of its raw data. */
  datatype Packet = Packet(Network: Option<NetworkLayer>, Transport: Option<TransportLayer>, Length: nat)

  /** The direction heuristic (capture.go:178-181). The source slices the
      first three characters, which panics on a one- or two-character
      string such as the IPv6 unspecified address "::". */
  predicate IsLocalIP(ip: string)
    requires |ip| == 0 || |ip| >= 3
    ensures IsLocalIP(ip) ==> |ip| >= 3
  {
    |ip| > 0 && (ip[..3] == "192" || ip[..3] == "172" || ip[..2] == "10" || ip == "127.0.0.1" || ip == "::1")
  }

  /** What the heuristic accepts and rejects, including its false positives
      (carrier-grade NAT and public 172.x addresses) and false negatives
      (loopback other than 127.0.0.1, IPv6 link-local). */
  lemma LocalIPHeuristic()
    ensures IsLocalIP("192.168.1.10") && IsLocalIP("10.0.0.5") && IsLocalIP("127.0.0.1") && IsLocalIP("::1")
    ensures IsLocalIP("100.64.0.1") && IsLocalIP("172.217.0.1") && IsLocalIP("1920::1")
    ensures !IsLocalIP("8.8.8.8") && !IsLocalIP("127.0.0.2") && !IsLocalIP("fe80::1") && !IsLocalIP("")
  {
    assert "100.64.0.1"[..2] == "10";
    assert "8.8.8.8"[..3] == "8.8" && "8.8.8.8"[..2] == "8.";
    assert "127.0.0.2"[..3] == "127" && "127.0.0.2"[..2] == "12";
    assert "fe80::1"[..3] == "fe8" && "fe80::1"[..2] == "fe";
  }

  /** The heuristic looks at the prefix only: any address starting with
      "10", "172" or "192" is local. */
  lemma LocalByPrefix(ip: string)
    requires |ip| >= 3
    requires ip[..2] == "10" || ip[..3] == "172" || ip[..3] == "192"
    ensures IsLocalIP(ip)
  {
  }

  /** The source never calls the heuristic on a one- or two-character
      destination address without panicking. */
  predicate Addressable(p: Packet)
  {
    p.Network.Some? && !p.Network.value.OtherNetwork? ==>
      var dst := p.Network.value.DstIP; |dst| == 0 || |dst| >= 3
  }

  /** The session's connection key with decimal ports (capture.go:149). */
  function SessionKey(srcIP: string, srcPort: Port, dstIP: string, dstPort: Port, protocol: string): (k: string)
  {
    srcIP + ":" + Decimal(srcPort) + "-" + dstIP + ":" + Decimal(dstPort) + "-" + protocol
  }

  function SessionKeyOf(c: Connection): string
  {
    SessionKey(c.SrcIP, c.SrcPort, c.DstIP, c.DstPort, c.Protocol)
  }

  /** For addresses without '-' (every IPv4 and IPv6 rendering), the session
      key determines the 5-tuple. */
  lemma SessionKeyInjective(a: Connection, b: Connection)
    requires '-' !in a.SrcIP && '-' !in a.DstIP && '-' !in b.SrcIP && '-' !in b.DstIP
    requires SessionKeyOf(a) == SessionKeyOf(b)
    ensures a.SrcIP == b.SrcIP && a.SrcPort == b.SrcPort && a.DstIP == b.DstIP
    ensures a.DstPort == b.DstPort && a.Protocol == b.Protocol
  {
    var ds, dd, ds', dd' := Decimal(a.SrcPort), Decimal(a.DstPort), Decimal(b.SrcPort), Decimal(b.DstPort);
    var p, q := a.SrcIP + [':'] + ds, a.DstIP + [':'] + dd;
    var p', q' := b.SrcIP + [':'] + ds', b.DstIP + [':'] + dd';
    assert SessionKeyOf(a) == p + ['-'] + (q + ['-'] + a.Protocol);
    assert SessionKeyOf(b) == p' + ['-'] + (q' + ['-'] + b.Protocol);
    assert '-' !in ds && '-' !in dd && '-' !in ds' && '-' !in dd';
    assert ':' !in ds && ':' !in dd && ':' !in ds' && ':' !in dd';
    SplitAtFirst(p, q + ['-'] + a.Protocol, p', q' + ['-'] + b.Protocol, '-');
    SplitAtFirst(q, a.Protocol, q', b.Protocol, '-');
    SplitAtLast(a.SrcIP, ds, b.SrcIP, ds', ':');
    SplitAtLast(a.DstIP, dd, b.DstIP, dd', ':');
    DecimalInjective(a.SrcPort, b.SrcPort);
    DecimalInjective(a.DstPort, b.DstPort);
  }

  /** The two key schemes disagree: two connections that differ only in a
      surrogate-range source port are two entries in the session but one
      entry in the store, so the flush merges them. */
  lemma KeySchemesDisagree(c: Connection, p: Port, q: Port)
    requires '-' !in c.SrcIP && '-' !in c.DstIP
    requires 0xD800 <= p <= 0xDFFF || p == 0xFFFD
    requires 0xD800 <= q <= 0xDFFF || q == 0xFFFD
    requires p != q
    ensures SessionKeyOf(c.(SrcPort := p)) != SessionKeyOf(c.(SrcPort := q))
    ensures MemoryStore.ConnectionKey(c.(SrcPort := p)) == MemoryStore.ConnectionKey(c.(SrcPort := q))
  {
    if SessionKeyOf(c.(SrcPort := p)) == SessionKeyOf(c.(SrcPort := q)) {
      SessionKeyInjective(c.(SrcPort := p), c.(SrcPort := q));
    }
  }

  /** The session's accumulators as a value: interface counters and the
      connection table keyed by SessionKey. */
  datatype TallyState = TallyState(Stats: InterfaceStats, Connections: map<string, Connection>)

  function InitialTally(iface: string): TallyState
  {
    TallyState(InterfaceStats(iface, 0, 0, 0, 0, 0, 0, 0, 0), map[])
  }

  function AddIncoming(s: InterfaceStats, n: nat): InterfaceStats
  {
    s.(InBytes := s.InBytes + n, InBytesPerSec := s.InBytesPerSec + n,
       InPackets := s.InPackets + 1, InPacketsPerSec := s.InPacketsPerSec + 1)
  }

  function AddOutgoing(s: InterfaceStats, n: nat): InterfaceStats
  {
    s.(OutBytes := s.OutBytes + n, OutBytesPerSec := s.OutBytesPerSec + n,
       OutPackets := s.OutPackets + 1, OutPacketsPerSec := s.OutPacketsPerSec + 1)
  }

  function ResetPerSecond(s: InterfaceStats): InterfaceStats
  {
    s.(InBytesPerSec := 0, OutBytesPerSec := 0, InPacketsPerSec := 0, OutPacketsPerSec := 0)
  }

  predicate IsIP(p: Packet)
  {
    p.Network.Some? && !p.Network.value.OtherNetwork?
  }

  predicate IsTcpOrUdp(p: Packet)
  {
    p.Transport.Some? && !p.Transport.value.OtherTransport?
  }

  /** The session key a TCP/UDP packet is counted under. */
  function PacketKey(p: Packet): string
    requires IsIP(p) && IsTcpOrUdp(p)
  {
    var n, t := p.Network.value, p.Transport.value;
    SessionKey(n.SrcIP, t.SrcPort, n.DstIP, t.DstPort, if t.TCP? then "TCP" else "UDP")
  }

  /** The accumulators after one packet (capture.go:87-169). */
  function CountPacket(st: TallyState, p: Packet, now: Time): (r: TallyState)
    requires Addressable(p)
    ensures r.Stats.Interface == st.Stats.Interface
  {
    if !IsIP(p) then st
    else
      var n := p.Network.value;
      var stats := if IsLocalIP(n.DstIP) then AddIncoming(st.Stats, p.Length) else AddOutgoing(st.Stats, p.Length);
      if !IsTcpOrUdp(p) then TallyState(stats, st.Connections)
      else
        var t := p.Transport.value;
        var key := PacketKey(p);
        var conn := if key in st.Connections then st.Connections[key]
                    else Connection(n.SrcIP, t.SrcPort, n.DstIP, t.DstPort, if t.TCP? then "TCP" else "UDP",
                                    0, 0, 0, now, 0);
        TallyState(stats, st.Connections[key := conn.(Bytes := conn.Bytes + p.Length, BytesPerSec := p.Length,
                                                      Packets := conn.Packets + 1, LastSeen := now)])
  }

  /** A packet without an IPv4/IPv6 layer changes nothing. */
  lemma NonIPIgnored(st: TallyState, p: Packet, now: Time)
    requires !IsIP(p)
    ensures CountPacket(st, p, now) == st
  {
  }

  /** An IP packet moves exactly one direction's four counters, by its
      length and by one; the other direction and the name stay. */
  lemma OneDirection(st: TallyState, p: Packet, now: Time)
    requires Addressable(p) && IsIP(p)
    ensures var s, s' := st.Stats, CountPacket(st, p, now).Stats;
      && s'.Interface == s.Interface
      && (IsLocalIP(p.Network.value.DstIP) ==>
           && s'.InBytes == s.InBytes + p.Length && s'.InBytesPerSec == s.InBytesPerSec + p.Length
           && s'.InPackets == s.InPackets + 1 && s'.InPacketsPerSec == s.InPacketsPerSec + 1
           && s'.OutBytes == s.OutBytes && s'.OutBytesPerSec == s.OutBytesPerSec
           && s'.OutPackets == s.OutPackets && s'.OutPacketsPerSec == s.OutPacketsPerSec)
      && (!IsLocalIP(p.Network.value.DstIP) ==>
           && s'.OutBytes == s.OutBytes + p.Length && s'.OutBytesPerSec == s.OutBytesPerSec + p.Length
           && s'.OutPackets == s.OutPackets + 1 && s'.OutPacketsPerSec == s.OutPacketsPerSec + 1
           && s'.InBytes == s.InBytes && s'.InBytesPerSec == s.InBytesPerSec
           && s'.InPackets == s.InPackets && s'.InPacketsPerSec == s.InPacketsPerSec)
  {
  }

  /** Without a TCP or UDP layer only the interface counters change. */
  lemma NoTransportNoConnection(st: TallyState, p: Packet, now: Time)
    requires Addressable(p) && !IsTcpOrUdp(p)
    ensures CountPacket(st, p, now).Connections == st.Connections
  {
  }

  /** A TCP/UDP packet touches exactly its key's entry: created with zero
      counters if absent, then bytes and packets grow, the rate becomes the
      packet's size and the entry is stamped `now`. */
  lemma ConnectionCounted(st: TallyState, p: Packet, now: Time)
    requires Addressable(p) && IsIP(p) && IsTcpOrUdp(p)
    ensures var k, m, m' := PacketKey(p), st.Connections, CountPacket(st, p, now).Connections;
      && m'.Keys == m.Keys + {k}
      && (forall j :: j in m && j != k ==> m'[j] == m[j])
      && m'[k].Bytes == (if k in m then m[k].Bytes else 0) + p.Length
      && m'[k].Packets == (if k in m then m[k].Packets else 0) + 1
      && m'[k].BytesPerSec == p.Length
      && m'[k].LastSeen == now
      && m'[k].StartTime == (if k in m then m[k].StartTime else now)
      && (k !in m ==>
            && m'[k].SrcIP == p.Network.value.SrcIP && m'[k].DstIP == p.Network.value.DstIP
            && m'[k].SrcPort == p.Transport.value.SrcPort && m'[k].DstPort == p.Transport.value.DstPort
            && m'[k].Protocol == (if p.Transport.value.TCP? then "TCP" else "UDP"))
      && (k in m ==>
            && m'[k].SrcIP == m[k].SrcIP && m'[k].DstIP == m[k].DstIP
            && m'[k].SrcPort == m[k].SrcPort && m'[k].DstPort == m[k].DstPort
            && m'[k].Protocol == m[k].Protocol)
  {
  }

  /** Every entry of a session table sits under the session key of its own
      5-tuple. */
  ghost predicate Keyed(m: map<string, Connection>)
  {
    forall k :: k in m ==> SessionKeyOf(m[k]) == k
  }

  /** One packet keeps the table keyed. */
  lemma CountKeepsKeyed(st: TallyState, p: Packet, now: Time)
    requires Addressable(p) && Keyed(st.Connections)
    ensures Keyed(CountPacket(st, p, now).Connections)
  {
  }

  /** Events the session loop reacts to (capture.go:66-84). */
  datatype Event =
    | Arrived(packet: Packet, now: Time)
    | Ticked
    | Cancelled

  ghost predicate Deliverable(events: seq<Event>)
  {
    forall i :: 0 <= i < |events| && events[i].Arrived? ==> Addressable(events[i].packet)
  }

  /** The accumulators after one event; a tick zeroes the per-second counters. */
  function Step(st: TallyState, e: Event): (r: TallyState)
    requires e.Arrived? ==> Addressable(e.packet)
    ensures r.Stats.Interface == st.Stats.Interface
  {
    match e
    case Arrived(p, now) => CountPacket(st, p, now)
    case Ticked => TallyState(ResetPerSecond(st.Stats), st.Connections)
    case Cancelled => st
  }

  function Replay(st: TallyState, events: seq<Event>): (r: TallyState)
    requires Deliverable(events)
    ensures (forall i :: 0 <= i < |events| ==> !events[i].Arrived?) ==> r.Connections == st.Connections
    decreases |events|
  {
    if events == [] then st else Step(Replay(st, events[..|events| - 1]), events[|events| - 1])
  }

  /** The position of the first cancellation, or the length if there is none. */
  function FirstCancel(events: seq<Event>): (n: nat)
    ensures n <= |events|
    ensures n < |events| ==> events[n].Cancelled?
    ensures forall i :: 0 <= i < n ==> !events[i].Cancelled?
    decreases |events|
  {
    if events == [] then 0
    else if events[0].Cancelled? then 0
    else 1 + FirstCancel(events[1..])
  }

  /** A tick zeroes the four per-second counters and keeps everything else. */
  lemma TickResets(st: TallyState)
    ensures var s, s' := st.Stats, Step(st, Ticked).Stats;
      && s'.InBytesPerSec == 0 && s'.OutBytesPerSec == 0 && s'.InPacketsPerSec == 0 && s'.OutPacketsPerSec == 0
      && s'.Interface == s.Interface && s'.InBytes == s.InBytes && s'.OutBytes == s.OutBytes
      && s'.InPackets == s.InPackets && s'.OutPackets == s.OutPackets
      && Step(st, Ticked).Connections == st.Connections
  {
  }

  /** `b` is a later state than `a`: same interface, no cumulative counter
      lower, no connection lost or with lower bytes or packets. */
  ghost predicate Grows(a: TallyState, b: TallyState)
  {
    && a.Stats.Interface == b.Stats.Interface
    && a.Stats.InBytes <= b.Stats.InBytes && a.Stats.OutBytes <= b.Stats.OutBytes
    && a.Stats.InPackets <= b.Stats.InPackets && a.Stats.OutPackets <= b.Stats.OutPackets
    && (forall k :: k in a.Connections ==>
          k in b.Connections && a.Connections[k].Bytes <= b.Connections[k].Bytes
          && a.Connections[k].Packets <= b.Connections[k].Packets)
  }

  /** Over any sequence of packets and ticks the cumulative counters never
      decrease and no connection disappears. */
  lemma {:induction false} ReplayGrows(st: TallyState, events: seq<Event>)
    requires Deliverable(events)
    ensures Grows(st, Replay(st, events))
    decreases |events|
  {
    if events != [] {
      var init := events[..|events| - 1];
      ReplayGrows(st, init);
      var mid := Replay(st, init);
      var e := events[|events| - 1];
      assert Grows(mid, Step(mid, e));
    }
  }

  /** Over any run, a session table that starts keyed stays keyed, so each
      entry a tick hands to the store carries the tuple of its session key. */
  lemma {:induction false} ReplayKeepsKeyed(st: TallyState, events: seq<Event>)
    requires Deliverable(events) && Keyed(st.Connections)
    ensures Keyed(Replay(st, events).Connections)
    decreases |events|
  {
    if events != [] {
      var init := events[..|events| - 1];
      ReplayKeepsKeyed(st, init);
      var mid := Replay(st, init);
      match events[|events| - 1] {
        case Arrived(p, now) => CountKeepsKeyed(mid, p, now);
        case Ticked =>
        case Cancelled =>
      }
    }
  }

  /** The session's accumulators (capture.go:57-64): the interface counters
      and the connection table, both updated in place. */
  class Tally {
    var stats: InterfaceStats
    var connections: map<string, Connection>

    constructor (iface: string)
      ensures State() == InitialTally(iface)
    {
      stats := InterfaceStats(iface, 0, 0, 0, 0, 0, 0, 0, 0);
      connections := map[];
    }

    function State(): TallyState
      reads this
    {
      TallyState(stats, connections)
    }
  }

  /** The connections under `keys`, in that order. */
  function ValuesAt(m: map<string, Connection>, keys: seq<string>): seq<Connection>
    requires forall k :: k in keys ==> k in m
    decreases |keys|
  {
    if keys == [] then [] else ValuesAt(m, keys[..|keys| - 1]) + [m[keys[|keys| - 1]]]
  }

  /** `order` lists every key of `keys` exactly once. */
  predicate IsEnumeration(order: seq<string>, keys: set<string>)
  {
    && |order| == |keys|
    && (forall k :: k in order ==> k in keys)
    && (forall k :: k in keys ==> k in order)
    && (forall i, j :: 0 <= i < j < |order| ==> order[i] != order[j])
  }

  /** A network device as listed by the capture library. */
  datatype Device = Device(Name: string, Addresses: seq<string>)

  predicate Qualifies(d: Device)
  {
    |d.Addresses| > 0 && d.Name != "lo" && d.Name != "lo0"
  }

  /** The name auto-selection picks: the first qualifying device's, or "". */
  function AutoSelect(devices: seq<Device>): (name: string)
    ensures name == "" || exists i :: 0 <= i < |devices| && Qualifies(devices[i]) && name == devices[i].Name
    decreases |devices|
  {
    if devices == [] then ""
    else if Qualifies(devices[0]) then devices[0].Name
    else AutoSelect(devices[1..])
  }

  lemma {:induction false} AutoSelectFirst(devices: seq<Device>)
    ensures (forall i :: 0 <= i < |devices| ==> !Qualifies(devices[i])) ==> AutoSelect(devices) == ""
    ensures forall i :: 0 <= i < |devices| && Qualifies(devices[i]) && (forall j :: 0 <= j < i ==> !Qualifies(devices[j])) ==>
              AutoSelect(devices) == devices[i].Name
    decreases |devices|
  {
    if devices != [] {
      AutoSelectFirst(devices[1..]);
      assert forall i :: 0 < i < |devices| ==> devices[i] == devices[1..][i - 1];
    }
  }

  /** Device auto-selection (capture.go:26-41): the first device that has an
      address and is not named "lo" or "lo0"; "" when none qualifies. */
  method SelectDevice(devices: seq<Device>) returns (iface: string)
    ensures iface == AutoSelect(devices)
  {
    iface := "";
    var i := 0;
    while i < |devices|
      invariant 0 <= i <= |devices|
      invariant iface == ""
      invariant AutoSelect(devices) == AutoSelect(devices[i..])
    {
      assert devices[i..][1..] == devices[i + 1..];
      if |devices[i].Addresses| > 0 && devices[i].Name != "lo" && devices[i].Name != "lo0" {
        iface := devices[i].Name;
        break;
      }
      i := i + 1;
    }
  }

  /** Why a capture could not be created (capture.go:28-32, 44-46). */
  datatype CaptureError = FindDevicesFailed | NoDevices | OpenFailed(iface: string)

  /** The interface a capture is opened on: the given one, or the
      auto-selected one when the given name is empty. */
  function ChosenInterface(iface: string, found: Option<seq<Device>>): string
  {
    if iface == "" && found.Some? then AutoSelect(found.value) else iface
  }

  /** The outcome of NewPacketCapture. `found` is the device listing (None
      when listing fails; consulted only for an empty name); `openable` is
      the set of names the capture library opens successfully. */
  function CaptureOutcome(iface: string, found: Option<seq<Device>>, openable: set<string>): Option<CaptureError>
  {
    if iface == "" && found.None? then Some(FindDevicesFailed)
    else if iface == "" && found.value == [] then Some(NoDevices)
    else if ChosenInterface(iface, found) in openable then None
    else Some(OpenFailed(ChosenInterface(iface, found)))
  }

  class PacketCapture {
    const iface: string
    var handleOpen: bool

    constructor (iface: string)
      ensures this.iface == iface && handleOpen
    {
      this.iface := iface;
      handleOpen := true;
    }

    /** Releases the capture handle; closing twice is harmless. */
    method Close()
      modifies this
      ensures !handleOpen
    {
      if handleOpen {
        handleOpen := false;
      }
    }

    /** Counts one packet into the accumulators (capture.go:87-169). */
    method ProcessPacket(packet: Packet, now: Time, tally: Tally)
      requires Addressable(packet)
      modifies tally
      ensures tally.State() == CountPacket(old(tally.State()), packet, now)
    {
      if packet.Network.None? {
        return;
      }
      var srcIP, dstIP;
      match packet.Network.value {
        case IPv4(s, d) =>
          srcIP, dstIP := s, d;
        case IPv6(s, d) =>
          srcIP, dstIP := s, d;
        case OtherNetwork =>
          return;
      }
      var isIncoming := IsLocalIP(dstIP);
      var packetLen := packet.Length;

      if isIncoming {
        tally.stats := tally.stats.(InBytes := tally.stats.InBytes + packetLen);
        tally.stats := tally.stats.(InBytesPerSec := tally.stats.InBytesPerSec + packetLen);
        tally.stats := tally.stats.(InPackets := tally.stats.InPackets + 1);
        tally.stats := tally.stats.(InPacketsPerSec := tally.stats.InPacketsPerSec + 1);
      } else {
        tally.stats := tally.stats.(OutBytes := tally.stats.OutBytes + packetLen);
        tally.stats := tally.stats.(OutBytesPerSec := tally.stats.OutBytesPerSec + packetLen);
        tally.stats := tally.stats.(OutPackets := tally.stats.OutPackets + 1);
        tally.stats := tally.stats.(OutPacketsPerSec := tally.stats.OutPacketsPerSec + 1);
      }

      ghost var after := CountPacket(old(tally.State()), packet, now);
      assert tally.stats == after.Stats;
      if packet.Transport.None? {
        return;
      }
      var srcPort: Port, dstPort: Port, protocol: string;
      match packet.Transport.value {
        case TCP(s, d) =>
          srcPort, dstPort, protocol := s, d, "TCP";
        case UDP(s, d) =>
          srcPort, dstPort, protocol := s, d, "UDP";
        case OtherTransport =>
          return;
      }

      var connKey := SessionKey(srcIP, srcPort, dstIP, dstPort, protocol);
      var conn: Connection;
      if connKey in tally.connections {
        conn := tally.connections[connKey];
      } else {
        conn := Connection(srcIP, srcPort, dstIP, dstPort, protocol, 0, 0, 0, now, 0);
      }
      conn := conn.(Bytes := conn.Bytes + packetLen);
      conn := conn.(BytesPerSec := packetLen);
      conn := conn.(Packets := conn.Packets + 1);
      conn := conn.(LastSeen := now);
      assert connKey == PacketKey(packet);
      assert conn == after.Connections[connKey];
      tally.connections := tally.connections[connKey := conn];
      assert tally.connections == after.Connections;
    }

    /** The tick branch (capture.go:72-83): the interface counters, then
        every tracked connection in map iteration order (`order`), go to the
        store; then the per-second counters are zeroed. */
    method Flush(tally: Tally, storage: MemoryStore.MemoryStorage) returns (ghost order: seq<string>)
      requires storage.Valid()
      modifies tally, storage
      ensures storage.Valid()
      ensures storage.interfaces == old(storage.interfaces)[old(tally.stats).Interface := old(tally.stats)]
      ensures IsEnumeration(order, old(tally.connections).Keys)
      ensures storage.connections == MemoryStore.UpsertAll(old(storage.connections), ValuesAt(old(tally.connections), order))
      ensures storage.snapshots == old(storage.snapshots) && storage.history == old(storage.history)
      ensures tally.connections == old(tally.connections)
      ensures tally.stats == ResetPerSecond(old(tally.stats))
    {
      storage.UpdateInterface(tally.stats);
      var todo := tally.connections.Keys;
      order := [];
      while todo != {}
        invariant todo <= tally.connections.Keys
        invariant forall k :: k in order <==> k in tally.connections && k !in todo
        invariant forall i, j :: 0 <= i < j < |order| ==> order[i] != order[j]
        invariant |order| + |todo| == |tally.connections.Keys|
        invariant storage.Valid()
        invariant storage.connections == MemoryStore.UpsertAll(old(storage.connections), ValuesAt(tally.connections, order))
        invariant storage.interfaces == old(storage.interfaces)[old(tally.stats).Interface := old(tally.stats)]
        invariant storage.snapshots == old(storage.snapshots) && storage.history == old(storage.history)
        invariant tally.State() == old(tally.State())
        decreases |todo|
      {
        var k :| k in todo;
        var vs := ValuesAt(tally.connections, order);
        storage.UpdateConnection(tally.connections[k]);
        order := order + [k];
        assert ValuesAt(tally.connections, order) == vs + [tally.connections[k]];
        assert (vs + [tally.connections[k]])[..|vs|] == vs;
        todo := todo - {k};
      }
      tally.stats := tally.stats.(InBytesPerSec := 0);
      tally.stats := tally.stats.(OutBytesPerSec := 0);
      tally.stats := tally.stats.(InPacketsPerSec := 0);
      tally.stats := tally.stats.(OutPacketsPerSec := 0);
    }

    /** The session loop (capture.go:54-85) over a finite list of events. It
        stops at the first cancellation and returns no error; `consumed` is
        how many events it handled and `final` its accumulators. */
    method Start(storage: MemoryStore.MemoryStorage, events: seq<Event>)
      returns (err: Option<string>, ghost consumed: nat, ghost final: TallyState)
      requires storage.Valid()
      requires Deliverable(events)
      modifies storage
      ensures storage.Valid()
      ensures err == None
      ensures consumed == FirstCancel(events)
      ensures final == Replay(InitialTally(iface), events[..consumed])
      ensures storage.snapshots == old(storage.snapshots)
      ensures (forall i :: 0 <= i < consumed ==> !events[i].Ticked?) ==>
        storage.connections == old(storage.connections) && storage.interfaces == old(storage.interfaces)
    {
      var tally := new Tally(iface);
      var i := 0;
      while i < |events|
        invariant 0 <= i <= |events|
        invariant forall j :: 0 <= j < i ==> !events[j].Cancelled?
        invariant tally.State() == Replay(InitialTally(iface), events[..i])
        invariant storage.Valid() && storage.snapshots == old(storage.snapshots)
        invariant (forall j :: 0 <= j < i ==> !events[j].Ticked?) ==>
          storage.connections == old(storage.connections) && storage.interfaces == old(storage.interfaces)
        decreases |events| - i
      {
        assert events[..i + 1][..i] == events[..i];
        match events[i] {
          case Cancelled =>
            consumed, final := i, tally.State();
            return None, consumed, final;
          case Arrived(packet, now) =>
            ProcessPacket(packet, now, tally);
          case Ticked =>
            var _ := Flush(tally, storage);
        }
        i := i + 1;
      }
      assert events[..i] == events;
      consumed, final := i, tally.State();
      err := None;
    }
  }

  /** Creates a capture (capture.go:24-52): an empty name means the first
      qualifying device, and opening the device may fail. */
  method NewPacketCapture(iface: string, found: Option<seq<Device>>, openable: set<string>)
    returns (pc: PacketCapture?, err: Option<CaptureError>)
    ensures err == CaptureOutcome(iface, found, openable)
    ensures err.None? <==> pc != null
    ensures pc != null ==> fresh(pc) && pc.handleOpen && pc.iface == ChosenInterface(iface, found)
  {
    var name := iface;
    if name == "" {
      if found.None? {
        return null, Some(FindDevicesFailed);
      }
      var devices := found.value;
      if |devices| == 0 {
        return null, Some(NoDevices);
      }
      name := SelectDevice(devices);
    }
    if name !in openable {
      return null, Some(OpenFailed(name));
    }
    pc := new PacketCapture(name);
    err := None;
  }

  /** An outgoing TCP packet of `len` bytes from src:40000 to dst:443. */
  function Outgoing(src: string, dst: string, len: nat): Packet
  {
    Packet(Some(IPv4(src, dst)), Some(TCP(40000, 443)), len)
  }

  /** Two outgoing packets of one conversation, 100 and 200 bytes long:
      one connection with 300 bytes, 2 packets, the last size as its rate,
      started at the first packet and last seen at the second; the
      interface counts 300 outgoing bytes in 2 packets. */
  lemma TwoPacketsCounted(iface: string, src: string, dst: string, now1: Time, now2: Time)
    requires |dst| >= 3 && !IsLocalIP(dst)
    ensures var st := CountPacket(CountPacket(InitialTally(iface), Outgoing(src, dst, 100), now1),
                                  Outgoing(src, dst, 200), now2);
      && st.Connections == map[SessionKey(src, 40000, dst, 443, "TCP") :=
                               Connection(src, 40000, dst, 443, "TCP", 300, 200, 2, now1, now2)]
      && st.Stats == InterfaceStats(iface, 0, 300, 0, 300, 0, 2, 0, 2)
  {
    var k := SessionKey(src, 40000, dst, 443, "TCP");
    var st1 := CountPacket(InitialTally(iface), Outgoing(src, dst, 100), now1);
    assert PacketKey(Outgoing(src, dst, 100)) == k == PacketKey(Outgoing(src, dst, 200));
    assert st1.Connections == map[k := Connection(src, 40000, dst, 443, "TCP", 100, 100, 1, now1, now1)];
  }

  /** A one-key table has only one enumeration. */
  lemma SingleEnumeration(k: string, order: seq<string>)
    requires IsEnumeration(order, {k})
    ensures order == [k]
  {
    assert order[0] in order;
  }

  /** Flushing a one-entry session table into an empty store stores that
      one connection under its store key. */
  lemma FlushSingle(k: string, conn: Connection, order: seq<string>)
    requires IsEnumeration(order, {k})
    ensures MemoryStore.UpsertAll(map[], ValuesAt(map[k := conn], order)) == map[MemoryStore.ConnectionKey(conn) := conn]
  {
    SingleEnumeration(k, order);
    var m := map[k := conn];
    assert [k][..0] == [];
    assert ValuesAt(m, [k]) == [conn];
    assert [conn][..0] == [];
    assert MemoryStore.UpsertAll(map[], [conn]) == MemoryStore.Upsert(map[], conn);
  }

  /** Two outgoing packets, then a tick, into an empty store: the store
      holds the one connection and the interface counters as they were at
      the tick. Under the source's aliasing the stored interface entry
      would instead read 0 per-second bytes once the tick has zeroed the
      session's counters. */
  method TwoPacketsThenTick(storage: MemoryStore.MemoryStorage, iface: string, src: string, dst: string,
                            now1: Time, now2: Time)
    requires storage.Valid() && storage.connections == map[]
    requires |dst| >= 3 && !IsLocalIP(dst)
    modifies storage
    ensures storage.connections ==
      map[MemoryStore.ConnectionKey(Connection(src, 40000, dst, 443, "TCP", 0, 0, 0, 0, 0)) :=
          Connection(src, 40000, dst, 443, "TCP", 300, 200, 2, now1, now2)]
    ensures iface in storage.interfaces
    ensures storage.interfaces[iface] == InterfaceStats(iface, 0, 300, 0, 300, 0, 2, 0, 2)
  {
    var pc := new PacketCapture(iface);
    var tally := new Tally(iface);
    pc.ProcessPacket(Outgoing(src, dst, 100), now1, tally);
    pc.ProcessPacket(Outgoing(src, dst, 200), now2, tally);
    TwoPacketsCounted(iface, src, dst, now1, now2);
    ghost var k := SessionKey(src, 40000, dst, 443, "TCP");
    ghost var conn := Connection(src, 40000, dst, 443, "TCP", 300, 200, 2, now1, now2);
    var order := pc.Flush(tally, storage);
    FlushSingle(k, conn, order);
    MemoryStore.KeyOfTuple(conn, Connection(src, 40000, dst, 443, "TCP", 0, 0, 0, 0, 0));
  }
}
