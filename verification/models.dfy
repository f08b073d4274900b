/**
  The traffic monitor's records (backend/internal/models/models.go) and the
  conversion of a stored snapshot into a historical data point, which the
  in-memory store and the hour-bucketed file store perform identically.
 */
module Models {

  datatype Option<+T> = None | Some(value: T)

  /** A wall-clock instant: integer nanoseconds since the Unix epoch. */
  type Time = int

  const Second: int := 1_000_000_000
  const Hour: int := 3600 * Second

  /** Go's uint16 port number. */
  type Port = p: int | 0 <= p < 0x1_0000

  /** One direction of a TCP/UDP conversation with its counters.
      Byte and packet counters are Go uint64; they are unbounded here. */
  datatype Connection = Connection(
    SrcIP: string,
    SrcPort: Port,
    DstIP: string,
    DstPort: Port,
    Protocol: string,
    Bytes: nat,
    BytesPerSec: nat,
    Packets: nat,
    StartTime: Time,
    LastSeen: Time)

  /** Cumulative and per-second counters of one network interface. */
  datatype InterfaceStats = InterfaceStats(
    Interface: string,
    InBytes: nat,
    OutBytes: nat,
    InBytesPerSec: nat,
    OutBytesPerSec: nat,
    InPackets: nat,
    OutPackets: nat,
    InPacketsPerSec: nat,
    OutPacketsPerSec: nat)

  /** A point-in-time view; `Interface` is the Go pointer, absent when nil. */
  datatype TrafficSnapshot = TrafficSnapshot(
    Timestamp: Time,
    Interface: Option<InterfaceStats>,
    Connections: seq<Connection>)

  /** A historical data point. Despite the field names, the values are the
      snapshot's per-second interface counters. */
  datatype HistoricalData = HistoricalData(
    Timestamp: Time,
    InBytes: nat,
    OutBytes: nat,
    InPackets: nat,
    OutPackets: nat)

  /** Filter criteria; "" and port 0 mean "no constraint". */
  datatype Filter = Filter(IP: string, Port: Port, Protocol: string)

  /** A snapshot contributes a point iff it is neither before `start` nor
      after `end` (both ends inclusive) and it carries interface stats. */
  predicate Yields(s: TrafficSnapshot, start: Time, end: Time)
  {
    !(s.Timestamp < start) && !(s.Timestamp > end) && s.Interface.Some?
  }

  function PointOf(s: TrafficSnapshot): HistoricalData
    requires s.Interface.Some?
  {
    var i := s.Interface.value;
    HistoricalData(s.Timestamp, i.InBytesPerSec, i.OutBytesPerSec, i.InPacketsPerSec, i.OutPacketsPerSec)
  }

  /** The points a list of snapshots yields for [start, end], in list order. */
  function Points(snaps: seq<TrafficSnapshot>, start: Time, end: Time): (r: seq<HistoricalData>)
    ensures |r| <= |snaps|
    ensures forall i :: 0 <= i < |r| ==> start <= r[i].Timestamp <= end
    decreases |snaps|
  {
    if snaps == [] then []
    else
      var last := snaps[|snaps| - 1];
      Points(snaps[..|snaps| - 1], start, end) + (if Yields(last, start, end) then [PointOf(last)] else [])
  }

  /** A point is produced exactly for the snapshots that qualify. */
  lemma {:induction false} PointsMember(snaps: seq<TrafficSnapshot>, start: Time, end: Time, p: HistoricalData)
    ensures p in Points(snaps, start, end) <==>
            exists i :: 0 <= i < |snaps| && Yields(snaps[i], start, end) && p == PointOf(snaps[i])
    decreases |snaps|
  {
    if snaps != [] {
      var init := snaps[..|snaps| - 1];
      PointsMember(init, start, end, p);
      assert forall i :: 0 <= i < |init| ==> init[i] == snaps[i];
      if p in Points(init, start, end) {
        var i :| 0 <= i < |init| && Yields(init[i], start, end) && p == PointOf(init[i]);
        assert Yields(snaps[i], start, end) && p == PointOf(snaps[i]);
      }
    }
  }

  /** Points preserve the stored order: the points of a concatenation are the
      concatenation of the points. */
  lemma {:induction false} PointsAppend(xs: seq<TrafficSnapshot>, ys: seq<TrafficSnapshot>, start: Time, end: Time)
    ensures Points(xs + ys, start, end) == Points(xs, start, end) + Points(ys, start, end)
    decreases |ys|
  {
    if ys == [] {
      assert xs + ys == xs;
    } else {
      var init := ys[..|ys| - 1];
      assert (xs + ys)[..|xs + ys| - 1] == xs + init;
      PointsAppend(xs, init, start, end);
    }
  }

  /** The points of a single qualifying snapshot. */
  lemma PointsSingle(s: TrafficSnapshot, start: Time, end: Time)
    ensures Points([s], start, end) == if Yields(s, start, end) then [PointOf(s)] else []
  {
    assert [s][..0] == [];
  }
}
