/**
  The hour-bucketed history store (backend/internal/storage/file.go). Each
  file holds the JSON array of the snapshots saved during one hour of local
  time; its name is the calendar rendering of that hour. Here the directory
  is a map from the local hour index (hours since the epoch on the local
  clock) to the file's content, and the local clock is a fixed offset from
  UTC, in nanoseconds.
 */
module FileStore {
  import opened Models

  /** One hourly file: a JSON array that decodes, or bytes that do not. */
  datatype Bucket = Parsed(snapshots: seq<TrafficSnapshot>) | Unparsable

  /** The local hour an instant falls in: the floor of local time over one hour. */
  function LocalHour(t: Time, zoneOffset: int): (h: int)
    ensures h * Hour <= t + zoneOffset < (h + 1) * Hour
  {
    (t + zoneOffset) / Hour
  }

  /** An hour index is determined by the instants it contains. */
  lemma HourUnique(x: int, h: int, k: int)
    requires h * Hour <= x < (h + 1) * Hour
    requires k * Hour <= x < (k + 1) * Hour
    ensures h == k
  {
  }

  /** What a read of bucket `h` yields: its snapshots, or nothing when the
      file is missing or does not decode. */
  function Stored(files: map<int, Bucket>, h: int): (r: seq<TrafficSnapshot>)
    ensures |r| > 0 ==> h in files && files[h].Parsed? && r == files[h].snapshots
  {
    if h in files && files[h].Parsed? then files[h].snapshots else []
  }

  /** The directory after a successful save of `s`. */
  function AfterSave(files: map<int, Bucket>, zoneOffset: int, s: TrafficSnapshot): (r: map<int, Bucket>)
    ensures r.Keys == files.Keys + {LocalHour(s.Timestamp, zoneOffset)}
  {
    var h := LocalHour(s.Timestamp, zoneOffset);
    files[h := Parsed(Stored(files, h) + [s])]
  }

  /** Saving appends to the snapshot's own hour and leaves every other file
      as it was; a file that did not decode is replaced by the new snapshot
      alone. */
  lemma SaveAppends(files: map<int, Bucket>, zoneOffset: int, s: TrafficSnapshot, h: int)
    ensures h in AfterSave(files, zoneOffset, s) <==> h in files || h == LocalHour(s.Timestamp, zoneOffset)
    ensures h == LocalHour(s.Timestamp, zoneOffset) ==>
      && AfterSave(files, zoneOffset, s)[h].Parsed?
      && Stored(AfterSave(files, zoneOffset, s), h) == Stored(files, h) + [s]
      && (h in files && files[h].Unparsable? ==> Stored(AfterSave(files, zoneOffset, s), h) == [s])
    ensures h != LocalHour(s.Timestamp, zoneOffset) && h in files ==> AfterSave(files, zoneOffset, s)[h] == files[h]
  {
  }

  /** A save never loses what a read of any hour returned before. */
  lemma SaveKeepsStored(files: map<int, Bucket>, zoneOffset: int, s: TrafficSnapshot, h: int)
    ensures Stored(files, h) <= Stored(AfterSave(files, zoneOffset, s), h)
  {
  }

  /** The points the query collects from hours lo..hi (UTC hour indices),
      in hour order and, within an hour, in file order. */
  function Gather(files: map<int, Bucket>, zoneOffset: int, lo: int, hi: int, start: Time, end: Time): (r: seq<HistoricalData>)
    ensures forall i :: 0 <= i < |r| ==> start <= r[i].Timestamp <= end
    decreases hi - lo + 1
  {
    if hi < lo then []
    else Gather(files, zoneOffset, lo, hi - 1, start, end)
         + Points(Stored(files, LocalHour(hi * Hour, zoneOffset)), start, end)
  }

  /** The UTC hour an instant falls in: the floor of the time over one hour
      (Truncate(time.Hour) on a UTC instant). */
  function UtcHour(t: Time): (h: int)
    ensures h * Hour <= t < (h + 1) * Hour
  {
    t / Hour
  }

  /** The first and last UTC hour the query visits: the hour of `start`
      and the hour after that of `end`. */
  function FirstQueryHour(start: Time): int
  {
    UtcHour(start)
  }

  function LastQueryHour(end: Time): (h: int)
    ensures h == FirstQueryHour(end) + 1
  {
    UtcHour(end + Hour)
  }

  /** A point is collected exactly when some visited hour's file yields it. */
  lemma {:induction false} GatherMember(files: map<int, Bucket>, zoneOffset: int, lo: int, hi: int,
                                        start: Time, end: Time, p: HistoricalData)
    ensures p in Gather(files, zoneOffset, lo, hi, start, end) <==>
      exists t :: lo <= t <= hi && p in Points(Stored(files, LocalHour(t * Hour, zoneOffset)), start, end)
    decreases hi - lo + 1
  {
    if hi >= lo {
      GatherMember(files, zoneOffset, lo, hi - 1, start, end, p);
      if p in Points(Stored(files, LocalHour(hi * Hour, zoneOffset)), start, end) {
        assert lo <= hi <= hi;
      }
    }
  }

  /** Points come out by ascending hour: the points of hours lo..hi are
      those of lo..m followed by those of m+1..hi. */
  lemma {:induction false} GatherSplit(files: map<int, Bucket>, zoneOffset: int, lo: int, m: int, hi: int,
                                       start: Time, end: Time)
    requires lo - 1 <= m <= hi
    ensures Gather(files, zoneOffset, lo, hi, start, end)
         == Gather(files, zoneOffset, lo, m, start, end) + Gather(files, zoneOffset, m + 1, hi, start, end)
    decreases hi - m
  {
    if hi == m {
      assert Gather(files, zoneOffset, m + 1, hi, start, end) == [];
    } else {
      GatherSplit(files, zoneOffset, lo, m, hi - 1, start, end);
    }
  }

  /** Distinct visited hours read distinct files, so no file is read twice. */
  lemma VisitedFilesDistinct(zoneOffset: int, t1: int, t2: int)
    requires t1 != t2
    ensures LocalHour(t1 * Hour, zoneOffset) != LocalHour(t2 * Hour, zoneOffset)
  {
    var q := LocalHour(0, zoneOffset);
    HourUnique(t1 * Hour + zoneOffset, LocalHour(t1 * Hour, zoneOffset), t1 + q);
    HourUnique(t2 * Hour + zoneOffset, LocalHour(t2 * Hour, zoneOffset), t2 + q);
  }

  /** The file a snapshot is saved to is among the files a query visits
      whenever the snapshot's time lies in [start, end]: it is the file of
      the snapshot's UTC hour or of the next one, which is why the query
      reads one hour past `end`. */
  lemma BucketVisited(zoneOffset: int, ts: Time, start: Time, end: Time) returns (t: int)
    requires start <= ts <= end
    ensures FirstQueryHour(start) <= t <= LastQueryHour(end)
    ensures LocalHour(t * Hour, zoneOffset) == LocalHour(ts, zoneOffset)
  {
    var h0 := UtcHour(ts);
    var a := LocalHour(h0 * Hour, zoneOffset);
    var b := LocalHour((h0 + 1) * Hour, zoneOffset);
    HourUnique((h0 + 1) * Hour + zoneOffset, b, a + 1);
    var q := LocalHour(ts, zoneOffset);
    if q == a {
      t := h0;
    } else {
      HourUnique(ts + zoneOffset, q, a + 1);
      t := h0 + 1;
    }
  }

  /** Round trip: once saved, a snapshot with interface stats whose time
      lies in [start, end] is reported by every later query for [start, end],
      whatever is saved in between. */
  lemma SavedThenFound(files: map<int, Bucket>, zoneOffset: int, s: TrafficSnapshot, start: Time, end: Time)
    requires s.Interface.Some? && start <= s.Timestamp <= end
    ensures PointOf(s) in Gather(AfterSave(files, zoneOffset, s), zoneOffset,
                                 FirstQueryHour(start), LastQueryHour(end), start, end)
  {
    var after := AfterSave(files, zoneOffset, s);
    var t := BucketVisited(zoneOffset, s.Timestamp, start, end);
    var h := LocalHour(s.Timestamp, zoneOffset);
    SaveAppends(files, zoneOffset, s, h);
    var snaps := Stored(after, h);
    assert snaps == Stored(files, h) + [s];
    assert snaps[|snaps| - 1] == s;
    PointsMember(snaps, start, end, PointOf(s));
    GatherMember(after, zoneOffset, FirstQueryHour(start), LastQueryHour(end), start, end, PointOf(s));
  }

  /** Further saves keep every point a query already reported. */
  lemma {:induction false} SaveKeepsPoints(files: map<int, Bucket>, zoneOffset: int, s: TrafficSnapshot,
                                           lo: int, hi: int, start: Time, end: Time, p: HistoricalData)
    requires p in Gather(files, zoneOffset, lo, hi, start, end)
    ensures p in Gather(AfterSave(files, zoneOffset, s), zoneOffset, lo, hi, start, end)
  {
    GatherMember(files, zoneOffset, lo, hi, start, end, p);
    var t :| lo <= t <= hi && p in Points(Stored(files, LocalHour(t * Hour, zoneOffset)), start, end);
    var h := LocalHour(t * Hour, zoneOffset);
    var after := AfterSave(files, zoneOffset, s);
    SaveKeepsStored(files, zoneOffset, s, h);
    var xs := Stored(files, h);
    var ys := Stored(after, h);
    assert ys == xs + ys[|xs|..];
    PointsAppend(xs, ys[|xs|..], start, end);
    GatherMember(after, zoneOffset, lo, hi, start, end, p);
  }

  class FileStorage {
    var files: map<int, Bucket>
    const zoneOffset: int

    /** NewFileStorage over an existing directory (file.go:20-37). */
    constructor (files: map<int, Bucket>, zoneOffset: int)
      ensures this.files == files && this.zoneOffset == zoneOffset
    {
      this.files := files;
      this.zoneOffset := zoneOffset;
    }

    /** Append `snapshot` to its local hour's file (file.go:39-68). A file
        that is missing or does not decode counts as empty. `writable`
        says whether the file can be written; when not, the error is
        returned and the directory is unchanged. */
    method SaveSnapshot(snapshot: TrafficSnapshot, writable: bool) returns (err: Option<string>)
      modifies this
      ensures err.None? <==> writable
      ensures files == if writable then AfterSave(old(files), zoneOffset, snapshot) else old(files)
    {
      var h := LocalHour(snapshot.Timestamp, zoneOffset);
      var snapshots: seq<TrafficSnapshot> := [];
      if h in files {
        match files[h] {
          case Parsed(stored) => snapshots := stored;
          case Unparsable =>
        }
      }
      snapshots := snapshots + [snapshot];
      if !writable {
        return Some("write failed");
      }
      files := files[h := Parsed(snapshots)];
      return None;
    }

    /** The points one hour's file contributes (file.go:83-117): none when
        the file is missing or does not decode, else those of its snapshots
        in [start, end] that carry interface stats, in file order. */
    method ReadHour(h: int, start: Time, end: Time) returns (points: seq<HistoricalData>)
      ensures points == Points(Stored(files, h), start, end)
    {
      points := [];
      if h !in files || files[h].Unparsable? {
        return;
      }
      var snapshots := files[h].snapshots;
      var j := 0;
      while j < |snapshots|
        invariant 0 <= j <= |snapshots|
        invariant points == Points(snapshots[..j], start, end)
      {
        var snapshot := snapshots[j];
        assert snapshots[..j + 1][..j] == snapshots[..j];
        if snapshot.Timestamp < start || snapshot.Timestamp > end {
          j := j + 1;
          continue;
        }
        if snapshot.Interface.Some? {
          points := points + [PointOf(snapshot)];
        }
        j := j + 1;
      }
      assert snapshots[..j] == snapshots;
    }

    /** The points of every snapshot in [start, end] with interface stats,
        read from the files of the hours from that of `start` to the one
        after that of `end` (file.go:70-122). */
    method GetHistoricalData(start: Time, end: Time) returns (result: seq<HistoricalData>, err: Option<string>)
      ensures err == None
      ensures result == Gather(files, zoneOffset, FirstQueryHour(start), LastQueryHour(end), start, end)
    {
      result := [];
      var startHour := FirstQueryHour(start);
      var endHour := LastQueryHour(end);
      var t := startHour;
      while t <= endHour
        invariant startHour <= t <= endHour + 1 || t == startHour > endHour
        invariant result == Gather(files, zoneOffset, startHour, t - 1, start, end)
        decreases endHour - t + 1
      {
        var points := ReadHour(LocalHour(t * Hour, zoneOffset), start, end);
        result := result + points;
        t := t + 1;
      }
      err := None;
    }
  }
}
