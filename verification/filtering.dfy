/**
  The target filter of a device sync: which targets of a batch become
  tracking logs, and with which ordinal.
 */
module Filtering {
  import opened Schema

  /** One element of the `targets` array of a sync body; a field the device left out is None. */
  datatype RawTarget = RawTarget(x: Option<int>, y: Option<int>, speed: Option<int>, resolution: Option<int>)

  /** The value the handler reads for a target field: a missing field reads as 0. */
  function Field(v: Option<int>): int {
    v.GetOr(0)
  }

  /** The "no detection" sentinel: position, speed and resolution all read as 0. */
  predicate IsSentinel(t: RawTarget)
    ensures IsSentinel(t) <==>
      (t.x in {None, Some(0)} && t.y in {None, Some(0)} &&
       t.speed in {None, Some(0)} && t.resolution in {None, Some(0)})
  {
    Field(t.x) == 0 && Field(t.y) == 0 && Field(t.speed) == 0 && Field(t.resolution) == 0
  }

  /** The log row written for target `t` with ordinal `targetId`. */
  function LogOf(t: RawTarget, targetId: int, mac: string, batchId: string, now: int): TrackingLog {
    TrackingLog(mac, batchId, targetId, Field(t.x), Field(t.y), Field(t.speed), Field(t.resolution), now)
  }

  /**
    The logs one sync writes for `ts`, in input order: the target at
    0-based index i, unless it is a sentinel, gives the log with ordinal i + 1.
   */
  function BatchLogs(ts: seq<RawTarget>, mac: string, batchId: string, now: int): (r: seq<TrackingLog>)
    ensures |r| <= |ts|
    ensures forall j :: 0 <= j < |r| ==> r[j].deviceMac == mac && r[j].batchId == batchId && r[j].createdAt == now
    decreases |ts|
  {
    if ts == [] then []
    else
      var n := |ts|;
      BatchLogs(ts[..n - 1], mac, batchId, now)
        + (if IsSentinel(ts[n - 1]) then [] else [LogOf(ts[n - 1], n, mac, batchId, now)])
  }

  /** How many targets of `ts` are sentinels (the handler's filtered_count). */
  function SentinelCount(ts: seq<RawTarget>): nat
    decreases |ts|
  {
    if ts == [] then 0
    else SentinelCount(ts[..|ts| - 1]) + (if IsSentinel(ts[|ts| - 1]) then 1 else 0)
  }

  /** Every target is either stored or counted as filtered, never both. */
  lemma {:induction false} BatchLogsAccount(ts: seq<RawTarget>, mac: string, batchId: string, now: int)
    ensures |BatchLogs(ts, mac, batchId, now)| + SentinelCount(ts) == |ts|
    decreases |ts|
  {
    if ts != [] {
      BatchLogsAccount(ts[..|ts| - 1], mac, batchId, now);
    }
  }

  /**
    Every stored log comes from a non-sentinel target, carries that target's
    1-based input position as its ordinal, its fields (absent ones as 0) and
    the batch's shared MAC, batch id and time; ordinals strictly increase
    along the batch, so no target is stored twice.
   */
  lemma {:induction false} BatchLogsSound(ts: seq<RawTarget>, mac: string, batchId: string, now: int)
    ensures forall j :: 0 <= j < |BatchLogs(ts, mac, batchId, now)| ==>
      var log := BatchLogs(ts, mac, batchId, now)[j];
      && 1 <= log.targetId <= |ts|
      && !IsSentinel(ts[log.targetId - 1])
      && log == LogOf(ts[log.targetId - 1], log.targetId, mac, batchId, now)
      && log.deviceMac == mac && log.batchId == batchId && log.createdAt == now
    ensures forall j1, j2 :: 0 <= j1 < j2 < |BatchLogs(ts, mac, batchId, now)| ==>
      BatchLogs(ts, mac, batchId, now)[j1].targetId < BatchLogs(ts, mac, batchId, now)[j2].targetId
    decreases |ts|
  {
    if ts != [] {
      var n := |ts|;
      var front := ts[..n - 1];
      BatchLogsSound(front, mac, batchId, now);
      var logs := BatchLogs(front, mac, batchId, now);
      assert forall k :: 0 <= k < n - 1 ==> front[k] == ts[k];
      assert forall j :: 0 <= j < |logs| ==> logs[j].targetId < n;
    }
  }

  /** Every non-sentinel target is stored, under ordinal index + 1. */
  lemma {:induction false} BatchLogsComplete(ts: seq<RawTarget>, mac: string, batchId: string, now: int)
    ensures forall i :: 0 <= i < |ts| && !IsSentinel(ts[i]) ==>
      LogOf(ts[i], i + 1, mac, batchId, now) in BatchLogs(ts, mac, batchId, now)
    decreases |ts|
  {
    if ts != [] {
      var n := |ts|;
      var front := ts[..n - 1];
      BatchLogsComplete(front, mac, batchId, now);
      assert forall k :: 0 <= k < n - 1 ==> front[k] == ts[k];
    }
  }

  /** A sentinel followed by a real target stores only the second, with ordinal 2. */
  lemma SentinelThenTarget(mac: string, batchId: string, now: int)
    ensures BatchLogs([RawTarget(Some(0), Some(0), Some(0), Some(0)), RawTarget(Some(5), Some(3), Some(10), Some(1))],
                      mac, batchId, now)
         == [TrackingLog(mac, batchId, 2, 5, 3, 10, 1, now)]
  {
    var ts := [RawTarget(Some(0), Some(0), Some(0), Some(0)), RawTarget(Some(5), Some(3), Some(10), Some(1))];
    assert ts[..1][..0] == [];
  }
}
