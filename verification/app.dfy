/**
  The request handlers of the device server over in-memory tables: the
  device sync cycle, command enqueue, and the viewer connect and
  disconnect events. The device list is DeviceStatus.ListDevices.
 */
module App {
  import opened Schema
  import opened Filtering
  import opened CommandQueue
  import opened Viewers
  import opened DeviceStatus

  /** The device identity a sync is stored under when its body names none. */
  const UnknownMac: string := "unknown"

  /** The prefix of a server-made batch id; the rest is the clock as YYYYMMDDHHMMSS. */
  const BatchPrefix: string := "batch_"

  /** The interval, in milliseconds, a sync response tells the device to wait. */
  const NextIntervalMs: int := 1000

  /** The body of a sync request; an absent key is None. */
  datatype SyncRequest = SyncRequest(deviceMac: Option<string>, batchId: Option<string>, targets: Option<seq<RawTarget>>)

  /** The JSON answer to a sync: code, next_interval, server_time and pending_cmd. */
  datatype SyncResponse = SyncResponse(code: int, nextInterval: int, serverTime: int, pendingCmd: Option<PendingCmdData>)

  /** The radar_data message pushed to the viewers of a device; `timestamp` in milliseconds. */
  datatype RadarData = RadarData(deviceMac: string, targets: seq<RawTarget>, timestamp: int)

  /** The answer to a command request: 200 with the new id, or 400. */
  datatype CommandResponse = Queued(commandId: nat) | BadRequest(error: CommandError)

  /** The whole seconds of a millisecond clock, truncated toward zero like Python's int(). */
  function ServerTime(nowMs: int): (s: int)
    ensures 0 <= nowMs ==> 0 <= s * 1000 <= nowMs < s * 1000 + 1000
    ensures nowMs < 0 ==> s * 1000 - 1000 < nowMs <= s * 1000 <= 0
  {
    if nowMs >= 0 then nowMs / 1000 else -((-nowMs) / 1000)
  }

  /**
    Two commands enqueued 1600 ms and 1700 ms into the clock are stored with
    the same creation time, so the device's next sync may hand out either.
   */
  lemma SameSecondCommandsTie(mac: string, kind: string, payload: Json, id1: nat, id2: nat)
    ensures var cmds := [Command(id1, mac, kind, payload, Pending, WholeSecondMs(1600)),
                         Command(id2, mac, kind, payload, Pending, WholeSecondMs(1700))];
      IsEarliestPending(cmds, mac, 0) && IsEarliestPending(cmds, mac, 1)
  {
    assert WholeSecondMs(1600) == WholeSecondMs(1700) == 2000;
  }

  /**
    The invariant of the tables: command ids are distinct and below the
    next id to hand out, and no viewer count is negative.
   */
  predicate WellFormed(commands: seq<Command>, shadows: map<string, Shadow>, nextCommandId: nat) {
    && (forall i :: 0 <= i < |commands| ==> commands[i].id < nextCommandId)
    && (forall i, j :: 0 <= i < j < |commands| ==> commands[i].id != commands[j].id)
    && ViewersNonNegative(shadows)
  }

  class Server {
    var logs: seq<TrackingLog>
    var commands: seq<Command>
    var shadows: map<string, Shadow>
    var nextCommandId: nat

    ghost predicate Valid()
      reads this
    {
      WellFormed(commands, shadows, nextCommandId)
    }

    constructor (logs0: seq<TrackingLog>, commands0: seq<Command>, shadows0: map<string, Shadow>, nextCommandId0: nat)
      requires WellFormed(commands0, shadows0, nextCommandId0)
      ensures Valid()
      ensures logs == logs0 && commands == commands0 && shadows == shadows0 && nextCommandId == nextCommandId0
    {
      logs, commands, shadows, nextCommandId := logs0, commands0, shadows0, nextCommandId0;
    }

    /**
      A device check-in. The batch's non-sentinel targets are appended to
      the logs, the device's earliest pending command (if any) becomes SENT
      and is returned, and the unfiltered targets are broadcast. `stamp` is
      the clock rendered as YYYYMMDDHHMMSS. The shadows, heartbeat included,
      are not touched.
     */
    method DeviceSync(req: SyncRequest, now: int, stamp: string) returns (resp: SyncResponse, msg: RadarData)
      requires Valid()
      modifies this
      ensures Valid()
      ensures logs == old(logs) + BatchLogs(req.targets.GetOr([]), req.deviceMac.GetOr(UnknownMac), req.batchId.GetOr(BatchPrefix + stamp), now)
      ensures |logs| - |old(logs)| + SentinelCount(req.targets.GetOr([])) == |req.targets.GetOr([])|
      ensures req.targets.None? ==> logs == old(logs)
      ensures forall j :: |old(logs)| <= j < |logs| ==>
        logs[j].deviceMac == req.deviceMac.GetOr(UnknownMac) && logs[j].createdAt == now
      ensures Dequeued(old(commands), commands, req.deviceMac.GetOr(UnknownMac), resp.pendingCmd)
      ensures shadows == old(shadows) && nextCommandId == old(nextCommandId)
      ensures resp == SyncResponse(200, NextIntervalMs, ServerTime(now), resp.pendingCmd)
      ensures msg == RadarData(req.deviceMac.GetOr(UnknownMac), req.targets.GetOr([]), now)
    {
      var targets := req.targets.GetOr([]);
      var batchId := req.batchId.GetOr(BatchPrefix + stamp);
      var mac := req.deviceMac.GetOr(UnknownMac);
      var filteredCount := 0;
      var i := 0;
      while i < |targets|
        invariant 0 <= i <= |targets|
        invariant logs == old(logs) + BatchLogs(targets[..i], mac, batchId, now)
        invariant filteredCount == SentinelCount(targets[..i])
        invariant commands == old(commands) && shadows == old(shadows) && nextCommandId == old(nextCommandId)
      {
        var t := targets[i];
        assert targets[..i + 1][..i] == targets[..i];
        if IsSentinel(t) {
          filteredCount := filteredCount + 1;
        } else {
          logs := logs + [LogOf(t, i + 1, mac, batchId, now)];
        }
        i := i + 1;
      }
      assert targets[..i] == targets;
      BatchLogsAccount(targets, mac, batchId, now);
      BatchLogsSound(targets, mac, batchId, now);

      var k := FindEarliestPending(commands, mac);
      var pendingCmd: Option<PendingCmdData> := None;
      if k.Some? {
        pendingCmd := Some(Handout(commands[k.value]));
        commands := MarkSent(commands, k.value);
      }

      msg := RadarData(mac, targets, now);
      resp := SyncResponse(200, NextIntervalMs, ServerTime(now), pendingCmd);
    }

    /**
      A command request. An invalid one is answered 400 and changes nothing;
      a valid one appends one PENDING command under a fresh id, its payload
      defaulting to the empty object and its creation time kept to the
      whole second. A JSON null payload is passed as Some(JNull) and kept;
      only an absent one (None) defaults.
     */
    method DeviceCommand(mac: Option<string>, commandType: Option<string>, payload: Option<Json>, now: int)
      returns (resp: CommandResponse)
      requires Valid()
      modifies this
      ensures Valid()
      ensures logs == old(logs) && shadows == old(shadows)
      ensures resp.BadRequest? <==> ValidateCommand(mac, commandType).Rejected?
      ensures resp.BadRequest? ==>
        resp.error == ValidateCommand(mac, commandType).error &&
        commands == old(commands) && nextCommandId == old(nextCommandId)
      ensures resp.Queued? ==>
        && commands == old(commands) + [Command(resp.commandId, mac.value, commandType.value, payload.GetOr(EmptyPayload), Pending, WholeSecondMs(now))]
        && (forall j :: 0 <= j < |old(commands)| ==> old(commands)[j].id != resp.commandId)
    {
      var checked := ValidateCommand(mac, commandType);
      if checked.Rejected? {
        resp := BadRequest(checked.error);
        return;
      }
      var id := nextCommandId;
      commands := commands + [Command(id, checked.mac, checked.commandType, payload.GetOr(EmptyPayload), Pending, WholeSecondMs(now))];
      nextCommandId := nextCommandId + 1;
      resp := Queued(id);
    }

    /** A viewer joins the stream of device `mac`: the in-place form of Viewers.AfterConnect. */
    method HandleConnect(mac: Option<string>)
      requires Valid()
      modifies this
      ensures Valid()
      ensures shadows == AfterConnect(old(shadows), mac)
      ensures logs == old(logs) && commands == old(commands) && nextCommandId == old(nextCommandId)
    {
      ConnectDisconnectKeepCounts(shadows, mac);
      if Named(mac) && mac.value in shadows {
        var s := shadows[mac.value];
        shadows := shadows[mac.value := s.(activeViewers := Some(s.activeViewers.GetOr(0) + 1))];
      }
    }

    /** A viewer leaves the stream of device `mac`: the in-place form of Viewers.AfterDisconnect. */
    method HandleDisconnect(mac: Option<string>)
      requires Valid()
      modifies this
      ensures Valid()
      ensures shadows == AfterDisconnect(old(shadows), mac)
      ensures logs == old(logs) && commands == old(commands) && nextCommandId == old(nextCommandId)
    {
      ConnectDisconnectKeepCounts(shadows, mac);
      if Named(mac) && mac.value in shadows {
        var s := shadows[mac.value];
        if s.activeViewers.Some? && s.activeViewers.value > 0 {
          shadows := shadows[mac.value := s.(activeViewers := Some(s.activeViewers.value - 1))];
        }
      }
    }
  }
}
