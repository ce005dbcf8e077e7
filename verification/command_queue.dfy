/**
  The command queue: validation of a new command, and the selection and
  hand-out of a device's oldest pending command when it syncs.
 */
module CommandQueue {
  import opened Schema

  /** The closed set of command types a command request may name. */
  const ValidCommandTypes: seq<string> := ["REBOOT", "SET_MODE", "SET_ZONE"]

  /** A command payload defaults to the empty JSON object. */
  const EmptyPayload: Json := JObject(map[])

  datatype CommandKind = Reboot | SetMode | SetZone

  function KindName(k: CommandKind): string {
    match k
    case Reboot => "REBOOT"
    case SetMode => "SET_MODE"
    case SetZone => "SET_ZONE"
  }

  /** The command kind a command_type string names, if it names one. */
  function ParseKind(s: string): (r: Option<CommandKind>)
    ensures r.Some? <==> s in ValidCommandTypes
    ensures r.Some? ==> KindName(r.value) == s
    ensures forall k :: KindName(k) == s ==> r == Some(k)
  {
    if s == "REBOOT" then Some(Reboot)
    else if s == "SET_MODE" then Some(SetMode)
    else if s == "SET_ZONE" then Some(SetZone)
    else None
  }

  datatype CommandError = MissingField | InvalidCommandType

  datatype Checked = Accepted(mac: string, commandType: string) | Rejected(error: CommandError)

  /**
    The checks of a command request, in the handler's order: a missing or
    empty MAC or type first, then a type outside the closed set.
   */
  function ValidateCommand(mac: Option<string>, commandType: Option<string>): (r: Checked)
    ensures r.Accepted? <==>
      mac.Some? && mac.value != "" && commandType.Some? && commandType.value in ValidCommandTypes
    ensures r.Accepted? ==> r.mac == mac.value && r.commandType == commandType.value
    ensures r == Rejected(MissingField) <==>
      mac.None? || mac.value == "" || commandType.None? || commandType.value == ""
  {
    if mac.None? || mac.value == "" || commandType.None? || commandType.value == "" then
      Rejected(MissingField)
    else if ParseKind(commandType.value).None? then
      Rejected(InvalidCommandType)
    else
      Accepted(mac.value, commandType.value)
  }

  /** The pending_cmd object of a sync response. */
  datatype PendingCmdData = PendingCmdData(commandType: string, payload: Json, commandId: nat)

  function Handout(c: Command): PendingCmdData {
    PendingCmdData(c.commandType, c.payload, c.id)
  }

  predicate IsPendingFor(c: Command, mac: string) {
    c.deviceMac == mac && c.status == Pending
  }

  predicate HasPending(cmds: seq<Command>, mac: string) {
    exists i :: 0 <= i < |cmds| && IsPendingFor(cmds[i], mac)
  }

  /** Command k is a pending command of `mac` whose created_at no other pending command of `mac` undercuts. */
  predicate IsEarliestPending(cmds: seq<Command>, mac: string, k: int) {
    && 0 <= k < |cmds|
    && IsPendingFor(cmds[k], mac)
    && forall j :: 0 <= j < |cmds| && IsPendingFor(cmds[j], mac) ==> cmds[k].createdAt <= cmds[j].createdAt
  }

  /** The number of pending commands of `mac`. */
  function PendingCount(cmds: seq<Command>, mac: string): nat
    decreases |cmds|
  {
    if cmds == [] then 0
    else (if IsPendingFor(cmds[0], mac) then 1 else 0) + PendingCount(cmds[1..], mac)
  }

  /**
    The query for the device's first pending command by created_at. The
    query orders by created_at only, so among equal timestamps it promises
    no particular one.
   */
  method FindEarliestPending(cmds: seq<Command>, mac: string) returns (k: Option<nat>)
    ensures k.None? <==> !HasPending(cmds, mac)
    ensures k.Some? ==> IsEarliestPending(cmds, mac, k.value)
  {
    k := None;
    var i := 0;
    while i < |cmds|
      invariant 0 <= i <= |cmds|
      invariant k.None? ==> forall j :: 0 <= j < i ==> !IsPendingFor(cmds[j], mac)
      invariant k.Some? ==> k.value < i && IsPendingFor(cmds[k.value], mac)
      invariant k.Some? ==>
        forall j :: 0 <= j < i && IsPendingFor(cmds[j], mac) ==> cmds[k.value].createdAt <= cmds[j].createdAt
    {
      if IsPendingFor(cmds[i], mac) && (k.None? || cmds[i].createdAt < cmds[k.value].createdAt) {
        k := Some(i);
      }
      i := i + 1;
    }
  }

  /** The queue after command k has been handed out. */
  function MarkSent(cmds: seq<Command>, k: nat): seq<Command>
    requires k < |cmds|
  {
    cmds[k := cmds[k].(status := Sent)]
  }

  /**
    The dequeue step of a sync for `mac`: when the device has a pending
    command, one with the earliest created_at becomes SENT and is handed
    out; otherwise nothing is handed out and the queue stays as it was.
   */
  ghost predicate Dequeued(before: seq<Command>, after: seq<Command>, mac: string, picked: Option<PendingCmdData>) {
    if HasPending(before, mac) then
      exists k :: IsEarliestPending(before, mac, k) && after == MarkSent(before, k) && picked == Some(Handout(before[k]))
    else
      after == before && picked == None
  }

  /**
    A dequeue changes at most one command, and only by moving a pending
    command of the syncing device to SENT; commands of other devices and
    commands already SENT or EXECUTED stay as they were.
   */
  lemma DequeueOnlySendsOnePending(before: seq<Command>, after: seq<Command>, mac: string, picked: Option<PendingCmdData>)
    requires Dequeued(before, after, mac, picked)
    ensures |after| == |before|
    ensures forall j :: 0 <= j < |before| ==>
      after[j] == before[j] || (IsPendingFor(before[j], mac) && after[j] == before[j].(status := Sent))
    ensures forall j1, j2 :: 0 <= j1 < |before| && 0 <= j2 < |before| && after[j1] != before[j1] && after[j2] != before[j2] ==> j1 == j2
    ensures picked.Some? <==> exists j :: 0 <= j < |before| && after[j] != before[j]
    ensures picked.Some? ==> exists j :: 0 <= j < |before| && after[j] != before[j] && picked.value == Handout(before[j])
  {
    if HasPending(before, mac) {
      var k :| IsEarliestPending(before, mac, k) && after == MarkSent(before, k) && picked == Some(Handout(before[k]));
      assert after[k] != before[k];
    }
  }

  /** The pending count of a device is positive exactly when it has a pending command. */
  lemma {:induction false} PendingCountPositive(cmds: seq<Command>, mac: string)
    ensures HasPending(cmds, mac) <==> PendingCount(cmds, mac) > 0
    decreases |cmds|
  {
    if cmds != [] {
      PendingCountPositive(cmds[1..], mac);
      if HasPending(cmds, mac) && !IsPendingFor(cmds[0], mac) {
        var i :| 0 <= i < |cmds| && IsPendingFor(cmds[i], mac);
        assert IsPendingFor(cmds[1..][i - 1], mac);
      }
      if HasPending(cmds[1..], mac) {
        var i :| 0 <= i < |cmds[1..]| && IsPendingFor(cmds[1..][i], mac);
        assert IsPendingFor(cmds[i + 1], mac);
      }
    }
  }

  /** Handing out a pending command of `mac` lowers its pending count by exactly one. */
  lemma {:induction false} MarkSentLowersPendingCount(cmds: seq<Command>, mac: string, k: nat)
    requires k < |cmds| && IsPendingFor(cmds[k], mac)
    ensures PendingCount(MarkSent(cmds, k), mac) == PendingCount(cmds, mac) - 1
    decreases k
  {
    if k == 0 {
      assert MarkSent(cmds, k)[1..] == cmds[1..];
    } else {
      assert MarkSent(cmds, k)[1..] == MarkSent(cmds[1..], k - 1);
      MarkSentLowersPendingCount(cmds[1..], mac, k - 1);
    }
  }

  /** Each sync takes exactly one command off the device's pending count, or none when there is none. */
  lemma DequeueLowersPendingCount(before: seq<Command>, after: seq<Command>, mac: string, picked: Option<PendingCmdData>)
    requires Dequeued(before, after, mac, picked)
    ensures picked.Some? <==> PendingCount(before, mac) > 0
    ensures PendingCount(after, mac) == if picked.Some? then PendingCount(before, mac) - 1 else PendingCount(before, mac)
  {
    PendingCountPositive(before, mac);
    if HasPending(before, mac) {
      var k :| IsEarliestPending(before, mac, k) && after == MarkSent(before, k) && picked == Some(Handout(before[k]));
      MarkSentLowersPendingCount(before, mac, k);
    }
  }

  /** With one queued command, the first sync receives it and the second receives nothing. */
  lemma SecondSyncGetsNothing(
    before: seq<Command>, mid: seq<Command>, after: seq<Command>, mac: string,
    first: Option<PendingCmdData>, second: Option<PendingCmdData>)
    requires PendingCount(before, mac) == 1
    requires Dequeued(before, mid, mac, first) && Dequeued(mid, after, mac, second)
    ensures first.Some? && second.None? && after == mid
  {
    DequeueLowersPendingCount(before, mid, mac, first);
    DequeueLowersPendingCount(mid, after, mac, second);
    PendingCountPositive(mid, mac);
  }

  /**
    A command enqueued for a device with nothing else pending is exactly
    what the device's next sync receives: its type, payload and id.
   */
  lemma EnqueuedThenDequeued(cmds: seq<Command>, c: Command, after: seq<Command>, picked: Option<PendingCmdData>)
    requires !HasPending(cmds, c.deviceMac) && c.status == Pending
    requires Dequeued(cmds + [c], after, c.deviceMac, picked)
    ensures picked == Some(PendingCmdData(c.commandType, c.payload, c.id))
    ensures after == cmds + [c.(status := Sent)]
  {
    var all := cmds + [c];
    assert IsPendingFor(all[|cmds|], c.deviceMac);
    var k :| IsEarliestPending(all, c.deviceMac, k) && after == MarkSent(all, k) && picked == Some(Handout(all[k]));
    assert forall j :: 0 <= j < |cmds| ==> all[j] == cmds[j];
    assert k == |cmds|;
  }
}
