/**
  The active-viewer counter of the device shadows, raised when a viewer
  connects to a device's live stream and lowered when it disconnects.
 */
module Viewers {
  import opened Schema

  /** The handlers act only on a `mac` query argument that is present and non-empty. */
  predicate Named(mac: Option<string>) {
    mac.Some? && mac.value != ""
  }

  /** A stored viewer count is absent (read as 0) or non-negative. */
  predicate CountOk(v: Option<int>) {
    v.None? || v.value >= 0
  }

  predicate ViewersNonNegative(shadows: map<string, Shadow>) {
    forall m :: m in shadows ==> CountOk(shadows[m].activeViewers)
  }

  /**
    The shadow table after a viewer connects: an existing shadow of the
    named device gets one more viewer, an absent count counting as 0; no
    shadow is created.
   */
  function AfterConnect(shadows: map<string, Shadow>, mac: Option<string>): (r: map<string, Shadow>)
    ensures r.Keys == shadows.Keys
    ensures forall m :: m in shadows && mac != Some(m) ==> r[m] == shadows[m]
    ensures Named(mac) && mac.value in shadows ==>
      r[mac.value].activeViewers == Some(shadows[mac.value].activeViewers.GetOr(0) + 1) &&
      r[mac.value] == shadows[mac.value].(activeViewers := r[mac.value].activeViewers)
    ensures !Named(mac) ==> r == shadows
  {
    if Named(mac) && mac.value in shadows then
      var s := shadows[mac.value];
      shadows[mac.value := s.(activeViewers := Some(s.activeViewers.GetOr(0) + 1))]
    else
      shadows
  }

  /**
    The shadow table after a viewer disconnects: the named device's count
    goes down by one only when it is present and positive; nothing else
    changes.
   */
  function AfterDisconnect(shadows: map<string, Shadow>, mac: Option<string>): (r: map<string, Shadow>)
    ensures r.Keys == shadows.Keys
    ensures forall m :: m in shadows && mac != Some(m) ==> r[m] == shadows[m]
    ensures Named(mac) && mac.value in shadows ==>
      var v := shadows[mac.value].activeViewers;
      r[mac.value] == shadows[mac.value].(activeViewers := if v.Some? && v.value > 0 then Some(v.value - 1) else v)
    ensures !Named(mac) ==> r == shadows
  {
    if Named(mac) && mac.value in shadows then
      var s := shadows[mac.value];
      if s.activeViewers.Some? && s.activeViewers.value > 0 then
        shadows[mac.value := s.(activeViewers := Some(s.activeViewers.value - 1))]
      else
        shadows
    else
      shadows
  }

  /** Neither event can make a viewer count negative; a connect leaves the device at one viewer or more. */
  lemma ConnectDisconnectKeepCounts(shadows: map<string, Shadow>, mac: Option<string>)
    requires ViewersNonNegative(shadows)
    ensures ViewersNonNegative(AfterConnect(shadows, mac))
    ensures ViewersNonNegative(AfterDisconnect(shadows, mac))
    ensures Named(mac) && mac.value in shadows ==> AfterConnect(shadows, mac)[mac.value].activeViewers.value >= 1
  {
  }

  /** A disconnect undoes the connect before it, for a device whose count is already present. */
  lemma DisconnectUndoesConnect(shadows: map<string, Shadow>, mac: Option<string>)
    requires Named(mac) && mac.value in shadows ==> shadows[mac.value].activeViewers.Some?
    requires ViewersNonNegative(shadows)
    ensures AfterDisconnect(AfterConnect(shadows, mac), mac) == shadows
  {
    if Named(mac) && mac.value in shadows {
      var once := AfterConnect(shadows, mac);
      assert AfterDisconnect(once, mac)[mac.value] == shadows[mac.value];
      assert AfterDisconnect(once, mac) == shadows;
    }
  }

  datatype ViewerEvent = Connect(mac: Option<string>) | Disconnect(mac: Option<string>)

  function Apply(shadows: map<string, Shadow>, e: ViewerEvent): map<string, Shadow> {
    match e
    case Connect(mac) => AfterConnect(shadows, mac)
    case Disconnect(mac) => AfterDisconnect(shadows, mac)
  }

  /** The shadow table after the events, in order. */
  function Replay(shadows: map<string, Shadow>, events: seq<ViewerEvent>): map<string, Shadow>
    decreases |events|
  {
    if events == [] then shadows else Replay(Apply(shadows, events[0]), events[1..])
  }

  /**
    No sequence of connects and disconnects, extra disconnects included,
    makes a viewer count negative or adds or removes a shadow.
   */
  lemma {:induction false} ReplayKeepsViewersNonNegative(shadows: map<string, Shadow>, events: seq<ViewerEvent>)
    requires ViewersNonNegative(shadows)
    ensures ViewersNonNegative(Replay(shadows, events))
    ensures Replay(shadows, events).Keys == shadows.Keys
    decreases |events|
  {
    if events != [] {
      ConnectDisconnectKeepCounts(shadows, events[0].mac);
      ReplayKeepsViewersNonNegative(Apply(shadows, events[0]), events[1..]);
    }
  }
}
