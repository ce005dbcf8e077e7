/** The online status derived from a shadow's last heartbeat, and the device list entry. */
module DeviceStatus {
  import opened Schema

  /** A device counts as online for 300 seconds after its last heartbeat. */
  const OnlineWindowMs: int := 300 * 1000

  /** Online: a heartbeat is recorded and less than 300 s (strictly) have passed since it. */
  predicate IsOnline(lastHeartbeat: Option<int>, now: int) {
    lastHeartbeat.Some? && now - lastHeartbeat.value < OnlineWindowMs
  }

  /** Exactly 300 s after the heartbeat the device is offline; 299.999 s after it, online. */
  lemma OnlineBoundary(heartbeat: int)
    ensures !IsOnline(Some(heartbeat), heartbeat + 300000)
    ensures IsOnline(Some(heartbeat), heartbeat + 299999)
    ensures forall now :: !IsOnline(None, now)
  {
  }

  /** Once offline, a device stays offline until a new heartbeat. */
  lemma OfflineStaysOffline(lastHeartbeat: Option<int>, now: int, later: int)
    requires now <= later && !IsOnline(lastHeartbeat, now)
    ensures !IsOnline(lastHeartbeat, later)
  {
  }

  /** One entry of the device list. */
  datatype DeviceView = DeviceView(
    deviceMac: string,
    onlineStatus: bool,
    firmwareVer: string,
    lastHeartbeat: Option<int>,
    activeViewers: Option<int>)

  /** The list entry of the device `mac`. */
  function ViewOf(mac: string, s: Shadow, now: int): DeviceView {
    DeviceView(
      mac,
      IsOnline(s.lastHeartbeat, now),
      if s.firmwareVer.Some? && s.firmwareVer.value != "" then s.firmwareVer.value else "unknown",
      s.lastHeartbeat,
      s.activeViewers)
  }

  /**
    A list entry reports the shadow's heartbeat and viewer count as stored,
    its online status as above, and its firmware version, with a missing or
    empty one shown as "unknown".
   */
  lemma ViewOfReports(mac: string, s: Shadow, now: int)
    ensures var v := ViewOf(mac, s, now);
      && v.deviceMac == mac && v.lastHeartbeat == s.lastHeartbeat && v.activeViewers == s.activeViewers
      && (v.onlineStatus <==> s.lastHeartbeat.Some? && now - s.lastHeartbeat.value < 300000)
      && (v.firmwareVer == "unknown" <==> s.firmwareVer in {None, Some(""), Some("unknown")})
      && (v.firmwareVer != "unknown" ==> s.firmwareVer == Some(v.firmwareVer))
  {
  }

  /** The devices a list of entries covers. */
  function ListedMacs(views: seq<DeviceView>): set<string> {
    set i | 0 <= i < |views| :: views[i].deviceMac
  }

  lemma ListedMacsAppend(views: seq<DeviceView>, v: DeviceView)
    ensures ListedMacs(views + [v]) == ListedMacs(views) + {v.deviceMac}
  {
    var longer := views + [v];
    forall m | m in ListedMacs(longer) ensures m in ListedMacs(views) + {v.deviceMac} {
      var i :| 0 <= i < |longer| && longer[i].deviceMac == m;
      if i < |views| {
        assert views[i].deviceMac == m;
      }
    }
    forall m | m in ListedMacs(views) + {v.deviceMac} ensures m in ListedMacs(longer) {
      if m == v.deviceMac {
        assert longer[|views|].deviceMac == m;
      } else {
        var i :| 0 <= i < |views| && views[i].deviceMac == m;
        assert longer[i].deviceMac == m;
      }
    }
  }

  /** `v` is the list entry, at time `now`, of a device of the table. */
  predicate IsEntryOf(shadows: map<string, Shadow>, now: int, v: DeviceView) {
    v.deviceMac in shadows && v == ViewOf(v.deviceMac, shadows[v.deviceMac], now)
  }

  /** `views` lists, once each, the devices of the table not in `rest`. */
  predicate ListsAllBut(shadows: map<string, Shadow>, now: int, views: seq<DeviceView>, rest: set<string>) {
    && rest !! ListedMacs(views) && rest + ListedMacs(views) == shadows.Keys
    && |views| == |ListedMacs(views)|
    && (forall i, j :: 0 <= i < j < |views| ==> views[i].deviceMac != views[j].deviceMac)
    && (forall i :: 0 <= i < |views| ==> IsEntryOf(shadows, now, views[i]))
  }

  /** Listing one more device of `rest` keeps ListsAllBut. */
  lemma ListOneMore(shadows: map<string, Shadow>, now: int, views: seq<DeviceView>, rest: set<string>, m: string)
    requires ListsAllBut(shadows, now, views, rest) && m in rest
    ensures ListsAllBut(shadows, now, views + [ViewOf(m, shadows[m], now)], rest - {m})
  {
    var v := ViewOf(m, shadows[m], now);
    ListedMacsAppend(views, v);
    var longer := views + [v];
    forall i, j | 0 <= i < j < |longer| ensures longer[i].deviceMac != longer[j].deviceMac {
      if j == |views| {
        assert views[i].deviceMac in ListedMacs(views);
      }
    }
  }

  /**
    The device list: exactly one entry per shadow of the table, in no
    particular order, each with its online status at time `now`.
   */
  method ListDevices(shadows: map<string, Shadow>, now: int) returns (views: seq<DeviceView>)
    ensures ListedMacs(views) == shadows.Keys
    ensures |views| == |shadows|
    ensures forall i, j :: 0 <= i < j < |views| ==> views[i].deviceMac != views[j].deviceMac
    ensures forall i :: 0 <= i < |views| ==> IsEntryOf(shadows, now, views[i])
  {
    views := [];
    var rest := shadows.Keys;
    while rest != {}
      invariant ListsAllBut(shadows, now, views, rest)
      decreases rest
    {
      var m :| m in rest;
      ListOneMore(shadows, now, views, rest, m);
      views := views + [ViewOf(m, shadows[m], now)];
      rest := rest - {m};
    }
  }
}
