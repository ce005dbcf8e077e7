/** The records of the persisted tables (models.py) and the JSON values they carry. */
module Schema {

  datatype Option<+T> = None | Some(value: T) {
    /** The value, or `default` when absent (Python's `dict.get(key, default)`). */
    function GetOr(default: T): T {
      match this
      case Some(v) => v
      case None => default
    }
  }

  /** A JSON value, as stored in the payload and zone_config columns. Numbers are integers. */
  datatype Json =
    | JNull
    | JBool(b: bool)
    | JInt(i: int)
    | JString(s: string)
    | JArray(items: seq<Json>)
    | JObject(fields: map<string, Json>)

  /** One row of radar_tracking_logs; `createdAt` is in milliseconds, as its DATETIME(3) column keeps them. */
  datatype TrackingLog = TrackingLog(
    deviceMac: string,
    batchId: string,
    targetId: int,
    posX: int,
    posY: int,
    speed: int,
    resolution: int,
    createdAt: int)

  datatype TrackMode = Single | Multi

  /**
    One row of device_shadow; the device_mac primary key is the key of the
    shadow map. `lastHeartbeat` is in milliseconds.
   */
  datatype Shadow = Shadow(
    onlineStatus: Option<bool>,
    firmwareVer: Option<string>,
    trackMode: Option<TrackMode>,
    bluetoothState: Option<bool>,
    zoneConfig: Json,
    activeViewers: Option<int>,
    lastHeartbeat: Option<int>)

  /** The status column of pending_commands. */
  datatype CommandStatus = Pending | Sent | Executed

  /**
    One row of pending_commands. Its created_at column is a DATETIME without
    fractional seconds, so `createdAt` holds whole seconds, in milliseconds.
   */
  datatype Command = Command(
    id: nat,
    deviceMac: string,
    commandType: string,
    payload: Json,
    status: CommandStatus,
    createdAt: int)

  /**
    What a DATETIME column without fractional seconds keeps of the clock
    `nowMs`: the nearest whole second, halves rounded up, in milliseconds.
   */
  function WholeSecondMs(nowMs: int): (t: int)
    ensures t % 1000 == 0
    ensures -500 < t - nowMs <= 500
  {
    (nowMs + 500) / 1000 * 1000
  }
}
