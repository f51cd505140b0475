/**
 * The latest-value telemetry store of `UDPReceiverDisplay`: already-decoded
 * MAVLink messages (GLOBAL_POSITION_INT #33, ATTITUDE #30, STATUSTEXT #253)
 * are applied to the stored fields; every other message is ignored, and a
 * receive or parse failure changes nothing.
 */
module Telemetry {
  import opened Optional

  newtype byte = b: int | 0 <= b < 256

  /** GLOBAL_POSITION_INT: degrees * 1e7 and relative altitude in millimetres. */
  datatype GlobalPositionInt = GlobalPositionInt(lat: int, lon: int, relativeAlt: int)

  /** ATTITUDE: body-frame angles in radians. */
  datatype Attitude = Attitude(roll: real, pitch: real, yaw: real)

  /** STATUSTEXT: a NUL-padded ASCII buffer. */
  datatype StatusText = StatusText(text: seq<byte>)

  /** The payload of one decoded frame, by message type. */
  datatype MavPayload =
    | PositionMsg(position: GlobalPositionInt)
    | AttitudeMsg(attitude: Attitude)
    | StatusMsg(status: StatusText)
    | OtherMsg(msgId: nat)

  /** What one pass of the receive loop obtains. */
  datatype Reception =
    | ReceiveFailed               // timeout or socket exception
    | ParseFailed                 // the frame could not be turned into a message
    | Received(payload: MavPayload)

  /** The values the public accessors expose. `status` is `None` until a STATUSTEXT arrives. */
  datatype Snapshot = Snapshot(
    latitude: real, longitude: real, altitude: real,
    roll: real, pitch: real, yaw: real,
    status: Option<string>)

  const Initial := Snapshot(0.0, 0.0, 0.0, 0.0, 0.0, 0.0, None)

  const StatusPrefix: string := "Status: "

  function DegreesFromE7(raw: int): real {
    raw as real / 10000000.0
  }

  function MetresFromMillimetres(mm: int): real {
    mm as real / 1000.0
  }

  /** .NET's ASCII decoder: bytes above 0x7F become '?'. */
  function AsciiChar(b: byte): char {
    if b < 128 then (b as int) as char else '?'
  }

  function AsciiDecode(bytes: seq<byte>): (s: string)
    ensures |s| == |bytes|
    ensures forall i :: 0 <= i < |bytes| ==> s[i] == AsciiChar(bytes[i])
  {
    if bytes == [] then [] else AsciiDecode(bytes[..|bytes| - 1]) + [AsciiChar(bytes[|bytes| - 1])]
  }

  /**
   * `TrimEnd('\0')`: the longest prefix that does not end in NUL, with only
   * NULs cut away after it.
   */
  function TrimTrailingNul(s: string): (r: string)
    ensures |r| <= |s| && r == s[..|r|]
    ensures forall i :: |r| <= i < |s| ==> s[i] == '\0'
    ensures r == [] || r[|r| - 1] != '\0'
  {
    if |s| > 0 && s[|s| - 1] == '\0' then TrimTrailingNul(s[..|s| - 1]) else s
  }

  function StatusLine(st: StatusText): string {
    StatusPrefix + TrimTrailingNul(AsciiDecode(st.text))
  }

  /** The effect of one message on the stored values. */
  function ApplyPayload(t: Snapshot, m: MavPayload): Snapshot {
    match m
    case PositionMsg(p) =>
      t.(latitude := DegreesFromE7(p.lat), longitude := DegreesFromE7(p.lon),
         altitude := MetresFromMillimetres(p.relativeAlt))
    case AttitudeMsg(a) => t.(roll := a.roll, pitch := a.pitch, yaw := a.yaw)
    case StatusMsg(st) => t.(status := Some(StatusLine(st)))
    case OtherMsg(_) => t
  }

  function ApplyReception(t: Snapshot, r: Reception): Snapshot {
    if r.Received? then ApplyPayload(t, r.payload) else t
  }

  /** The stored values after the receive loop has handled `rs` in order. */
  function ApplyAll(t: Snapshot, rs: seq<Reception>): Snapshot {
    if rs == [] then t else ApplyReception(ApplyAll(t, rs[..|rs| - 1]), rs[|rs| - 1])
  }

  /** The most recent position report in `rs`, if any. */
  function LastPosition(rs: seq<Reception>): Option<GlobalPositionInt> {
    if rs == [] then None
    else
      var r := rs[|rs| - 1];
      if r.Received? && r.payload.PositionMsg? then Some(r.payload.position)
      else LastPosition(rs[..|rs| - 1])
  }

  function LastAttitude(rs: seq<Reception>): Option<Attitude> {
    if rs == [] then None
    else
      var r := rs[|rs| - 1];
      if r.Received? && r.payload.AttitudeMsg? then Some(r.payload.attitude)
      else LastAttitude(rs[..|rs| - 1])
  }

  function LastStatus(rs: seq<Reception>): Option<StatusText> {
    if rs == [] then None
    else
      var r := rs[|rs| - 1];
      if r.Received? && r.payload.StatusMsg? then Some(r.payload.status)
      else LastStatus(rs[..|rs| - 1])
  }

  /**
   * Latest value wins for the position group: after any run of receptions
   * latitude, longitude and altitude come from the most recent position
   * report, or keep their earlier values when none arrived. Failures and
   * other message kinds never show through.
   */
  lemma {:induction false} LatestPositionWins(t: Snapshot, rs: seq<Reception>)
    ensures var u := ApplyAll(t, rs);
      && (LastPosition(rs).None? ==>
            u.latitude == t.latitude && u.longitude == t.longitude && u.altitude == t.altitude)
      && (LastPosition(rs).Some? ==>
            var p := LastPosition(rs).value;
            u.latitude == DegreesFromE7(p.lat) && u.longitude == DegreesFromE7(p.lon)
            && u.altitude == MetresFromMillimetres(p.relativeAlt))
  {
    if rs != [] {
      LatestPositionWins(t, rs[..|rs| - 1]);
    }
  }

  /** Latest value wins for the attitude group. */
  lemma {:induction false} LatestAttitudeWins(t: Snapshot, rs: seq<Reception>)
    ensures var u := ApplyAll(t, rs);
      && (LastAttitude(rs).None? ==> u.roll == t.roll && u.pitch == t.pitch && u.yaw == t.yaw)
      && (LastAttitude(rs).Some? ==>
            var a := LastAttitude(rs).value;
            u.roll == a.roll && u.pitch == a.pitch && u.yaw == a.yaw)
  {
    if rs != [] {
      LatestAttitudeWins(t, rs[..|rs| - 1]);
    }
  }

  /** Latest value wins for the status line. */
  lemma {:induction false} LatestStatusWins(t: Snapshot, rs: seq<Reception>)
    ensures var u := ApplyAll(t, rs);
      && (LastStatus(rs).None? ==> u.status == t.status)
      && (LastStatus(rs).Some? ==> u.status == Some(StatusLine(LastStatus(rs).value)))
  {
    if rs != [] {
      LatestStatusWins(t, rs[..|rs| - 1]);
    }
  }

  function Zeros(k: nat): (z: seq<byte>)
    ensures |z| == k && forall i :: 0 <= i < k ==> z[i] == 0
  {
    if k == 0 then [] else Zeros(k - 1) + [0]
  }

  /**
   * The NUL padding of a STATUSTEXT buffer is removed: a text that does not
   * itself end in NUL, padded with any number of NULs, reads back as the text.
   */
  lemma {:induction false} PaddingRemoved(body: seq<byte>, k: nat)
    requires body == [] || body[|body| - 1] != 0
    ensures StatusLine(StatusText(body + Zeros(k))) == StatusPrefix + AsciiDecode(body)
  {
    var s := AsciiDecode(body + Zeros(k));
    assert AsciiDecode(body) == s[..|body|];
  }

  /**
   * Only trailing NULs go: a NUL that has a non-NUL character somewhere after
   * it stays in the status line at its place.
   */
  lemma InteriorNulKept(st: StatusText, i: nat, j: nat)
    requires i < j < |st.text| && st.text[i] == 0 && st.text[j] != 0
    ensures var line := StatusLine(st);
      |StatusPrefix| + j < |line| && line[|StatusPrefix| + i] == '\0'
  {
    var s := AsciiDecode(st.text);
    assert s[j] != '\0';
  }

  /** The receiver's latest-value store; the accessors read these fields. */
  class UdpReceiverDisplay {
    var latValue: real
    var lonValue: real
    var altValue: real
    var rollValue: real
    var pitchValue: real
    var yawValue: real
    var statusMessage: Option<string>

    /** All accessors at once (`LatitudeValue` ... `StatusMessage`). */
    function Values(): (t: Snapshot)
      reads this
      ensures t.latitude == latValue && t.longitude == lonValue && t.altitude == altValue
      ensures t.roll == rollValue && t.pitch == pitchValue && t.yaw == yawValue
      ensures t.status == statusMessage
    {
      Snapshot(latValue, lonValue, altValue, rollValue, pitchValue, yawValue, statusMessage)
    }

    constructor ()
      ensures Values() == Initial
    {
      latValue, lonValue, altValue := 0.0, 0.0, 0.0;
      rollValue, pitchValue, yawValue := 0.0, 0.0, 0.0;
      statusMessage := None;
    }

    method UpdatePositionData(position: GlobalPositionInt)
      modifies this
      ensures latValue == DegreesFromE7(position.lat)
      ensures lonValue == DegreesFromE7(position.lon)
      ensures altValue == MetresFromMillimetres(position.relativeAlt)
      ensures rollValue == old(rollValue) && pitchValue == old(pitchValue) && yawValue == old(yawValue)
      ensures statusMessage == old(statusMessage)
    {
      latValue := position.lat as real / 10000000.0;
      lonValue := position.lon as real / 10000000.0;
      altValue := position.relativeAlt as real / 1000.0;
    }

    method UpdateAttitudeData(attitude: Attitude)
      modifies this
      ensures rollValue == attitude.roll && pitchValue == attitude.pitch && yawValue == attitude.yaw
      ensures latValue == old(latValue) && lonValue == old(lonValue) && altValue == old(altValue)
      ensures statusMessage == old(statusMessage)
    {
      rollValue := attitude.roll;
      pitchValue := attitude.pitch;
      yawValue := attitude.yaw;
    }

    method UpdateStatusText(status: StatusText)
      modifies this
      ensures statusMessage == Some(StatusLine(status))
      ensures latValue == old(latValue) && lonValue == old(lonValue) && altValue == old(altValue)
      ensures rollValue == old(rollValue) && pitchValue == old(pitchValue) && yawValue == old(yawValue)
    {
      statusMessage := Some(StatusLine(status));
    }

    /** One pass of the receive loop: dispatch on the message type, or swallow the failure. */
    method GetPacket(r: Reception)
      modifies this
      ensures Values() == ApplyReception(old(Values()), r)
      ensures !r.Received? || r.payload.OtherMsg? ==> Values() == old(Values())
    {
      if r.Received? {
        match r.payload
        case PositionMsg(p) => UpdatePositionData(p);
        case AttitudeMsg(a) => UpdateAttitudeData(a);
        case StatusMsg(st) => UpdateStatusText(st);
        case OtherMsg(_) =>
      }
    }

    /** `while (running) GetPacket();` over the receptions the loop sees before it is stopped. */
    method ReceiveLoop(rs: seq<Reception>)
      modifies this
      ensures Values() == ApplyAll(old(Values()), rs)
    {
      var i := 0;
      while i < |rs|
        invariant 0 <= i <= |rs|
        invariant Values() == ApplyAll(old(Values()), rs[..i])
      {
        assert rs[..i + 1][..i] == rs[..i];
        GetPacket(rs[i]);
        i := i + 1;
      }
      assert rs[..|rs|] == rs;
    }
  }
}
