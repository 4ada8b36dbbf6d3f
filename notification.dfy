/**
 * The notification handler built by `create_notification_handler` and the
 * `send_osc` loop it calls: a decoded, non-zero heart rate is forwarded as two
 * OSC messages, the value first and the clamped wait time second.
 */
module Notification {
  import opened Wrappers
  import opened HeartRateMeasurement

  /** The address suffixes appended to the configured OSC address prefix. */
  const HeartbeatValue: string := "heartbeat_value"
  const HeartbeatWaitTime: string := "heartbeat_waittime"

  /** The single argument of an OSC message: an int32 or a float32. */
  datatype OscValue = IntValue(i: int) | FloatValue(f: real)

  /** One entry of the send list: an address suffix and the value to send there. */
  datatype SendItem = SendItem(address: string, value: OscValue)

  /** A message as handed to the OSC client: the full address and its argument. */
  datatype OscMessage = OscMessage(address: string, value: OscValue)

  /** `max(0.0, min(1.0, x))`. */
  function Clamp01(x: real): (r: real)
    ensures 0.0 <= r <= 1.0
    ensures 0.0 <= x <= 1.0 ==> r == x
    ensures x < 0.0 ==> r == 0.0
    ensures x > 1.0 ==> r == 1.0
  {
    var upper := if x < 1.0 then x else 1.0;
    if upper > 0.0 then upper else 0.0
  }

  /**
   * The send list the handler builds for one payload. `waitTime` is the raw
   * value the handler computes from the heart rate; it is `None` where that
   * computation raises (a division by zero), which sends nothing.
   */
  function SendList(data: seq<byte>, waitTime: nat -> Option<real>): (items: seq<SendItem>)
    ensures var hr := ParseHeartRate(data);
      items == [] <==> (hr.None? || hr.value == 0 || waitTime(hr.value).None?)
    ensures items != [] ==>
      var bpm := ParseHeartRate(data).value;
      && |items| == 2
      && items[0] == SendItem(HeartbeatValue, IntValue(bpm))
      && items[1] == SendItem(HeartbeatWaitTime, FloatValue(Clamp01(waitTime(bpm).value)))
  {
    match ParseHeartRate(data)
    case None => []
    case Some(bpm) =>
      if bpm == 0 then []
      else
        match waitTime(bpm)
        case None => []
        case Some(raw) =>
          [SendItem(HeartbeatValue, IntValue(bpm)), SendItem(HeartbeatWaitTime, FloatValue(Clamp01(raw)))]
  }

  /** How many of `n` sends go out when the send at index `failAt`, if any, raises. */
  function SentCount(n: nat, failAt: Option<nat>): (c: nat)
    ensures c <= n
    ensures failAt.None? ==> c == n
  {
    if failAt.Some? && failAt.value < n then failAt.value else n
  }

  /**
   * `send_osc`: sends every entry of the list to `prefix` + its suffix, in
   * order. The `try` encloses the whole loop, so the first send that raises
   * (`failAt`) ends it and the later entries are not sent.
   */
  method SendOsc(prefix: string, items: seq<SendItem>, failAt: Option<nat>) returns (sent: seq<OscMessage>)
    ensures |sent| == SentCount(|items|, failAt)
    ensures forall j :: 0 <= j < |sent| ==> sent[j] == OscMessage(prefix + items[j].address, items[j].value)
  {
    sent := [];
    for i := 0 to |items|
      invariant failAt.Some? ==> i <= failAt.value
      invariant |sent| == i
      invariant forall j :: 0 <= j < i ==> sent[j] == OscMessage(prefix + items[j].address, items[j].value)
    {
      if failAt == Some(i) {
        return;
      }
      sent := sent + [OscMessage(prefix + items[i].address, items[i].value)];
    }
  }

  /**
   * The notification handler: decode the payload and, for a non-zero heart
   * rate, send the value and the clamped wait time under `prefix`.
   */
  method HandleNotification(prefix: string, data: seq<byte>, waitTime: nat -> Option<real>, failAt: Option<nat>)
    returns (sent: seq<OscMessage>)
    ensures var hr := ParseHeartRate(data);
      hr.None? || hr.value == 0 ==> sent == []
    ensures |sent| <= 2
    ensures sent != [] ==>
      && ParseHeartRate(data).Some?
      && sent[0] == OscMessage(prefix + HeartbeatValue, IntValue(ParseHeartRate(data).value))
    ensures |sent| == 2 ==>
      && sent[1].address == prefix + HeartbeatWaitTime
      && sent[1].value.FloatValue? && 0.0 <= sent[1].value.f <= 1.0
    ensures var hr := ParseHeartRate(data);
      hr.Some? && waitTime(hr.value).None? ==> sent == []
    ensures |sent| == 2 ==>
      sent[1].value == FloatValue(Clamp01(waitTime(ParseHeartRate(data).value).value))
    ensures var hr := ParseHeartRate(data);
      failAt.None? && hr.Some? && hr.value != 0 && waitTime(hr.value).Some? ==> |sent| == 2
    ensures var items := SendList(data, waitTime);
      && |sent| == SentCount(|items|, failAt)
      && forall j :: 0 <= j < |sent| ==> sent[j] == OscMessage(prefix + items[j].address, items[j].value)
  {
    var items := SendList(data, waitTime);
    sent := SendOsc(prefix, items, failAt);
  }
}
