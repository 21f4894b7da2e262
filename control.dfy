/**
 * The control-channel client. It subscribes to `<topic>/on` when the
 * broker accepts the connection, turns each message's `value` field into a
 * start or a stop of the camera, publishes the camera's state as a retained
 * message on `<topic>/state`, and retries a lost connection every five
 * seconds until it succeeds.
 *
 * The broker transport is represented by outcome sequences (one Boolean
 * per connection attempt) and by the log of messages handed to it.
 */
module Control {
  import opened Wrappers
  import opened Text
  import opened Recording

  /** A decoded JSON document. Members of an object are kept in textual order, duplicates included. */
  datatype Json =
    | JNull
    | JBool(b: bool)
    | JInt(i: int)
    | JString(s: string)
    | JArray(items: seq<Json>)
    | JObject(members: seq<(string, Json)>)

  /** Python's truth value of the decoded document: null, false, 0 and empty strings, lists and objects are false. */
  function Truthy(v: Json): bool {
    match v
    case JNull => false
    case JBool(b) => b
    case JInt(i) => i != 0
    case JString(s) => s != ""
    case JArray(items) => items != []
    case JObject(members) => members != []
  }

  /** The value of `key` in an object; a repeated key keeps its last value, as `json.loads` does. */
  function Member(members: seq<(string, Json)>, key: string): (r: Option<Json>)
    ensures r.Some? ==>
      exists i :: 0 <= i < |members| && members[i] == (key, r.value) && forall j :: i < j < |members| ==> members[j].0 != key
    ensures r.None? ==> forall i :: 0 <= i < |members| ==> members[i].0 != key
  {
    if members == [] then None
    else if members[|members| - 1].0 == key then Some(members[|members| - 1].1)
    else Member(members[..|members| - 1], key)
  }

  /** The values Python treats as false are exactly null, false, 0, "", [] and {}. */
  lemma FalsyValues(v: Json)
    ensures !Truthy(v) <==> v in [JNull, JBool(false), JInt(0), JString(""), JArray([]), JObject([])]
  {
  }

  /**
   * `json.loads(payload)['value']`: the payload must have decoded (`doc` is
   * `None` otherwise), be an object and have the key; every other case raises.
   */
  function ValueField(doc: Option<Json>): Option<Json> {
    match doc
    case Some(JObject(members)) => Member(members, "value")
    case _ => None
  }

  /** The camera state after a message, or `None` when reading `value` raises before any transition. */
  function MessageOutcome(s: CameraState, doc: Option<Json>): Option<CameraState> {
    match ValueField(doc)
    case None => None
    case Some(v) => Some(if Truthy(v) then StartTransition(s) else StopTransition(s))
  }

  /** A message whose `value` is truthy leaves the camera on, any other readable one leaves it off. */
  lemma MessageDrivesCamera(s: CameraState, doc: Option<Json>)
    ensures MessageOutcome(s, doc).Some? <==> ValueField(doc).Some?
    ensures ValueField(doc).Some? ==> MessageOutcome(s, doc).value.streamOn == Truthy(ValueField(doc).value)
    ensures ValueField(doc).Some? ==>
      MessageOutcome(s, doc).value == Apply(s, if Truthy(ValueField(doc).value) then Start else Stop)
  {
  }

  /** A start request for a camera already on makes no pipeline call and changes nothing. */
  lemma RedundantRequestChangesNothing(s: CameraState, doc: Option<Json>)
    requires ValueField(doc).Some?
    requires s.streamOn == Truthy(ValueField(doc).value)
    ensures MessageOutcome(s, doc) == Some(s)
  {
  }

  /** `json.dumps({'timestamp': ts, 'on': on})` with the default separators. */
  function StatePayload(timestamp: int, on: bool): string {
    StatePrefix + FormatInt(timestamp) + OnKey + (if on then "true" else "false") + "}"
  }

  const StatePrefix: string := "{\"timestamp\": "
  const OnKey: string := ", \"on\": "

  /** Reads a state payload back into its timestamp and flag. */
  function ParseStatePayload(s: string): Option<(int, bool)> {
    if !(StatePrefix <= s) then None
    else match ParseInt(s[|StatePrefix|..])
      case None => None
      case Some((timestamp, rest)) =>
        if rest == OnKey + "true}" then Some((timestamp, true))
        else if rest == OnKey + "false}" then Some((timestamp, false))
        else None
  }

  /** Round trip: a subscriber reading the state payload recovers the timestamp and the flag. */
  lemma StatePayloadRoundTrip(timestamp: int, on: bool)
    ensures ParseStatePayload(StatePayload(timestamp, on)) == Some((timestamp, on))
  {
    var tail := if on then OnKey + "true}" else OnKey + "false}";
    assert StatePayload(timestamp, on) == StatePrefix + (FormatInt(timestamp) + tail);
    assert tail[0] == ',';
    ParseIntOfFormat(timestamp, tail);
    if !on {
      assert tail[|OnKey|] != (OnKey + "true}")[|OnKey|];
    }
    ParseStateAfterPrefix(FormatInt(timestamp) + tail, timestamp, tail);
  }

  lemma ParseStateAfterPrefix(x: string, timestamp: int, tail: string)
    requires ParseInt(x) == Some((timestamp, tail))
    ensures ParseStatePayload(StatePrefix + x) ==
      if tail == OnKey + "true}" then Some((timestamp, true))
      else if tail == OnKey + "false}" then Some((timestamp, false))
      else None
  {
    PrefixThenRest(StatePrefix, x);
  }

  lemma PrefixThenRest(p: string, rest: string)
    ensures p <= p + rest && (p + rest)[|p|..] == rest
  {
  }

  datatype Message = Message(topic: string, payload: string, retain: bool)

  /** The retained state message on `<topic>/state`. */
  function StateMessage(topic: string, timestamp: int, on: bool): Message {
    Message(topic + "/state", StatePayload(timestamp, on), true)
  }

  /** Seconds slept after each failed connection attempt. */
  const RetryDelay: nat := 5

  /** The position of the first successful attempt, if any. */
  function FirstSuccess(outcomes: seq<bool>): (r: Option<nat>)
    ensures r.Some? ==>
      r.value < |outcomes| && outcomes[r.value] && forall j :: 0 <= j < r.value ==> !outcomes[j]
    ensures r.None? ==> forall j :: 0 <= j < |outcomes| ==> !outcomes[j]
  {
    if outcomes == [] then None
    else if outcomes[0] then Some(0)
    else match FirstSuccess(outcomes[1..])
      case Some(k) => Some(k + 1)
      case None => None
  }

  /** What a connection attempt sequence amounts to: reconnect calls made, seconds slept, and whether it ended connected. */
  datatype ConnectReport = ConnectReport(attempts: nat, waited: nat, connected: bool)

  class MqttClient {
    const topic: string
    /** The camera the client was built with; the state message reads its flag. */
    const camera: Camera
    /** Topics subscribed to, oldest first. */
    var subscriptions: seq<string>
    /** Messages handed to the transport for publication, oldest first. */
    var outbox: seq<Message>

    ghost predicate Valid()
      reads this, camera, camera.output
    {
      camera.Valid()
    }

    constructor (topic: string, camera: Camera)
      requires camera.Valid()
      ensures Valid()
      ensures this.topic == topic && this.camera == camera
      ensures subscriptions == [] && outbox == []
    {
      this.topic := topic;
      this.camera := camera;
      subscriptions := [];
      outbox := [];
    }

    /** The broker's answer to a connection: subscribe to `<topic>/on` only when it is 0 (accepted). */
    method OnConnect(rc: int)
      requires Valid()
      modifies this
      ensures Valid()
      ensures rc == 0 ==> subscriptions == old(subscriptions) + [topic + "/on"]
      ensures rc != 0 ==> subscriptions == old(subscriptions)
      ensures outbox == old(outbox)
    {
      if rc == 0 {
        subscriptions := subscriptions + [topic + "/on"];
      }
    }

    /** Publishes the camera's current flag, retained, on `<topic>/state`. */
    method SendState(timestamp: int)
      requires Valid()
      modifies this
      ensures Valid()
      ensures outbox == old(outbox) + [StateMessage(topic, timestamp, camera.streamOn)]
      ensures subscriptions == old(subscriptions)
    {
      outbox := outbox + [StateMessage(topic, timestamp, camera.streamOn)];
    }

    /**
     * An inbound message: a truthy `value` starts the camera, any other
     * value stops it, and then the state is published. When reading `value`
     * raises, nothing happens and `handled` is false.
     */
    method OnMessage(doc: Option<Json>, timestamp: int) returns (handled: bool)
      requires Valid()
      modifies this, camera
      ensures Valid()
      ensures handled <==> ValueField(doc).Some?
      ensures !handled ==> camera.State() == old(camera.State()) && outbox == old(outbox)
      ensures handled ==>
        && MessageOutcome(old(camera.State()), doc) == Some(camera.State())
        && outbox == old(outbox) + [StateMessage(topic, timestamp, camera.streamOn)]
      ensures handled ==> camera.streamOn == Truthy(ValueField(doc).value)
      ensures subscriptions == old(subscriptions)
    {
      var value := ValueField(doc);
      if value.None? {
        return false;
      }
      if Truthy(value.value) {
        camera.StartRecording();
      } else {
        camera.StopRecording();
      }
      SendState(timestamp);
      return true;
    }

    /**
     * The retry loop: call reconnect until one succeeds, sleeping five
     * seconds after each failure. Only the attempts in `outcomes` are
     * modelled; if none succeeds the loop is still retrying when they run out.
     */
    method StartReconnection(outcomes: seq<bool>) returns (r: ConnectReport)
      ensures FirstSuccess(outcomes).Some? ==> r == ConnectReport(FirstSuccess(outcomes).value + 1, RetryDelay * FirstSuccess(outcomes).value, true)
      ensures FirstSuccess(outcomes).None? ==> r == ConnectReport(|outcomes|, RetryDelay * |outcomes|, false)
      ensures r.connected ==>
        r.attempts >= 1 && outcomes[r.attempts - 1] && forall j :: 0 <= j < r.attempts - 1 ==> !outcomes[j]
    {
      var attempts, waited := 0, 0;
      while attempts < |outcomes|
        invariant attempts <= |outcomes|
        invariant forall j :: 0 <= j < attempts ==> !outcomes[j]
        invariant waited == RetryDelay * attempts
      {
        if outcomes[attempts] {
          return ConnectReport(attempts + 1, waited, true);
        }
        attempts, waited := attempts + 1, waited + RetryDelay;
      }
      return ConnectReport(attempts, waited, false);
    }

    /** The first connection: if it raises, sleep five seconds and enter the retry loop. */
    method StartConnection(connectOk: bool, retries: seq<bool>) returns (r: ConnectReport)
      ensures connectOk ==> r == ConnectReport(0, 0, true)
      ensures !connectOk && FirstSuccess(retries).Some? ==>
        r == ConnectReport(FirstSuccess(retries).value + 1, RetryDelay * (FirstSuccess(retries).value + 1), true)
      ensures !connectOk && FirstSuccess(retries).None? ==>
        r == ConnectReport(|retries|, RetryDelay * (|retries| + 1), false)
    {
      if connectOk {
        return ConnectReport(0, 0, true);
      }
      var retry := StartReconnection(retries);
      r := retry.(waited := RetryDelay + retry.waited);
    }

    /** A lost connection: sleep five seconds, then enter the retry loop. */
    method OnDisconnect(retries: seq<bool>) returns (r: ConnectReport)
      ensures FirstSuccess(retries).Some? ==>
        r == ConnectReport(FirstSuccess(retries).value + 1, RetryDelay * (FirstSuccess(retries).value + 1), true)
      ensures FirstSuccess(retries).None? ==>
        r == ConnectReport(|retries|, RetryDelay * (|retries| + 1), false)
    {
      var retry := StartReconnection(retries);
      r := retry.(waited := RetryDelay + retry.waited);
    }
  }
}
