# rpicamera: a verified model of the camera daemon's core

The daemon turns a Raspberry Pi camera into an MJPEG stream that is switched
on and off over MQTT. This project models the logic of `main.py` in Dafny and
proves properties of that model:

- **Frame slot** (`FrameOutput`, from `RPiCameraOutput`). The encoder writes
  each frame into a single slot. A write replaces the previous frame and wakes
  every waiting viewer. The wake-up appears only as a counter, plus a ghost
  history of every frame written.
- **Camera lifecycle** (`Recording`, from `RPiCamera`). A class with the
  `streamOn` flag and a ghost log of calls into the vendor capture pipeline
  (`PipelineStart`, `PipelineStop`). Pure transition functions specify its
  methods. Lemmas show three things: the log alternates start/stop in step
  with the flag, a repeated command is a no-op, and the last command decides
  the flag.
- **Multipart framing** (`Framing`). The bytes of one stream part: boundary
  line, `Content-Type` and `Content-Length` header fields in HTTP/1.1 field
  syntax (section 5 of RFC 9112), the empty line, the frame, and a CRLF. A
  parser reads parts back. Round trips are proved both ways: for one part and
  for a whole body. The announced Content-Length is proved equal to the frame
  length.
- **GET handler** (`StreamHandler`, from `RPiCameraStreamHandler.do_GET`).
  Routing, the status and header fields of a `/stream` response, and the
  streaming loop. The loop is a method over the frames a viewer reads after
  each wake-up. It stops at the first failed write.
- **MQTT client** (`Control`, from `MqttClient`). On connect it subscribes to
  `<topic>/on` when the return code is 0. A message's `value` field selects
  start or stop, and the resulting state is always published. The state
  payload is `{"timestamp": <int>, "on": <bool>}`, retained, on
  `<topic>/state`, and a round trip is proved for it. The retry loop sleeps
  5 seconds after each failed attempt.

Inputs of the outside world are parameters:
- the wall-clock timestamp;
- the decoded JSON document of a message (`Option<Json>`, where `None` means
  the payload did not decode);
- the broker's return code;
- one Boolean per connection attempt;
- the frames seen at each wake-up;
- the number of the write that fails.

The camera's log of pipeline calls stands in for the vendor `super()` calls.
The client's `outbox` and `subscriptions` stand in for the transport.

The model follows what the code does, including where a reader might expect
more:
- There is no state file or persistence.
- Only `<topic>/on` is subscribed. There is no `/off` topic and no dispatch by
  topic suffix: the payload's `value` field decides.
- A message that asks for the state the camera is already in still publishes
  a state message. The camera's guard then makes no pipeline call
  (`Control.RedundantRequestChangesNothing`).
- The client has no explicit connection-state machine.
- `send_state` reads the module-level `rpi_camera` (main.py:148), not
  `self.rpi_camera`. Both name the same object, built at main.py:158 and
  handed to the client at main.py:162. The model therefore reads the camera
  the client was constructed with.

## Model

| member | source | states |
|---|---|---|
| FrameOutput.CameraOutput.constructor | main.py:31-34 | the slot starts empty, with no frame written and no notification |
| FrameOutput.CameraOutput.Write | main.py:36-39 | afterwards the slot holds exactly `buf`; the previous frame is gone; the history grows by `buf`; the notification counter rises by exactly one |
| FrameOutput.LatestOverwrites | main.py:36-39 | documents, as a one-step fact, that of two consecutive writes only the second is visible (no buffering); the substance is `Write`'s `frame == Some(buf)` |
| Recording.Camera.constructor | main.py:42-47 | a new camera is off, has made no pipeline call and owns a fresh, empty output slot |
| Recording.Camera.StartRecording | main.py:49-55 | when off: exactly one pipeline start and `streamOn` becomes true; when on: no pipeline call and no change; the output slot is untouched |
| Recording.Camera.StopRecording | main.py:57-63 | when on: exactly one pipeline stop and `streamOn` becomes false; when off: no pipeline call and no change |
| Recording.StartTransition | main.py:49-55 | definition: off becomes on with one `PipelineStart` appended, on stays as it is; its properties are carried by `Camera.StartRecording`, `RepeatedCommandIsNoOp` and `PipelineCallOnlyOnChange` |
| Recording.StopTransition | main.py:57-63 | definition: on becomes off with one `PipelineStop` appended, off stays as it is; its properties are carried by `Camera.StopRecording`, `RepeatedCommandIsNoOp` and `PipelineCallOnlyOnChange` |
| Recording.InitialConsistent | main.py:45 | the initial state (off, empty log) satisfies the lifecycle invariant |
| Recording.ApplyKeepsConsistent | main.py:49-63 | one start or stop keeps the pipeline log alternating and the flag equal to "the last call was a start" |
| Recording.RunKeepsConsistent | main.py:45-63 | over any sequence of start/stop calls, the log strictly alternates start, stop, … beginning with start, and the flag matches it |
| Recording.RunAppend | main.py:49-63 | running commands one at a time equals running the whole sequence |
| Recording.RepeatedCommandIsNoOp | main.py:50-63 | idempotence: two starts (or two stops) in a row give the same flag and the same pipeline log as one |
| Recording.LastCommandDecides | main.py:49-63 | after any commands, the camera is on exactly when the last call was a start |
| Recording.PipelineCallOnlyOnChange | main.py:49-63 | a call adds a pipeline call exactly when it flips the flag, and otherwise leaves the state unchanged |
| Text.FormatNat | main.py:81 | the decimal rendering of a length is a non-empty digit string with no leading zero |
| Text.ParseNatOfFormat | main.py:81 | reading back a formatted length followed by a non-digit gives the length and the untouched rest |
| Text.FormatInt | main.py:148 | Python's `str(int)` for the timestamp: a minus sign before the digits of a negative value; its inverse is proved in `ParseIntOfFormat` |
| Text.ParseIntOfFormat | main.py:148 | reading back a formatted integer timestamp, negative ones included, gives the integer and the untouched rest |
| Framing.EncodePart | main.py:79-84 | definition of the part serializer: boundary line, the two header lines, the empty line, the frame bytes, CRLF; its properties are carried by `PartHeadShape`, `PartDelimiters`, `ContentLengthMatchesFrame`, `PartRoundTrip` and `PartParseExact` |
| Framing.EncodeParts | main.py:75-84 | definition of the body the loop writes: one encoded part per frame, in order; its properties are carried by `StreamRoundTrip`, `StreamParseExact` and `StreamHandler.ServeStream` |
| Framing.PartHeadShape | main.py:79-82 | a part head is `--FRAME` CRLF, `Content-Type: image/jpeg` CRLF, `Content-Length: ` and the decimal length, then CRLF and the empty line's CRLF |
| Framing.ParsePartHeadOfEncoding | main.py:79-82 | the head parser reads back exactly the announced length, whatever bytes follow the head |
| Framing.ContentLengthMatchesFrame | main.py:81 | the Content-Length a part announces equals the length of its frame |
| Framing.PartDelimiters | main.py:79-84 | every part starts with `--FRAME\r\n` and ends with `\r\n` |
| Framing.PartRoundTrip | main.py:79-84 | parsing an encoded part recovers exactly its frame bytes and leaves what follows |
| Framing.PartParseExact | main.py:79-84 | the part parser accepts nothing but an encoded part: any accepted input is `EncodePart(frame) + rest` |
| Framing.StreamRoundTrip | main.py:75-84 | a body of consecutive parts splits back into exactly the frames sent, in order |
| Framing.StreamParseExact | main.py:75-84 | a body the parser accepts is exactly the encoding of the frames it yields |
| StreamHandler.AgeIsZero | main.py:69 | documents, as an evaluated fact, that the `Age` header, sent as the integer 0, carries the text `0` |
| StreamHandler.ServeStream | main.py:74-86 | one part per wake-up, in order, until the first failed write; the viewer is dropped exactly when a write fails; the body parses back into exactly the frames sent |
| StreamHandler.HandleGet | main.py:66-89 | routing on the exact path: `/stream` gets status 200 with `Age: 0`, `Cache-Control: no-cache, private`, `Pragma: no-cache` and `Content-Type: multipart/x-mixed-replace; boundary=FRAME`, then the parts; any other path gets 404, no header fields of its own and no multipart body |
| Control.Truthy | main.py:123 | definition of Python truthiness of the decoded `value`; `FalsyValues` states which values are false |
| Control.FalsyValues | main.py:123 | a value is false exactly when it is `null`, `false`, `0`, `""`, `[]` or `{}` |
| Control.ValueField | main.py:123 | definition of `json.loads(...)['value']`: the value only when the payload decoded to an object that has the key, otherwise nothing (the KeyError/TypeError paths); `Member`, `MessageDrivesCamera` and `MqttClient.OnMessage` carry its properties |
| Control.MessageOutcome | main.py:123-126 | definition: a readable `value` gives `StartTransition` if truthy, else `StopTransition`; an unreadable one gives nothing (the raise path); its properties are carried by `MessageDrivesCamera`, `RedundantRequestChangesNothing` and `MqttClient.OnMessage` |
| Control.Member | main.py:123 | a key's value is the one at its last occurrence in the object; a missing key yields nothing |
| Control.MessageDrivesCamera | main.py:122-127 | a readable `value` always leads to a transition, and the camera ends on exactly when `value` is truthy; an unreadable one leads to none |
| Control.RedundantRequestChangesNothing | main.py:122-126 | a request for the state the camera is already in makes no pipeline call and changes no state |
| Control.StatePayload | main.py:148 | definition of the `json.dumps({'timestamp': ..., 'on': ...})` text with the default separators; `StatePayloadRoundTrip` proves it decodes back |
| Control.StateMessage | main.py:148 | definition of the published message: topic `<topic>/state`, the state payload, retained; used by `MqttClient.SendState` and `MqttClient.OnMessage` |
| Control.StatePayloadRoundTrip | main.py:148 | the state payload parses back into exactly its timestamp and `on` flag |
| Control.FirstSuccess | main.py:137-145 | the position found is the first successful attempt, and all before it failed; when none is found, every attempt failed |
| Control.MqttClient.constructor | main.py:101-105 | the client keeps its topic and its camera, and it has subscribed to and published nothing |
| Control.MqttClient.OnConnect | main.py:110-115 | it subscribes to `<topic>/on` exactly when `rc == 0`; otherwise nothing changes; nothing is published |
| Control.MqttClient.SendState | main.py:147-148 | exactly one message is added: topic `<topic>/state`, the payload with the given timestamp and the camera's current flag, retained |
| Control.MqttClient.OnMessage | main.py:122-127 | a truthy `value` starts the camera and any other value stops it, then exactly one retained state message is published whose `on` is the flag after the transition; if reading `value` raises, nothing changes and nothing is published |
| Control.MqttClient.StartReconnection | main.py:137-145 | the loop ends exactly at the first successful reconnect, after one 5-second sleep per earlier failure; if no modelled attempt succeeds, it is still retrying |
| Control.MqttClient.StartConnection | main.py:129-135 | a successful first connect needs no retry and no sleep; a failed one sleeps 5 seconds and then behaves as the retry loop |
| Control.MqttClient.OnDisconnect | main.py:117-120 | a lost connection sleeps 5 seconds and then behaves as the retry loop |

## Left out

- Threads and `threading.Condition` blocking (main.py:34, 37-39, 76-78) are
  not modelled. The wake-up is a notification counter. A viewer's waiting is
  the sequence of frames it reads after each wake-up.
- Socket writes, `ThreadingMixIn`, `HTTPServer` and `serve_forever`
  (main.py:91-98, 167-170) are not modelled. The model computes the bytes a
  handler writes, not the act of writing them.
- The status line and the `Server` and `Date` fields that `send_response`
  adds are not modelled. They come from `http.server`, which is not part of
  this model. The same goes for the fields and HTML body that `send_error`
  produces, and for any bytes the second `end_headers` call (main.py:89)
  adds. This is why the 404 response shows no header fields and no body.
- HTTP/0.9 requests are not modelled. `send_header` and `end_headers` would
  send no header bytes for them.
- StreamHandler.ServeStream: the bytes of a part whose write fails partway
  are not modelled. The body holds only the parts written completely.
- StreamHandler.ServeStream: the `while True` loop (main.py:75) ends only
  through an exception. The model sees only the modelled wake-ups; with no
  failed write among them the viewer is still being served when they run
  out.
- The picamera2 configuration, the JPEG encoder and the `FileOutput` wiring
  (main.py:43-44, 51, 59) are vendor code. Each start and stop appears as one
  logged pipeline call.
- Recording.Camera.StartRecording: the case where the vendor call raises is
  not modelled. In the code the exception propagates before `stream_on`
  changes.
- Recording.Camera.StopRecording: the case where the vendor call raises is
  not modelled. In the code `stream_on` then stays true, and when the call
  comes from `on_message` the exception also skips `send_state`.
- paho-mqtt's `connect`, `reconnect`, `publish`, `subscribe` and
  `loop_forever`, TLS setup and credentials (main.py:129-135, 150-154,
  179-180) are foreign network code. They appear as outcome sequences, the
  `outbox` and `subscriptions` logs, and the return code given to
  `OnConnect`.
- What happens when an `on_message` exception escapes into paho's loop is
  not modelled. The model only says that no transition and no publish take
  place.
- `time.sleep`, `time.time` and the 15-second heartbeat thread (main.py:119,
  172-177) involve the clock. Sleeps are counted in seconds and the timestamp
  is a parameter. `SendState` models what each heartbeat publishes.
- Control.MqttClient.StartReconnection: `while True` can retry forever. The
  model sees only a finite sequence of attempts, and when all of them fail
  it reports the loop as still retrying.
- General JSON decoding (main.py:123) is not modelled. The decoded document
  is an input. Floating-point numbers are left out of `Json`.
- Logger setup, environment-variable configuration and base64 password
  decoding (main.py:16-28, 156-165) are configuration and I/O. Log messages
  are not modelled.
