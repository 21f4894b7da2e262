/**
 * The GET handler of the stream server: routing, the response head for
 * `/stream`, and the loop that writes one part per frame until a write to
 * the viewer fails.
 *
 * Waiting on the frame slot is represented by `wakes`: the frame a viewer
 * reads from the slot after each wake-up, in order. A failed write is
 * represented by `failAt`: the number of the wake-up whose part the viewer
 * no longer receives.
 */
module StreamHandler {
  import opened Wrappers
  import opened Text
  import opened Framing

  datatype Header = Header(name: string, value: string)

  datatype Route = StreamRoute | NotFoundRoute

  /** Only the exact path `/stream` is served. */
  function RouteOf(path: string): Route {
    if path == "/stream" then StreamRoute else NotFoundRoute
  }

  /** The header fields sent after status 200, in order; `Age` is sent as the integer 0. */
  const StreamHeaders: seq<Header> := [
    Header("Age", FormatInt(0)),
    Header("Cache-Control", "no-cache, private"),
    Header("Pragma", "no-cache"),
    Header("Content-Type", "multipart/x-mixed-replace; boundary=FRAME")
  ]

  /**
   * What the handler itself writes: a status, the header fields it adds, the
   * multipart body and whether the viewer was dropped after a failed write.
   * Fields and bytes that `send_response`, `send_error` and `end_headers`
   * add on their own (the status line, `Server`, `Date`, the error page)
   * are not part of it, so an empty body means "no multipart body".
   */
  datatype Response = Response(status: nat, headers: seq<Header>, body: seq<byte>, clientRemoved: bool)

  /**
   * The streaming loop: one part per wake-up, in order, until a write fails.
   * What a viewer can parse out of the body is exactly the frames it was sent.
   */
  method ServeStream(wakes: seq<seq<byte>>, failAt: nat) returns (body: seq<byte>, sent: nat, removed: bool)
    ensures sent == if failAt < |wakes| then failAt else |wakes|
    ensures removed <==> failAt < |wakes|
    ensures body == EncodeParts(wakes[..sent])
    ensures ParseParts(body) == Some(wakes[..sent])
  {
    body, sent, removed := [], 0, false;
    while sent < |wakes|
      invariant sent <= |wakes| && sent <= failAt
      invariant body == EncodeParts(wakes[..sent])
      invariant !removed
    {
      if sent == failAt {
        removed := true;
        break;
      }
      assert wakes[..sent + 1][..sent] == wakes[..sent];
      body := body + EncodePart(wakes[sent]);
      sent := sent + 1;
    }
    StreamRoundTrip(wakes[..sent]);
  }

  /** A GET request: `/stream` gets status 200, the four headers and the parts; any other path gets 404 and no body. */
  method HandleGet(path: string, wakes: seq<seq<byte>>, failAt: nat) returns (r: Response)
    ensures path == "/stream" ==>
      && r.status == 200
      && r.headers == StreamHeaders
      && r.clientRemoved == (failAt < |wakes|)
      && var sent := if failAt < |wakes| then failAt else |wakes|;
         r.body == EncodeParts(wakes[..sent]) && ParseParts(r.body) == Some(wakes[..sent])
    ensures path != "/stream" ==>
      r.status == 404 && r.headers == [] && r.body == [] && !r.clientRemoved
  {
    match RouteOf(path)
    case StreamRoute =>
      var body, sent, removed := ServeStream(wakes, failAt);
      r := Response(200, StreamHeaders, body, removed);
    case NotFoundRoute =>
      r := Response(404, [], [], false);
  }

  /** The `Age` header carries the text `0`. */
  lemma AgeIsZero()
    ensures StreamHeaders[0] == Header("Age", "0")
  {
  }
}
