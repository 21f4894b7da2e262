/**
 * The bytes of one part of the `multipart/x-mixed-replace` stream served on
 * `/stream`, and a parser that reads them back.
 *
 * A part is the boundary line `--FRAME`, the header fields `Content-Type:
 * image/jpeg` and `Content-Length: <n>` in the HTTP/1.1 field syntax of
 * section 5 of RFC 9112 (`name: value` followed by CRLF, as
 * `BaseHTTPRequestHandler.send_header` buffers them), the empty line that
 * `end_headers` adds, the `n` frame bytes, and a closing CRLF.
 */
module Framing {
  import opened Wrappers
  import opened Text

  /** One header field as `send_header` renders it, before Latin-1 encoding. */
  function HeaderLine(name: string, value: string): string {
    name + ": " + value + "\r\n"
  }

  const CRLF: seq<byte> := [13, 10]

  /** The boundary line written before every frame. */
  const BoundaryLine: string := "--FRAME\r\n"

  /** The text of a part up to its frame: boundary, two header fields, empty line. */
  function PartHeadText(n: nat): (t: string)
    ensures IsLatin1(t)
  {
    BoundaryLine
    + HeaderLine("Content-Type", "image/jpeg")
    + HeaderLine("Content-Length", FormatNat(n))
    + "\r\n"
  }

  function PartHead(n: nat): seq<byte> {
    Latin1(PartHeadText(n))
  }

  /** The bytes of one part carrying `frame`. */
  function EncodePart(frame: seq<byte>): seq<byte> {
    PartHead(|frame|) + frame + CRLF
  }

  /** Everything in a part head that comes before the Content-Length digits. */
  const LeadText: string := BoundaryLine + HeaderLine("Content-Type", "image/jpeg") + "Content-Length: "

  function Lead(): (b: seq<byte>)
    ensures |b| == |LeadText|
  {
    Latin1(LeadText)
  }

  /**
   * Reads a part head: the fixed lead, a canonical decimal Content-Length
   * and the empty line. Returns the announced length and the bytes after the
   * head.
   */
  function ParsePartHead(b: seq<byte>): (r: Option<(nat, seq<byte>)>)
    ensures r.Some? ==> |r.value.1| < |b|
  {
    var lead := Lead();
    if |b| < |lead| || b[..|lead|] != lead then None
    else
      var tail := b[|lead|..];
      var digits := LeadingDigits(Latin1Decode(tail));
      var n := DigitsValue(digits);
      var after := tail[|digits|..];
      if digits == [] || digits != FormatNat(n) || |after| < 4 || after[..4] != CRLF + CRLF then None
      else Some((n, after[4..]))
  }

  /** Reads one part off the front of `b`: its frame and the bytes after it. */
  function ParsePart(b: seq<byte>): (r: Option<(seq<byte>, seq<byte>)>)
    ensures r.Some? ==> |r.value.1| < |b|
  {
    match ParsePartHead(b)
    case None => None
    case Some((n, body)) =>
      if |body| < n + 2 || body[n..n + 2] != CRLF then None
      else Some((body[..n], body[n + 2..]))
  }

  /** A part head is the lead, the decimal length and two CRLFs. */
  lemma PartHeadShape(n: nat)
    ensures PartHead(n) == Lead() + Latin1(FormatNat(n)) + CRLF + CRLF
  {
  }

  /** The head parser reads back exactly the announced length, whatever follows the head. */
  lemma {:induction false} ParsePartHeadOfEncoding(n: nat, rest: seq<byte>)
    ensures ParsePartHead(PartHead(n) + rest) == Some((n, rest))
  {
    PartHeadShape(n);
    var lead, digits, cc := Lead(), FormatNat(n), CRLF + CRLF;
    var b := PartHead(n) + rest;
    assert b == lead + (Latin1(digits) + (cc + rest));
    var tail := b[|lead|..];
    assert tail == Latin1(digits) + (cc + rest);
    Latin1DecodeAppend(Latin1(digits), cc + rest);
    Latin1RoundTrip(digits);
    var text := Latin1Decode(tail);
    assert text == digits + Latin1Decode(cc + rest);
    assert Latin1Decode(cc + rest)[0] == '\r';
    LeadingDigitsOfNumeral(digits, Latin1Decode(cc + rest));
    DigitsValueOfFormat(n);
    assert tail[|digits|..] == cc + rest;
  }

  /** Conversely, whatever the head parser accepts is a part head followed by the rest. */
  lemma ParsePartHeadExact(b: seq<byte>, n: nat, rest: seq<byte>)
    requires ParsePartHead(b) == Some((n, rest))
    ensures b == PartHead(n) + rest
  {
    var lead := Lead();
    assert b[..|lead|] == lead;
    var tail := b[|lead|..];
    var digits := LeadingDigits(Latin1Decode(tail));
    var after := tail[|digits|..];
    assert digits == FormatNat(n) && after[..4] == CRLF + CRLF && rest == after[4..];
    Latin1PrefixOfDecode(digits, tail);
    Reassemble(b, lead, Latin1(digits), after, rest);
    PartHeadShape(n);
  }

  /** Puts back together the pieces the head parser cuts `b` into. */
  lemma Reassemble(b: seq<byte>, lead: seq<byte>, digits: seq<byte>, after: seq<byte>, rest: seq<byte>)
    requires lead <= b
    requires digits <= b[|lead|..]
    requires after == b[|lead|..][|digits|..]
    requires CRLF + CRLF <= after && rest == after[4..]
    ensures b == lead + digits + CRLF + CRLF + rest
  {
    SplitPrefix(b[|lead|..], digits);
    SplitPrefix(after, CRLF + CRLF);
    SplitPrefix(b, lead);
  }

  lemma SplitPrefix(s: seq<byte>, p: seq<byte>)
    requires p <= s
    ensures s == p + s[|p|..]
  {
  }

  /** Round trip: parsing an encoded part recovers its frame and leaves what follows. */
  lemma {:induction false} PartRoundTrip(frame: seq<byte>, rest: seq<byte>)
    ensures ParsePart(EncodePart(frame) + rest) == Some((frame, rest))
  {
    var n := |frame|;
    var body := frame + CRLF + rest;
    assert EncodePart(frame) + rest == PartHead(n) + body;
    ParsePartHeadOfEncoding(n, body);
    assert body[..n] == frame && body[n..n + 2] == CRLF && body[n + 2..] == rest;
  }

  /** The part parser accepts nothing but an encoded part followed by the rest. */
  lemma PartParseExact(b: seq<byte>, frame: seq<byte>, rest: seq<byte>)
    requires ParsePart(b) == Some((frame, rest))
    ensures b == EncodePart(frame) + rest
  {
    var head := ParsePartHead(b).value;
    var n, body := head.0, head.1;
    assert |body| >= n + 2 && body[n..n + 2] == CRLF;
    assert frame == body[..n] && rest == body[n + 2..];
    ParsePartHeadExact(b, n, body);
    SplitFrame(body, n);
    EncodePartThenRest(frame, rest);
  }

  lemma EncodePartThenRest(frame: seq<byte>, rest: seq<byte>)
    ensures EncodePart(frame) + rest == PartHead(|frame|) + (frame + CRLF + rest)
  {
  }

  lemma SplitFrame(body: seq<byte>, n: nat)
    requires n + 2 <= |body|
    ensures body == body[..n] + body[n..n + 2] + body[n + 2..]
  {
  }

  /** The Content-Length a part announces is the length of the frame it carries. */
  lemma ContentLengthMatchesFrame(frame: seq<byte>)
    ensures ParsePartHead(EncodePart(frame)) == Some((|frame|, frame + CRLF))
  {
    assert EncodePart(frame) == PartHead(|frame|) + (frame + CRLF);
    ParsePartHeadOfEncoding(|frame|, frame + CRLF);
  }

  /** Every part opens with the boundary line and closes with CRLF. */
  lemma PartDelimiters(frame: seq<byte>)
    ensures Latin1(BoundaryLine) <= EncodePart(frame)
    ensures EncodePart(frame)[|EncodePart(frame)| - 2..] == CRLF
  {
  }

  /** The body written for a sequence of frames, one part each, in order. */
  function EncodeParts(frames: seq<seq<byte>>): seq<byte> {
    if frames == [] then [] else EncodeParts(frames[..|frames| - 1]) + EncodePart(frames[|frames| - 1])
  }

  /** Reads a whole body back into its frames; fails unless it is a sequence of parts. */
  function ParseParts(b: seq<byte>): Option<seq<seq<byte>>>
    decreases |b|
  {
    if b == [] then Some([])
    else match ParsePart(b)
      case None => None
      case Some((frame, rest)) =>
        match ParseParts(rest)
        case None => None
        case Some(frames) => Some([frame] + frames)
  }

  lemma {:induction false} EncodePartsCons(frame: seq<byte>, frames: seq<seq<byte>>)
    ensures EncodeParts([frame] + frames) == EncodePart(frame) + EncodeParts(frames)
    decreases |frames|
  {
    if frames != [] {
      var init := frames[..|frames| - 1];
      assert ([frame] + frames)[..|frames|] == [frame] + init;
      EncodePartsCons(frame, init);
    }
  }

  /** Round trip for a whole body: a viewer splitting it recovers exactly the frames sent. */
  lemma {:induction false} StreamRoundTrip(frames: seq<seq<byte>>)
    ensures ParseParts(EncodeParts(frames)) == Some(frames)
    decreases |frames|
  {
    if frames != [] {
      var f, fs := frames[0], frames[1..];
      assert frames == [f] + fs;
      EncodePartsCons(f, fs);
      PartRoundTrip(f, EncodeParts(fs));
      assert EncodePart(f) + EncodeParts(fs) != [] by {
        assert |EncodePart(f)| > 0;
      }
      StreamRoundTrip(fs);
    }
  }

  /** A body the parser accepts is exactly the encoding of the frames it yields. */
  lemma {:induction false} StreamParseExact(b: seq<byte>, frames: seq<seq<byte>>)
    requires ParseParts(b) == Some(frames)
    ensures b == EncodeParts(frames)
    decreases |b|
  {
    if b != [] {
      var Some((f, rest)) := ParsePart(b);
      var Some(fs) := ParseParts(rest);
      PartParseExact(b, f, rest);
      StreamParseExact(rest, fs);
      EncodePartsCons(f, fs);
    }
  }
}
