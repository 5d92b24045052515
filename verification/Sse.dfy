/** Server-sent events as this program writes and reads them: the frame that
    `chat_stream` yields and the incremental decode loop of the page's `sendStream`
    (the one-line `data:` subset of section 9.2 of the WHATWG HTML Living Standard). */
module Sse {
  import opened Text

  const SEPARATOR := "\n\n"
  const FIELD := "data: "

  function Frame(payload: string): string {
    FIELD + payload + SEPARATOR
  }

  function Encode(payloads: seq<string>): string {
    if payloads == [] then "" else Frame(payloads[0]) + Encode(payloads[1..])
  }

  function Concat(chunks: seq<string>): string {
    if chunks == [] then "" else Concat(chunks[..|chunks| - 1]) + chunks[|chunks| - 1]
  }

  /** Where the first blank line of the buffer starts, or -1. */
  function BlankLine(buf: string): (r: int)
    ensures -1 <= r && (r >= 0 ==> PairAt(buf, '\n', '\n', r))
  {
    FindPair(buf, '\n', '\n')
  }

  /** What one complete chunk contributes: chunks without the field name are skipped. */
  function Payload(chunk: string): seq<string> {
    if StartsWith(chunk, FIELD) then [chunk[|FIELD|..]] else []
  }

  datatype Drained = Drained(payloads: seq<string>, rest: string)

  /** Decoding a whole buffer: all complete chunks in order, and the incomplete tail. */
  function Drain(buf: string): Drained
    decreases |buf|
  {
    var nl := BlankLine(buf);
    if nl < 0 then Drained([], buf)
    else
      var tail := Drain(buf[nl + 2..]);
      Drained(Payload(buf[..nl]) + tail.payloads, tail.rest)
  }

  /** The client loop: read a chunk, append it, cut off every complete event.
      However the stream was cut into chunks, it decodes the stream as a whole. */
  method Receive(chunks: seq<string>) returns (seen: seq<string>, buf: string)
    ensures Drained(seen, buf) == Drain(Concat(chunks))
  {
    hide Drain, FindPair;
    seen, buf := [], "";
    DrainKeeps("");
    for i := 0 to |chunks|
      invariant Drained(seen, buf) == Drain(Concat(chunks[..i]))
    {
      ghost var before := Drained(seen, buf);
      assert chunks[..i + 1][..i] == chunks[..i];
      DrainAppend(Concat(chunks[..i]), chunks[i]);
      buf := buf + chunks[i];
      ghost var whole := buf;
      var nl := BlankLine(buf);
      while nl != -1
        invariant nl == BlankLine(buf)
        invariant before.payloads + Drain(whole).payloads == seen + Drain(buf).payloads
        invariant Drain(whole).rest == Drain(buf).rest
        decreases |buf|
      {
        var chunk := buf[..nl];
        DrainCut(buf);
        Assoc(seen, Payload(chunk), Drain(buf[nl + 2..]).payloads);
        buf := buf[nl + 2..];
        if StartsWith(chunk, FIELD) {
          seen := seen + [chunk[|FIELD|..]];
        } else {
          assert seen + Payload(chunk) == seen;
        }
        nl := BlankLine(buf);
      }
      DrainKeeps(buf);
    }
    assert chunks[..|chunks|] == chunks;
  }

  lemma DrainKeeps(a: string)
    requires BlankLine(a) < 0
    ensures Drain(a) == Drained([], a)
  {}

  lemma DrainCut(a: string)
    requires BlankLine(a) >= 0
    ensures var nl := BlankLine(a);
            Drain(a) == Drained(Payload(a[..nl]) + Drain(a[nl + 2..]).payloads, Drain(a[nl + 2..]).rest)
  {}

  /** Decoding is incremental: the incomplete tail is all that has to be remembered. */
  lemma {:induction false} DrainAppend(a: string, b: string)
    ensures Drain(a + b) == Drained(Drain(a).payloads + Drain(Drain(a).rest + b).payloads,
                                    Drain(Drain(a).rest + b).rest)
    decreases |a|
  {
    hide Drain, Payload, FindPair;
    var nl := BlankLine(a);
    if nl >= 0 {
      FindPairAppend(a, b, '\n', '\n');
      assert (a + b)[..nl] == a[..nl];
      assert (a + b)[nl + 2..] == a[nl + 2..] + b;
      DrainAppend(a[nl + 2..], b);
      DrainCut(a);
      DrainCut(a + b);
      Assoc(Payload(a[..nl]), Drain(a[nl + 2..]).payloads, Drain(Drain(a).rest + b).payloads);
    } else {
      DrainKeeps(a);
      assert [] + Drain(a + b).payloads == Drain(a + b).payloads;
    }
  }

  /** A payload the framing can carry: no blank line inside and no newline at its end. */
  predicate Framable(p: string) {
    BlankLine(p) < 0 && (p == "" || p[|p| - 1] != '\n')
  }

  /** A payload without newlines, such as the output of `json.dumps`, is framable. */
  lemma OneLineIsFramable(p: string)
    requires '\n' !in p
    ensures Framable(p)
  {
    var k := BlankLine(p);
    assert !PairAt(p, '\n', '\n', k);
  }

  /** In head + p + blank line + rest, with a newline-free head, the first blank line is
      no later than the one written, and is that one exactly when p is framable. */
  lemma FirstBlankLine(head: string, p: string, rest: string)
    requires '\n' !in head
    ensures |head| <= BlankLine(head + p + SEPARATOR + rest) <= |head| + |p|
    ensures BlankLine(head + p + SEPARATOR + rest) == |head| + |p| <==> Framable(p)
  {
    var s, n := head + p + SEPARATOR + rest, |head| + |p|;
    FindPairLeast(s, '\n', '\n', n);
    FindPairLeast(s, '\n', '\n', n - 1);
    var k := BlankLine(p);
    FindPairLeast(s, '\n', '\n', |head| + k);
    var r := BlankLine(s);
    FindPairLeast(p, '\n', '\n', r - |head|);
    assert forall i :: 0 <= i < |p| ==> s[|head| + i] == p[i];
    assert forall i :: 0 <= i < |head| ==> s[i] == head[i];
  }

  lemma FrameStart(p: string, rest: string)
    ensures Frame(p) + rest == FIELD + p + SEPARATOR + rest && '\n' !in FIELD
  {
    assert forall i :: 0 <= i < |FIELD| ==> FIELD[i] != '\n';
  }

  /** A framable payload arrives as the first event, whatever follows it. */
  lemma GoodFrame(p: string, rest: string)
    requires Framable(p)
    ensures Drain(Frame(p) + rest) == Drained([p] + Drain(rest).payloads, Drain(rest).rest)
  {
    var s := Frame(p) + rest;
    FrameStart(p, rest);
    FirstBlankLine(FIELD, p, rest);
    DrainCut(s);
    var chunk := s[..|FIELD| + |p|];
    assert chunk == FIELD + p;
    assert chunk[..|FIELD|] == FIELD && chunk[|FIELD|..] == p;
    assert s[|FIELD| + |p| + 2..] == rest;
  }

  /** What is sent for a list of payloads, and what one event on the wire says. */
  lemma OnTheWire(p: string, payloads: seq<string>, rest: string)
    ensures Encode([]) == "" && Encode([p] + payloads) == "data: " + p + "\n\n" + Encode(payloads)
    ensures Framable(p) ==>
              Drain("data: " + p + "\n\n" + rest) == Drained([p] + Drain(rest).payloads, Drain(rest).rest)
  {
    assert ([p] + payloads)[1..] == payloads;
    if Framable(p) { GoodFrame(p, rest); }
  }

  /** A payload that is not framable never arrives as the first event. */
  lemma BadFrame(p: string, rest: string)
    requires !Framable(p)
    ensures Drain(Frame(p) + rest).payloads != [] && Drain(Frame(p) + rest).payloads[0] != p
  {
    var s := Frame(p) + rest;
    FrameStart(p, rest);
    FirstBlankLine(FIELD, p, rest);
    var nl := BlankLine(s);
    DrainCut(s);
    assert s[..nl][..|FIELD|] == FIELD;
    assert |Payload(s[..nl])[0]| < |p|;
  }

  /** The stream decodes to exactly what was sent, with nothing left over, if and only
      if every payload is framable. */
  lemma {:induction false} RoundTrip(payloads: seq<string>)
    ensures Drain(Encode(payloads)) == Drained(payloads, "")
            <==> forall p :: p in payloads ==> Framable(p)
  {
    if payloads != [] {
      var p, rest := payloads[0], payloads[1..];
      RoundTrip(rest);
      assert payloads == [p] + rest;
      if Framable(p) {
        GoodFrame(p, Encode(rest));
        assert ([p] + Drain(Encode(rest)).payloads)[1..] == Drain(Encode(rest)).payloads;
      } else {
        BadFrame(p, Encode(rest));
      }
    }
  }

  /** A complete chunk that is not a data field, such as a `: ping` comment, is skipped. */
  lemma ForeignChunkSkipped(chunk: string, rest: string)
    requires Framable(chunk) && !StartsWith(chunk, "data: ")
    ensures Drain(chunk + "\n\n" + rest) == Drain(rest)
  {
    hide Drain, BlankLine;
    var s := chunk + SEPARATOR + rest;
    assert "" + chunk + SEPARATOR + rest == s;
    FirstBlankLine("", chunk, rest);
    DrainCut(s);
    assert s[..|chunk|] == chunk && s[|chunk| + 2..] == rest;
    assert Payload(chunk) + Drain(rest).payloads == Drain(rest).payloads;
  }

  /** One-line payloads survive any chunking of the encoded stream. */
  lemma RoundTripChunked(payloads: seq<string>, chunks: seq<string>)
    requires Concat(chunks) == Encode(payloads)
    requires forall p :: p in payloads ==> '\n' !in p
    ensures Drain(Concat(chunks)) == Drained(payloads, "")
  {
    forall p | p in payloads ensures Framable(p) { OneLineIsFramable(p); }
    RoundTrip(payloads);
  }
}
