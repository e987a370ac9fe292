/** ClamAV's INSTREAM framing: length-prefixed chunks and a zero length at the end. */
module ClamStream {
  import opened Wrappers
  import opened Base64Url

  const CHUNK := 1024 * 1024
  const GREETING: seq<byte> := [122, 73, 78, 83, 84, 82, 69, 65, 77, 0]

  lemma GreetingText()
    ensures var text := "zINSTREAM";
            |GREETING| == |text| + 1 && GREETING[|text|] == 0
            && forall i :: 0 <= i < |text| ==> GREETING[i] == text[i] as int
  {
  }

  /** Four bytes, most significant first. */
  function Pack(n: nat): seq<byte>
    requires n < 0x1_0000_0000
  {
    var k := n / 256;
    var m := k / 256;
    [m / 256, m % 256, k % 256, n % 256]
  }

  function Unpack(b: seq<byte>): nat
    requires |b| == 4
  {
    ((b[0] as int * 256 + b[1] as int) * 256 + b[2] as int) * 256 + b[3] as int
  }

  lemma PackRoundTrip(n: nat)
    requires n < 0x1_0000_0000
    ensures |Pack(n)| == 4 && Unpack(Pack(n)) == n
    ensures var b := Pack(n);
            n == b[0] as int * 0x100_0000 + b[1] as int * 0x1_0000 + b[2] as int * 0x100 + b[3] as int
  {
  }

  /** The frames that carry the content. */
  function Frames(content: seq<byte>): seq<byte> {
    if |content| == 0 then []
    else if |content| <= CHUNK then Pack(|content|) + content
    else Pack(CHUNK) + content[..CHUNK] + Frames(content[CHUNK..])
  }

  /** How a scanner reads the stream: the content up to the first zero length, and what follows it. */
  function Parse(stream: seq<byte>): Option<(seq<byte>, seq<byte>)> {
    if |stream| < 4 then None
    else
      var n := Unpack(stream[..4]);
      var rest := stream[4..];
      if n == 0 then Some(([], rest))
      else if |rest| < n then None
      else match Parse(rest[n..])
        case None => None
        case Some((content, after)) => Some((rest[..n] + content, after))
  }

  class Writer {
    var written: seq<byte>

    constructor ()
      ensures written == []
    {
      written := [];
    }

    method Write(b: seq<byte>)
      modifies this
      ensures written == old(written) + b
    {
      written := written + b;
    }
  }

  lemma FramesStep(content: seq<byte>, offset: nat, chunk: seq<byte>)
    requires offset < |content| && chunk == content[offset..Min(offset + CHUNK, |content|)]
    ensures 1 <= |chunk| <= 0x10_0000
    ensures Frames(content[offset..]) == Pack(|chunk|) + chunk + Frames(content[Min(offset + CHUNK, |content|)..])
  {
  }

  lemma NoFrames()
    ensures Frames([]) == []
  {
  }

  /** Everything sent for one content: the greeting, the frames and the terminator. */
  method SendForScan(content: seq<byte>, writer: Writer)
    modifies writer
    ensures writer.written == old(writer.written) + GREETING + Frames(content) + Pack(0)
  {
    hide Frames, Pack;
    writer.Write(GREETING);
    var offset := 0;
    assert content[0..] == content;
    while offset < |content|
      invariant offset <= |content|
      invariant writer.written + Frames(content[offset..]) == old(writer.written) + GREETING + Frames(content)
    {
      var end := Min(offset + CHUNK, |content|);
      var chunk := content[offset..end];
      FramesStep(content, offset, chunk);
      ghost var before := writer.written;
      writer.Write(Pack(|chunk|));
      writer.Write(chunk);
      assert writer.written + Frames(content[end..]) == before + (Pack(|chunk|) + chunk + Frames(content[end..]));
      offset := end;
    }
    assert content[offset..] == [];
    NoFrames();
    writer.Write(Pack(0));
  }

  /** One frame is read off the front. */
  lemma ParseStep(stream: seq<byte>, rest: seq<byte>, n: nat)
    requires |stream| >= 4 && n == Unpack(stream[..4]) && rest == stream[4..] && 0 < n <= |rest|
    requires Parse(rest[n..]).Some?
    ensures Parse(stream) == Some((rest[..n] + Parse(rest[n..]).value.0, Parse(rest[n..]).value.1))
  {
  }

  lemma ParseFrame(head: seq<byte>, chunk: seq<byte>, more: seq<byte>)
    requires |head| == 4 && Unpack(head) == |chunk| > 0 && Parse(more).Some?
    ensures Parse(head + chunk + more) == Some((chunk + Parse(more).value.0, Parse(more).value.1))
  {
    hide Unpack, Parse;
    var stream := head + chunk + more;
    var rest := chunk + more;
    assert stream[..4] == head && stream[4..] == rest;
    assert rest[|chunk|..] == more && rest[..|chunk|] == chunk;
    ParseStep(stream, rest, |chunk|);
  }

  lemma ParseEnd(after: seq<byte>)
    ensures Parse(Pack(0) + after) == Some(([], after))
  {
  }

  /** The scanner recovers exactly the content, whatever its length, and stops exactly at the terminator. */
  lemma {:induction false} FramingRoundTrip(content: seq<byte>, after: seq<byte>)
    ensures Parse(Frames(content) + Pack(0) + after) == Some((content, after))
  {
    hide Unpack, Pack, Parse;
    if |content| == 0 {
      assert Frames(content) + Pack(0) + after == Pack(0) + after;
      ParseEnd(after);
    } else {
      var n := Min(CHUNK, |content|);
      var chunk, rest := content[..n], content[n..];
      FramesStep(content, 0, chunk);
      FramingRoundTrip(rest, after);
      PackRoundTrip(|chunk|);
      ParseFrame(Pack(|chunk|), chunk, Frames(rest) + Pack(0) + after);
      assert content[0..] == content && content == chunk + rest;
      assert Frames(content) + Pack(0) + after == Pack(|chunk|) + chunk + (Frames(rest) + Pack(0) + after);
    }
  }
}
