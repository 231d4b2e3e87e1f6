/** The newline framing that both ends of the worker pipe use.

    The reader is written once per crate with the same text; this is one model
    of both. It pulls buffers of arbitrary size from a `BufRead`, so the main
    result is that nothing it returns depends on where those buffers end. */
module Framing {
  import opened Bytes

  const LF: Byte := 10
  const CR: Byte := 13
  const MAX_PROTOCOL_FRAME_BYTES: nat := 8 * 1024 * 1024

  /** What one call of the reader reports. */
  datatype FrameRead = Frame(bytes: seq<Byte>) | EndOfStream | Rejected

  // ---------------------------------------------------------------- specification

  function FirstLf(bytes: seq<Byte>): (i: nat)
    ensures i <= |bytes|
    ensures i < |bytes| ==> bytes[i] == LF
    ensures LF !in bytes[..i]
  {
    if bytes == [] || bytes[0] == LF then 0
    else
      var i := 1 + FirstLf(bytes[1..]);
      assert bytes[..i] == [bytes[0]] + bytes[1..][..i - 1];
      i
  }

  lemma {:induction false} FirstLfAt(line: seq<Byte>, rest: seq<Byte>)
    requires LF !in line
    ensures FirstLf(line + [LF] + rest) == |line|
  {
    if line != [] {
      assert (line + [LF] + rest)[1..] == line[1..] + [LF] + rest;
      FirstLfAt(line[1..], rest);
    }
  }

  lemma NoLf(line: seq<Byte>, stream: seq<Byte>)
    requires LF !in line && line <= stream
    ensures FirstLf(stream) >= |line|
  {
    assert forall j :: 0 <= j < |line| ==> stream[j] == line[j];
  }

  function StripCr(line: seq<Byte>): seq<Byte> {
    if line != [] && line[|line| - 1] == CR then line[..|line| - 1] else line
  }

  /** The reader's answer as a function of the unread bytes alone. `fails` says
      that the source breaks with an I/O error after those bytes rather than
      ending. */
  function ReadFrame(bytes: seq<Byte>, fails: bool): FrameRead {
    var end := FirstLf(bytes);
    if end == |bytes| then
      if bytes == [] && !fails then EndOfStream else Rejected
    else if end + 1 > MAX_PROTOCOL_FRAME_BYTES then Rejected
    else if StripCr(bytes[..end]) == [] then Rejected
    else Frame(StripCr(bytes[..end]))
  }

  /** The bytes that a successful read leaves for the next one. */
  function AfterFrame(bytes: seq<Byte>): seq<Byte> {
    if FirstLf(bytes) < |bytes| then bytes[FirstLf(bytes) + 1..] else []
  }

  // ---------------------------------------------------------------- the reader

  function Flatten(chunks: seq<seq<Byte>>): seq<Byte> {
    if chunks == [] then [] else chunks[0] + Flatten(chunks[1..])
  }

  /** A buffered source: the buffers it will hand out, in order. */
  class ChunkedReader {
    var chunks: seq<seq<Byte>>
    const fails: bool

    ghost predicate Valid()
      reads this
    {
      forall i :: 0 <= i < |chunks| ==> chunks[i] != []
    }

    ghost function Contents(): seq<Byte>
      reads this
    {
      Flatten(chunks)
    }

    constructor (chunks: seq<seq<Byte>>, fails: bool)
      requires forall i :: 0 <= i < |chunks| ==> chunks[i] != []
      ensures Valid() && this.chunks == chunks && this.fails == fails
    {
      this.chunks := chunks;
      this.fails := fails;
    }

    /** The current buffer, empty at the end of the stream; `ok` is false on an I/O error. */
    method FillBuf() returns (ok: bool, available: seq<Byte>)
      requires Valid()
      ensures ok <==> chunks != [] || !fails
      ensures chunks == [] ==> available == []
      ensures chunks != [] ==> available == chunks[0] && available != []
    {
      if chunks == [] {
        return !fails, [];
      }
      return true, chunks[0];
    }

    method Consume(count: nat)
      requires Valid() && chunks != [] && 0 < count <= |chunks[0]|
      modifies this
      ensures Valid()
      ensures old(Contents()) == old(chunks[0])[..count] + Contents()
      ensures |Contents()| < |old(Contents())|
    {
      var head, tail := chunks[0], chunks[1..];
      assert Contents() == head + Flatten(tail);
      if count == |head| {
        chunks := tail;
      } else {
        chunks := [head[count..]] + tail;
        assert chunks[1..] == tail;
        assert Contents() == head[count..] + Flatten(tail);
      }
      assert head == head[..count] + head[count..];
    }
  }

  method Position(bytes: seq<Byte>) returns (index: nat)
    ensures index == FirstLf(bytes)
  {
    index := 0;
    while index < |bytes| && bytes[index] != LF
      invariant index <= |bytes|
      invariant FirstLf(bytes) == index + FirstLf(bytes[index..])
    {
      assert bytes[index..][1..] == bytes[index + 1..];
      index := index + 1;
    }
  }

  lemma LineComplete(line: seq<Byte>, rest: seq<Byte>, fails: bool)
    requires LF !in line && |line| + 1 <= MAX_PROTOCOL_FRAME_BYTES
    ensures ReadFrame(line + [LF] + rest, fails)
         == if StripCr(line) == [] then Rejected else Frame(StripCr(line))
    ensures AfterFrame(line + [LF] + rest) == rest
  {
    FirstLfAt(line, rest);
    assert (line + [LF] + rest)[..|line|] == line;
  }

  lemma LineUnfinished(line: seq<Byte>, fails: bool)
    requires LF !in line
    ensures ReadFrame(line, fails) == if line == [] && !fails then EndOfStream else Rejected
  {
    NoLf(line, line);
  }

  lemma LineTooLong(line: seq<Byte>, rest: seq<Byte>, fails: bool)
    requires LF !in line && |line| + 1 > MAX_PROTOCOL_FRAME_BYTES
    ensures ReadFrame(line + rest, fails) == Rejected
  {
    NoLf(line, line + rest);
  }

  lemma Resplit(left: seq<Byte>, middle: seq<Byte>, right: seq<Byte>, at: nat)
    requires at <= |middle|
    ensures left + (middle + right) == (left + middle[..at]) + (middle[at..] + right)
  {
  }

  /** `read_protocol_frame`: whatever the buffer boundaries are, the answer and
      the bytes left after a success are those of the whole stream. */
  method ReadProtocolFrame(reader: ChunkedReader) returns (r: FrameRead)
    requires reader.Valid()
    modifies reader
    ensures reader.Valid()
    ensures r == ReadFrame(old(reader.Contents()), reader.fails)
    ensures r.Frame? ==> reader.Contents() == AfterFrame(old(reader.Contents()))
    ensures r.Frame? ==> |reader.Contents()| < |old(reader.Contents())|
  {
    hide ReadFrame, AfterFrame, FirstLf;
    ghost var stream := reader.Contents();
    var frame: seq<Byte> := [];
    while true
      invariant reader.Valid()
      invariant stream == frame + reader.Contents()
      invariant LF !in frame && |frame| <= MAX_PROTOCOL_FRAME_BYTES
      decreases |reader.Contents()|
    {
      var ok, available := reader.FillBuf();
      if !ok || available == [] {
        LineUnfinished(frame, reader.fails);
        assert stream == frame;
        return if ok && frame == [] then EndOfStream else Rejected;
      }
      var newline := Position(available);
      var found := newline < |available|;
      var consumed := if found then newline + 1 else |available|;
      ghost var line := frame + available[..newline];
      if |frame| + consumed > MAX_PROTOCOL_FRAME_BYTES {
        ghost var rest := Flatten(reader.chunks[1..]);
        Resplit(frame, available, rest, newline);
        LineTooLong(line, available[newline..] + rest, reader.fails);
        return Rejected;
      }
      reader.Consume(consumed);
      Regroup(frame, available[..consumed], reader.Contents());
      frame := frame + available[..consumed];
      if found {
        assert frame == line + [LF];
        LineComplete(line, reader.Contents(), reader.fails);
        frame := frame[..|frame| - 1];
        assert frame == line;
        if frame != [] && frame[|frame| - 1] == CR {
          frame := frame[..|frame| - 1];
        }
        return if frame == [] then Rejected else Frame(frame);
      }
      assert frame == line;
    }
  }

  // ---------------------------------------------------------------- the pipe

  /** `write_envelope`: one serialised message followed by a line feed. */
  function Encode(frames: seq<seq<Byte>>): seq<Byte> {
    if frames == [] then [] else frames[0] + [LF] + Encode(frames[1..])
  }

  /** Every frame that can be read before the stream stops yielding frames, and why it stopped. */
  function ReadAll(bytes: seq<Byte>, fails: bool): (seq<seq<Byte>>, FrameRead)
    decreases |bytes|
  {
    var head := ReadFrame(bytes, fails);
    if head.Frame? then
      var (tail, end) := ReadAll(AfterFrame(bytes), fails);
      ([head.bytes] + tail, end)
    else ([], head)
  }

  lemma ReadAllMore(bytes: seq<Byte>, fails: bool)
    requires ReadFrame(bytes, fails).Frame?
    ensures var rest := ReadAll(AfterFrame(bytes), fails);
            ReadAll(bytes, fails) == ([ReadFrame(bytes, fails).bytes] + rest.0, rest.1)
  {
  }

  ghost function After(frames: seq<seq<Byte>>, rest: (seq<seq<Byte>>, FrameRead)): (seq<seq<Byte>>, FrameRead) {
    (frames + rest.0, rest.1)
  }

  lemma AfterOneMore(frames: seq<seq<Byte>>, bytes: seq<Byte>, fails: bool)
    requires ReadFrame(bytes, fails).Frame?
    ensures After(frames, ReadAll(bytes, fails))
         == After(frames + [ReadFrame(bytes, fails).bytes], ReadAll(AfterFrame(bytes), fails))
  {
    ReadAllMore(bytes, fails);
    var one, rest := [ReadFrame(bytes, fails).bytes], ReadAll(AfterFrame(bytes), fails).0;
    assert frames + (one + rest) == frames + one + rest;
  }

  /** The reader threads: forward frames until the first answer that is not one. */
  method DrainFrames(reader: ChunkedReader) returns (frames: seq<seq<Byte>>, end: FrameRead)
    requires reader.Valid()
    modifies reader
    ensures (frames, end) == ReadAll(old(reader.Contents()), reader.fails)
  {
    frames := [];
    ghost var rest := reader.Contents();
    ghost var whole := ReadAll(rest, reader.fails);
    assert [] + whole.0 == whole.0;
    end := ReadProtocolFrame(reader);
    while end.Frame?
      invariant reader.Valid()
      invariant end == ReadFrame(rest, reader.fails)
      invariant end.Frame? ==> reader.Contents() == AfterFrame(rest)
      invariant whole == After(frames, ReadAll(rest, reader.fails))
      decreases |rest|
    {
      AfterOneMore(frames, rest, reader.fails);
      rest := reader.Contents();
      frames := frames + [end.bytes];
      end := ReadProtocolFrame(reader);
    }
    assert frames + [] == frames;
  }

  /** The frames that survive the pipe. */
  predicate Transparent(frame: seq<Byte>) {
    && frame != []
    && LF !in frame
    && frame[|frame| - 1] != CR
    && |frame| + 1 <= MAX_PROTOCOL_FRAME_BYTES
  }

  lemma FrameHasNoLf(bytes: seq<Byte>, fails: bool)
    requires ReadFrame(bytes, fails).Frame?
    ensures LF !in ReadFrame(bytes, fails).bytes
  {
    var line := bytes[..FirstLf(bytes)];
    assert forall i :: 0 <= i < |StripCr(line)| ==> StripCr(line)[i] == line[i];
  }

  /** A written frame is read back, with the reader left exactly behind it, if
      and only if it is transparent: empty frames, frames with a raw line feed,
      frames ending in a carriage return and frames over the bound are the whole
      exception. */
  lemma FrameReadBackIff(frame: seq<Byte>, rest: seq<Byte>, fails: bool)
    ensures Transparent(frame)
       <==> (ReadFrame(frame + [LF] + rest, fails) == Frame(frame)
             && AfterFrame(frame + [LF] + rest) == rest)
  {
    var stream := frame + [LF] + rest;
    if LF in frame {
      if ReadFrame(stream, fails).Frame? {
        FrameHasNoLf(stream, fails);
      }
    } else if |frame| + 1 <= MAX_PROTOCOL_FRAME_BYTES {
      LineComplete(frame, rest, fails);
    } else {
      assert stream == frame + ([LF] + rest);
      LineTooLong(frame, [LF] + rest, fails);
    }
  }

  /** In numbers: at least one byte and fewer than 8 MiB, no byte 10, and no 13 at the end. */
  lemma TransparentIff(frame: seq<Byte>)
    ensures Transparent(frame) <==> 1 <= |frame| < 8_388_608 && 10 !in frame && frame[|frame| - 1] != 13
  {
  }

  /** What the reader answers to a line, whatever follows: it is too long, or blank, or a
      frame without the carriage return at its end. Bytes that no line feed ends are the
      end of the stream if there are none, and an error otherwise. */
  lemma LineAnswered(line: seq<Byte>, rest: seq<Byte>, fails: bool)
    requires 10 !in line
    ensures ReadFrame(line + [10] + rest, fails)
         == if |line| >= 8_388_608 || line == [] || line == [13] then Rejected
            else if line[|line| - 1] == 13 then Frame(line[..|line| - 1])
            else Frame(line)
    ensures ReadFrame(line, fails) == if line == [] && !fails then EndOfStream else Rejected
  {
    LineUnfinished(line, fails);
    if |line| + 1 <= MAX_PROTOCOL_FRAME_BYTES {
      LineComplete(line, rest, fails);
    } else {
      assert line + [LF] + rest == line + ([LF] + rest);
      LineTooLong(line, [LF] + rest, fails);
    }
  }

  lemma ReadAllTransparent(frame: seq<Byte>, after: seq<Byte>, fails: bool)
    requires Transparent(frame)
    ensures ReadAll(frame + [LF] + after, fails)
         == ([frame] + ReadAll(after, fails).0, ReadAll(after, fails).1)
  {
    FrameReadBackIff(frame, after, fails);
    ReadAllMore(frame + [LF] + after, fails);
  }

  lemma EncodeSplit(frames: seq<seq<Byte>>, rest: seq<Byte>)
    requires frames != []
    ensures Encode(frames) + rest == frames[0] + [LF] + (Encode(frames[1..]) + rest)
  {
  }

  lemma ConsAppend<T>(s: seq<T>, t: seq<T>)
    requires s != []
    ensures [s[0]] + (s[1..] + t) == s + t
  {
  }

  /** Any sequence of transparent frames, cut into buffers in any way, is read
      back exactly; bytes after them are read as if they stood alone. */
  lemma {:induction false} PipeRoundTrip(frames: seq<seq<Byte>>, rest: seq<Byte>, fails: bool)
    requires forall i :: 0 <= i < |frames| ==> Transparent(frames[i])
    ensures ReadAll(Encode(frames) + rest, fails) == After(frames, ReadAll(rest, fails))
    decreases |frames|
  {
    var read := ReadAll(rest, fails).0;
    if frames == [] {
      assert Encode(frames) + rest == rest;
      assert frames + read == read;
    } else {
      var head, tail := frames[0], frames[1..];
      var after := Encode(tail) + rest;
      PipeRoundTrip(tail, rest, fails);
      ReadAllTransparent(head, after, fails);
      EncodeSplit(frames, rest);
      ConsAppend(frames, read);
    }
  }

  /** `stream` yields unaltered frames from the front of `frames` and ends
      cleanly exactly when those frames are all it holds. */
  ghost predicate ReadsPrefixOf(frames: seq<seq<Byte>>, stream: seq<Byte>) {
    var (read, end) := ReadAll(stream, false);
    && read <= frames
    && !end.Frame?
    && (end == EndOfStream <==> Encode(read) == stream)
  }

  /** A worker that dies while writing: cutting the stream anywhere yields a
      prefix of the frames, and never an altered or partial one. A clean end is
      reported exactly when the cut falls between two frames. */
  lemma {:induction false} TruncatedPipe(frames: seq<seq<Byte>>, cut: nat)
    requires forall i :: 0 <= i < |frames| ==> Transparent(frames[i])
    requires cut <= |Encode(frames)|
    ensures ReadsPrefixOf(frames, Encode(frames)[..cut])
    decreases |frames|
  {
    if frames == [] || cut == 0 {
      ReadsUnfinished(frames, []);
    } else if cut <= |frames[0]| {
      EncodeHead(frames, cut);
      ReadsUnfinished(frames, frames[0][..cut]);
    } else {
      var past := cut - |frames[0]| - 1;
      TruncatedPipe(frames[1..], past);
      EncodeCut(frames, cut, past);
      ReadsPrefixMore(frames, Encode(frames[1..])[..past], Encode(frames)[..cut]);
    }
  }

  lemma EncodeHead(frames: seq<seq<Byte>>, cut: nat)
    requires frames != [] && cut <= |frames[0]| && LF !in frames[0]
    ensures cut <= |Encode(frames)| && Encode(frames)[..cut] == frames[0][..cut]
    ensures LF !in frames[0][..cut]
  {
  }

  lemma ReadsUnfinished(frames: seq<seq<Byte>>, stream: seq<Byte>)
    requires LF !in stream
    ensures ReadsPrefixOf(frames, stream)
  {
    LineUnfinished(stream, false);
  }

  lemma ReadsPrefixMore(frames: seq<seq<Byte>>, rest: seq<Byte>, stream: seq<Byte>)
    requires frames != [] && Transparent(frames[0]) && ReadsPrefixOf(frames[1..], rest)
    requires stream == frames[0] + [LF] + rest
    ensures ReadsPrefixOf(frames, stream)
  {
    ReadAllTransparent(frames[0], rest, false);
    EncodeCons(frames[0], ReadAll(rest, false).0, rest);
  }

  lemma EncodeCut(frames: seq<seq<Byte>>, cut: nat, past: nat)
    requires frames != [] && past <= |Encode(frames[1..])|
    requires cut == |frames[0]| + 1 + past <= |Encode(frames)|
    ensures Encode(frames)[..cut] == frames[0] + [LF] + Encode(frames[1..])[..past]
  {
  }

  lemma EncodeCons(frame: seq<Byte>, frames: seq<seq<Byte>>, rest: seq<Byte>)
    ensures Encode([frame] + frames) == frame + [LF] + rest <==> Encode(frames) == rest
  {
    var line := frame + [LF];
    assert ([frame] + frames)[1..] == frames;
    assert (line + Encode(frames))[|line|..] == Encode(frames);
    assert (line + rest)[|line|..] == rest;
  }
}
