/** Reading and writing WebSocket frames and messages through a socket. */
module WebSocketIo {
  import opened Basics
  import opened WebSocketFrame
  import opened WebSocket

  /** A connected socket: the bytes still to come, the bytes sent, and how the stream is cut up: `cut(k)`
      proposes the size of the piece the k-th recv gives. At the end of the input recv gives `atEnd`. */
  class Socket {
    var input: seq<byte>
    var output: seq<byte>
    var turn: nat
    const cut: nat -> nat
    const atEnd: int

    constructor (input: seq<byte>, cut: nat -> nat, atEnd: int)
      requires atEnd <= 0
      ensures this.input == input && output == [] && this.cut == cut && this.atEnd == atEnd
    {
      this.input, output, turn, this.cut, this.atEnd := input, [], 0, cut, atEnd;
    }

    /** The error a reader makes of the end of the input. */
    function Eof(): int {
      if atEnd == 0 then -ECONNRESET else atEnd
    }

    /** At least one byte and at most `want`, or the end of the input. */
    method Recv(want: nat) returns (n: int, bytes: seq<byte>)
      requires want > 0 && atEnd <= 0
      modifies this`input, this`turn
      ensures if old(input) == [] then n == atEnd && bytes == [] && input == []
              else 1 <= n <= want && n <= |old(input)| && bytes == old(input)[..n] && input == old(input)[n..]
    {
      if input == [] { return atEnd, []; }
      n := cut(turn);
      if n < 1 { n := 1; }
      if n > want { n := want; }
      if n > |input| { n := |input|; }
      bytes, input, turn := input[..n], input[n..], turn + 1;
    }

    /** The loop around recv that fills a buffer. */
    method ReadExact(n: nat) returns (r: Read<seq<byte>>)
      requires atEnd <= 0
      modifies this`input, this`turn
      ensures r == Take(old(input), n, Eof()) && input == r.rest
    {
      var buf: seq<byte> := [];
      while |buf| < n
        invariant |buf| <= n && buf + input == old(input)
        decreases n - |buf|
      {
        var got, bytes := Recv(n - |buf|);
        if got <= 0 {
          assert |old(input)| < n;
          return Err(if got == 0 then -ECONNRESET else got, input);
        }
        assert buf + (bytes + input) == (buf + bytes) + input;
        buf := buf + bytes;
      }
      assert old(input)[..n] == buf && old(input)[n..] == input;
      return Got(buf, input);
    }

    method SendAll(bytes: seq<byte>)
      modifies this`output
      ensures output == old(output) + bytes
    {
      output := output + bytes;
    }

    /** The masking loop, in place. */
    method Unmask(payload: seq<byte>, mask: seq<byte>) returns (r: seq<byte>)
      requires |mask| == 4
      ensures r == Masked(payload, mask)
    {
      r := payload;
      for i := 0 to |payload|
        invariant |r| == |payload|
        invariant forall j :: 0 <= j < i ==> r[j] == Xor(payload[j], mask[j % 4])
        invariant forall j :: i <= j < |payload| ==> r[j] == payload[j]
      {
        r := r[i := Xor(r[i], mask[i % 4])];
      }
    }

    /** read_frame: whatever the pieces, the result is that of decoding the stream. */
    method ReadFrame(opts: ReadOptions) returns (r: Read<Frame>)
      requires atEnd <= 0
      modifies this`input, this`turn
      ensures r == Decode(old(input), opts, Eof()) && input == r.rest
    {
      var header := ReadExact(2);
      if header.Err? { return Err(header.error, header.rest); }
      var b0, b1 := header.value[0], header.value[1];
      if b0 / 16 % 8 != 0 { return Err(-EPROTO, input); }
      var length := ReadLength(b1 % 128);
      if length.Err? { return Err(length.error, length.rest); }
      if length.value > opts.maxFrameSize { return Err(-EMSGSIZE, input); }
      var key := ReadKey(b1 >= 128, opts);
      if key.Err? { return Err(key.error, key.rest); }
      r := ReadPayload(b0 >= 128, b0 % 16, length.value, key.value, opts);
    }

    method ReadLength(code: int) returns (r: Read<nat>)
      requires atEnd <= 0 && 0 <= code < 128
      modifies this`input, this`turn
      ensures r == DecodeLength(code, old(input), Eof()) && input == r.rest
    {
      if code < 126 { return Got(code, input); }
      var bs := ReadExact(if code == 126 then 2 else 8);
      if bs.Err? { return Err(bs.error, bs.rest); }
      var n: nat := 0;
      for i := 0 to |bs.value|
        invariant n == Number(bs.value[..i])
      {
        assert bs.value[..i + 1][..i] == bs.value[..i];
        var digit: int := bs.value[i];
        n := n * 256 + digit;
      }
      assert bs.value[..|bs.value|] == bs.value;
      return Got(n, input);
    }

    method ReadKey(masked: bool, opts: ReadOptions) returns (r: Read<Option<nat>>)
      requires atEnd <= 0
      modifies this`input, this`turn
      ensures r == DecodeKey(masked, old(input), opts, Eof()) && input == r.rest
    {
      if masked {
        var bs := ReadExact(4);
        if bs.Err? { return Err(bs.error, bs.rest); }
        return Got(Some(Number(bs.value)), input);
      }
      if opts.requireMasked { return Err(-EPROTO, input); }
      return Got(None, input);
    }

    method ReadPayload(fin: bool, op: int, n: nat, key: Option<nat>, opts: ReadOptions) returns (r: Read<Frame>)
      requires atEnd <= 0
      modifies this`input, this`turn
      ensures r == DecodePayload(fin, op, n, key, old(input), opts, Eof()) && input == r.rest
    {
      var bs := ReadExact(n);
      if bs.Err? { return Err(bs.error, bs.rest); }
      var payload := bs.value;
      if key.Some? && opts.autoUnmask { payload := Unmask(payload, Digits(key.value, 4)); }
      return Got(Frame(fin, op, key.Some?, if key.Some? then key.value else 0, payload), input);
    }

    /** send_frame: the header is built in a buffer of fourteen bytes, which is always enough. */
    method SendFrame(f: Outgoing)
      requires 0 <= f.op < 16
      modifies this`output
      ensures output == old(output) + Encode(f)
    {
      var header := new byte[14];
      var len := BuildHeader(header, f);
      SendAll(header[..len]);
      if f.payload == [] {
        assert Body(f) == [];
        assert Encode(f) == Header(f);
        return;
      }
      var body := f.payload;
      if f.key.Some? { body := Unmask(body, Digits(f.key.value, 4)); }
      SendAll(body);
      assert (old(output) + Header(f)) + Body(f) == old(output) + Encode(f);
    }

    method BuildHeader(header: array<byte>, f: Outgoing) returns (len: nat)
      requires header.Length == 14 && 0 <= f.op < 16
      modifies header
      ensures len <= 14 && header[..len] == Header(f)
    {
      header[0] := Bit(f.fin) + f.op;
      var n := |f.payload|;
      if n <= 125 {
        header[1] := Bit(f.key.Some?) + n;
        len := 2;
        assert header[1..len] == LengthField(n, f.key.Some?);
      } else if n <= 0xFFFF {
        header[1] := Bit(f.key.Some?) + 126;
        PutDigits(header, 2, n, 2);
        len := 4;
        assert header[1..len] == [header[1]] + header[2..len];
      } else {
        header[1] := Bit(f.key.Some?) + 127;
        PutDigits(header, 2, n, 8);
        len := 10;
        assert header[1..len] == [header[1]] + header[2..len];
      }
      ghost var start := header[..len];
      assert start == [header[0]] + header[1..len];
      if f.key.Some? {
        PutDigits(header, len, f.key.value, 4);
        assert header[..len + 4] == header[..len] + header[len..len + 4];
        len := len + 4;
      }
    }

    /** The last `n` base-256 digits of `v`, into the buffer. */
    method PutDigits(header: array<byte>, at: nat, v: nat, n: nat)
      requires at + n <= header.Length
      modifies header
      ensures header[..at] == old(header[..at]) && header[at..at + n] == Digits(v, n)
    {
      ghost var before := header[..at];
      for i := 0 to n
        invariant header[..at] == before
        invariant forall j :: 0 <= j < i ==> header[at + j] == Digits(v, n)[j]
      {
        DigitAt(v, n, i);
        header[at + i] := v / Pow256(n - 1 - i) % 256;
      }
    }

    /** read_message: the stream's next message, and a pong sent for each ping if asked for. */
    method ReadMessage(opts: ReadOptions, respond: bool) returns (r: Read<Message>)
      requires atEnd <= 0
      modifies this`input, this`turn, this`output
      ensures var o := Gather(old(input), opts, respond, Eof(), false, Continuation, []);
              r == o.read && input == r.rest && output == old(output) + PongFrames(o.pongs)
    {
      var started, op: int, buffer: seq<byte> := false, Continuation, [];
      ghost var all, pongs: seq<seq<byte>> := Gather(input, opts, respond, Eof(), false, Continuation, []), [];
      assert [] + all.pongs == all.pongs && output + [] == output;
      while true
        invariant Pending(all, pongs, input, opts, respond, Eof(), started, op, buffer)
        invariant output == old(output) + PongFrames(pongs)
        decreases |input|
      {
        ghost var before := input;
        var step := ReadStep(opts, respond, started, op, buffer);
        PendingStep(all, pongs, before, opts, respond, Eof(), started, op, buffer);
        if step.Stop? { return step.read; }
        SentMore(old(output), pongs, step.pongs);
        started, op, buffer, pongs := step.started, step.op, step.buffer, pongs + step.pongs;
      }
    }

    /** read_message's loop, once. */
    method ReadStep(opts: ReadOptions, respond: bool, started: bool, op: int, buffer: seq<byte>) returns (step: Step)
      requires atEnd <= 0
      modifies this`input, this`turn, this`output
      ensures step == NextStep(old(input), opts, respond, Eof(), started, op, buffer)
      ensures if step.Stop? then input == step.read.rest && output == old(output)
              else input == RestOf(old(input), opts, Eof()) && |input| < |old(input)| && output == old(output) + PongFrames(step.pongs)
    {
      DecodeConsumes(input, opts, Eof());
      var fr := ReadFrame(opts);
      if fr.Err? { return Stop(Err(fr.error, fr.rest)); }
      step := OneFrame(fr.value, respond, started, op, buffer);
      assert output + [] == output;
    }

    /** The body of read_message's loop, after the frame is read. */
    method OneFrame(f: Frame, respond: bool, started: bool, op: int, buffer: seq<byte>) returns (step: Step)
      modifies this`output
      ensures step == Advance(f, input, respond, started, op, buffer)
      ensures output == (if step.Go? then old(output) + PongFrames(step.pongs) else old(output))
      ensures step.Stop? ==> step.read.rest == input
    {
      if f.op == Ping {
        var pongs := if respond then [f.payload] else [];
        SendPongs(f.payload, respond);
        return Go(started, op, buffer, pongs);
      }
      assert output + [] == output;
      if f.op == Pong {
        return Go(started, op, buffer, []);
      } else if f.op == Close {
        return Stop(Got(Closing(f.payload), input));
      }
      if started == (f.op != Continuation) { return Stop(Err(-EPROTO, input)); }
      step := Fragment(f, started, op, buffer);
    }

    /** A pong for a ping, if asked for. */
    method SendPongs(payload: seq<byte>, respond: bool)
      modifies this`output
      ensures output == old(output) + PongFrames(if respond then [payload] else [])
    {
      if respond {
        SendFrame(Outgoing(true, Pong, None, payload));
        PongSnoc([], payload);
        assert [] + [payload] == [payload];
        Regroup(old(output), [], Encode(Outgoing(true, Pong, None, payload)));
      } else {
        assert output + [] == output;
      }
    }

    /** A fragment joins the message. */
    method Fragment(f: Frame, started: bool, op: int, buffer: seq<byte>) returns (step: Step)
      requires f.op != Ping && f.op != Pong && f.op != Close && started == (f.op == Continuation)
      ensures step == Advance(f, input, false, started, op, buffer)
      ensures step.Go? ==> step.pongs == []
      ensures step.Stop? ==> step.read.rest == input
    {
      var op', buffer' := op, buffer;
      if !started {
        op', buffer' := f.op, f.payload;
      } else {
        buffer' := buffer + f.payload;
      }
      if f.fin { return Stop(Got(Message(op', buffer', false, 1000, []), input)); }
      return Go(true, op', buffer', []);
    }

    /** send_close. */
    method SendClose(code: nat, reason: seq<byte>, key: Option<nat>)
      requires code < 0x1_0000
      modifies this`output
      ensures output == old(output) + Encode(Outgoing(true, Close, key, ClosePayload(code, reason)))
    {
      SendFrame(Outgoing(true, Close, key, ClosePayload(code, reason)));
    }
  }

  ghost function PongFrames(pongs: seq<seq<byte>>): seq<byte> {
    if pongs == [] then [] else PongFrames(pongs[..|pongs| - 1]) + Encode(Outgoing(true, Pong, None, pongs[|pongs| - 1]))
  }

  lemma {:induction false} PongSnoc(pongs: seq<seq<byte>>, p: seq<byte>)
    ensures PongFrames(pongs + [p]) == PongFrames(pongs) + Encode(Outgoing(true, Pong, None, p))
  {
    assert (pongs + [p])[..|pongs|] == pongs;
  }

  lemma {:induction false} PongsAppend(a: seq<seq<byte>>, b: seq<seq<byte>>)
    ensures PongFrames(a + b) == PongFrames(a) + PongFrames(b)
  {
    if b == [] {
      assert a + b == a;
    } else {
      var b', last := b[..|b| - 1], b[|b| - 1];
      assert a + b == (a + b') + [last] && b == b' + [last];
      PongsAppend(a, b');
      PongSnoc(a + b', last);
      PongSnoc(b', last);
      Regroup(PongFrames(a), PongFrames(b'), Encode(Outgoing(true, Pong, None, last)));
    }
  }

  lemma {:induction false} Regroup(a: seq<byte>, b: seq<byte>, c: seq<byte>)
    ensures (a + b) + c == a + (b + c)
  {
  }

  /** With `pongs` sent so far, reading on from `input` completes `all`. */
  ghost predicate Pending(all: Outcome, pongs: seq<seq<byte>>, input: seq<byte>, opts: ReadOptions, respond: bool, eof: int,
                          started: bool, op: int, buffer: seq<byte>) {
    var o := Gather(input, opts, respond, eof, started, op, buffer);
    all == o.(pongs := pongs + o.pongs)
  }

  /** What the next frame of the input means to read_message. */
  function NextStep(input: seq<byte>, opts: ReadOptions, respond: bool, eof: int, started: bool, op: int, buffer: seq<byte>): Step {
    match Decode(input, opts, eof)
    case Err(e, rest) => Stop(Err(e, rest))
    case Got(f, rest) => Advance(f, rest, respond, started, op, buffer)
  }

  ghost function RestOf(input: seq<byte>, opts: ReadOptions, eof: int): seq<byte> {
    Decode(input, opts, eof).rest
  }

  lemma {:induction false} PendingStep(all: Outcome, pongs: seq<seq<byte>>, input: seq<byte>, opts: ReadOptions, respond: bool, eof: int,
                                       started: bool, op: int, buffer: seq<byte>)
    requires Pending(all, pongs, input, opts, respond, eof, started, op, buffer)
    ensures var step := NextStep(input, opts, respond, eof, started, op, buffer);
            if step.Stop? then all == Outcome(step.read, pongs)
            else Pending(all, pongs + step.pongs, RestOf(input, opts, eof), opts, respond, eof, step.started, step.op, step.buffer)
  {
    assert pongs + [] == pongs;
    var step := NextStep(input, opts, respond, eof, started, op, buffer);
    if step.Go? {
      var o := Gather(RestOf(input, opts, eof), opts, respond, eof, step.started, step.op, step.buffer);
      assert pongs + (step.pongs + o.pongs) == (pongs + step.pongs) + o.pongs;
    }
  }

  lemma {:induction false} SentMore(output: seq<byte>, a: seq<seq<byte>>, b: seq<seq<byte>>)
    ensures (output + PongFrames(a)) + PongFrames(b) == output + PongFrames(a + b)
  {
    PongsAppend(a, b);
    Regroup(output, PongFrames(a), PongFrames(b));
  }
}
