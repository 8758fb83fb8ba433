/** WebSocket frames and messages over a socket that delivers its bytes in pieces of any size. */
module WebSocket {
  import opened Basics
  import opened WebSocketFrame

  // ----- messages as values -------------------------------------------------------------------------

  /** What read_message gives; for a close, code 1000 and no reason stand if the frame has none. */
  datatype Message = Message(op: int, payload: seq<byte>, closed: bool, code: int, reason: seq<byte>)

  /** A message or an error, and the payloads of the pongs sent meanwhile. */
  datatype Outcome = Outcome(read: Read<Message>, pongs: seq<seq<byte>>)

  lemma {:induction false} DecodeConsumes(input: seq<byte>, opts: ReadOptions, eof: int)
    ensures Decode(input, opts, eof).Got? ==> |Decode(input, opts, eof).rest| < |input|
  {}

  function Closing(payload: seq<byte>): Message {
    if |payload| >= 2 then Message(Text, [], true, Number(payload[..2]), payload[2..])
    else Message(Text, [], true, 1000, [])
  }

  /** What one frame means to read_message: it is finished, or it goes on with the message so far and
      the pongs to send. */
  datatype Step = Stop(read: Read<Message>) | Go(started: bool, op: int, buffer: seq<byte>, pongs: seq<seq<byte>>)

  function Advance(f: Frame, rest: seq<byte>, respond: bool, started: bool, op: int, buffer: seq<byte>): Step {
    if f.op == Ping then Go(started, op, buffer, if respond then [f.payload] else [])
    else if f.op == Pong then Go(started, op, buffer, [])
    else if f.op == Close then Stop(Got(Closing(f.payload), rest))
    else if started == (f.op != Continuation) then Stop(Err(-EPROTO, rest))
    else
      var op', buffer' := if started then op else f.op, if started then buffer + f.payload else f.payload;
      if f.fin then Stop(Got(Message(op', buffer', false, 1000, []), rest)) else Go(true, op', buffer', [])
  }

  /** read_message, from any point of its loop: `buffer` is the message so far. */
  function Gather(input: seq<byte>, opts: ReadOptions, respond: bool, eof: int, started: bool, op: int, buffer: seq<byte>): Outcome
    decreases |input|
  {
    DecodeConsumes(input, opts, eof);
    match Decode(input, opts, eof)
    case Err(e, rest) => Outcome(Err(e, rest), [])
    case Got(f, rest) =>
      match Advance(f, rest, respond, started, op, buffer)
      case Stop(read) => Outcome(read, [])
      case Go(started', op', buffer', pongs) =>
        var o := Gather(rest, opts, respond, eof, started', op', buffer');
        o.(pongs := pongs + o.pongs)
  }

  // ----- fragments ----------------------------------------------------------------------------------

  /** One frame of a fragmented message, or a control frame in between, final or not, each masked or not. */
  datatype Item =
    | Data(payload: seq<byte>, key: Option<nat>)
    | PingItem(payload: seq<byte>, key: Option<nat>, final: bool)
    | PongItem(payload: seq<byte>, key: Option<nat>, final: bool)

  ghost predicate Fits(i: Item, opts: ReadOptions) {
    && |i.payload| <= opts.maxFrameSize && |i.payload| < 0x1_0000_0000_0000_0000
    && (if i.key.Some? then i.key.value < 0x1_0000_0000 else !opts.requireMasked)
  }

  ghost predicate AllFit(items: seq<Item>, opts: ReadOptions) {
    forall i :: i in items ==> Fits(i, opts)
  }

  /** The frame for an item: the first fragment has the message's opcode, the others continue it. */
  function FrameOf(i: Item, op: int, started: bool, fin: bool): Outgoing {
    match i
    case Data(p, k) => Outgoing(fin, if started then Continuation else op, k, p)
    case PingItem(p, k, final) => Outgoing(final, Ping, k, p)
    case PongItem(p, k, final) => Outgoing(final, Pong, k, p)
  }

  /** The items on the wire; the last fragment is final if `complete`. */
  ghost function Wire(items: seq<Item>, op: int, started: bool, complete: bool): seq<byte>
    requires 0 <= op < 16
  {
    if items == [] then []
    else
      Encode(FrameOf(items[0], op, started, complete && |items| == 1)) + Wire(items[1..], op, started || items[0].Data?, complete)
  }

  function Payload(items: seq<Item>): seq<byte> {
    if items == [] then [] else (if items[0].Data? then items[0].payload else []) + Payload(items[1..])
  }

  function Pings(items: seq<Item>): seq<seq<byte>> {
    if items == [] then [] else (if items[0].PingItem? then [items[0].payload] else []) + Pings(items[1..])
  }

  ghost predicate DataOp(op: int) {
    0 < op < 16 && op != Close && op != Ping && op != Pong
  }

  /** One frame read. */
  lemma {:induction false} GatherOne(i: Item, op: int, started: bool, fin: bool, rest: seq<byte>, opts: ReadOptions, eof: int)
    requires DataOp(op) && Fits(i, opts) && opts.autoUnmask
    ensures var f := FrameOf(i, op, started, fin);
            Decode(Encode(f) + rest, opts, eof) == Got(Frame(f.fin, f.op, f.key.Some?, if f.key.Some? then f.key.value else 0, i.payload), rest)
  {
    FrameRoundTrip(FrameOf(i, op, started, fin), rest, opts, eof);
  }

  /** read_message's loop, one item further. */
  lemma {:induction false} GatherItem(i: Item, op: int, started: bool, fin: bool, rest: seq<byte>, opts: ReadOptions, respond: bool, eof: int,
                                      was: int, buffer: seq<byte>)
    requires DataOp(op) && Fits(i, opts) && opts.autoUnmask && (started ==> was == op)
    ensures var now := if started then buffer + i.payload else i.payload;
            var o := Gather(Encode(FrameOf(i, op, started, fin)) + rest, opts, respond, eof, started, was, buffer);
            match i
            case Data(_, _) => o == if fin then Outcome(Got(Message(op, now, false, 1000, []), rest), []) else Gather(rest, opts, respond, eof, true, op, now)
            case PingItem(_, _, _) =>
              var o' := Gather(rest, opts, respond, eof, started, was, buffer);
              o == o'.(pongs := (if respond then [i.payload] else []) + o'.pongs)
            case PongItem(_, _, _) => o == Gather(rest, opts, respond, eof, started, was, buffer)
  {
    GatherOne(i, op, started, fin, rest, opts, eof);
    var o' := Gather(rest, opts, respond, eof, started || i.Data?, if i.Data? then op else was,
                     if !i.Data? then buffer else if started then buffer + i.payload else i.payload);
    assert [] + o'.pongs == o'.pongs;
  }

  ghost function Whole(op: int, buffer: seq<byte>, items: seq<Item>, rest: seq<byte>, respond: bool): Outcome {
    Outcome(Got(Message(op, buffer + Payload(items), false, 1000, []), rest), if respond then Pings(items) else [])
  }

  /** One item more in front. */
  lemma {:induction false} WholeCons(op: int, buffer: seq<byte>, items: seq<Item>, rest: seq<byte>, respond: bool)
    requires items != []
    ensures items[0].Data? ==> Whole(op, buffer, items, rest, respond) == Whole(op, buffer + items[0].payload, items[1..], rest, respond)
    ensures items[0].PongItem? ==> Whole(op, buffer, items, rest, respond) == Whole(op, buffer, items[1..], rest, respond)
    ensures items[0].PingItem? ==> var w := Whole(op, buffer, items[1..], rest, respond);
              Whole(op, buffer, items, rest, respond) == w.(pongs := (if respond then [items[0].payload] else []) + w.pongs)
  {
    if items[0].Data? { assert buffer + (items[0].payload + Payload(items[1..])) == (buffer + items[0].payload) + Payload(items[1..]); }
    assert [] + Payload(items[1..]) == Payload(items[1..]) && [] + Pings(items[1..]) == Pings(items[1..]);
  }

  lemma {:induction false} LastItem(op: int, buffer: seq<byte>, none: seq<Item>, rest: seq<byte>, respond: bool)
    requires none == []
    ensures Whole(op, buffer, none, rest, respond) == Outcome(Got(Message(op, buffer, false, 1000, []), rest), [])
  {
    assert buffer + [] == buffer;
  }

  lemma {:induction false} WireCons(items: seq<Item>, op: int, started: bool, complete: bool, rest: seq<byte>, opts: ReadOptions)
    requires 0 <= op < 16 && AllFit(items, opts) && items != []
    ensures AllFit(items[1..], opts) && Fits(items[0], opts)
    ensures Wire(items, op, started, complete) + rest
            == Encode(FrameOf(items[0], op, started, complete && |items| == 1)) + (Wire(items[1..], op, started || items[0].Data?, complete) + rest)
  {
    forall j | j in items[1..] ensures Fits(j, opts) { assert j in items; }
  }

  /** However a message is cut into fragments, and whatever pings and pongs come in between, read_message
      gives its opcode and its payload in one piece and answers each ping, in order, if it is to. */
  lemma {:induction false} Reassembly(items: seq<Item>, op: int, rest: seq<byte>, opts: ReadOptions, respond: bool, eof: int,
                                      started: bool, buffer: seq<byte>, was: int)
    requires DataOp(op) && opts.autoUnmask && AllFit(items, opts) && items != [] && items[|items| - 1].Data? && (started ==> was == op)
    ensures Gather(Wire(items, op, started, true) + rest, opts, respond, eof, started, was, buffer)
            == Whole(op, if started then buffer else [], items, rest, respond)
    decreases |items|
  {
    var i, tail, so := items[0], items[1..], if started then buffer else [];
    if |items| == 1 {
      StepLast(items, op, rest, opts, respond, eof, started, buffer, was, so);
    } else {
      forall j | j in tail ensures Fits(j, opts) { assert j in items; }
      if i.Data? {
        Reassembly(tail, op, rest, opts, respond, eof, true, so + i.payload, op);
        StepData(items, op, rest, opts, respond, eof, started, buffer, was, so);
      } else {
        Reassembly(tail, op, rest, opts, respond, eof, started, buffer, was);
        StepControl(items, op, rest, opts, respond, eof, started, buffer, was, so);
      }
    }
  }

  lemma {:induction false} StepLast(items: seq<Item>, op: int, rest: seq<byte>, opts: ReadOptions, respond: bool, eof: int,
                                    started: bool, buffer: seq<byte>, was: int, so: seq<byte>)
    requires DataOp(op) && opts.autoUnmask && AllFit(items, opts) && |items| == 1 && items[0].Data? && (started ==> was == op) && so == (if started then buffer else [])
    ensures Gather(Wire(items, op, started, true) + rest, opts, respond, eof, started, was, buffer) == Whole(op, so, items, rest, respond)
  {
    WireCons(items, op, started, true, rest, opts);
    LastRead(items[0], items[1..], op, started, rest, opts, respond, eof, was, buffer, so);
    WholeCons(op, so, items, rest, respond);
  }

  lemma {:induction false} StepData(items: seq<Item>, op: int, rest: seq<byte>, opts: ReadOptions, respond: bool, eof: int,
                                    started: bool, buffer: seq<byte>, was: int, so: seq<byte>)
    requires DataOp(op) && opts.autoUnmask && AllFit(items, opts) && |items| > 1 && items[0].Data? && (started ==> was == op) && so == (if started then buffer else [])
    requires Gather(Wire(items[1..], op, true, true) + rest, opts, respond, eof, true, op, so + items[0].payload)
             == Whole(op, so + items[0].payload, items[1..], rest, respond)
    ensures Gather(Wire(items, op, started, true) + rest, opts, respond, eof, started, was, buffer) == Whole(op, so, items, rest, respond)
  {
    WireCons(items, op, started, true, rest, opts);
    DataRead(items[0], op, started, false, Wire(items[1..], op, true, true) + rest, opts, respond, eof, was, buffer, so);
    WholeCons(op, so, items, rest, respond);
  }

  lemma {:induction false} StepControl(items: seq<Item>, op: int, rest: seq<byte>, opts: ReadOptions, respond: bool, eof: int,
                                       started: bool, buffer: seq<byte>, was: int, so: seq<byte>)
    requires DataOp(op) && opts.autoUnmask && AllFit(items, opts) && |items| > 1 && !items[0].Data? && (started ==> was == op) && so == (if started then buffer else [])
    requires Gather(Wire(items[1..], op, started, true) + rest, opts, respond, eof, started, was, buffer) == Whole(op, so, items[1..], rest, respond)
    ensures Gather(Wire(items, op, started, true) + rest, opts, respond, eof, started, was, buffer) == Whole(op, so, items, rest, respond)
  {
    WireCons(items, op, started, true, rest, opts);
    GatherItem(items[0], op, started, false, Wire(items[1..], op, started, true) + rest, opts, respond, eof, was, buffer);
    WholeCons(op, so, items, rest, respond);
  }

  lemma {:induction false} LastRead(i: Item, none: seq<Item>, op: int, started: bool, rest: seq<byte>, opts: ReadOptions, respond: bool, eof: int,
                                    was: int, buffer: seq<byte>, so: seq<byte>)
    requires i.Data? && DataOp(op) && Fits(i, opts) && opts.autoUnmask && (started ==> was == op) && so == (if started then buffer else []) && none == []
    ensures Gather(Encode(FrameOf(i, op, started, true)) + (Wire(none, op, true, true) + rest), opts, respond, eof, started, was, buffer)
            == Whole(op, so + i.payload, none, rest, respond)
  {
    assert Wire(none, op, true, true) + rest == rest;
    DataRead(i, op, started, true, rest, opts, respond, eof, was, buffer, so);
    LastItem(op, so + i.payload, none, rest, respond);
  }

  lemma {:induction false} DataRead(i: Item, op: int, started: bool, fin: bool, rest: seq<byte>, opts: ReadOptions, respond: bool, eof: int,
                                    was: int, buffer: seq<byte>, so: seq<byte>)
    requires i.Data? && DataOp(op) && Fits(i, opts) && opts.autoUnmask && (started ==> was == op) && so == if started then buffer else []
    ensures Gather(Encode(FrameOf(i, op, started, fin)) + rest, opts, respond, eof, started, was, buffer)
            == if fin then Outcome(Got(Message(op, so + i.payload, false, 1000, []), rest), []) else Gather(rest, opts, respond, eof, true, op, so + i.payload)
  {
    GatherItem(i, op, started, fin, rest, opts, respond, eof, was, buffer);
    assert (if started then buffer + i.payload else i.payload) == so + i.payload;
  }

  // ----- what ends the loop ---------------------------------------------------------------------------

  /** Whether a message is begun after these items, and what there is of it. */
  predicate Begun(items: seq<Item>, started: bool) {
    started || exists i :: i in items && i.Data?
  }

  /** read_message's loop up to the end of the items: the pings are answered, and it goes on with the
      message so far. */
  lemma {:induction false} GatherItems(items: seq<Item>, op: int, tail: seq<byte>, opts: ReadOptions, respond: bool, eof: int,
                                       started: bool, was: int, buffer: seq<byte>) returns (now: int, sofar: seq<byte>)
    requires DataOp(op) && opts.autoUnmask && AllFit(items, opts) && (started ==> was == op)
    ensures var o := Gather(tail, opts, respond, eof, Begun(items, started), now, sofar);
            Gather(Wire(items, op, started, false) + tail, opts, respond, eof, started, was, buffer)
            == o.(pongs := (if respond then Pings(items) else []) + o.pongs)
    ensures (Begun(items, started) ==> now == op) && (started ==> sofar == buffer + Payload(items))
    decreases |items|
  {
    if items == [] {
      now, sofar := was, buffer;
      assert Wire(items, op, started, false) + tail == tail && buffer + [] == buffer;
      var o := Gather(tail, opts, respond, eof, started, was, buffer);
      assert [] + o.pongs == o.pongs;
    } else {
      var i, rest := items[0], items[1..];
      var so := if !i.Data? then buffer else if started then buffer + i.payload else i.payload;
      WireCons(items, op, started, false, tail, opts);
      GatherItem(i, op, started, false, Wire(rest, op, started || i.Data?, false) + tail, opts, respond, eof, was, buffer);
      now, sofar := GatherItems(rest, op, tail, opts, respond, eof, started || i.Data?, if i.Data? then op else was, so);
      BegunCons(items, started);
      var o := Gather(tail, opts, respond, eof, Begun(items, started), now, sofar);
      PongsCons(items, respond, o.pongs);
      if started { PayloadCons(items, buffer); }
    }
  }

  lemma {:induction false} BegunCons(items: seq<Item>, started: bool)
    requires items != []
    ensures Begun(items, started) == Begun(items[1..], started || items[0].Data?)
  {
    assert forall i :: i in items <==> i == items[0] || i in items[1..];
  }

  lemma {:induction false} PongsCons(items: seq<Item>, respond: bool, pongs: seq<seq<byte>>)
    requires items != []
    ensures (if respond then Pings(items) else []) + pongs
            == (if respond && items[0].PingItem? then [items[0].payload] else []) + ((if respond then Pings(items[1..]) else []) + pongs)
  {}

  lemma {:induction false} PayloadCons(items: seq<Item>, buffer: seq<byte>)
    requires items != []
    ensures buffer + Payload(items) == (if items[0].Data? then buffer + items[0].payload else buffer) + Payload(items[1..])
  {}

  /** A frame as read when it was sent as `f`. */
  lemma {:induction false} ReadBack(f: Outgoing, rest: seq<byte>, opts: ReadOptions, eof: int)
    requires 0 <= f.op < 16 && opts.autoUnmask && Fits(Data(f.payload, f.key), opts)
    ensures Decode(Encode(f) + rest, opts, eof) == Got(Frame(f.fin, f.op, f.key.Some?, if f.key.Some? then f.key.value else 0, f.payload), rest)
  {
    FrameRoundTrip(f, rest, opts, eof);
  }

  /** A close frame ends every message, wherever it comes: also after pings, pongs and fragments, final or
      not, and whatever its payload. The first two bytes are the code, the others the reason; with fewer than
      two bytes the code is 1000 and there is no reason. */
  lemma {:induction false} CloseEnds(items: seq<Item>, op: int, fin: bool, key: Option<nat>, payload: seq<byte>, rest: seq<byte>,
                                     opts: ReadOptions, respond: bool, eof: int, started: bool, was: int, buffer: seq<byte>)
    requires DataOp(op) && opts.autoUnmask && AllFit(items, opts) && Fits(Data(payload, key), opts) && (started ==> was == op)
    ensures Gather(Wire(items, op, started, false) + (Encode(Outgoing(fin, Close, key, payload)) + rest), opts, respond, eof, started, was, buffer)
            == Outcome(Got(Message(Text, [], true, CodeOf(payload), ReasonOf(payload)), rest), if respond then Pings(items) else [])
  {
    var f := Outgoing(fin, Close, key, payload);
    var tail := Encode(f) + rest;
    var now, sofar := GatherItems(items, op, tail, opts, respond, eof, started, was, buffer);
    CloseRead(f, rest, opts, respond, eof, Begun(items, started), now, sofar);
    assert (if respond then Pings(items) else []) + [] == if respond then Pings(items) else [];
  }

  /** The code of a close payload, big end first, and its reason. */
  ghost function CodeOf(payload: seq<byte>): int {
    if |payload| < 2 then 1000
    else
      var high: int, low: int := payload[0], payload[1];
      high * 256 + low
  }

  ghost function ReasonOf(payload: seq<byte>): seq<byte> {
    if |payload| < 2 then [] else payload[2..]
  }

  lemma {:induction false} CloseRead(f: Outgoing, rest: seq<byte>, opts: ReadOptions, respond: bool, eof: int, started: bool, op: int, buffer: seq<byte>)
    requires f.op == Close && opts.autoUnmask && Fits(Data(f.payload, f.key), opts)
    ensures Gather(Encode(f) + rest, opts, respond, eof, started, op, buffer)
            == Outcome(Got(Message(Text, [], true, CodeOf(f.payload), ReasonOf(f.payload)), rest), [])
  {
    ReadBack(f, rest, opts, eof);
    if |f.payload| >= 2 { NumberOfTwo(f.payload[..2]); }
  }

  lemma {:induction false} NumberOfTwo(bs: seq<byte>)
    requires |bs| == 2
    ensures Number(bs) == CodeOf(bs)
  {
    assert bs[..1][..0] == [];
    assert Number(bs[..1]) == bs[0];
  }

  /** A data frame out of place ends in an error, after the pongs for the pings before it: a continuation
      when no message is begun, or the start of another message in the middle of one. */
  lemma {:induction false} OutOfPlace(items: seq<Item>, op: int, f: Outgoing, rest: seq<byte>,
                                      opts: ReadOptions, respond: bool, eof: int, started: bool, was: int, buffer: seq<byte>)
    requires DataOp(op) && opts.autoUnmask && AllFit(items, opts) && Fits(Data(f.payload, f.key), opts) && (started ==> was == op)
    requires if Begun(items, started) then DataOp(f.op) else f.op == Continuation
    ensures Gather(Wire(items, op, started, false) + (Encode(f) + rest), opts, respond, eof, started, was, buffer)
            == Outcome(Err(-EPROTO, rest), if respond then Pings(items) else [])
  {
    var now, sofar := GatherItems(items, op, Encode(f) + rest, opts, respond, eof, started, was, buffer);
    ReadBack(f, rest, opts, eof);
    assert (if respond then Pings(items) else []) + [] == if respond then Pings(items) else [];
  }

  /** An error of read_frame is the error of read_message, wherever it comes: the end of the stream, or a
      frame that is refused. */
  lemma {:induction false} ErrorEnds(items: seq<Item>, op: int, tail: seq<byte>, opts: ReadOptions, respond: bool, eof: int,
                                     started: bool, was: int, buffer: seq<byte>)
    requires DataOp(op) && opts.autoUnmask && AllFit(items, opts) && Decode(tail, opts, eof).Err? && (started ==> was == op)
    ensures var d := Decode(tail, opts, eof);
            Gather(Wire(items, op, started, false) + tail, opts, respond, eof, started, was, buffer)
            == Outcome(Err(d.error, d.rest), if respond then Pings(items) else [])
  {
    var now, sofar := GatherItems(items, op, tail, opts, respond, eof, started, was, buffer);
    assert (if respond then Pings(items) else []) + [] == if respond then Pings(items) else [];
  }

  // ----- closing ------------------------------------------------------------------------------------

  /** send_close's payload. */
  function ClosePayload(code: nat, reason: seq<byte>): seq<byte>
    requires code < 0x1_0000
  {
    Digits(code, 2) + reason
  }

  /** send_close, also in the middle of a message and among pings and pongs: read_message gives the same
      code and reason. */
  lemma {:induction false} CloseRoundTrip(items: seq<Item>, op: int, code: nat, reason: seq<byte>, key: Option<nat>, rest: seq<byte>,
                                          opts: ReadOptions, respond: bool, eof: int, started: bool, buffer: seq<byte>)
    requires DataOp(op) && opts.autoUnmask && AllFit(items, opts) && code < 0x1_0000
    requires Fits(Data(ClosePayload(code, reason), key), opts)
    ensures var close := Encode(Outgoing(true, Close, key, ClosePayload(code, reason)));
            Gather(Wire(items, op, started, false) + (close + rest), opts, respond, eof, started, op, buffer)
            == Outcome(Got(Message(Text, [], true, code, reason), rest), if respond then Pings(items) else [])
  {
    ClosePayloadRead(code, reason);
    CloseEnds(items, op, true, key, ClosePayload(code, reason), rest, opts, respond, eof, started, op, buffer);
  }

  lemma {:induction false} ClosePayloadRead(code: nat, reason: seq<byte>)
    requires code < 0x1_0000
    ensures CodeOf(ClosePayload(code, reason)) == code && ReasonOf(ClosePayload(code, reason)) == reason
  {
    var payload := ClosePayload(code, reason);
    Pow256Values();
    NumberOfDigits(code, 2);
    assert payload[..2] == Digits(code, 2);
    NumberOfTwo(payload[..2]);
  }
}
