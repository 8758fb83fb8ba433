/** WebSocket frames as byte sequences: the layout of section 5.2 and the masking of section 5.3 of
    RFC 6455, as net/websocket.hpp writes and reads them. */
module WebSocketFrame {
  import opened Basics

  const Continuation: int := 0x0
  const Text: int := 0x1
  const Binary: int := 0x2
  const Close: int := 0x8
  const Ping: int := 0x9
  const Pong: int := 0xA

  const EPROTO: int := 71
  const EMSGSIZE: int := 90
  const ECONNRESET: int := 104

  /** frame_read_options. */
  datatype ReadOptions = ReadOptions(maxFrameSize: nat, requireMasked: bool, autoUnmask: bool)

  /** A frame to send: `key` is the masking key if the payload is to be masked. */
  datatype Outgoing = Outgoing(fin: bool, op: int, key: Option<nat>, payload: seq<byte>)

  /** A frame as read. */
  datatype Frame = Frame(fin: bool, op: int, masked: bool, maskingKey: nat, payload: seq<byte>)

  ghost predicate Sendable(f: Outgoing) {
    0 <= f.op < 16 && (f.key.Some? ==> f.key.value < 0x1_0000_0000) && |f.payload| < 0x1_0000_0000_0000_0000
  }

  // ----- numbers, big end first -----------------------------------------------------------------

  /** The last `n` base-256 digits of `v`. */
  function Digits(v: nat, n: nat): (r: seq<byte>)
    ensures |r| == n
  {
    if n == 0 then [] else Digits(v / 256, n - 1) + [v % 256]
  }

  function Number(bs: seq<byte>): nat {
    if bs == [] then 0 else Number(bs[..|bs| - 1]) * 256 + bs[|bs| - 1]
  }

  /** A digit by itself. */
  lemma {:induction false} DigitAt(v: nat, n: nat, i: nat)
    requires i < n
    ensures Digits(v, n)[i] == v / Pow256(n - 1 - i) % 256
  {
    if i < n - 1 {
      DigitAt(v / 256, n - 1, i);
      DivideTwice(v, Pow256(n - 2 - i));
    }
  }

  lemma {:induction false} DivideTwice(v: nat, p: nat)
    requires p > 0
    ensures v / 256 / p == v / (256 * p)
  {
    var q, r := v / (256 * p), v % (256 * p);
    assert v == 256 * (p * q) + r;
    assert v / 256 == p * q + r / 256 && 0 <= r / 256 < p;
    QuotientOf(v / 256, p, q, r / 256);
  }

  lemma {:induction false} QuotientOf(v: nat, p: nat, q: nat, r: nat)
    requires v == p * q + r && r < p
    ensures v / p == q
  {
    var d := v / p - q;
    assert d * p == r - v % p;
    assert 0 - p < d * p < p;
    assert d >= 1 ==> d * p >= p;
    assert d <= -1 ==> d * p <= 0 - p;
  }

  function Pow256(n: nat): (r: nat)
    ensures r > 0
  {
    if n == 0 then 1 else 256 * Pow256(n - 1)
  }

  lemma {:induction false} NumberOfDigits(v: nat, n: nat)
    requires v < Pow256(n)
    ensures Number(Digits(v, n)) == v
  {
    if n > 0 {
      NumberOfDigits(v / 256, n - 1);
      assert Digits(v, n)[..n - 1] == Digits(v / 256, n - 1);
    }
  }

  lemma {:induction false} Pow256Values()
    ensures Pow256(2) == 0x1_0000 && Pow256(4) == 0x1_0000_0000 && Pow256(8) == 0x1_0000_0000_0000_0000
  {
    assert Pow256(1) == 256 && Pow256(3) == 0x100_0000 && Pow256(5) == 0x100_0000_0000;
    assert Pow256(6) == 0x1_0000_0000_0000 && Pow256(7) == 0x100_0000_0000_0000;
  }

  // ----- masking ----------------------------------------------------------------------------------

  /** Exclusive or of the last `n` bits. */
  function XorBits(a: nat, b: nat, n: nat): (r: nat)
    ensures r < Pow2(n)
  {
    if n == 0 then 0 else 2 * XorBits(a / 2, b / 2, n - 1) + if a % 2 == b % 2 then 0 else 1
  }

  function Pow2(n: nat): nat {
    if n == 0 then 1 else 2 * Pow2(n - 1)
  }

  lemma {:induction false} Halves(high: nat, low: nat)
    requires low < 2
    ensures (2 * high + low) / 2 == high && (2 * high + low) % 2 == low
  {}

  lemma {:induction false} XorBitsTwice(a: nat, b: nat, n: nat)
    requires a < Pow2(n)
    ensures XorBits(XorBits(a, b, n), b, n) == a
  {
    if n > 0 {
      var high, low := XorBits(a / 2, b / 2, n - 1), if a % 2 == b % 2 then 0 else 1;
      Halves(high, low);
      XorBitsTwice(a / 2, b / 2, n - 1);
      assert XorBits(XorBits(a, b, n), b, n) == 2 * XorBits(high, b / 2, n - 1) + if low == b % 2 then 0 else 1;
    }
  }

  lemma {:induction false} Pow2Of8()
    ensures Pow2(8) == 256
  {
    assert Pow2(1) == 2 && Pow2(2) == 4 && Pow2(3) == 8 && Pow2(4) == 16 && Pow2(5) == 32 && Pow2(6) == 64 && Pow2(7) == 128;
  }

  function Xor(a: byte, b: byte): byte {
    Pow2Of8();
    XorBits(a, b, 8)
  }

  lemma {:induction false} XorTwice(a: byte, b: byte)
    ensures Xor(Xor(a, b), b) == a
  {
    Pow2Of8();
    XorBitsTwice(a, b, 8);
  }

  /** Bit `k` of a number. */
  function BitOf(v: nat, k: nat): nat {
    if k == 0 then v % 2 else BitOf(v / 2, k - 1)
  }

  lemma {:induction false} XorBitsAt(a: nat, b: nat, n: nat, k: nat)
    requires k < n
    ensures BitOf(XorBits(a, b, n), k) == if BitOf(a, k) == BitOf(b, k) then 0 else 1
  {
    Halves(XorBits(a / 2, b / 2, n - 1), if a % 2 == b % 2 then 0 else 1);
    if k > 0 { XorBitsAt(a / 2, b / 2, n - 1, k - 1); }
  }

  /** Masking is bitwise: a bit is set exactly if it differs. */
  lemma {:induction false} XorIsBitwise(a: byte, b: byte, k: nat)
    requires k < 8
    ensures BitOf(Xor(a, b), k) == if BitOf(a, k) == BitOf(b, k) then 0 else 1
  {
    XorBitsAt(a, b, 8, k);
  }

  function Masked(payload: seq<byte>, mask: seq<byte>): (r: seq<byte>)
    requires |mask| == 4
    ensures |r| == |payload|
  {
    seq(|payload|, i requires 0 <= i < |payload| => Xor(payload[i], mask[i % 4]))
  }

  /** Masking twice with the same key gives the payload back. */
  lemma {:induction false} MaskedTwice(payload: seq<byte>, mask: seq<byte>)
    requires |mask| == 4
    ensures Masked(Masked(payload, mask), mask) == payload
  {
    forall i | 0 <= i < |payload| ensures Masked(Masked(payload, mask), mask)[i] == payload[i] {
      XorTwice(payload[i], mask[i % 4]);
    }
  }

  // ----- writing ----------------------------------------------------------------------------------

  function Bit(b: bool): int {
    if b then 0x80 else 0
  }

  function LengthField(n: nat, masked: bool): seq<byte> {
    if n <= 125 then [Bit(masked) + n]
    else if n <= 0xFFFF then [Bit(masked) + 126] + Digits(n, 2)
    else [Bit(masked) + 127] + Digits(n, 8)
  }

  function MaskField(key: Option<nat>): seq<byte> {
    if key.None? then [] else Digits(key.value, 4)
  }

  function Header(f: Outgoing): seq<byte>
    requires 0 <= f.op < 16
  {
    [Bit(f.fin) + f.op] + LengthField(|f.payload|, f.key.Some?) + MaskField(f.key)
  }

  function Body(f: Outgoing): seq<byte> {
    if f.key.None? then f.payload else Masked(f.payload, Digits(f.key.value, 4))
  }

  /** What send_frame puts on the wire. */
  function Encode(f: Outgoing): seq<byte>
    requires 0 <= f.op < 16
  {
    Header(f) + Body(f)
  }

  lemma {:induction false} HeaderFits(f: Outgoing)
    requires 0 <= f.op < 16
    ensures 2 <= |Header(f)| <= 14
  {}

  // ----- reading ----------------------------------------------------------------------------------

  /** Reading consumes a prefix of the input; `rest` is what is left. */
  datatype Read<T> = Got(value: T, rest: seq<byte>) | Err(error: int, rest: seq<byte>)

  /** `n` bytes; `eof` is the error if the input ends before. */
  function Take(input: seq<byte>, n: nat, eof: int): (r: Read<seq<byte>>)
    ensures r.Got? ==> |r.value| == n
  {
    if |input| < n then Err(eof, []) else Got(input[..n], input[n..])
  }

  function DecodeLength(code: int, input: seq<byte>, eof: int): Read<nat>
    requires 0 <= code < 128
  {
    if code < 126 then Got(code, input)
    else
      match Take(input, if code == 126 then 2 else 8, eof)
      case Got(bs, rest) => Got(Number(bs), rest)
      case Err(e, rest) => Err(e, rest)
  }

  /** The masking key, if there is one. */
  function DecodeKey(masked: bool, input: seq<byte>, opts: ReadOptions, eof: int): Read<Option<nat>> {
    if masked then
      match Take(input, 4, eof)
      case Got(bs, rest) => Got(Some(Number(bs)), rest)
      case Err(e, rest) => Err(e, rest)
    else if opts.requireMasked then Err(-EPROTO, input)
    else Got(None, input)
  }

  function DecodePayload(fin: bool, op: int, n: nat, key: Option<nat>, input: seq<byte>, opts: ReadOptions, eof: int): Read<Frame> {
    match Take(input, n, eof)
    case Err(e, rest) => Err(e, rest)
    case Got(bs, rest) =>
      var payload := if key.Some? && opts.autoUnmask then Masked(bs, Digits(key.value, 4)) else bs;
      Got(Frame(fin, op, key.Some?, if key.Some? then key.value else 0, payload), rest)
  }

  /** read_frame after its first two bytes. */
  function DecodeAfter(b0: byte, b1: byte, input: seq<byte>, opts: ReadOptions, eof: int): Read<Frame> {
    if b0 / 16 % 8 != 0 then Err(-EPROTO, input)
    else
      match DecodeLength(b1 % 128, input, eof)
      case Err(e, rest) => Err(e, rest)
      case Got(n, rest) =>
        if n > opts.maxFrameSize then Err(-EMSGSIZE, rest)
        else
          match DecodeKey(b1 >= 128, rest, opts, eof)
          case Err(e, rest') => Err(e, rest')
          case Got(key, rest') => DecodePayload(b0 >= 128, b0 % 16, n, key, rest', opts, eof)
  }

  /** read_frame. */
  function Decode(input: seq<byte>, opts: ReadOptions, eof: int): Read<Frame> {
    match Take(input, 2, eof)
    case Err(e, rest) => Err(e, rest)
    case Got(h, rest) => DecodeAfter(h[0], h[1], rest, opts, eof)
  }

  // ----- the round trip -----------------------------------------------------------------------------

  lemma {:induction false} TakeFirst(a: seq<byte>, b: seq<byte>, eof: int)
    ensures Take(a + b, |a|, eof) == Got(a, b)
  {}

  lemma {:induction false} LengthRoundTrip(n: nat, masked: bool, rest: seq<byte>, eof: int)
    requires n < 0x1_0000_0000_0000_0000
    ensures var l := LengthField(n, masked); (l[0] >= 128 <==> masked) && DecodeLength(l[0] % 128, l[1..] + rest, eof) == Got(n, rest)
  {
    if n <= 125 {
      assert LengthField(n, masked)[1..] + rest == rest;
      LowBits(masked, n);
    } else if n <= 0xFFFF {
      LongLength(n, masked, rest, eof, 126, 2);
    } else {
      LongLength(n, masked, rest, eof, 127, 8);
    }
  }

  lemma {:induction false} LowBits(masked: bool, code: int)
    requires 0 <= code < 128
    ensures (Bit(masked) + code) % 128 == code && (Bit(masked) + code >= 128 <==> masked)
  {}

  lemma {:induction false} LongLength(n: nat, masked: bool, rest: seq<byte>, eof: int, code: int, digits: nat)
    requires n > 125 && ((code == 126 && digits == 2 && n <= 0xFFFF) || (code == 127 && digits == 8 && 0xFFFF < n < 0x1_0000_0000_0000_0000))
    ensures var l := LengthField(n, masked); (l[0] >= 128 <==> masked) && DecodeLength(l[0] % 128, l[1..] + rest, eof) == Got(n, rest)
  {
    Pow256Values();
    LowBits(masked, code);
    NumberOfDigits(n, digits);
    TakeFirst(Digits(n, digits), rest, eof);
    assert LengthField(n, masked)[1..] == Digits(n, digits);
  }

  lemma {:induction false} KeyRoundTrip(key: Option<nat>, rest: seq<byte>, opts: ReadOptions, eof: int)
    requires (key.Some? ==> key.value < 0x1_0000_0000) && (key.None? ==> !opts.requireMasked)
    ensures DecodeKey(key.Some?, MaskField(key) + rest, opts, eof) == Got(key, rest)
  {
    Pow256Values();
    if key.Some? {
      NumberOfDigits(key.value, 4);
      TakeFirst(Digits(key.value, 4), rest, eof);
    } else {
      assert MaskField(key) + rest == rest;
    }
  }

  /** What a frame looks like to a reader who does not take the mask off. */
  function Received(f: Outgoing, opts: ReadOptions): Frame {
    Frame(f.fin, f.op, f.key.Some?, if f.key.Some? then f.key.value else 0, if opts.autoUnmask then f.payload else Body(f))
  }

  lemma {:induction false} PayloadRoundTrip(f: Outgoing, rest: seq<byte>, opts: ReadOptions, eof: int)
    ensures DecodePayload(f.fin, f.op, |f.payload|, f.key, Body(f) + rest, opts, eof) == Got(Received(f, opts), rest)
  {
    TakeFirst(Body(f), rest, eof);
    if f.key.Some? { MaskedTwice(f.payload, Digits(f.key.value, 4)); }
  }

  lemma {:induction false} AfterRoundTrip(f: Outgoing, b0: byte, l: seq<byte>, rest: seq<byte>, opts: ReadOptions, eof: int)
    requires Sendable(f) && b0 == Bit(f.fin) + f.op && l == LengthField(|f.payload|, f.key.Some?)
    ensures DecodeAfter(b0, l[0], l[1..] + (MaskField(f.key) + (Body(f) + rest)), opts, eof) == Got(Received(f, opts), rest)
            <==> |f.payload| <= opts.maxFrameSize && (f.key.Some? || !opts.requireMasked)
  {
    LengthRoundTrip(|f.payload|, f.key.Some?, MaskField(f.key) + (Body(f) + rest), eof);
    FirstByte(f.fin, f.op);
    if f.key.Some? || !opts.requireMasked {
      KeyRoundTrip(f.key, Body(f) + rest, opts, eof);
      PayloadRoundTrip(f, rest, opts, eof);
    }
  }

  lemma {:induction false} FirstByte(fin: bool, op: int)
    requires 0 <= op < 16
    ensures var b := Bit(fin) + op; b / 16 % 8 == 0 && b % 16 == op && (b >= 128 <==> fin)
  {}

  lemma {:induction false} Layout(f: Outgoing, rest: seq<byte>)
    requires Sendable(f)
    ensures var l := LengthField(|f.payload|, f.key.Some?);
            Encode(f) + rest == [Bit(f.fin) + f.op, l[0]] + (l[1..] + (MaskField(f.key) + (Body(f) + rest)))
  {}

  /** read_frame gives back what send_frame wrote, and consumes exactly its bytes, if and only if the
      payload is within the reader's limit and is masked where the reader insists on it. */
  lemma {:induction false} FrameRoundTrip(f: Outgoing, rest: seq<byte>, opts: ReadOptions, eof: int)
    requires Sendable(f)
    ensures Decode(Encode(f) + rest, opts, eof) == Got(Received(f, opts), rest)
            <==> |f.payload| <= opts.maxFrameSize && (f.key.Some? || !opts.requireMasked)
  {
    var l, b0 := LengthField(|f.payload|, f.key.Some?), Bit(f.fin) + f.op;
    Layout(f, rest);
    TakeFirst([b0, l[0]], l[1..] + (MaskField(f.key) + (Body(f) + rest)), eof);
    AfterRoundTrip(f, b0, l, rest, opts, eof);
  }

  lemma {:induction false} AfterRefused(f: Outgoing, b0: byte, l: seq<byte>, rest: seq<byte>, opts: ReadOptions, eof: int)
    requires Sendable(f) && b0 == Bit(f.fin) + f.op && l == LengthField(|f.payload|, f.key.Some?)
    ensures |f.payload| > opts.maxFrameSize ==> DecodeAfter(b0, l[0], l[1..] + rest, opts, eof) == Err(-EMSGSIZE, rest)
    ensures |f.payload| <= opts.maxFrameSize && f.key.None? && opts.requireMasked ==>
              DecodeAfter(b0, l[0], l[1..] + rest, opts, eof) == Err(-EPROTO, rest)
  {
    LengthRoundTrip(|f.payload|, f.key.Some?, rest, eof);
    FirstByte(f.fin, f.op);
  }

  /** The frames that do not come back: a payload over the limit is refused as too big, before any key is
      read; otherwise a reader that insists on masks refuses a frame without one, whatever its opcode. */
  lemma {:induction false} FrameRefused(f: Outgoing, rest: seq<byte>, opts: ReadOptions, eof: int)
    requires Sendable(f)
    ensures |f.payload| > opts.maxFrameSize ==>
              Decode(Encode(f) + rest, opts, eof) == Err(-EMSGSIZE, MaskField(f.key) + (Body(f) + rest))
    ensures |f.payload| <= opts.maxFrameSize && f.key.None? && opts.requireMasked ==>
              Decode(Encode(f) + rest, opts, eof) == Err(-EPROTO, MaskField(f.key) + (Body(f) + rest))
  {
    var l, b0, tail := LengthField(|f.payload|, f.key.Some?), Bit(f.fin) + f.op, MaskField(f.key) + (Body(f) + rest);
    Layout(f, rest);
    TakeFirst([b0, l[0]], l[1..] + tail, eof);
    AfterRefused(f, b0, l, tail, opts, eof);
  }

  /** For instance the empty pong that read_message answers an empty ping with, read with the default
      options. */
  lemma {:induction false} DefaultReaderRefusesPong(rest: seq<byte>, eof: int)
    ensures Decode(Encode(Outgoing(true, Pong, None, [])) + rest, ReadOptions(0x10_0000, true, true), eof) == Err(-EPROTO, rest)
  {
    var f := Outgoing(true, Pong, None, []);
    FrameRefused(f, rest, ReadOptions(0x10_0000, true, true), eof);
    assert MaskField(f.key) + (Body(f) + rest) == rest;
  }

  // ----- the layout on the wire -----------------------------------------------------------------------

  /** The bytes of a short frame, and where length, key and payload are in a longer one, big end first. */
  lemma {:induction false} WireLayout(f: Outgoing)
    requires Sendable(f)
    ensures var e, n := Encode(f), |f.payload|;
            var h := if n <= 125 then 2 else if n <= 0xFFFF then 4 else 10;
            var k := if f.key.Some? then h + 4 else h;
            && |e| == k + n
            && e[0] == f.op + (if f.fin then 128 else 0)
            && e[1] == (if n <= 125 then n else if n <= 0xFFFF then 126 else 127) + (if f.key.Some? then 128 else 0)
            && (h > 2 ==> Number(e[2..h]) == n) && (f.key.Some? ==> Number(e[h..k]) == f.key.value)
            && forall i :: 0 <= i < n ==> e[k + i] == if f.key.Some? then Xor(f.payload[i], e[h + i % 4]) else f.payload[i]
  {
    var l, key := LengthField(|f.payload|, f.key.Some?), MaskField(f.key);
    LengthLayout(|f.payload|, f.key.Some?);
    KeyLayout(f.key);
    Slices(Bit(f.fin) + f.op, l, key, Body(f), Encode(f));
  }

  lemma {:induction false} LengthLayout(n: nat, masked: bool)
    requires n < 0x1_0000_0000_0000_0000
    ensures var l := LengthField(n, masked);
            && |l| == (if n <= 125 then 1 else if n <= 0xFFFF then 3 else 9)
            && l[0] == (if n <= 125 then n else if n <= 0xFFFF then 126 else 127) + (if masked then 128 else 0)
            && (n > 125 ==> Number(l[1..]) == n)
  {
    var l := LengthField(n, masked);
    Pow256Values();
    if n > 125 {
      NumberOfDigits(n, |l| - 1);
      assert l[1..] == Digits(n, |l| - 1);
    }
  }

  lemma {:induction false} KeyLayout(key: Option<nat>)
    requires key.Some? ==> key.value < 0x1_0000_0000
    ensures |MaskField(key)| == (if key.Some? then 4 else 0) && (key.Some? ==> Number(MaskField(key)) == key.value)
  {
    Pow256Values();
    if key.Some? { NumberOfDigits(key.value, 4); }
  }

  lemma {:induction false} Slices(b: byte, l: seq<byte>, key: seq<byte>, body: seq<byte>, e: seq<byte>)
    requires l != [] && e == ([b] + l + key) + body
    ensures |e| == 1 + |l| + |key| + |body| && e[0] == b && e[1] == l[0]
    ensures e[2..1 + |l|] == l[1..] && e[1 + |l|..1 + |l| + |key|] == key
    ensures forall i :: 0 <= i < |body| ==> e[1 + |l| + |key| + i] == body[i]
    ensures forall i :: 0 <= i < |key| ==> e[1 + |l| + i] == key[i]
  {}

  // ----- streams ------------------------------------------------------------------------------------

  /** More input does not change what was read, nor why it was refused, unless it was for lack of input. */
  ghost predicate Stable<T>(r: Read<T>, r': Read<T>, y: seq<byte>, eof: int) {
    match r
    case Got(v, rest) => r' == Got(v, rest + y)
    case Err(e, rest) => (e == eof && rest == []) || r' == Err(e, rest + y)
  }

  lemma {:induction false} TakeMore(x: seq<byte>, y: seq<byte>, n: nat, eof: int)
    ensures Stable(Take(x, n, eof), Take(x + y, n, eof), y, eof)
  {
    if n <= |x| { assert (x + y)[..n] == x[..n] && (x + y)[n..] == x[n..] + y; }
  }

  lemma {:induction false} LengthMore(code: int, x: seq<byte>, y: seq<byte>, eof: int)
    requires 0 <= code < 128
    ensures Stable(DecodeLength(code, x, eof), DecodeLength(code, x + y, eof), y, eof)
  {
    TakeMore(x, y, if code == 126 then 2 else 8, eof);
  }

  lemma {:induction false} KeyMore(masked: bool, x: seq<byte>, y: seq<byte>, opts: ReadOptions, eof: int)
    ensures Stable(DecodeKey(masked, x, opts, eof), DecodeKey(masked, x + y, opts, eof), y, eof)
  {
    TakeMore(x, y, 4, eof);
  }

  lemma {:induction false} PayloadMore(fin: bool, op: int, n: nat, key: Option<nat>, x: seq<byte>, y: seq<byte>, opts: ReadOptions, eof: int)
    ensures Stable(DecodePayload(fin, op, n, key, x, opts, eof), DecodePayload(fin, op, n, key, x + y, opts, eof), y, eof)
  {
    TakeMore(x, y, n, eof);
  }

  lemma {:induction false} AfterMore(b0: byte, b1: byte, x: seq<byte>, y: seq<byte>, opts: ReadOptions, eof: int)
    ensures Stable(DecodeAfter(b0, b1, x, opts, eof), DecodeAfter(b0, b1, x + y, opts, eof), y, eof)
  {
    LengthMore(b1 % 128, x, y, eof);
    var l := DecodeLength(b1 % 128, x, eof);
    if l.Got? {
      KeyMore(b1 >= 128, l.rest, y, opts, eof);
      var k := DecodeKey(b1 >= 128, l.rest, opts, eof);
      if k.Got? { PayloadMore(b0 >= 128, b0 % 16, l.value, k.value, k.rest, y, opts, eof); }
    }
  }

  lemma {:induction false} DecodeMore(x: seq<byte>, y: seq<byte>, opts: ReadOptions, eof: int)
    ensures Stable(Decode(x, opts, eof), Decode(x + y, opts, eof), y, eof)
  {
    TakeMore(x, y, 2, eof);
    var h := Take(x, 2, eof);
    if h.Got? { AfterMore(h.value[0], h.value[1], h.rest, y, opts, eof); }
  }

  /** A stream that ends anywhere inside a frame gives the error of its end, and never a frame. */
  lemma {:induction false} CutShort(f: Outgoing, k: nat, opts: ReadOptions, eof: int)
    requires Sendable(f) && |f.payload| <= opts.maxFrameSize && (f.key.Some? || !opts.requireMasked) && k < |Encode(f)|
    ensures Decode(Encode(f)[..k], opts, eof) == Err(eof, [])
  {
    var x, y := Encode(f)[..k], Encode(f)[k..];
    FrameRoundTrip(f, [], opts, eof);
    assert Encode(f) + [] == Encode(f) == x + y;
    DecodeMore(x, y, opts, eof);
  }

  /** A frame with a reserved bit set is refused, whatever follows. */
  lemma {:induction false} ReservedRefused(input: seq<byte>, k: nat, opts: ReadOptions, eof: int)
    requires |input| >= 2 && k in {4, 5, 6} && BitOf(input[0], k) == 1
    ensures Decode(input, opts, eof) == Err(-EPROTO, input[2..])
  {
    ReservedBits(input[0], k);
  }

  lemma {:induction false} ReservedBits(b: byte, k: nat)
    requires k in {4, 5, 6} && BitOf(b, k) == 1
    ensures b / 16 % 8 != 0
  {
    var v: nat := b;
    BitAfter(v, k);
    BitAfter(v / 2, k - 1);
    BitAfter(v / 2 / 2, k - 2);
    BitAfter(v / 2 / 2 / 2, k - 3);
    var high := v / 2 / 2 / 2 / 2;
    if k > 4 { BitAfter(high, k - 4); }
    if k > 5 { BitAfter(high / 2, k - 5); }
    assert high == v / 16;
  }

  lemma {:induction false} BitAfter(v: nat, k: nat)
    requires k > 0
    ensures BitOf(v, k) == BitOf(v / 2, k - 1) && BitOf(v, 0) == v % 2
  {}
}
