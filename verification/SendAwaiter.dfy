/** The stream socket's send awaiter: a buffer, or a vector of buffers, pushed into a non-blocking
    socket until it is all accepted, the socket would block, or it fails. */
module SendAwaiter {
  import opened Basics

  /** What one send or writev call gives: bytes accepted, EAGAIN, a broken connection (EPIPE, ECONNRESET,
      ENOTCONN) or another error. The kernel never accepts more than it is offered, and nothing when it
      is offered nothing. */
  datatype Answer = Wrote(n: nat) | WouldBlock | Broken | Failed

  function Call(a: Answer, offered: nat): Answer {
    if offered == 0 then Wrote(0)
    else if a.Wrote? && a.n > offered then Wrote(offered)
    else a
  }

  /** The result of attempt_once: 0 for done, -1 for a wait; the bytes sent so far; the result of a
      failed call, which is -1, or 0 if none failed;
      whether the write half was found broken. */
  datatype Outcome = Outcome(r: int, sent: nat, err: int, broken: bool)

  /** attempt_once on a message of which `sent` of `len` bytes are out; `kernel(k)` answers call k. */
  function Attempt(len: nat, sent: nat, full: bool, kernel: nat -> Answer, k: nat): (o: Outcome)
    requires sent <= len
    ensures sent <= o.sent <= len && (o.r == 0 || o.r == -1)
    ensures o.r == -1 ==> full && o.sent < len && o.err == 0
    decreases len - sent
  {
    if sent == len then Outcome(0, sent, 0, false)
    else
      match Call(kernel(k), len - sent)
      case Wrote(n) =>
        if n == 0 then Outcome(0, sent, 0, false)
        else if sent + n == len then Outcome(0, len, 0, false)
        else Attempt(len, sent + n, full, kernel, k + 1)
      case WouldBlock => Outcome(if full then -1 else 0, sent, 0, false)
      case Broken => Outcome(0, sent, -1, true)
      case Failed => Outcome(0, sent, -1, false)
  }

  /** A full send ends with everything sent, unless the kernel failed or took nothing. */
  lemma {:induction false} FullMeansAll(len: nat, sent: nat, kernel: nat -> Answer, k: nat)
    requires sent <= len && forall i :: kernel(i).WouldBlock? || (kernel(i).Wrote? && kernel(i).n > 0)
    ensures var o := Attempt(len, sent, true, kernel, k); o.err == 0 && (o.r == 0 <==> o.sent == len)
    decreases len - sent
  {
    if sent < len {
      var a := Call(kernel(k), len - sent);
      if a.Wrote? && sent + a.n < len { FullMeansAll(len, sent + a.n, kernel, k + 1); }
    }
  }

  /** The bytes of the calls before call `m`. */
  function Total(kernel: nat -> Answer, k: nat, m: nat): nat
    requires k <= m
    decreases m - k
  {
    if k == m then 0 else (if kernel(k).Wrote? then kernel(k).n else 0) + Total(kernel, k + 1, m)
  }

  /** Which call is the last one of an attempt with something left to send, and what it decides: those before
      it took a part each; a failed or broken call ends the attempt with -1, a broken one is noted, EAGAIN
      makes a full send wait, and bytes accepted count up to the end of the message. */
  lemma {:induction false} LastCall(len: nat, sent: nat, full: bool, kernel: nat -> Answer, k: nat) returns (m: nat)
    requires sent < len
    ensures k <= m && forall i :: k <= i < m ==> kernel(i).Wrote? && kernel(i).n > 0
    ensures var o, a, before := Attempt(len, sent, full, kernel, k), kernel(m), sent + Total(kernel, k, m);
            && before < len && (a.Wrote? ==> a.n == 0 || before + a.n >= len)
            && o.sent == (if !a.Wrote? || a.n == 0 then before else len)
            && o.err == (if a.Broken? || a.Failed? then -1 else 0) && o.broken == a.Broken?
            && (o.r == -1 <==> full && a.WouldBlock?)
    decreases len - sent
  {
    var a := kernel(k);
    if a.Wrote? && 0 < a.n && sent + a.n < len { m := LastCall(len, sent + a.n, full, kernel, k + 1); } else { m := k; }
  }

  // ----- iovecs -----------------------------------------------------------------------------------

  function Concat(v: seq<seq<byte>>): seq<byte> {
    if v == [] then [] else v[0] + Concat(v[1..])
  }

  class Sender {
    const full: bool
    const useVec: bool
    const buf: seq<byte>
    var vec: seq<seq<byte>>
    var len: nat
    var sent: nat
    var err: int
    var txShutdown: bool

    /** What is still to be sent is the message without the bytes sent so far. */
    ghost predicate Valid(message: seq<byte>)
      reads this
    {
      && len == |message| && sent <= len
      && (if useVec then Concat(vec) == message[sent..] else buf == message)
    }

    constructor Flat(buf: seq<byte>, full: bool)
      ensures Valid(buf) && sent == 0 && err == 0 && !useVec && this.full == full && !txShutdown
    {
      this.buf, this.full, useVec, vec, len, sent, err, txShutdown := buf, full, false, [], |buf|, 0, 0, false;
    }

    constructor Vectored(iov: seq<seq<byte>>, full: bool)
      ensures Valid(Concat(iov)) && sent == 0 && err == 0 && useVec && this.full == full && !txShutdown
    {
      this.buf, this.full, useVec, vec, sent, err, txShutdown := [], full, true, iov, 0, 0, false;
      var total := 0;
      for i := 0 to |iov|
        invariant total + |Concat(iov[i..])| == |Concat(iov)|
      {
        assert iov[i..][1..] == iov[i + 1..];
        total := total + |iov[i]|;
      }
      len := total;
    }

    /** advance_iov: the first `n` bytes leave the vector, whatever iovecs they are in. */
    method AdvanceIov(n: nat)
      requires n <= |Concat(vec)|
      modifies this`vec
      ensures Concat(vec) == Concat(old(vec))[n..]
    {
      var remain: nat := n;
      assert Concat(vec) == Concat(vec)[0..];
      while remain > 0 && vec != []
        invariant remain <= |Concat(vec)| && remain <= n
        invariant Concat(vec)[remain..] == Concat(old(vec))[n..]
        decreases |vec|, remain
      {
        ghost var was := Concat(vec);
        if remain >= |vec[0]| {
          assert was[remain..] == Concat(vec[1..])[remain - |vec[0]|..];
          remain := remain - |vec[0]|;
          vec := vec[1..];
        } else {
          var rest := vec[1..];
          vec := [vec[0][remain..]] + rest;
          assert vec[1..] == rest;
          assert Concat(vec) == was[remain..];
          remain := 0;
        }
      }
      assert Concat(vec)[0..] == Concat(vec);
    }

    /** attempt_once, on a buffer. */
    method AttemptFlat(kernel: nat -> Answer, ghost message: seq<byte>) returns (r: int, ghost wrote: seq<byte>)
      requires Valid(message) && err == 0 && !useVec
      modifies this`sent, this`err, this`txShutdown
      ensures Valid(message) && old(sent) <= sent && wrote == message[old(sent)..sent]
      ensures var o := Attempt(|message|, old(sent), full, kernel, 0);
              r == o.r && sent == o.sent && err == o.err && txShutdown == (old(txShutdown) || o.broken)
    {
      var k := 0;
      wrote := [];
      while sent < len
        invariant Valid(message) && old(sent) <= sent && wrote == message[old(sent)..sent] && err == 0 && txShutdown == old(txShutdown)
        invariant Attempt(len, sent, full, kernel, k) == Attempt(len, old(sent), full, kernel, 0)
        decreases len - sent
      {
        match Call(kernel(k), len - sent)
        case Wrote(n) =>
          if n == 0 { return 0, wrote; }
          wrote := wrote + buf[sent..sent + n];
          sent := sent + n;
          if sent == len { return 0, wrote; }
          k := k + 1;
        case WouldBlock => return if full then -1 else 0, wrote;
        case Broken =>
          txShutdown, err := true, -1;
          return 0, wrote;
        case Failed =>
          err := -1;
          return 0, wrote;
      }
      r := 0;
    }

    /** `n` bytes went out: sent and the vector advance together. */
    method Consume(n: nat, ghost message: seq<byte>)
      requires Valid(message) && useVec && n <= |Concat(vec)|
      modifies this`vec, this`sent
      ensures Valid(message) && sent == old(sent) + n
    {
      assert message[sent..][n..] == message[sent + n..];
      sent := sent + n;
      AdvanceIov(n);
    }

    /** attempt_once, on a vector: the same outcome as on one buffer that holds the same bytes. */
    method AttemptVec(kernel: nat -> Answer, ghost message: seq<byte>) returns (r: int, ghost wrote: seq<byte>)
      requires Valid(message) && err == 0 && useVec
      modifies this`vec, this`sent, this`err, this`txShutdown
      ensures Valid(message) && old(sent) <= sent && wrote == message[old(sent)..sent]
      ensures var o := Attempt(|message|, old(sent), full, kernel, 0);
              r == o.r && sent == o.sent && err == o.err && txShutdown == (old(txShutdown) || o.broken)
    {
      var k := 0;
      wrote := [];
      while vec != []
        invariant Valid(message) && old(sent) <= sent && wrote == message[old(sent)..sent] && err == 0 && txShutdown == old(txShutdown)
        invariant Attempt(len, sent, full, kernel, k) == Attempt(len, old(sent), full, kernel, 0)
        decreases len - sent
      {
        match Call(kernel(k), |Concat(vec)|)
        case Wrote(n) =>
          if n == 0 { return 0, wrote; }
          wrote := wrote + message[sent..sent + n];
          Consume(n, message);
          if vec == [] { return 0, wrote; }
          k := k + 1;
        case WouldBlock => return if full then -1 else 0, wrote;
        case Broken =>
          txShutdown, err := true, -1;
          return 0, wrote;
        case Failed =>
          err := -1;
          return 0, wrote;
      }
      r := 0;
    }

    /** attempt_once. `wrote` is what the kernel accepted. */
    method AttemptOnce(kernel: nat -> Answer, ghost message: seq<byte>) returns (r: int, ghost wrote: seq<byte>)
      requires Valid(message) && err == 0
      modifies this`vec, this`sent, this`err, this`txShutdown
      ensures Valid(message) && old(sent) <= sent && wrote == message[old(sent)..sent]
      ensures var o := Attempt(|message|, old(sent), full, kernel, 0);
              r == o.r && sent == o.sent && err == o.err && txShutdown == (old(txShutdown) || o.broken)
    {
      if !useVec {
        r, wrote := AttemptFlat(kernel, message);
      } else {
        r, wrote := AttemptVec(kernel, message);
      }
    }

    /** await_resume. */
    function Resume(): (r: int)
      reads this
      ensures sent > 0 ==> r == sent
      ensures r < 0 <==> sent == 0 && err < 0
    {
      if err < 0 && sent == 0 then err else sent
    }
  }
}
