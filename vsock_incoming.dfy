/** The incoming raw proxy: frames arrive on a vsock stream, each an IPv4
    packet whose length is the Total Length field (bytes 2..4, section 3.1
    of RFC 791). A reused 65535-byte buffer receives the 4-byte prefix and
    then the rest of the frame; a frame is written to the TUN device only
    when its destination address, printed as dotted text, is the
    configured address. */
module VsockToIpIncoming {
  import opened Common
  import Ipv4

  const BufferLen: nat := 65535

  /** The big-endian u16 at bytes 2..4. */
  function TotalLength(buf: seq<byte>): (n: nat)
    requires |buf| >= 4
    ensures n < 0x1_0000
    ensures n / 256 == buf[2] && n % 256 == buf[3]
  {
    buf[2] as int * 256 + buf[3] as int
  }

  /** `buf` with `data` copied over positions lo..lo+|data|. */
  function Fill(buf: seq<byte>, lo: nat, data: seq<byte>): (r: seq<byte>)
    requires lo + |data| <= |buf|
    ensures |r| == |buf| && r[lo..lo + |data|] == data
    ensures forall k :: 0 <= k < |buf| && !(lo <= k < lo + |data|) ==> r[k] == buf[k]
  {
    buf[..lo] + data + buf[lo + |data|..]
  }

  /** `read_exact(&mut buf[lo..hi])` on a stream positioned at `pos`: it fills
      the slice with the next bytes, or fails when fewer are left. */
  method ReadExact(buf: array<byte>, lo: nat, hi: nat, stream: seq<byte>, pos: nat) returns (ok: bool, next: nat)
    requires lo <= hi <= buf.Length && pos <= |stream|
    modifies buf
    ensures ok <==> hi - lo <= |stream| - pos
    ensures ok ==> next == pos + (hi - lo) && buf[..] == Fill(old(buf[..]), lo, stream[pos..next])
    ensures !ok ==> next == pos && buf[..] == old(buf[..])
  {
    if hi - lo > |stream| - pos {
      return false, pos;
    }
    var i := lo;
    while i < hi
      invariant lo <= i <= hi
      invariant forall k :: 0 <= k < buf.Length && !(lo <= k < i) ==> buf[k] == old(buf[k])
      invariant forall k :: lo <= k < i ==> buf[k] == stream[pos + (k - lo)]
    {
      buf[i] := stream[pos + (i - lo)];
      i := i + 1;
    }
    ok, next := true, pos + (hi - lo);
    assert buf[..] == Fill(old(buf[..]), lo, stream[pos..next]);
  }

  /** How a frame ends: forwarded, skipped for another destination, or an error. */
  datatype Frame =
    | Written(packet: seq<byte>)  // `write_all` of this packet succeeded
    | Skipped                     // destination is not the configured address
    | VsockError                  // a `read_exact` ran out of stream
    | IpError                     // the TUN write failed
    | Panicked                    // `buf[4..size]` with size < 4

  /** After one frame: how it ended, the buffer and the stream position. */
  datatype Step = Step(frame: Frame, buf: seq<byte>, next: nat)

  /** Is the destination (bytes 16..20 of the buffer) the configured address? */
  predicate ForUs(buf: seq<byte>, ip: string)
    requires |buf| >= 20
  {
    Ipv4.Dotted(buf[16..20]) == ip
  }

  /** One iteration of the `handle_conn` loop of this proxy. */
  function FrameStep(buf: seq<byte>, stream: seq<byte>, pos: nat, ip: string, writeOk: bool): (s: Step)
    requires |buf| == BufferLen && pos <= |stream|
    ensures |s.buf| == BufferLen && pos <= s.next <= |stream|
    ensures (s.frame.Written? || s.frame.Skipped?) ==> s.next >= pos + 4
  {
    if |stream| - pos < 4 then Step(VsockError, buf, pos)
    else
      var b := Fill(buf, 0, stream[pos..pos + 4]);
      var size := TotalLength(b);
      if size < 4 then Step(Panicked, b, pos + 4)
      else BodyStep(b, stream, pos, ip, writeOk)
  }

  /** The rest of a frame, once its first four bytes are in `b` and its
      Total Length is at least 4. */
  function BodyStep(b: seq<byte>, stream: seq<byte>, pos: nat, ip: string, writeOk: bool): (s: Step)
    requires |b| == BufferLen && pos + 4 <= |stream| && TotalLength(b) >= 4
    ensures |s.buf| == BufferLen && pos + 4 <= s.next <= |stream|
  {
    var size := TotalLength(b);
    if size - 4 > |stream| - (pos + 4) then Step(VsockError, b, pos + 4)
    else
      var b2 := Fill(b, 4, stream[pos + 4..pos + size]);
      if !ForUs(b2, ip) then Step(Skipped, b2, pos + size)
      else if writeOk then Step(Written(b2[..size]), b2, pos + size)
      else Step(IpError, b2, pos + size)
  }

  /** The frame loop on the stream `stream` from `pos`: the array `buf` is
      refilled in place; `writeOk` is whether the TUN write succeeds. */
  method HandleFrame(buf: array<byte>, stream: seq<byte>, pos: nat, ip: string, writeOk: bool) returns (f: Frame, next: nat)
    requires buf.Length == BufferLen && pos <= |stream|
    modifies buf
    ensures Step(f, buf[..], next) == FrameStep(old(buf[..]), stream, pos, ip, writeOk)
  {
    var ok;
    ok, next := ReadExact(buf, 0, 4, stream, pos);
    if !ok {
      return VsockError, next;
    }
    assert buf[..4] == stream[pos..pos + 4];
    var size := buf[2] as int * 256 + buf[3] as int;
    if size < 4 {
      return Panicked, next;
    }
    f, next := HandleBody(buf, stream, pos, ip, writeOk);
  }

  method HandleBody(buf: array<byte>, stream: seq<byte>, pos: nat, ip: string, writeOk: bool) returns (f: Frame, next: nat)
    requires buf.Length == BufferLen && pos + 4 <= |stream| && TotalLength(buf[..]) >= 4
    modifies buf
    ensures Step(f, buf[..], next) == BodyStep(old(buf[..]), stream, pos, ip, writeOk)
  {
    ghost var b0 := buf[..];
    var size := buf[2] as int * 256 + buf[3] as int;
    assert size == TotalLength(b0);
    var ok;
    ok, next := ReadExact(buf, 4, size, stream, pos + 4);
    if !ok {
      return VsockError, next;
    }
    ghost var b2 := buf[..];
    assert b2 == Fill(b0, 4, stream[pos + 4..pos + size]);
    var dst := buf[16..20];
    assert dst == b2[16..20];
    assert ForUs(b2, ip) <==> Ipv4.Dotted(dst) == ip;
    if Ipv4.Dotted(dst) != ip {
      return Skipped, next;
    }
    if !writeOk {
      return IpError, next;
    }
    f := Written(buf[..size]);
    assert f.packet == b2[..size];
  }

  /** What a written packet is: exactly the bytes the stream carried for this
      frame, as many as its Total Length field says, addressed to `ip`. */
  lemma {:induction false} WrittenIsFrame(buf: seq<byte>, stream: seq<byte>, pos: nat, ip: string)
    requires |buf| == BufferLen && pos <= |stream|
    requires FrameStep(buf, stream, pos, ip, true).frame.Written?
    ensures var s := FrameStep(buf, stream, pos, ip, true);
      var p := s.frame.packet;
      p == stream[pos..s.next] && |p| >= 4 && TotalLength(p) == |p| && ForUs(s.buf, ip)
  {
    var head := stream[pos..pos + 4];
    var b := Fill(buf, 0, head);
    var size := TotalLength(b);
    var body := stream[pos + 4..pos + size];
    var s := FrameStep(buf, stream, pos, ip, true);
    assert s == BodyStep(b, stream, pos, ip, true);
    FillHeaderBody(buf, head, body);
    assert s.buf == head + body + buf[size..];
    assert s.buf[..size] == head + body;
    assert stream[pos..pos + size] == head + body;
  }

  /** The buffer after both reads of a frame: the header, the body, then
      what the buffer held before. */
  lemma FillHeaderBody(buf: seq<byte>, head: seq<byte>, body: seq<byte>)
    requires |head| == 4 && 4 + |body| <= |buf|
    ensures Fill(Fill(buf, 0, head), 4, body) == head + body + buf[4 + |body|..]
  {
    var b := Fill(buf, 0, head);
    assert b == head + buf[4..];
    assert b[..4] == head;
    assert b[4 + |body|..] == buf[4 + |body|..];
  }

  /** The frame is dropped without a write exactly when its destination is
      not the configured address; a short Total Length panics. */
  lemma FrameOutcomes(buf: seq<byte>, stream: seq<byte>, pos: nat, ip: string, writeOk: bool)
    requires |buf| == BufferLen && pos + 4 <= |stream|
    ensures var size := stream[pos + 2] as int * 256 + stream[pos + 3] as int;
      var s := FrameStep(buf, stream, pos, ip, writeOk);
      (s.frame == Panicked <==> size < 4)
      && (s.frame == VsockError <==> size >= 4 && pos + size > |stream|)
      && (s.frame == Skipped <==> size >= 4 && pos + size <= |stream| && !ForUs(s.buf, ip))
  {
    var b := Fill(buf, 0, stream[pos..pos + 4]);
    assert b[2] == stream[pos + 2] && b[3] == stream[pos + 3];
  }

  /** The frame loop from `pos` on, with buffer contents `buf`; the
      `failingWrite`-th write (counting from 0) fails, if any. */
  datatype Run = Run(written: seq<seq<byte>>, end: Frame)

  function ConnRun(buf: seq<byte>, stream: seq<byte>, pos: nat, ip: string, failingWrite: Option<nat>): (r: Run)
    requires |buf| == BufferLen && pos <= |stream|
    ensures !r.end.Written? && !r.end.Skipped?
    decreases |stream| - pos
  {
    var s := FrameStep(buf, stream, pos, ip, failingWrite != Some(0));
    match s.frame
    case Skipped => ConnRun(s.buf, stream, s.next, ip, failingWrite)
    case Written(p) =>
      var rest := ConnRun(s.buf, stream, s.next, ip, AfterWrite(failingWrite));
      Run([p] + rest.written, rest.end)
    case _ => Run([], s.frame)
  }

  /** One frame of the run, spelled out. */
  lemma ConnRunUnfolds(buf: seq<byte>, stream: seq<byte>, pos: nat, ip: string, failingWrite: Option<nat>)
    requires |buf| == BufferLen && pos <= |stream|
    ensures var s := FrameStep(buf, stream, pos, ip, failingWrite != Some(0));
      ConnRun(buf, stream, pos, ip, failingWrite) ==
        match s.frame
        case Skipped => ConnRun(s.buf, stream, s.next, ip, failingWrite)
        case Written(p) =>
          var rest := ConnRun(s.buf, stream, s.next, ip, AfterWrite(failingWrite));
          Run([p] + rest.written, rest.end)
        case _ => Run([], s.frame)
  {
  }

  /** The failing-write index as seen after one successful write. */
  function AfterWrite(failingWrite: Option<nat>): (r: Option<nat>)
    requires failingWrite != Some(0)
    ensures r.Some? <==> failingWrite.Some?
  {
    if failingWrite.Some? then Some(failingWrite.value - 1) else None
  }

  /** One frame of `handle_conn`, related to the run from here on. */
  method ConnFrame(buf: array<byte>, stream: seq<byte>, pos: nat, ip: string, fails: Option<nat>) returns (f: Frame, next: nat)
    requires buf.Length == BufferLen && pos <= |stream|
    modifies buf
    ensures next <= |stream|
    ensures f.Skipped? ==> (next > pos
      && ConnRun(old(buf[..]), stream, pos, ip, fails) == ConnRun(buf[..], stream, next, ip, fails))
    ensures f.Written? ==> (next > pos && fails != Some(0)
      && ConnRun(old(buf[..]), stream, pos, ip, fails).written
         == [f.packet] + ConnRun(buf[..], stream, next, ip, AfterWrite(fails)).written
      && ConnRun(old(buf[..]), stream, pos, ip, fails).end
         == ConnRun(buf[..], stream, next, ip, AfterWrite(fails)).end)
    ensures !f.Skipped? && !f.Written? ==> ConnRun(old(buf[..]), stream, pos, ip, fails) == Run([], f)
  {
    ConnRunUnfolds(buf[..], stream, pos, ip, fails);
    f, next := HandleFrame(buf, stream, pos, ip, fails != Some(0));
  }

  /** `handle_conn`: a fresh zeroed buffer, then frames until an error ends it. */
  method HandleConn(stream: seq<byte>, ip: string, failingWrite: Option<nat>) returns (written: seq<seq<byte>>, end: Frame)
    ensures Run(written, end) == ConnRun(Zeros(), stream, 0, ip, failingWrite)
  {
    var buf := new byte[BufferLen](_ => 0);
    assert buf[..] == Zeros();
    ghost var total := ConnRun(Zeros(), stream, 0, ip, failingWrite);
    var pos := 0;
    var fails: Option<nat> := failingWrite;
    written := [];
    while true
      invariant buf.Length == BufferLen && pos <= |stream|
      invariant total.written == written + ConnRun(buf[..], stream, pos, ip, fails).written
      invariant total.end == ConnRun(buf[..], stream, pos, ip, fails).end
      decreases |stream| - pos
    {
      var f, next := ConnFrame(buf, stream, pos, ip, fails);
      if f.Skipped? {
        pos := next;
      } else if f.Written? {
        assert written + ([f.packet] + ConnRun(buf[..], stream, next, ip, AfterWrite(fails)).written)
          == (written + [f.packet]) + ConnRun(buf[..], stream, next, ip, AfterWrite(fails)).written;
        written := written + [f.packet];
        fails := AfterWrite(fails);
        pos := next;
      } else {
        assert written + [] == written;
        return written, f;
      }
    }
  }

  function Zeros(): (z: seq<byte>)
    ensures |z| == BufferLen && forall k :: 0 <= k < |z| ==> z[k] == 0
  {
    seq(BufferLen, _ => 0)
  }

  /** Each packet carries its own length in its Total Length field. */
  predicate AllWhole(packets: seq<seq<byte>>)
  {
    forall k :: 0 <= k < |packets| ==> |packets[k]| >= 4 && TotalLength(packets[k]) == |packets[k]|
  }

  /** Every packet the connection writes is a whole frame: its Total Length
      field is its own length. */
  lemma {:induction false} WrittenFramesWhole(buf: seq<byte>, stream: seq<byte>, pos: nat, ip: string, failingWrite: Option<nat>)
    requires |buf| == BufferLen && pos <= |stream|
    ensures AllWhole(ConnRun(buf, stream, pos, ip, failingWrite).written)
    decreases |stream| - pos
  {
    var s := FrameStep(buf, stream, pos, ip, failingWrite != Some(0));
    var r := ConnRun(buf, stream, pos, ip, failingWrite);
    if s.frame.Skipped? {
      WrittenFramesWhole(s.buf, stream, s.next, ip, failingWrite);
      assert r == ConnRun(s.buf, stream, s.next, ip, failingWrite);
    } else if s.frame.Written? {
      assert failingWrite != Some(0);
      assert s == FrameStep(buf, stream, pos, ip, true);
      WrittenIsFrame(buf, stream, pos, ip);
      var rest := ConnRun(s.buf, stream, s.next, ip, AfterWrite(failingWrite));
      WrittenFramesWhole(s.buf, stream, s.next, ip, AfterWrite(failingWrite));
      assert r.written == [s.frame.packet] + rest.written;
      assert |s.frame.packet| >= 4 && TotalLength(s.frame.packet) == |s.frame.packet|;
    } else {
      assert r.written == [];
    }
  }

  /** What the main loop does with the error that ended `handle_conn`. */
  datatype Recovery = Reaccept | Panic

  function OnHandlerError(f: Frame): (r: Recovery)
    ensures r == Reaccept <==> f == VsockError
  {
    if f == VsockError then Reaccept else Panic
  }
}
