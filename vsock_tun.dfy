/** The TUN variant of the incoming proxy. It frames and filters exactly as
    the raw variant does, reusing the same 65535-byte buffer, but hands the
    whole buffer to `write_all` instead of the frame's `size` bytes, so the
    TUN device receives the packet followed by whatever earlier frames left
    in the buffer. */
module VsockToTunIncoming {
  import opened Common
  import Ipv4
  import opened VsockToIpIncoming

  /** One iteration of this proxy's `handle_conn` loop. */
  function TunFrameStep(buf: seq<byte>, stream: seq<byte>, pos: nat, ip: string, writeOk: bool): (s: Step)
    requires |buf| == BufferLen && pos <= |stream|
    ensures |s.buf| == BufferLen && pos <= s.next <= |stream|
  {
    if |stream| - pos < 4 then Step(VsockError, buf, pos)
    else
      var b := Fill(buf, 0, stream[pos..pos + 4]);
      var size := TotalLength(b);
      if size < 4 then Step(Panicked, b, pos + 4)
      else TunBodyStep(b, stream, pos, ip, writeOk)
  }

  /** The rest of a frame, once its first four bytes are in `b` and its
      Total Length is at least 4. */
  function TunBodyStep(b: seq<byte>, stream: seq<byte>, pos: nat, ip: string, writeOk: bool): (s: Step)
    requires |b| == BufferLen && pos + 4 <= |stream| && TotalLength(b) >= 4
    ensures |s.buf| == BufferLen && pos + 4 <= s.next <= |stream|
  {
    var size := TotalLength(b);
    if size - 4 > |stream| - (pos + 4) then Step(VsockError, b, pos + 4)
    else
      var b2 := Fill(b, 4, stream[pos + 4..pos + size]);
      if !ForUs(b2, ip) then Step(Skipped, b2, pos + size)
      else if writeOk then Step(Written(b2[..]), b2, pos + size)
      else Step(IpError, b2, pos + size)
  }

  method HandleTunFrame(buf: array<byte>, stream: seq<byte>, pos: nat, ip: string, writeOk: bool) returns (f: Frame, next: nat)
    requires buf.Length == BufferLen && pos <= |stream|
    modifies buf
    ensures Step(f, buf[..], next) == TunFrameStep(old(buf[..]), stream, pos, ip, writeOk)
  {
    var ok;
    ok, next := ReadExact(buf, 0, 4, stream, pos);
    if !ok {
      return VsockError, next;
    }
    assert buf[..4] == stream[pos..pos + 4];
    var size := buf[2] as int * 256 + buf[3] as int;
    if size < 4 {
      return Panicked, next;
    }
    f, next := HandleTunBody(buf, stream, pos, ip, writeOk);
  }

  method HandleTunBody(buf: array<byte>, stream: seq<byte>, pos: nat, ip: string, writeOk: bool) returns (f: Frame, next: nat)
    requires buf.Length == BufferLen && pos + 4 <= |stream| && TotalLength(buf[..]) >= 4
    modifies buf
    ensures Step(f, buf[..], next) == TunBodyStep(old(buf[..]), stream, pos, ip, writeOk)
  {
    ghost var b0 := buf[..];
    var size := buf[2] as int * 256 + buf[3] as int;
    assert size == TotalLength(b0);
    var ok;
    ok, next := ReadExact(buf, 4, size, stream, pos + 4);
    if !ok {
      return VsockError, next;
    }
    ghost var b2 := buf[..];
    assert b2 == Fill(b0, 4, stream[pos + 4..pos + size]);
    var dst := buf[16..20];
    assert dst == b2[16..20];
    assert ForUs(b2, ip) <==> Ipv4.Dotted(dst) == ip;
    if Ipv4.Dotted(dst) != ip {
      return Skipped, next;
    }
    if !writeOk {
      return IpError, next;
    }
    f := Written(buf[..]);
    assert f.packet == b2;
  }

  /** A written buffer is always 65535 bytes: the frame from the stream, then
      the bytes the buffer held before this frame. */
  lemma {:induction false} WritesWholeBuffer(buf: seq<byte>, stream: seq<byte>, pos: nat, ip: string)
    requires |buf| == BufferLen && pos <= |stream|
    requires TunFrameStep(buf, stream, pos, ip, true).frame.Written?
    ensures var s := TunFrameStep(buf, stream, pos, ip, true);
      var p := s.frame.packet;
      var size := s.next - pos;
      |p| == BufferLen && 4 <= size && TotalLength(p) == size
      && p[..size] == stream[pos..s.next] && p[size..] == buf[size..]
  {
    var head := stream[pos..pos + 4];
    var b := Fill(buf, 0, head);
    var size := TotalLength(b);
    var body := stream[pos + 4..pos + size];
    var s := TunFrameStep(buf, stream, pos, ip, true);
    assert s == TunBodyStep(b, stream, pos, ip, true);
    FillHeaderBody(buf, head, body);
    assert s.buf == head + body + buf[size..];
    assert s.buf[..size] == head + body;
    assert s.buf[size..] == buf[size..];
    assert stream[pos..pos + size] == head + body;
  }

  /** A frame for another destination, or one that cannot be read, writes nothing. */
  lemma TunFrameOutcomes(buf: seq<byte>, stream: seq<byte>, pos: nat, ip: string, writeOk: bool)
    requires |buf| == BufferLen && pos + 4 <= |stream|
    ensures var size := stream[pos + 2] as int * 256 + stream[pos + 3] as int;
      var s := TunFrameStep(buf, stream, pos, ip, writeOk);
      (s.frame == Panicked <==> size < 4)
      && (s.frame == VsockError <==> size >= 4 && pos + size > |stream|)
      && (s.frame == Skipped <==> size >= 4 && pos + size <= |stream| && !ForUs(s.buf, ip))
      && (s.frame.Written? <==> size >= 4 && pos + size <= |stream| && ForUs(s.buf, ip) && writeOk)
  {
    var b := Fill(buf, 0, stream[pos..pos + 4]);
    assert b[2] == stream[pos + 2] && b[3] == stream[pos + 3];
  }
}
