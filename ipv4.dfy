/** The outgoing enclave proxy: it takes each IPv4 packet queued by the
    firewall, rewrites its source address to the enclave's configured
    address when they differ (recomputing the header checksum of section 3.1
    of RFC 791 with the Internet checksum of RFC 1071), sends the packet
    whole through the vsock connection and drops it from the queue. */
module Ipv4 {
  import opened Common

  const HeaderLen: nat := 20
  const ChecksumOffset: nat := 10
  const SrcOffset: nat := 12
  const DstOffset: nat := 16

  // ---------------------------------------------------------------------
  // Internet checksum (RFC 1071)

  /** Number of 16-bit chunks `data.chunks(2)` yields. */
  function ChunkCount(data: seq<byte>): nat
  {
    (|data| + 1) / 2
  }

  /** The j-th chunk read big-endian; a trailing odd byte is the high byte. */
  function WordAt(data: seq<byte>, j: nat): (w: nat)
    requires j < ChunkCount(data)
    ensures w < 0x1_0000
  {
    if 2 * j + 1 < |data| then data[2 * j] as int * 256 + data[2 * j + 1] else data[2 * j] as int * 256
  }

  /** Plain sum of the first k chunks. */
  function SumWords(data: seq<byte>, k: nat): nat
    requires k <= ChunkCount(data)
  {
    if k == 0 then 0 else SumWords(data, k - 1) + WordAt(data, k - 1)
  }

  /** End-around-carry folding until the value fits in 16 bits. */
  function Fold(x: nat): (r: nat)
    ensures r < 0x1_0000
    ensures r % 0xFFFF == x % 0xFFFF
    ensures r == 0 <==> x == 0
    decreases x
  {
    if x / 0x1_0000 == 0 then x else Fold(x % 0x1_0000 + x / 0x1_0000)
  }

  /** What `checksum` returns: the ones' complement of the folded sum, the
      sum kept in an unsigned 32-bit accumulator that wraps. */
  function ChecksumOf(data: seq<byte>): (c: nat)
    ensures c < 0x1_0000
  {
    0xFFFF - Fold(SumWords(data, ChunkCount(data)) % 0x1_0000_0000)
  }

  lemma AddMod(a: nat, w: nat)
    ensures (a % 0x1_0000_0000 + w) % 0x1_0000_0000 == (a + w) % 0x1_0000_0000
  {
  }

  /** The `checksum` function: a loop over the chunks, then the carry fold. */
  method Checksum(data: seq<byte>) returns (c: nat)
    ensures c == ChecksumOf(data)
  {
    var sum: nat := 0;
    var j := 0;
    while j < ChunkCount(data)
      invariant j <= ChunkCount(data)
      invariant sum < 0x1_0000_0000
      invariant sum == SumWords(data, j) % 0x1_0000_0000
    {
      AddMod(SumWords(data, j), WordAt(data, j));
      sum := (sum + WordAt(data, j)) % 0x1_0000_0000;
      j := j + 1;
    }
    while sum / 0x1_0000 != 0
      invariant Fold(sum) == Fold(SumWords(data, ChunkCount(data)) % 0x1_0000_0000)
      decreases sum
    {
      sum := sum % 0x1_0000 + sum / 0x1_0000;
    }
    c := 0xFFFF - sum;
  }

  // ---------------------------------------------------------------------
  // Source address rewrite

  /** `set_source_ip` on values: new octets at 12..16, checksum field zeroed,
      checksum of the first 20 bytes written big-endian at 10..12. */
  function SetSourceIp(buf: seq<byte>, ip: seq<byte>): (r: seq<byte>)
    requires |buf| >= HeaderLen && |ip| == 4
    ensures |r| == |buf|
  {
    var zeroed := buf[..ChecksumOffset] + [0, 0] + ip + buf[DstOffset..];
    var c := ChecksumOf(zeroed[..HeaderLen]);
    zeroed[ChecksumOffset := c / 256][ChecksumOffset + 1 := c % 256]
  }

  /** `set_source_ip`, rewriting the packet in place. */
  method SetSourceIpInPlace(buf: array<byte>, ip: seq<byte>)
    requires buf.Length >= HeaderLen && |ip| == 4
    modifies buf
    ensures buf[..] == SetSourceIp(old(buf[..]), ip)
  {
    ghost var before := buf[..];
    buf[SrcOffset] := ip[0];
    buf[SrcOffset + 1] := ip[1];
    buf[SrcOffset + 2] := ip[2];
    buf[SrcOffset + 3] := ip[3];
    buf[ChecksumOffset] := 0;
    buf[ChecksumOffset + 1] := 0;
    assert buf[..] == before[..ChecksumOffset] + [0, 0] + ip + before[DstOffset..];
    var c := Checksum(buf[..HeaderLen]);
    buf[ChecksumOffset] := c / 256;
    buf[ChecksumOffset + 1] := c % 256;
  }

  /** The rewrite puts the new address at bytes 12..16 and touches nothing outside 10..16. */
  lemma SetSourceIpFrame(buf: seq<byte>, ip: seq<byte>)
    requires |buf| >= HeaderLen && |ip| == 4
    ensures SetSourceIp(buf, ip)[SrcOffset..DstOffset] == ip
    ensures forall k :: 0 <= k < |buf| && !(ChecksumOffset <= k < DstOffset) ==> SetSourceIp(buf, ip)[k] == buf[k]
  {
    var r := SetSourceIp(buf, ip);
    assert r[SrcOffset..DstOffset] == ip by {
      forall k | 0 <= k < 4 ensures r[SrcOffset + k] == ip[k] { }
    }
  }

  /** Two buffers whose chunks agree except at chunk j0 have sums that differ by that chunk. */
  lemma {:induction false} SumWordsExcept(a: seq<byte>, b: seq<byte>, k: nat, j0: nat)
    requires |a| == |b| && k <= ChunkCount(a) && j0 < ChunkCount(a)
    requires forall j :: 0 <= j < ChunkCount(a) && j != j0 ==> WordAt(a, j) == WordAt(b, j)
    ensures SumWords(a, k) + (if j0 < k then WordAt(b, j0) else 0)
         == SumWords(b, k) + (if j0 < k then WordAt(a, j0) else 0)
  {
    if k > 0 {
      SumWordsExcept(a, b, k - 1, j0);
    }
  }

  /** Adding the ones' complement of the folded sum makes the folded sum all ones. */
  lemma FoldWithComplement(s: nat)
    ensures Fold(s + (0xFFFF - Fold(s))) == 0xFFFF
  {
    var f := Fold(s);
    var t := s + (0xFFFF - f);
    assert (t % 0xFFFF) == 0 by {
      ModDiff(s, f);
    }
    assert t > 0 by {
      if s == 0 { assert f == 0; }
    }
    var g := Fold(t);
    assert g % 0xFFFF == 0 && g != 0 && g < 0x1_0000;
  }

  /** Once the header's checksum field holds the checksum of the header with
      that field zeroed, the checksum of the whole header is 0: the validity
      condition of section 3.1 of RFC 791. */
  lemma ChecksumValidates(zeroed: seq<byte>)
    requires |zeroed| == HeaderLen && zeroed[ChecksumOffset] == 0 && zeroed[ChecksumOffset + 1] == 0
    ensures var c := ChecksumOf(zeroed);
            ChecksumOf(zeroed[ChecksumOffset := c / 256][ChecksumOffset + 1 := c % 256]) == 0
  {
    var c := ChecksumOf(zeroed);
    var h: seq<byte> := zeroed[ChecksumOffset := c / 256][ChecksumOffset + 1 := c % 256];
    assert WordAt(zeroed, 5) == 0;
    assert WordAt(h, 5) == c;
    forall j | 0 <= j < 10 && j != 5 ensures WordAt(h, j) == WordAt(zeroed, j) {
      assert h[2 * j] == zeroed[2 * j] && h[2 * j + 1] == zeroed[2 * j + 1];
    }
    SumWordsExcept(h, zeroed, 10, 5);
    var s := SumWords(zeroed, 10);
    SumWordsBound(zeroed, 10);
    SumWordsBound(h, 10);
    assert SumWords(h, 10) == s + c;
    assert s % 0x1_0000_0000 == s;
    assert (s + c) % 0x1_0000_0000 == s + c;
    FoldWithComplement(s);
  }

  lemma {:induction false} SumWordsBound(data: seq<byte>, k: nat)
    requires k <= ChunkCount(data)
    ensures SumWords(data, k) <= k * 0xFFFF
  {
    if k > 0 {
      SumWordsBound(data, k - 1);
    }
  }

  lemma ModDiff(s: nat, f: nat)
    requires f < 0x1_0000 && f % 0xFFFF == s % 0xFFFF && (f == 0 <==> s == 0)
    ensures s + 0xFFFF - f >= 0
    ensures (s + 0xFFFF - f) % 0xFFFF == 0
  {
    var q := s / 0xFFFF;
    assert s == q * 0xFFFF + s % 0xFFFF;
    if f == 0xFFFF {
      assert s % 0xFFFF == 0;
    } else {
      assert f == s % 0xFFFF;
      assert s + 0xFFFF - f == (q + 1) * 0xFFFF;
    }
  }

  /** After `set_source_ip`, re-running `checksum` over the 20 header bytes gives 0. */
  lemma SetSourceIpChecksumValid(buf: seq<byte>, ip: seq<byte>)
    requires |buf| >= HeaderLen && |ip| == 4
    ensures ChecksumOf(SetSourceIp(buf, ip)[..HeaderLen]) == 0
  {
    var zeroed := buf[..ChecksumOffset] + [0, 0] + ip + buf[DstOffset..];
    var z := zeroed[..HeaderLen];
    var c := ChecksumOf(z);
    ChecksumValidates(z);
    var h: seq<byte> := z[ChecksumOffset := c / 256][ChecksumOffset + 1 := c % 256];
    assert SetSourceIp(buf, ip)[..HeaderLen] == h;
  }

  // ---------------------------------------------------------------------
  // Dotted-quad text

  /** The `fold` that prints octets: decimal values joined by ".". */
  function DottedFold(acc: string, vals: seq<byte>): string
    decreases |vals|
  {
    if vals == [] then acc
    else DottedFold(if acc != "" then acc + "." + NatToString(vals[0]) else acc + NatToString(vals[0]), vals[1..])
  }

  function Dotted(octets: seq<byte>): string
  {
    DottedFold("", octets)
  }

  /** Four octets print as a.b.c.d. */
  lemma DottedQuad(o: seq<byte>)
    requires |o| == 4
    ensures Dotted(o) == NatToString(o[0]) + "." + NatToString(o[1]) + "." + NatToString(o[2]) + "." + NatToString(o[3])
  {
    var a, b, c, d := NatToString(o[0]), NatToString(o[1]), NatToString(o[2]), NatToString(o[3]);
    assert o[1..][0] == o[1] && o[1..][1..] == o[2..];
    assert o[2..][0] == o[2] && o[2..][1..] == o[3..];
    assert o[3..][0] == o[3] && o[3..][1..] == [];
    assert "" + a == a;
    assert Dotted(o) == DottedFold(a, o[1..]);
    assert DottedFold(a, o[1..]) == DottedFold(a + "." + b, o[2..]);
    assert DottedFold(a + "." + b, o[2..]) == DottedFold(a + "." + b + "." + c, o[3..]);
    assert DottedFold(a + "." + b + "." + c, o[3..]) == DottedFold(a + "." + b + "." + c + "." + d, []);
  }

  /** One decimal octet as Rust's address parser accepts it: 1 to 3 digits,
      no leading zero, value at most 255. */
  predicate ValidOctetText(p: string)
  {
    1 <= |p| <= 3 && (forall k :: 0 <= k < |p| ==> IsDigit(p[k]))
    && (|p| > 1 ==> p[0] != '0') && DigitsValue(p) <= 255
  }

  /** `ip.parse::<Ipv4Addr>()`: four valid octets separated by dots. */
  function ParseIpv4(s: string): (r: Option<seq<byte>>)
    ensures r.Some? ==> |r.value| == 4
  {
    var parts := Split(s, '.');
    if |parts| == 4 && (forall k :: 0 <= k < 4 ==> ValidOctetText(parts[k])) then
      Some([DigitsValue(parts[0]), DigitsValue(parts[1]), DigitsValue(parts[2]), DigitsValue(parts[3])])
    else None
  }

  lemma {:induction false} SplitAfterSeparator(a: string, b: string, sep: char)
    requires !Contains(a, sep)
    ensures Split(a + [sep] + b, sep) == [a] + Split(b, sep)
    decreases |a|
  {
    if a == [] {
      assert [sep] + b == [sep] + b;
      assert ([sep] + b)[1..] == b;
    } else {
      assert !Contains(a[1..], sep) by {
        forall k | 0 <= k < |a[1..]| ensures a[1..][k] != sep { assert a[k + 1] != sep; }
      }
      SplitAfterSeparator(a[1..], b, sep);
      var s := a + [sep] + b;
      assert s[1..] == a[1..] + [sep] + b;
      assert s[0] == a[0];
      assert a[0] != sep;
      var rest := Split(s[1..], sep);
      assert rest == [a[1..]] + Split(b, sep);
      assert Split(s, sep) == [[a[0]] + rest[0]] + rest[1..];
      assert [a[0]] + a[1..] == a;
    }
  }

  lemma {:induction false} SplitWithout(a: string, sep: char)
    requires !Contains(a, sep)
    ensures Split(a, sep) == [a]
    decreases |a|
  {
    if a != [] {
      assert !Contains(a[1..], sep) by {
        forall k | 0 <= k < |a[1..]| ensures a[1..][k] != sep { assert a[k + 1] != sep; }
      }
      SplitWithout(a[1..], sep);
      assert a[0] != sep;
      assert [a[0]] + a[1..] == a;
    }
  }

  lemma NoDotInNumber(n: nat)
    ensures !Contains(NatToString(n), '.')
  {
    var s := NatToString(n);
    forall k | 0 <= k < |s| ensures s[k] != '.' { assert IsDigit(s[k]); }
  }

  lemma OctetTextValid(n: byte)
    ensures ValidOctetText(NatToString(n))
    ensures DigitsValue(NatToString(n)) == n
  {
    DigitsValueOfNatToString(n);
    if n >= 10 {
      assert NatToString(n) == NatToString(n / 10) + [DigitChar(n % 10)];
      if n / 10 >= 10 {
        assert NatToString(n / 10) == NatToString(n / 100) + [DigitChar((n / 10) % 10)];
      }
    }
  }

  lemma SplitTwo(c: string, d: string)
    requires !Contains(c, '.') && !Contains(d, '.')
    ensures Split(c + ['.'] + d, '.') == [c, d]
  {
    SplitWithout(d, '.');
    SplitAfterSeparator(c, d, '.');
  }

  lemma SplitPrepend(b: string, rest: string, tail: seq<string>)
    requires !Contains(b, '.') && Split(rest, '.') == tail
    ensures Split(b + ['.'] + rest, '.') == [b] + tail
  {
    SplitAfterSeparator(b, rest, '.');
  }

  /** Splitting four dot-free pieces joined by dots gives the pieces back. */
  lemma SplitFour(a: string, b: string, c: string, d: string)
    requires !Contains(a, '.') && !Contains(b, '.') && !Contains(c, '.') && !Contains(d, '.')
    ensures Split(a + "." + b + "." + c + "." + d, '.') == [a, b, c, d]
  {
    var cd := c + ['.'] + d;
    var bcd := b + ['.'] + cd;
    SplitTwo(c, d);
    SplitPrepend(b, cd, [c, d]);
    SplitPrepend(a, bcd, [b, c, d]);
    DotsAssociate(a, b, c, d);
  }

  lemma DotsAssociate(a: string, b: string, c: string, d: string)
    ensures a + "." + b + "." + c + "." + d == a + ['.'] + (b + ['.'] + (c + ['.'] + d))
  {
  }

  /** Parsing what `Dotted` prints gives the octets back. */
  lemma ParseDotted(o: seq<byte>)
    requires |o| == 4
    ensures ParseIpv4(Dotted(o)) == Some(o)
  {
    DottedQuad(o);
    var a, b, c, d := NatToString(o[0]), NatToString(o[1]), NatToString(o[2]), NatToString(o[3]);
    NoDotInNumber(o[0]); NoDotInNumber(o[1]); NoDotInNumber(o[2]); NoDotInNumber(o[3]);
    SplitFour(a, b, c, d);
    var parts := Split(Dotted(o), '.');
    assert parts == [a, b, c, d];
    OctetTextValid(o[0]); OctetTextValid(o[1]); OctetTextValid(o[2]); OctetTextValid(o[3]);
    assert forall k :: 0 <= k < 4 ==> ValidOctetText(parts[k]);
    assert [DigitsValue(a), DigitsValue(b), DigitsValue(c), DigitsValue(d)] == o;
  }

  lemma {:induction false} DigitsValuePositive(p: string)
    requires p != [] && (forall k :: 0 <= k < |p| ==> IsDigit(p[k])) && p[0] != '0'
    ensures DigitsValue(p) >= 1
    decreases |p|
  {
    if |p| > 1 {
      DigitsValuePositive(p[..|p| - 1]);
    }
  }

  lemma {:induction false} NatToStringOfDigits(p: string)
    requires p != [] && (forall k :: 0 <= k < |p| ==> IsDigit(p[k])) && (|p| > 1 ==> p[0] != '0')
    ensures NatToString(DigitsValue(p)) == p
    decreases |p|
  {
    var n := DigitsValue(p);
    var last := p[|p| - 1] as int - '0' as int;
    if |p| == 1 {
      assert n == last;
      assert "0123456789"[last] == p[0];
    } else {
      var q := p[..|p| - 1];
      NatToStringOfDigits(q);
      DigitsValuePositive(q);
      assert n == DigitsValue(q) * 10 + last;
      assert n / 10 == DigitsValue(q) && n % 10 == last;
      assert "0123456789"[last] == p[|p| - 1];
      assert q + [p[|p| - 1]] == p;
    }
  }

  /** Conversely, an address that parses is exactly the text `Dotted` prints for it. */
  lemma DottedOfParsed(s: string)
    requires ParseIpv4(s).Some?
    ensures Dotted(ParseIpv4(s).value) == s
  {
    var parts := Split(s, '.');
    var o := ParseIpv4(s).value;
    forall k | 0 <= k < 4 ensures NatToString(o[k]) == parts[k] {
      NatToStringOfDigits(parts[k]);
    }
    DottedQuad(o);
    SplitJoin(s, '.');
    JoinQuad(parts);
  }

  /** Four parts joined with dots, written left to right. */
  lemma JoinQuad(parts: seq<string>)
    requires |parts| == 4
    ensures Join(parts, ".") == parts[0] + "." + parts[1] + "." + parts[2] + "." + parts[3]
  {
    assert parts[1..][0] == parts[1] && parts[1..][1..] == parts[2..];
    assert parts[2..][0] == parts[2] && parts[2..][1..] == [parts[3]];
    assert Join([parts[3]], ".") == parts[3];
    assert Join(parts[2..], ".") == parts[2] + "." + parts[3];
    assert Join(parts[1..], ".") == parts[1] + "." + (parts[2] + "." + parts[3]);
  }

  // ---------------------------------------------------------------------
  // Per-packet handling in `handle_conn`

  /** Result of one `send` call on the vsock socket. */
  datatype SendReply = Sent(n: nat) | SendError

  datatype PacketOutcome =
    | Forwarded(sent: seq<byte>)  // all bytes sent, verdict Drop issued
    | Panicked                    // a slice out of range or an invalid configured address
    | VsockError                  // `send` failed: the main loop reopens the vsock socket
    | Unfinished                  // the supplied send replies ran out before all bytes went out

  /** Is the packet's source, printed as text, different from the configured address? */
  predicate NeedsRewrite(packet: seq<byte>, ip: string)
    requires |packet| >= HeaderLen
  {
    Dotted(packet[SrcOffset..DstOffset]) != ip
  }

  /** The rewrite happens exactly when the packet's source octets are not the
      configured address (for a configured address that parses). */
  lemma NeedsRewriteIff(packet: seq<byte>, ip: string)
    requires |packet| >= HeaderLen && ParseIpv4(ip).Some?
    ensures NeedsRewrite(packet, ip) <==> packet[SrcOffset..DstOffset] != ParseIpv4(ip).value
  {
    DottedOfParsed(ip);
    if !NeedsRewrite(packet, ip) {
      ParseDotted(packet[SrcOffset..DstOffset]);
    }
  }

  /** One iteration of the outgoing loop: read both addresses, rewrite the
      source when needed, then `send` until all `size` bytes are out. Each
      element of `replies` is what one `send` call returns. */
  method HandlePacket(buf: array<byte>, ip: string, replies: seq<SendReply>) returns (out: PacketOutcome)
    modifies buf
    ensures buf.Length < HeaderLen ==> out == Panicked && buf[..] == old(buf[..])
    ensures buf.Length >= HeaderLen && !NeedsRewrite(old(buf[..]), ip) ==> buf[..] == old(buf[..]) && out != Panicked
    ensures buf.Length >= HeaderLen && NeedsRewrite(old(buf[..]), ip) && ParseIpv4(ip).None? ==>
              out == Panicked && buf[..] == old(buf[..])
    ensures buf.Length >= HeaderLen && NeedsRewrite(old(buf[..]), ip) && ParseIpv4(ip).Some? ==>
              buf[..] == SetSourceIp(old(buf[..]), ParseIpv4(ip).value) && out != Panicked
    ensures out.Forwarded? ==> out.sent == buf[..]
  {
    if buf.Length < HeaderLen {
      return Panicked;
    }
    if NeedsRewrite(buf[..], ip) {
      var parsed := ParseIpv4(ip);
      if parsed.None? {
        return Panicked;
      }
      SetSourceIpInPlace(buf, parsed.value);
    }
    var size := buf.Length;
    var totalSent := 0;
    var i := 0;
    var sent: seq<byte> := [];
    while totalSent < size
      invariant 0 <= totalSent <= size && i <= |replies|
      invariant sent == buf[..totalSent]
      decreases |replies| - i
    {
      if i == |replies| {
        return Unfinished;
      }
      match replies[i]
      case SendError =>
        return VsockError;
      case Sent(n) =>
        var k := if totalSent + n <= size then n else size - totalSent;
        sent := sent + buf[totalSent..totalSent + k];
        totalSent := totalSent + k;
      i := i + 1;
    }
    assert buf[..totalSent] == buf[..];
    out := Forwarded(sent);
  }

  /** What the main loop does with the error that ended `handle_conn`. */
  datatype Recovery = ReopenQueue | ReopenVsock

  datatype ConnError = NfqError | VsockConnError

  function OnConnError(e: ConnError): (r: Recovery)
    ensures e == NfqError <==> r == ReopenQueue
  {
    match e
    case NfqError => ReopenQueue
    case VsockConnError => ReopenVsock
  }
}
