/** Lower-case hexadecimal text of byte strings, as `bytesToHex` writes it,
    and the parser `hexToBytes` that reads it back (either letter case),
    with its two error messages. */
module Hex {
  import opened Common

  function HexDigit(n: nat): (c: char)
    requires n < 16
  {
    if n < 10 then ('0' as int + n) as char else ('a' as int + n - 10) as char
  }

  /** The value of one hexadecimal character, if it is one. */
  function HexValue(c: char): (r: Option<nat>)
    ensures r.Some? ==> r.value < 16
  {
    if '0' <= c <= '9' then Some(c as int - '0' as int)
    else if 'a' <= c <= 'f' then Some(c as int - 'a' as int + 10)
    else if 'A' <= c <= 'F' then Some(c as int - 'A' as int + 10)
    else None
  }

  lemma HexValueOfDigit(n: nat)
    requires n < 16
    ensures HexValue(HexDigit(n)) == Some(n)
  {
  }

  function BytesToHex(b: seq<byte>): (s: string)
    ensures |s| == 2 * |b|
  {
    if b == [] then "" else [HexDigit(b[0] / 16), HexDigit(b[0] % 16)] + BytesToHex(b[1..])
  }

  /** Pairs of characters from index `from` on, read as bytes. */
  function PairsToBytes(s: string, from: nat): (r: Result<seq<byte>>)
    requires from <= |s| && (|s| - from) % 2 == 0
    ensures r.Ok? ==> 2 * |r.value| == |s| - from
    decreases |s| - from
  {
    if from == |s| then Ok([])
    else
      var hi, lo := HexValue(s[from]), HexValue(s[from + 1]);
      if hi.None? || lo.None? then
        Result<seq<byte>>.Err("hex string expected, got non-hex character \"" + [s[from], s[from + 1]] + "\" at index " + NatToString(from))
      else
        match PairsToBytes(s, from + 2)
        case Err(m) => Err(m)
        case Ok(rest) => Result<seq<byte>>.Ok([hi.value * 16 + lo.value] + rest)
  }

  function HexToBytes(s: string): (r: Result<seq<byte>>)
    ensures r.Ok? ==> 2 * |r.value| == |s|
    ensures |s| % 2 == 1 ==> r == Err("hex string expected, got unpadded hex of length " + NatToString(|s|))
  {
    if |s| % 2 == 1 then Err("hex string expected, got unpadded hex of length " + NatToString(|s|))
    else PairsToBytes(s, 0)
  }

  lemma {:induction false} PairsOfHex(b: seq<byte>, prefix: string, s: string)
    requires s == prefix + BytesToHex(b)
    ensures PairsToBytes(s, |prefix|) == Ok(b)
    decreases |b|
  {
    if b != [] {
      var p2 := prefix + [HexDigit(b[0] / 16), HexDigit(b[0] % 16)];
      assert s == p2 + BytesToHex(b[1..]);
      PairsOfHex(b[1..], p2, s);
      HexValueOfDigit(b[0] / 16);
      HexValueOfDigit(b[0] % 16);
      assert s[|prefix|] == HexDigit(b[0] / 16) && s[|prefix| + 1] == HexDigit(b[0] % 16);
      assert [b[0]] + b[1..] == b;
    }
  }

  /** What `bytesToHex` writes, `hexToBytes` reads back unchanged. */
  lemma HexRoundTrip(b: seq<byte>)
    ensures HexToBytes(BytesToHex(b)) == Ok(b)
  {
    var s := BytesToHex(b);
    assert |s| == 2 * |b|;
    assert |s| % 2 == 0;
    assert s == "" + s;
    PairsOfHex(b, "", s);
    assert PairsToBytes(s, 0) == Ok(b);
  }

  /** Hex text is the only text that parses: every character of accepted text is a hex digit. */
  predicate IsHexText(s: string)
  {
    |s| % 2 == 0 && forall k :: 0 <= k < |s| ==> HexValue(s[k]).Some?
  }

  lemma {:induction false} PairsAcceptHex(s: string, from: nat)
    requires from <= |s| && (|s| - from) % 2 == 0
    ensures PairsToBytes(s, from).Ok? <==> forall k :: from <= k < |s| ==> HexValue(s[k]).Some?
    decreases |s| - from
  {
    if from < |s| {
      PairsAcceptHex(s, from + 2);
    }
  }

  lemma HexToBytesAccepts(s: string)
    ensures HexToBytes(s).Ok? <==> IsHexText(s)
  {
    if |s| % 2 == 0 {
      PairsAcceptHex(s, 0);
    }
  }

  lemma BytesToHexIsHex(b: seq<byte>)
    ensures IsHexText(BytesToHex(b))
  {
    HexRoundTrip(b);
    HexToBytesAccepts(BytesToHex(b));
  }
}
