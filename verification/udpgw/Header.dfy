/** The UDP gateway's packet header (udpgw/udpgw.go:17-20, 92-114, 155-170). */
module Header {
  import opened OptionType

  type Byte = x: int | 0 <= x < 256

  const KEEPALIVE := 1
  const DNS := 4
  const IPV6 := 8

  /** `flags&mask == mask`, for a mask of one bit. */
  predicate Has(flags: int, mask: int)
    requires mask > 0
  {
    flags / mask % 2 == 1
  }

  function U16(hi: Byte, lo: Byte): nat { 256 * hi + lo }

  function PutU16(n: nat): (r: seq<Byte>)
    requires n < 65536
    ensures |r| == 2 && U16(r[0], r[1]) == n
  {
    [n / 256, n % 256]
  }

  /** `Panics` is a slice of the packet beyond its length (udpgw/udpgw.go:109, 113). */
  datatype Parsed =
    | DataError
    | KeepAlive
    | Panics
    | Request(flags: Byte, conid: nat, ip: seq<Byte>, port: nat, data: seq<Byte>)

  function Parse(p: seq<Byte>): Parsed {
    if |p| < 3 then DataError
    else
      var flags, conid := p[0], U16(p[1], p[2]);
      if Has(flags, KEEPALIVE) then KeepAlive
      else if Has(flags, IPV6) then
        if |p| < 21 then Panics
        else Request(flags, conid, p[3..19], U16(p[19], p[20]), p[21..])
      else
        if |p| < 9 then Panics
        else Request(flags, conid, p[3..7], U16(p[7], p[8]), p[9..])
  }

  /** The flags a reply carries: the request's, reduced to `IPV6` and `DNS`. */
  function ReplyFlags(flags: Byte): Byte {
    (if Has(flags, IPV6) then IPV6 else 0) + (if Has(flags, DNS) then DNS else 0)
  }

  function ReplyHeader(flags: Byte, conid: nat, ip: seq<Byte>, port: nat): seq<Byte>
    requires conid < 65536 && port < 65536
  {
    [ReplyFlags(flags)] + PutU16(conid) + ip + PutU16(port)
  }

  lemma ReplyFlagsKeepBits(flags: Byte)
    ensures Has(ReplyFlags(flags), IPV6) <==> Has(flags, IPV6)
    ensures Has(ReplyFlags(flags), DNS) <==> Has(flags, DNS)
    ensures !Has(ReplyFlags(flags), KEEPALIVE) && ReplyFlags(flags) in {0, DNS, IPV6, IPV6 + DNS}
  {
  }

  /** A request byte by byte: bit 0 of the flags asks for nothing but life, bit 3 says that the address has
      16 bytes and not 4, and the two numbers have their high byte first. */
  lemma ParseByNumbers(p: seq<Byte>)
    ensures |p| < 3 <==> Parse(p).DataError?
    ensures |p| >= 3 ==> (Parse(p).KeepAlive? <==> p[0] % 2 == 1)
    ensures |p| >= 3 && p[0] % 2 == 0 && p[0] / 8 % 2 == 1 ==>
              if |p| < 21 then Parse(p).Panics?
              else Parse(p) == Request(p[0], (p[1] as int) * 256 + p[2] as int, p[3..19],
                                       (p[19] as int) * 256 + p[20] as int, p[21..])
    ensures |p| >= 3 && p[0] % 2 == 0 && p[0] / 8 % 2 == 0 ==>
              if |p| < 9 then Parse(p).Panics?
              else Parse(p) == Request(p[0], (p[1] as int) * 256 + p[2] as int, p[3..7],
                                       (p[7] as int) * 256 + p[8] as int, p[9..])
  {
  }

  /** Bits 2 and 3 of the flags go back, and no other; the numbers go out high byte first. */
  lemma ReplyByNumbers(flags: Byte, conid: nat, ip: seq<Byte>, port: nat)
    requires conid < 65536 && port < 65536
    ensures ReplyFlags(flags) == flags / 4 % 4 * 4
    ensures ReplyHeader(flags, conid, ip, port)
         == [flags / 4 % 4 * 4, conid / 256, conid % 256] + ip + [port / 256, port % 256]
  {
    assert flags / 4 % 4 == flags / 4 % 2 + 2 * (flags / 8 % 2);
  }

  lemma ParsedIsInRange(p: seq<Byte>)
    requires Parse(p).Request?
    ensures var r := Parse(p);
            && r.conid < 65536 && r.port < 65536 && !Has(r.flags, KEEPALIVE)
            && |r.ip| == (if Has(r.flags, IPV6) then 16 else 4)
            && |p| == |r.data| + |r.ip| + 5
  {
  }

  lemma ParseOfHeader(flags: Byte, conid: nat, ip: seq<Byte>, port: nat, payload: seq<Byte>)
    requires conid < 65536 && port < 65536
    requires |ip| == if Has(flags, IPV6) then 16 else 4
    ensures Parse(ReplyHeader(flags, conid, ip, port) + payload)
         == Request(ReplyFlags(flags), conid, ip, port, payload)
  {
    ReplyFlagsKeepBits(flags);
    var h := ReplyHeader(flags, conid, ip, port);
    var q, n := h + payload, |ip|;
    assert h[1..3] == PutU16(conid) && h[3..3 + n] == ip && h[3 + n..] == PutU16(port);
    assert q[0] == ReplyFlags(flags) && q[1] == h[1..3][0] && q[2] == h[1..3][1];
    assert q[3..3 + n] == h[3..3 + n];
    assert q[3 + n] == h[3 + n..][0] && q[4 + n] == h[3 + n..][1];
    assert q[5 + n..] == payload;
  }

  /** Header round trip: a reply to any well-formed request, parsed as the gateway parses requests,
      names the same connection, address and port, with the flags masked to `IPV6` and `DNS`. */
  lemma HeaderRoundTrip(p: seq<Byte>, payload: seq<Byte>)
    requires Parse(p).Request?
    ensures var r := Parse(p);
            && r.conid < 65536 && r.port < 65536
            && Parse(ReplyHeader(r.flags, r.conid, r.ip, r.port) + payload)
               == Request(ReplyFlags(r.flags), r.conid, r.ip, r.port, payload)
  {
    ParsedIsInRange(p);
    var r := Parse(p);
    ParseOfHeader(r.flags, r.conid, r.ip, r.port, payload);
  }

  /** Go's `copy(buffer[at:], src)`. */
  method CopyAt(buffer: array<Byte>, at: nat, src: seq<Byte>) returns (n: nat)
    requires at <= buffer.Length
    modifies buffer
    ensures n == if |src| <= buffer.Length - at then |src| else buffer.Length - at
    ensures buffer[at..at + n] == src[..n]
    ensures buffer[..at] == old(buffer[..at]) && buffer[at + n..] == old(buffer[at + n..])
  {
    n := if |src| <= buffer.Length - at then |src| else buffer.Length - at;
    for i := 0 to n
      invariant buffer[at..at + i] == src[..i]
      invariant buffer[..at] == old(buffer[..at]) && buffer[at + i..] == old(buffer[at + i..])
    {
      buffer[at + i] := src[i];
      assert buffer[at..at + i + 1] == buffer[at..at + i] + [src[i]];
    }
  }

  /** The address and port that follow the conid. */
  method FillAddress(buffer: array<Byte>, start: nat, ip: seq<Byte>, port: nat) returns (end: Option<nat>)
    requires start <= buffer.Length && port < 65536
    modifies buffer
    ensures buffer[..start] == old(buffer[..start])
    ensures end.None? <==> buffer.Length - start < |ip| + 2
    ensures end.Some? ==>
              end.value == start + |ip| + 2 <= buffer.Length && buffer[start..end.value] == ip + PutU16(port)
    ensures end.Some? ==> buffer[end.value..] == old(buffer[end.value..])
  {
    var n := CopyAt(buffer, start, ip);
    var offset := start + n;
    if buffer.Length - offset < 2 {
      return None;
    }
    ghost var before := buffer[..offset];
    var m := CopyAt(buffer, offset, PutU16(port));
    assert buffer[start..offset + 2] == before[start..] + PutU16(port);
    return Some(offset + 2);
  }

  /** The flags and the conid. */
  method FillStart(buffer: array<Byte>, start: nat, flags: Byte, conid: nat) returns (end: Option<nat>)
    requires start <= buffer.Length && conid < 65536
    modifies buffer
    ensures buffer[..start] == old(buffer[..start])
    ensures end.None? <==> buffer.Length - start < 3
    ensures end.Some? ==>
              end.value == start + 3 <= buffer.Length && buffer[start..end.value] == [ReplyFlags(flags)] + PutU16(conid)
    ensures end.Some? ==> buffer[end.value..] == old(buffer[end.value..])
  {
    var offset := start;
    if offset >= buffer.Length {
      return None;
    }
    buffer[offset] := if Has(flags, IPV6) then IPV6 else 0;
    if Has(flags, DNS) {
      buffer[offset] := buffer[offset] + DNS;
    }
    offset := offset + 1;
    if buffer.Length - offset < 2 {
      return None;
    }
    ghost var before := buffer[..offset];
    var m := CopyAt(buffer, offset, PutU16(conid));
    assert buffer[start..offset + 2] == before[start..] + PutU16(conid);
    assert buffer[..start] == before[..start];
    return Some(offset + 2);
  }

  /** `procRead` fills the header into its buffer through a moving offset; `None` is a panic, which
      happens exactly when the buffer is too short for the header. */
  method FillHeader(buffer: array<Byte>, start: nat, flags: Byte, conid: nat, ip: seq<Byte>, port: nat)
    returns (end: Option<nat>)
    requires start <= buffer.Length && conid < 65536 && port < 65536
    modifies buffer
    ensures buffer[..start] == old(buffer[..start])
    ensures end.None? <==> buffer.Length - start < |ip| + 5
    ensures end.Some? ==>
              && end.value == start + |ip| + 5 <= buffer.Length
              && buffer[start..end.value] == ReplyHeader(flags, conid, ip, port)
              && buffer[end.value..] == old(buffer[end.value..])
  {
    hide ReplyFlags, PutU16;
    end := FillStart(buffer, start, flags, conid);
    if end.None? {
      return;
    }
    var offset := end.value;
    ghost var head := buffer[..offset];
    end := FillAddress(buffer, offset, ip, port);
    assert buffer[..start] == head[..start];
    if end.Some? {
      assert buffer[start..offset] == head[start..];
      assert buffer[start..end.value] == buffer[start..offset] + buffer[offset..end.value];
    }
  }
}
