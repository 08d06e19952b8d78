/** The gRPC Length-Prefixed-Message framing of util.go: a 1-byte compressed
    flag, a 4-byte big-endian payload length, then the payload. */
module Framing {
  import opened Base
  import opened Streams

  const Uint32Limit: nat := 0x1_0000_0000

  /** `binary.BigEndian.PutUint32` as a value: the four bytes of `n`, most
      significant first. */
  function BE32(n: nat): (b: seq<byte>)
    requires n < Uint32Limit
    ensures |b| == 4
  {
    [(n / 0x100_0000) as byte, (n / 0x1_0000 % 0x100) as byte,
     (n / 0x100 % 0x100) as byte, (n % 0x100) as byte]
  }

  /** `binary.BigEndian.Uint32`: the number four bytes stand for, most
      significant first. */
  function Uint32(b: seq<byte>): (n: nat)
    requires |b| == 4
    ensures n < Uint32Limit
  {
    b[0] as nat * 0x100_0000 + b[1] as nat * 0x1_0000 + b[2] as nat * 0x100 + b[3] as nat
  }

  lemma Uint32OfBE32(n: nat)
    requires n < Uint32Limit
    ensures Uint32(BE32(n)) == n
  {
    var q1, q2, q3 := n / 0x100, n / 0x1_0000, n / 0x100_0000;
    assert n == q1 * 0x100 + n % 0x100;
    assert q1 == q2 * 0x100 + q1 % 0x100;
    assert q2 == q3 * 0x100 + q2 % 0x100;
    assert q1 % 0x100 == n / 0x100 % 0x100;
    assert q2 % 0x100 == n / 0x1_0000 % 0x100;
  }

  lemma BE32OfUint32(b: seq<byte>)
    requires |b| == 4
    ensures BE32(Uint32(b)) == b
  {
    var n := Uint32(b);
    assert n / 0x100 == b[0] as nat * 0x1_0000 + b[1] as nat * 0x100 + b[2] as nat;
    assert n / 0x1_0000 == b[0] as nat * 0x100 + b[1] as nat;
    assert n / 0x100_0000 == b[0] as nat;
  }

  /** `PutUint32(a[off:], v)`: writes the big-endian bytes of `v` into
      `a[off..off + 4]` and leaves the rest of `a` alone. */
  method PutUint32(a: array<byte>, off: nat, v: nat)
    requires off + 4 <= a.Length && v < Uint32Limit
    modifies a
    ensures a[..] == old(a[..off]) + BE32(v) + old(a[off + 4..])
  {
    var b := BE32(v);
    a[off], a[off + 1], a[off + 2], a[off + 3] := b[0], b[1], b[2], b[3];
  }

  /** The 5-byte header `encode` builds for a payload of `n` bytes; the
      length goes through Go's `uint32(len(buf))`, which keeps the low 32 bits. */
  function HeaderBytes(cf: byte, n: nat): (h: seq<byte>)
    ensures |h| == 5 && h[0] == cf
    ensures n < Uint32Limit ==> Uint32(h[1..]) == n
  {
    Uint32OfBE32(n % Uint32Limit);
    [cf] + BE32(n % Uint32Limit)
  }

  /** The bytes of one frame: header, then payload. */
  function FrameBytes(cf: byte, buf: seq<byte>): (f: seq<byte>)
    ensures |f| == 5 + |buf| && f[0] == cf && f[5..] == buf
    ensures |buf| < Uint32Limit ==> Uint32(f[1..5]) == |buf|
  {
    var h := HeaderBytes(cf, |buf|);
    assert (h + buf)[1..5] == h[1..];
    h + buf
  }

  /** What the header alone decides about a frame (util.go:33-43). */
  datatype Verdict = EmptyMessage | Rejected(error: Error) | ReadPayload

  function Check(length: nat, maxMsgSize: nat): (v: Verdict)
    requires length < Uint32Limit
    ensures v == EmptyMessage <==> length == 0
    ensures v == ReadPayload <==> 0 < length <= maxMsgSize
    ensures v.Rejected? ==> v.error == SizeLimit(length, maxMsgSize)
  {
    if length == 0 then EmptyMessage
    else if length > maxMsgSize then Rejected(SizeLimit(length, maxMsgSize))
    else ReadPayload
  }

  /** The result of `decode` on a stream: flag, payload, error, and how many
      bytes it took from the stream. */
  datatype Decoded = Decoded(cf: byte, msg: Bytes, err: Option<Error>, consumed: nat)

  /** `decode` as written, on the bytes `s` left in a `bytes.Reader`: one
      `Read` for the header and one for the payload, each of which may
      return fewer bytes than asked for, leaving the rest of its buffer zero. */
  function Decoding(s: seq<byte>, maxMsgSize: nat): (d: Decoded)
    ensures d.consumed <= |s|
    ensures |s| == 0 ==> d == Decoded(0, Null, None, 0)
    ensures |s| >= 5 ==> d.cf == s[0]
    ensures |s| >= 5 && Uint32(s[1..5]) == 0 ==> d == Decoded(s[0], Null, None, 5)
    ensures |s| >= 5 && Uint32(s[1..5]) > maxMsgSize ==>
              d == Decoded(s[0], Null, Some(SizeLimit(Uint32(s[1..5]), maxMsgSize)), 5)
    ensures |s| == 5 && 0 < Uint32(s[1..5]) <= maxMsgSize ==>
              d == Decoded(s[0], Null, Some(UnexpectedEOF), 5)
  {
    if |s| == 0 then Decoded(0, Null, None, 0)
    else
      var k := Min(5, |s|);
      var header := s[..k] + Zeros(5 - k);
      assert |s| >= 5 ==> header == s[..5] && header[1..] == s[1..5];
      var cf, length := header[0], Uint32(header[1..]);
      match Check(length, maxMsgSize)
      case EmptyMessage => Decoded(cf, Null, None, k)
      case Rejected(e) => Decoded(cf, Null, Some(e), k)
      case ReadPayload =>
        var rest := s[k..];
        if |rest| == 0 then Decoded(cf, Null, Some(UnexpectedEOF), k)
        else
          var j := Min(length, |rest|);
          Decoded(cf, Buf(rest[..j] + Zeros(length - j)), None, k + j)
  }

  /** `decode` with both reads done by `io.ReadFull`: a frame cut short
      anywhere after its first byte is an unexpected EOF. */
  function FullDecoding(s: seq<byte>, maxMsgSize: nat): (d: Decoded)
    ensures d.consumed <= |s|
    ensures |s| == 0 ==> d == Decoded(0, Null, None, 0)
    ensures 0 < |s| < 5 ==> d == Decoded(0, Null, Some(UnexpectedEOF), |s|)
    ensures |s| >= 5 ==> d.cf == s[0]
    ensures |s| >= 5 && Uint32(s[1..5]) == 0 ==> d == Decoded(s[0], Null, None, 5)
    ensures |s| >= 5 && Uint32(s[1..5]) > maxMsgSize ==>
              d == Decoded(s[0], Null, Some(SizeLimit(Uint32(s[1..5]), maxMsgSize)), 5)
    ensures |s| >= 5 && 0 < Uint32(s[1..5]) <= maxMsgSize && |s| < 5 + Uint32(s[1..5]) ==>
              d == Decoded(s[0], Null, Some(UnexpectedEOF), |s|)
    ensures d.err == None && d.msg.Buf? ==>
              |s| >= 5 && 5 <= d.consumed && d.msg.contents == s[5..d.consumed] &&
              |d.msg.contents| == Uint32(s[1..5])
  {
    if |s| == 0 then Decoded(0, Null, None, 0)
    else if |s| < 5 then Decoded(0, Null, Some(UnexpectedEOF), |s|)
    else
      var cf, length := s[0], Uint32(s[1..5]);
      match Check(length, maxMsgSize)
      case EmptyMessage => Decoded(cf, Null, None, 5)
      case Rejected(e) => Decoded(cf, Null, Some(e), 5)
      case ReadPayload =>
        if |s| < 5 + length then Decoded(cf, Null, Some(UnexpectedEOF), |s|)
        else Decoded(cf, Buf(s[5..5 + length]), None, 5 + length)
  }

  /** `buf := make([]byte, size); r.Read(buf)`: the bytes read, then the
      zeros `make` left in the rest of the buffer. */
  method ReadInto(r: Reader, size: nat) returns (buf: seq<byte>, n: nat, err: Option<Error>)
    requires r.Valid()
    modifies r
    ensures r.Valid() && r.data == old(r.data) && r.pos == old(r.pos) + n
    ensures old(r.pos) == |r.data| ==> n == 0 && err == Some(EOF)
    ensures old(r.pos) < |r.data| ==> n == Min(size, |old(r.Rest())|) && err == None
    ensures buf == old(r.Rest())[..n] + Zeros(size - n)
  {
    ghost var s, p := r.Rest(), r.pos;
    var a := new byte[size](_ => 0);
    ghost var zeros := a[..];
    assert zeros == Zeros(size);
    n, err := r.Read(a, 0);
    buf := a[..];
    assert buf == zeros[..0] + r.data[p..p + n] + zeros[n..];
    assert zeros[n..] == Zeros(size - n);
    assert r.data[p..p + n] == s[..n];
  }

  /** `decode` (util.go:15-55) on a reader, as written. */
  method Decode(r: Reader, maxMsgSize: nat) returns (cf: byte, msg: Bytes, err: Option<Error>)
    requires r.Valid()
    modifies r
    ensures r.Valid() && r.data == old(r.data)
    ensures var d := Decoding(old(r.Rest()), maxMsgSize);
            cf == d.cf && msg == d.msg && err == d.err && r.pos == old(r.pos) + d.consumed
  {
    var header, n, e := ReadInto(r, 5);
    if e != None {
      // a bytes.Reader reports an error only as EOF with nothing read
      assert e == Some(EOF) && n == 0;
      return 0, Null, None;
    }
    cf := header[0];
    var length := Uint32(header[1..]);
    if length == 0 {
      return cf, Null, None;
    }
    if length > maxMsgSize {
      return cf, Null, Some(SizeLimit(length, maxMsgSize));
    }
    var payload, got, e2 := ReadInto(r, length);
    if e2 != None {
      if e2 == Some(EOF) {
        e2 := Some(UnexpectedEOF);
      }
      return cf, Null, e2;
    }
    return cf, Buf(payload), None;
  }

  /** `decode` with `io.ReadFull` in place of each `r.Read`. */
  method DecodeFull(r: Reader, maxMsgSize: nat) returns (cf: byte, msg: Bytes, err: Option<Error>)
    requires r.Valid()
    modifies r
    ensures r.Valid() && r.data == old(r.data)
    ensures var d := FullDecoding(old(r.Rest()), maxMsgSize);
            cf == d.cf && msg == d.msg && err == d.err && r.pos == old(r.pos) + d.consumed
  {
    var header, n, e := ReadFullInto(r, 5);
    if e != None {
      if e == Some(EOF) && n == 0 {
        return 0, Null, None;
      }
      return 0, Null, e;
    }
    cf := header[0];
    var length := Uint32(header[1..]);
    if length == 0 {
      return cf, Null, None;
    }
    if length > maxMsgSize {
      return cf, Null, Some(SizeLimit(length, maxMsgSize));
    }
    var payload, got, e2 := ReadFullInto(r, length);
    if e2 != None {
      if e2 == Some(EOF) {
        e2 := Some(UnexpectedEOF);
      }
      return cf, Null, e2;
    }
    return cf, Buf(payload), None;
  }

  /** `buf := make([]byte, size); io.ReadFull(r, buf)`. */
  method ReadFullInto(r: Reader, size: nat) returns (buf: seq<byte>, n: nat, err: Option<Error>)
    requires r.Valid()
    modifies r
    ensures r.Valid() && r.data == old(r.data) && r.pos == old(r.pos) + n
    ensures n == Min(size, |old(r.Rest())|)
    ensures err == if n == size then None else if n == 0 then Some(EOF) else Some(UnexpectedEOF)
    ensures buf == old(r.Rest())[..n] + Zeros(size - n)
  {
    ghost var s := r.Rest();
    var a := new byte[size](_ => 0);
    n, err := r.ReadFull(a);
    buf := a[..];
    assert buf == a[..n] + a[n..];
  }

  /** What `encode` hands to the writer: the bytes appended, the error
      returned, and the fault script left. */
  datatype Emitted = Emitted(written: seq<byte>, err: Option<Error>, faults: seq<Option<Error>>)

  /** `encode` on a writer whose next writes fail as `faults` says: the header
      write, then, only if it succeeded, the payload write. */
  function Encoding(cf: byte, buf: seq<byte>, faults: seq<Option<Error>>): (e: Emitted)
    ensures NextFault(faults) != None ==>
              e == Emitted([], NextFault(faults), AfterWrite(faults))
    ensures NextFault(faults) == None ==>
              |e.written| >= 5 && e.written[..5] == HeaderBytes(cf, |buf|) &&
              e.err == NextFault(AfterWrite(faults))
    ensures e.err == None ==> e.written == FrameBytes(cf, buf) && |e.written| == 5 + |buf|
    ensures e.err != None ==> e.written == [] || e.written == HeaderBytes(cf, |buf|)
  {
    var first := NextFault(faults);
    if first != None then Emitted([], first, AfterWrite(faults))
    else
      var second := NextFault(AfterWrite(faults));
      Emitted(HeaderBytes(cf, |buf|) + (if second == None then buf else []),
              second, AfterWrite(AfterWrite(faults)))
  }

  /** `encode` (util.go:57-74): fills a 5-byte header in place, then makes
      two writes, stopping after the first if it fails. */
  method Encode(cf: byte, buf: seq<byte>, w: Writer) returns (err: Option<Error>)
    modifies w
    ensures var e := Encoding(cf, buf, old(w.faults));
            w.data == old(w.data) + e.written && err == e.err && w.faults == e.faults
  {
    var header := new byte[5](_ => 0);
    header[0] := cf;
    PutUint32(header, 1, |buf| % Uint32Limit);
    assert header[..] == HeaderBytes(cf, |buf|);
    err := w.Write(header[..]);
    if err != None {
      return err;
    }
    err := w.Write(buf);
  }

  /** Round trip: decoding the frame `encode` writes for a payload within
      the size limit gives back the flag and the payload, and stops exactly
      at the end of the frame whatever follows it. */
  lemma {:induction false} DecodeEncoded(cf: byte, buf: seq<byte>, rest: seq<byte>, maxMsgSize: nat)
    requires 0 < |buf| <= maxMsgSize && |buf| < Uint32Limit
    ensures FullDecoding(FrameBytes(cf, buf) + rest, maxMsgSize) == Decoded(cf, Buf(buf), None, 5 + |buf|)
    ensures Decoding(FrameBytes(cf, buf) + rest, maxMsgSize) == Decoded(cf, Buf(buf), None, 5 + |buf|)
  {
    var f := FrameBytes(cf, buf);
    var s := f + rest;
    assert s[1..5] == f[1..5];
    assert s[5..5 + |buf|] == buf;
    DecodingAgrees(s, maxMsgSize);
  }

  /** An empty payload frames to a header that decodes as an empty message:
      a nil payload, not an empty one. */
  lemma {:induction false} DecodeEncodedEmpty(cf: byte, rest: seq<byte>, maxMsgSize: nat)
    ensures FullDecoding(FrameBytes(cf, []) + rest, maxMsgSize) == Decoded(cf, Null, None, 5)
    ensures Decoding(FrameBytes(cf, []) + rest, maxMsgSize) == Decoded(cf, Null, None, 5)
  {
    var s := FrameBytes(cf, []) + rest;
    assert s[1..5] == FrameBytes(cf, [])[1..5];
  }

  /** The two decoders differ only on a frame cut short: on an empty stream,
      or a stream holding a whole header and, if the header asks for it, the
      whole payload, they agree. */
  lemma {:induction false} DecodingAgrees(s: seq<byte>, maxMsgSize: nat)
    requires |s| == 0 || (|s| >= 5 && (Check(Uint32(s[1..5]), maxMsgSize) != ReadPayload || |s| >= 5 + Uint32(s[1..5])))
    ensures Decoding(s, maxMsgSize) == FullDecoding(s, maxMsgSize)
  {
    if |s| >= 5 {
      assert s[..5] + Zeros(0) == s[..5];
      assert (s[..5] + Zeros(0))[1..] == s[1..5];
      var length := Uint32(s[1..5]);
      if Check(length, maxMsgSize) == ReadPayload {
        assert s[5..][..length] + Zeros(0) == s[5..5 + length];
      }
    }
  }

  /** As written, a payload cut short is returned padded with zeros and no
      error: the declared length is 3, one byte follows. */
  lemma TruncatedPayloadAccepted(maxMsgSize: nat)
    requires maxMsgSize >= 3
    ensures Decoding([0, 0, 0, 0, 3, 0x41], maxMsgSize) == Decoded(0, Buf([0x41, 0, 0]), None, 6)
    ensures FullDecoding([0, 0, 0, 0, 3, 0x41], maxMsgSize) == Decoded(0, Null, Some(UnexpectedEOF), 6)
  {
    var s: seq<byte> := [0, 0, 0, 0, 3, 0x41];
    assert s[1..5] == [0, 0, 0, 3];
    assert s[..5] + Zeros(0) == s[..5];
    assert s[5..][..1] + Zeros(2) == [0x41, 0, 0];
  }

  /** As written, a lone byte reads as a complete empty message carrying that
      byte as its flag. */
  lemma TruncatedHeaderAccepted(cf: byte, maxMsgSize: nat)
    ensures Decoding([cf], maxMsgSize) == Decoded(cf, Null, None, 1)
    ensures FullDecoding([cf], maxMsgSize) == Decoded(0, Null, Some(UnexpectedEOF), 1)
  {
    var header := [cf] + Zeros(4);
    assert header[1..] == [0, 0, 0, 0];
  }
}
