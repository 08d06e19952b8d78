# gRPC codec model

A Dafny model of the gRPC codec of `micro-codec-grpc`, in two parts.

- **Framing** (util.go). This is the Length-Prefixed-Message framing of gRPC over HTTP/2. Each frame is a 1-byte compressed flag, a 4-byte big-endian payload length, and then the payload.
  - `encode` builds the header in a 5-byte buffer and makes two writes.
  - `decode` reads a header, checks the length, and reads the payload.
  - Both are methods over a `Reader` (a byte sequence and a cursor, with `bytes.Reader` semantics) and a `Writer` (an appended byte sequence whose writes can be made to fail by a script of injected errors).
  - Each method is proved equal to a pure function of the bytes (`Decoding`, `FullDecoding`, `Encoding`). The framing properties are proved about those functions.
- **The `grpcCodec` object** (grpc.go). It is a class whose one field is the active `ContentType`.
  - `ReadHeader` refreshes the content-type and routes a message from its `:path`.
  - `Write` synthesises headers by message kind, marshals the body and frames it.
  - `Marshal`, `Unmarshal` and `ReadBody` dispatch on the payload's Go type and the content-type, each keeping its own case order.
  - The message is a class with `Header`, `Target`, `Endpoint`, `Type` and `Error` fields.
  - Headers are a `map<string, string>`, in which a missing key reads as `""`.
  - The payload is a capability datatype: nil, a `*codec.Frame`, or a value that may implement either generation of `proto.Message`.
  - The foreign encoders and decoders (protobuf, protojson, jsonpb, encoding/json) are function values in an `Encoders` record.

Modules:
- `Base`: bytes, Go's nil-or-slice `[]byte`, errors.
- `Streams`: reader and writer.
- `Framing`: util.go.
- `Strs`: `strings.Split` / `strings.Join` with a one-character separator.
- `Content`: the dispatch tables.
- `Grpc`: the codec.

Where the code and the codec's specification disagree, the model follows the code:
- `decode` makes one `Read` for the header and one for the payload. It does not read exactly 5 bytes, and it surfaces no short read (see Findings).
- `Unmarshal` skips only nil data (`d == nil`). An empty non-nil slice is still dispatched.
- On a zero-length frame, `ReadBody` does not skip the target.
  - `decode` returns a nil payload.
  - The type switch then runs on it: a frame target gets `Data = nil`, and a value target goes to the foreign decoder with no bytes.

## Model

| member | source | states |
|---|---|---|
| Streams.Reader.Read | util.go:19 | `Read` on a `bytes.Reader`: EOF only when nothing is left; otherwise copies min(room, remaining) bytes into the buffer, advances the cursor by that count and leaves the rest of the buffer alone |
| Streams.Reader.ReadFull | util.go:47 | `io.ReadFull`: reads min(size, remaining) bytes; no error when the buffer fills, EOF when nothing was read, unexpected EOF on a partial read |
| Streams.Writer.Write | util.go:67-72 | a write either appends its bytes and consumes one script entry, or returns the injected error and appends nothing |
| Framing.BE32 | util.go:64 | the big-endian encoding of a 32-bit value is four bytes; `Uint32OfBE32` and `BE32OfUint32` prove it inverse to `Uint32` |
| Framing.Uint32 | util.go:30 | the number four big-endian bytes stand for is below 2^32 |
| Framing.Uint32OfBE32 | util.go:30 | reading back the big-endian bytes of a 32-bit length gives the length |
| Framing.BE32OfUint32 | util.go:64 | writing back the length read from four bytes gives those bytes |
| Framing.PutUint32 | util.go:64 | `PutUint32(header[1:], v)` writes the big-endian bytes of `v` at offsets 1..4 and changes nothing else in the array |
| Framing.HeaderBytes | util.go:58-64 | the 5-byte header starts with the flag, and its length field reads back as the payload length when that fits in 32 bits |
| Framing.FrameBytes | util.go:57-73 | a frame is 5 + len(buf) bytes: the flag, a length field reading back as len(buf), then buf |
| Framing.Check | util.go:33-43 | a zero length is an empty message; a length over the limit is a size error naming both numbers; only lengths in 1..limit read a payload |
| Framing.Decoding | util.go:15-55 | `decode` as written: an empty stream is a clean end without error; the flag is byte 0; zero length gives a nil payload and consumes 5; over-limit rejects after 5 bytes; a header followed by nothing is an unexpected EOF |
| Framing.FullDecoding | util.go:15-55 | `decode` with full reads: also a 1-4 byte stream and a payload cut short are unexpected EOFs; a payload returned without error is exactly the declared number of bytes following the header |
| Framing.ReadInto | util.go:45-47 | `make` then one `Read`: the bytes read followed by zeros, the cursor advanced by the count read |
| Framing.ReadFullInto | util.go:45-47 | `make` then `io.ReadFull`: the bytes read followed by zeros, with the EOF / unexpected-EOF / success outcome by count |
| Framing.Decode | util.go:15-55 | the method returns exactly what `Decoding` says for the bytes left in the reader, and advances it by the bytes consumed |
| Framing.DecodeFull | util.go:15-55 | the same against `FullDecoding` |
| Framing.Encoding | util.go:57-74 | a failed header write writes nothing and returns that error; otherwise the header goes out first, and without an error the whole frame `[cf] + BE32(len) + buf` is appended; with one only the header is |
| Framing.Encode | util.go:57-74 | the method appends to the writer, returns and leaves the fault script exactly as `Encoding` says |
| Framing.DecodeEncoded | util.go:15-74 | for 0 < len(buf) <= limit, decoding a frame `encode` produced, followed by anything, gives back the flag and buf without error and stops at the frame's end, under both decoders |
| Framing.DecodeEncodedEmpty | util.go:33-35 | an encoded empty payload decodes to a nil payload without error, consuming only the header |
| Framing.DecodingAgrees | util.go:19-47 | the decoder as written and the full-read one agree on every stream that is empty or holds a complete frame |
| Framing.TruncatedPayloadAccepted | util.go:47-54 | a frame declaring 3 bytes with only one present: as written, 3 bytes (zero-padded) come back without error; with full reads, an unexpected EOF |
| Framing.TruncatedHeaderAccepted | util.go:19-35 | a one-byte stream: as written, a nil message without error; with full reads, an unexpected EOF |
| Strs.Count | grpc.go:61 | the count is zero exactly when the character is absent |
| Strs.Split | grpc.go:60 | splitting gives one more piece than there are separators |
| Strs.SplitParts | grpc.go:60-64 | no piece of a split holds the separator, and every character of a piece occurs in the string split |
| Strs.Join | grpc.go:65-66 | joining pieces that do not hold the separator puts exactly one separator between each two: the result holds one fewer separator than there are pieces |
| Strs.SplitWithout | grpc.go:64 | a string without the separator splits into itself alone |
| Strs.SplitAround | grpc.go:60 | splitting around one separator is splitting each side and concatenating |
| Strs.JoinSplit | grpc.go:65-66 | joining the pieces of a split gives back the string |
| Strs.SplitJoin | grpc.go:64-66 | splitting joined pieces without separators gives back the pieces |
| Strs.CountAppend | grpc.go:60-61 | separator counts add up over a concatenation |
| Content.FormatOf | grpc.go:81-99 | JSON exactly for `application/grpc+json`; binary exactly for `application/grpc+proto` and `application/grpc` |
| Content.MarshalCodec | grpc.go:112-131 | `Marshal`'s table: no encoder exactly for an unknown content-type, or binary for a non-proto value |
| Content.UnmarshalCodec | grpc.go:87-100 | `Unmarshal`'s table has the same gaps, and picks a different encoder than `Marshal` exactly for a value of both proto generations under a known content-type |
| Content.EncodeWith | grpc.go:112-134 | marshalling fails with `ErrUnknownContentType` exactly when no encoder was chosen |
| Content.Marshal | grpc.go:106-135 | nil gives (nil, nil); a frame gives its Data whatever the content-type; a value goes to the encoder of `MarshalCodec` (new proto first); `ErrUnknownContentType` exactly for an unknown content-type or binary on a non-proto value |
| Content.WriteBody | grpc.go:212-243 | `Write`'s switch agrees with `Marshal` on every non-nil payload; a nil payload goes to `json.Marshal(nil)` under JSON and is `ErrUnknownContentType` otherwise |
| Content.DecodeWith | grpc.go:81-103 | no decoder leaves the target alone and returns the fall-through error; a chosen decoder always writes the state |
| Content.Dispatch | grpc.go:77-103 | a nil target is a no-op without error; a frame gets the bytes and still returns the fall-through error; a value goes to the decoder of `UnmarshalCodec` (old proto first); only a frame gets data, only a value gets state |
| Content.Apply | grpc.go:85-86 | the fill lands in the target's Data or state and nowhere else |
| Content.MarshalThenDispatch | grpc.go:77-135 | when each decoder inverts its encoder, the shared unmarshal switch applied to what `Marshal` produced restores the state of a value of the same capabilities without error; for a value of both proto generations this holds when the older decoders also invert the newer encoders (`GenerationsAgree`) |
| Content.Unmarshalling | grpc.go:72-104 | `Unmarshal`'s effect: nil data leaves the target alone without error; other data goes through the shared switch with fall-through `ErrInvalidMessage` |
| Content.MarshalThenUnmarshal | grpc.go:72-135 | on the same conditions, `Unmarshal` of what `Marshal` produced restores the state when that output is non-nil, and leaves the target alone without error when an encoder returned nil bytes |
| Grpc.Get | grpc.go:49-57 | Go's map read: a present key gives its value, a missing one gives "" |
| Grpc.ErrorString | grpc.go:247 | `err.Error()`: the text of a foreign encoder's error is that error's own text |
| Grpc.Refreshed | grpc.go:49-51 | the content-type becomes the `content-type` header if non-empty and is otherwise kept |
| Grpc.RouteOf | grpc.go:53-67 | "Unknown request path" exactly when `:path` starts with '/' and does not hold exactly two '/'; an empty or non-'/' path routes to `Micro-Service` / `Micro-Endpoint` |
| Grpc.RequestPath | grpc.go:185-187 | a request's `:path` starts with '/', and holds exactly two '/' when neither the target nor the endpoint holds one, so `ReadHeader` accepts it |
| Grpc.PathSlashes | grpc.go:187 | "/t.a/b" holds two '/' more than its pieces t, a and b do |
| Grpc.RequestHeaders | grpc.go:184-192 | a request sets `:method` POST, `:path`, `:proto` HTTP/2.0, `te` trailers, `user-agent`, `:authority` = target and `content-type`, and keeps every other header |
| Grpc.ResponseHeaders | grpc.go:193-197 | a response sets `Trailer`, `content-type`, `:status` 200 and `grpc-status` 0, and keeps every other header |
| Grpc.ErrorHeaders | grpc.go:199-207 | an Error sets the trailer; EOS gives status 0 and leaves `grpc-message`; any other error gives status 13 with the error as `grpc-message`; every other header is kept |
| Grpc.FailureHeaders | grpc.go:245-247 | a marshal failure sets status 8 and the error text, keeping every other header |
| Grpc.KindHeaders | grpc.go:183-210 | the kind's headers change only the kind's own keys; the content-type is announced on a request and a response; `grpc-status` is 0 on a response and on end of stream, 13 on any other error |
| Grpc.HeadersKeys | grpc.go:183-210 | each kind adds exactly the keys it sets and no others |
| Grpc.Transmission | grpc.go:244-255 | a marshal error writes nothing and is returned; an empty body writes nothing; a body written without error is exactly one frame with flag 0 |
| Grpc.Send | grpc.go:244-255 | the method writes to the connection and returns exactly what `Transmission` says |
| Grpc.GrpcCodec.constructor | grpc.go:262-264 | a new codec's content-type is `application/grpc` |
| Grpc.GrpcCodec.ReadHeader | grpc.go:48-70 | the content-type is refreshed even when routing fails; on a route Target and Endpoint are set from it; otherwise "Unknown request path" and they are unchanged; the headers are untouched |
| Grpc.GrpcCodec.SetRoute | grpc.go:53-69 | Target and Endpoint are set as `RouteOf` says, or left alone with "Unknown request path"; nothing else of the message changes |
| Grpc.GrpcCodec.SetHeaders | grpc.go:179-210 | refreshes the content-type, then replaces the headers by the kind's headers built with the new content-type |
| Grpc.GrpcCodec.Deliver | grpc.go:212-255 | marshals with the active content-type, records a failure in the headers and sends the result as `Transmission` says |
| Grpc.GrpcCodec.Write | grpc.go:175-256 | an Error message gets its headers, returns nil and leaves the connection untouched; any other kind gets its headers, plus status 8 and the error text on a marshal failure, and puts on the connection and returns exactly what `Transmission` says for its marshalled body |
| Grpc.GrpcCodec.Unmarshal | grpc.go:72-104 | the target is filled and the error returned as `Unmarshalling` says: nil data is a no-op, other data is dispatched with fall-through `ErrInvalidMessage` |
| Grpc.GrpcCodec.ReadBody | grpc.go:137-173 | a nil target reads nothing; otherwise one frame is consumed as `Decoding` (the decoder as written) says, its error returned as is, and its payload dispatched with fall-through `ErrUnknownContentType` |
| Grpc.GrpcCodec.ReadBodyFull | grpc.go:137-173 | the same over the corrected decoder: the frame is consumed as `FullDecoding` says |
| Grpc.GrpcCodec.DispatchInto | grpc.go:77-103 | the target is filled and the error returned as `Dispatch` says, and nothing else changes |
| Grpc.SplitPath | grpc.go:60 | "/service/method" splits on '/' into "", the service and the method |
| Grpc.RouteOfPath | grpc.go:58-67 | a three-part path routes to the service's leading `.`-parts as target and its last part joined to the method as endpoint |
| Grpc.RouteOfDotted | grpc.go:58-67 | "/t.a/b" routes to target t and endpoint "a.b" (so "/pkg.sub.Service/Method" gives "pkg.sub" and "Service.Method") |
| Grpc.RouteOfUndotted | grpc.go:64-66 | a service without '.' routes to target "" and endpoint "service.method" (so "/Foo/Bar" gives "" and "Foo.Bar") |
| Grpc.RouteOfTwoParts | grpc.go:60-63 | a '/'-path with no second '/' is an unknown request path |
| Grpc.RequestPathOf | grpc.go:185-187 | a request's `:path` uses only the first two `.`-parts of the endpoint |
| Grpc.RequestRouteRoundTrip | grpc.go:185-187 | the `:path` a request is written with routes back to its own target and endpoint, when the endpoint has one '.' and neither holds '/' |
| Grpc.WrittenBodyReadsBack | grpc.go:143-255 | a body framed and written without error decodes back to the same bytes under both decoders, stopping at the frame's end |
| Grpc.WriteThenReadBody | grpc.go:137-255 | writing a value and reading the written bytes back, by `ReadBody` or `ReadBodyFull`, into a value of the same capabilities restores its state without error, when the encoders round-trip and, for a value of both proto generations, `GenerationsAgree` holds |

## Left out

- The `maxInt` guard (util.go:12, 38-39) is not modelled. A `uint32` length can never exceed `maxInt` on a 64-bit host, so the guard never fires.
- Read errors other than EOF are not modelled. A `bytes.Reader` returns no others, so the error return at util.go:23 and a non-EOF payload read error are unreachable.
- Streams.Writer.Write: a failing write appends nothing. Partial writes are not modelled.
- The concrete encoders and decoders (proto, protojson, jsonpb, encoding/json) are function values passed in, not defined. Their errors appear only as their text.
- The configuration values at grpc.go:21-42 are opaque. They are taken to be built into those encoders.
- Go's runtime type switch is replaced by the `Payload` capability datatype. Each switch's case order is kept.
- These are not modelled:
  - concurrent use of one codec;
  - `String()` (grpc.go:258-260);
  - the unused `conn` and message-type parameters of `ReadHeader`.
- The compressed flag is carried but not interpreted, as in the code.
- Grpc.GrpcCodec.Write requires a Request's endpoint to contain a '.'. In Go, a request without one makes `parts[1]` panic (grpc.go:185-187).
- A nil header map is not modelled. In Go it makes the header writes in `Write` panic.
- Message kinds other than Request, Response and Error are not modelled.
- The text of one of the codec's own errors (`ErrUnknownContentType`, the size errors) is taken from the environment record, as are the size limit and the encoders. The model does not fix the codec's own error strings; a foreign encoder's error keeps its own text.
- No lemma runs `RouteOf` on a literal path: the literal strings make the prover unfold `Split` too far. `RouteOfDotted` and `RouteOfUndotted` cover the sample paths "/pkg.sub.Service/Method" and "/Foo/Bar" symbolically.
- Framing.HeaderBytes keeps the low 32 bits of the payload length, as `uint32(len(buf))` does. The round-trip lemmas assume the length fits in 32 bits.

## Findings

| source | as written | input that shows it | evidently intended | confidence | as-written member | corrected member |
|---|---|---|---|---|---|---|
| util.go:19-53 | `decode` reads the header and the payload with a single `r.Read` each, which may return fewer bytes than asked for without an error | a stream of 6 bytes `00 00 00 00 03 41`: the payload read returns 1 byte and no error, so `decode` returns `41 00 00` as a complete 3-byte message; likewise the one-byte stream `07` gives a nil message with no error | read each part in full (`io.ReadFull`), so that any frame cut short after its first byte is an unexpected EOF | not executed | Framing.TruncatedPayloadAccepted | Framing.DecodeFull |

The as-written decoder is `Framing.Decode` and its function `Framing.Decoding`. The corrected one is `Framing.DecodeFull` and its function `Framing.FullDecoding`. `Framing.TruncatedHeaderAccepted` shows the same gap for a cut-short header. `Grpc.GrpcCodec.ReadBody` calls the decoder as written, as grpc.go:143 does, so on `00 00 00 00 03 41` it fills a frame target with `41 00 00`. `Grpc.GrpcCodec.ReadBodyFull` is `ReadBody` over the corrected decoder, and `Grpc.WriteThenReadBody` proves the write-then-read round trip for both.
