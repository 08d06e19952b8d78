/** The content marshaler of grpc.go: which encoder `Marshal`, `Write`,
    `Unmarshal` and `ReadBody` pick for a payload, by the payload's Go type
    and the active content-type. The encoders themselves are foreign and
    are given as function values. */
module Content {
  import opened Base

  const JsonType := "application/grpc+json"
  const ProtoType := "application/grpc+proto"
  const GrpcType := "application/grpc"

  /** The three ways a content-type string is read by the dispatch switches. */
  datatype Format = Json | Binary | Other

  function FormatOf(ct: string): (f: Format)
    ensures f == Json <==> ct == JsonType
    ensures f == Binary <==> ct == ProtoType || ct == GrpcType
  {
    if ct == JsonType then Json
    else if ct == ProtoType || ct == GrpcType then Binary
    else Other
  }

  /** `*codec.Frame`: a payload relayed as raw bytes. */
  class Frame {
    var Data: Bytes

    constructor (data: Bytes)
      ensures Data == data
    {
      Data := data;
    }
  }

  /** Any other Go value handed to the codec. Its capabilities are fixed by
      its type: whether it implements `proto.Message` of
      google.golang.org/protobuf, and whether it implements the older
      `proto.Message` of github.com/golang/protobuf (a value may do both).
      Its state is what the foreign encoders read and fill. */
  class Object<S> {
    const newProto: bool
    const oldProto: bool
    var state: S

    constructor (newProto: bool, oldProto: bool, state: S)
      ensures this.newProto == newProto && this.oldProto == oldProto && this.state == state
    {
      this.newProto, this.oldProto, this.state := newProto, oldProto, state;
    }
  }

  /** The `interface{}` argument of the codec: nil, a frame, or a value. */
  datatype Payload<S> = NilValue | FrameRef(frame: Frame) | ObjectRef(obj: Object<S>) {
    function Footprint(): set<object> {
      match this
      case NilValue => {}
      case FrameRef(f) => {f}
      case ObjectRef(o) => {o}
    }
  }

  /** The five foreign encodings. */
  datatype Codec =
    | NewJson      // protojson with JsonpbMarshaler / JsonpbUnmarshaler
    | NewBinary    // google.golang.org/protobuf/proto
    | OldJson      // jsonpb with OldJsonpbMarshaler / OldJsonpbUnmarshaler
    | OldBinary    // github.com/golang/protobuf/proto
    | PlainJson    // encoding/json

  /** The dispatch table of `Marshal` and `Write` (grpc.go:112-131,
      215-241), by content-type: a value implementing both generations of
      `proto.Message` is taken as the newer one. */
  function MarshalCodec(newProto: bool, oldProto: bool, f: Format): (c: Option<Codec>)
    ensures c == None <==> f == Other || (f == Binary && !newProto && !oldProto)
  {
    match f
    case Json => Some(if newProto then NewJson else if oldProto then OldJson else PlainJson)
    case Binary => if newProto then Some(NewBinary) else if oldProto then Some(OldBinary) else None
    case Other => None
  }

  /** The dispatch table of `Unmarshal` and `ReadBody` (grpc.go:80-100,
      149-169): here the older `proto.Message` is tested first. Both tables
      differ exactly on values of both generations under a known content-type. */
  function UnmarshalCodec(newProto: bool, oldProto: bool, f: Format): (c: Option<Codec>)
    ensures c == None <==> f == Other || (f == Binary && !newProto && !oldProto)
    ensures c != MarshalCodec(newProto, oldProto, f) <==> newProto && oldProto && f != Other
  {
    match f
    case Json => Some(if oldProto then OldJson else if newProto then NewJson else PlainJson)
    case Binary => if oldProto then Some(OldBinary) else if newProto then Some(NewBinary) else None
    case Other => None
  }

  /** What a foreign encoder returns, `([]byte, error)`, with the error as
      its text. */
  datatype Encoded = Encoded(buf: Bytes, failure: Option<string>)

  /** What `OldJsonpbMarshaler.MarshalToString` returns, `(string, error)`. */
  datatype Text = Text(str: seq<byte>, failure: Option<string>)

  /** What a foreign decoder leaves behind: the target's new state and the
      error it returned. */
  datatype Filled<S> = Filled(state: S, failure: Option<string>)

  /** The foreign encoders and decoders the codec calls. */
  datatype Encoders<!S> = Encoders(
    protoMarshal: S -> Encoded,                  // proto.Marshal
    protoJsonMarshal: S -> Encoded,              // JsonpbMarshaler.Marshal
    oldProtoMarshal: S -> Encoded,               // oldproto.Marshal
    oldJsonMarshal: S -> Text,                   // OldJsonpbMarshaler.MarshalToString
    jsonMarshal: Option<S> -> Encoded,           // json.Marshal; None is Go's nil
    protoUnmarshal: (seq<byte>, S) -> Filled<S>,      // proto.Unmarshal
    protoJsonUnmarshal: (seq<byte>, S) -> Filled<S>,  // JsonpbUnmarshaler.Unmarshal
    oldProtoUnmarshal: (seq<byte>, S) -> Filled<S>,   // oldproto.Unmarshal
    oldJsonUnmarshal: (seq<byte>, S) -> Filled<S>,    // OldJsonpbUnmarshaler.Unmarshal
    jsonUnmarshal: (seq<byte>, S) -> Filled<S>        // json.Unmarshal
  )

  function Failure(failure: Option<string>): (e: Option<Error>)
    ensures e == None <==> failure == None
  {
    if failure == None then None else Some(External(failure.value))
  }

  /** The result of marshalling, `([]byte, error)`. */
  datatype Out = Out(buf: Bytes, err: Option<Error>)

  /** Encoding a value's state with the chosen encoder; no encoder means the
      content-type is not supported for that value. */
  function EncodeWith<S>(c: Option<Codec>, s: S, enc: Encoders<S>): (r: Out)
    ensures r.err == Some(UnknownContentType) <==> c == None
  {
    match c
    case None => Out(Null, Some(UnknownContentType))
    case Some(NewJson) => var e := enc.protoJsonMarshal(s); Out(e.buf, Failure(e.failure))
    case Some(NewBinary) => var e := enc.protoMarshal(s); Out(e.buf, Failure(e.failure))
    case Some(OldJson) => var t := enc.oldJsonMarshal(s); Out(Buf(t.str), Failure(t.failure))
    case Some(OldBinary) => var e := enc.oldProtoMarshal(s); Out(e.buf, Failure(e.failure))
    case Some(PlainJson) => var e := enc.jsonMarshal(Some(s)); Out(e.buf, Failure(e.failure))
  }

  /** `Marshal` (grpc.go:106-135) with `c.ContentType` as `ct`, written as
      the source's type switch: nil, frame, newer proto, older proto, other. */
  function Marshal<S>(b: Payload<S>, ct: string, enc: Encoders<S>): (r: Out)
    reads b.Footprint()
    ensures b.NilValue? ==> r == Out(Null, None)
    ensures b.FrameRef? ==> r == Out(b.frame.Data, None)
    ensures b.ObjectRef? ==>
              r == EncodeWith(MarshalCodec(b.obj.newProto, b.obj.oldProto, FormatOf(ct)), b.obj.state, enc)
    ensures r.err == Some(UnknownContentType) <==>
              b.ObjectRef? && (FormatOf(ct) == Other || (FormatOf(ct) == Binary && !b.obj.newProto && !b.obj.oldProto))
  {
    match b
    case NilValue => Out(Null, None)
    case FrameRef(f) => Out(f.Data, None)
    case ObjectRef(o) =>
      if o.newProto then
        (match FormatOf(ct)
         case Json => var e := enc.protoJsonMarshal(o.state); Out(e.buf, Failure(e.failure))
         case Binary => var e := enc.protoMarshal(o.state); Out(e.buf, Failure(e.failure))
         case Other => Out(Null, Some(UnknownContentType)))
      else if o.oldProto then
        (match FormatOf(ct)
         case Json => var t := enc.oldJsonMarshal(o.state); Out(Buf(t.str), Failure(t.failure))
         case Binary => var e := enc.oldProtoMarshal(o.state); Out(e.buf, Failure(e.failure))
         case Other => Out(Null, Some(UnknownContentType)))
      else
        (match FormatOf(ct)
         case Json => var e := enc.jsonMarshal(Some(o.state)); Out(e.buf, Failure(e.failure))
         case _ => Out(Null, Some(UnknownContentType)))
  }

  /** The body switch of `Write` (grpc.go:212-243). It has no `nil` case, so
      a nil body goes to `json.Marshal(nil)` under JSON and fails otherwise;
      on every other payload it agrees with `Marshal`. */
  function WriteBody<S>(b: Payload<S>, ct: string, enc: Encoders<S>): (r: Out)
    reads b.Footprint()
    ensures !b.NilValue? ==> r == Marshal(b, ct, enc)
    ensures b.NilValue? && FormatOf(ct) == Json ==>
              r.buf == enc.jsonMarshal(None).buf && r.err == Failure(enc.jsonMarshal(None).failure)
    ensures b.NilValue? && FormatOf(ct) != Json ==> r == Out(Null, Some(UnknownContentType))
  {
    match b
    case FrameRef(f) => Out(f.Data, None)
    case ObjectRef(o) =>
      if o.newProto then
        (match FormatOf(ct)
         case Json => var e := enc.protoJsonMarshal(o.state); Out(e.buf, Failure(e.failure))
         case Binary => var e := enc.protoMarshal(o.state); Out(e.buf, Failure(e.failure))
         case Other => Out(Null, Some(UnknownContentType)))
      else if o.oldProto then
        (match FormatOf(ct)
         case Json => var t := enc.oldJsonMarshal(o.state); Out(Buf(t.str), Failure(t.failure))
         case Binary => var e := enc.oldProtoMarshal(o.state); Out(e.buf, Failure(e.failure))
         case Other => Out(Null, Some(UnknownContentType)))
      else
        (match FormatOf(ct)
         case Json => var e := enc.jsonMarshal(Some(o.state)); Out(e.buf, Failure(e.failure))
         case _ => Out(Null, Some(UnknownContentType)))
    case NilValue =>
      (match FormatOf(ct)
       case Json => var e := enc.jsonMarshal(None); Out(e.buf, Failure(e.failure))
       case _ => Out(Null, Some(UnknownContentType)))
  }

  /** What unmarshalling writes into its target. */
  datatype Fill<S> = Untouched | SetData(data: Bytes) | SetState(state: S)

  /** What unmarshalling does: the write into the target and the error. */
  datatype Effect<S> = Effect(fill: Fill<S>, err: Option<Error>)

  /** The foreign decoder of an encoding. */
  function Decoder<S>(c: Codec, enc: Encoders<S>): (seq<byte>, S) -> Filled<S> {
    match c
    case NewJson => enc.protoJsonUnmarshal
    case NewBinary => enc.protoUnmarshal
    case OldJson => enc.oldJsonUnmarshal
    case OldBinary => enc.oldProtoUnmarshal
    case PlainJson => enc.jsonUnmarshal
  }

  /** Decoding `d` into a value's state with the chosen decoder; with none,
      nothing is written and the caller's fall-through error is returned. */
  function DecodeWith<S>(c: Option<Codec>, d: seq<byte>, s: S, enc: Encoders<S>, unmatched: Error): (e: Effect<S>)
    ensures c == None ==> e == Effect(Untouched, Some(unmatched))
    ensures c != None ==> e.fill.SetState?
  {
    match c
    case None => Effect(Untouched, Some(unmatched))
    case Some(c) =>
      var f := Decoder(c, enc)(d, s);
      Effect(SetState(f.state), Failure(f.failure))
  }

  /** The type switch shared by `Unmarshal` (grpc.go:77-103) and `ReadBody`
      (grpc.go:148-172), which differ only in the error returned when no
      case returns, `unmatched`. A frame gets the bytes and still falls
      through to that error. */
  function Dispatch<S>(d: Bytes, b: Payload<S>, ct: string, enc: Encoders<S>, unmatched: Error): (e: Effect<S>)
    reads b.Footprint()
    ensures b.NilValue? ==> e == Effect(Untouched, None)
    ensures b.FrameRef? ==> e == Effect(SetData(d), Some(unmatched))
    ensures b.ObjectRef? ==>
              e == DecodeWith(UnmarshalCodec(b.obj.newProto, b.obj.oldProto, FormatOf(ct)), d.Seq(), b.obj.state, enc, unmatched)
    ensures e.fill.SetData? ==> b.FrameRef?
    ensures e.fill.SetState? ==> b.ObjectRef?
  {
    match b
    case NilValue => Effect(Untouched, None)
    case FrameRef(_) => Effect(SetData(d), Some(unmatched))
    case ObjectRef(o) =>
      if o.oldProto then
        (match FormatOf(ct)
         case Json => var f := enc.oldJsonUnmarshal(d.Seq(), o.state); Effect(SetState(f.state), Failure(f.failure))
         case Binary => var f := enc.oldProtoUnmarshal(d.Seq(), o.state); Effect(SetState(f.state), Failure(f.failure))
         case Other => Effect(Untouched, Some(unmatched)))
      else if o.newProto then
        (match FormatOf(ct)
         case Json => var f := enc.protoJsonUnmarshal(d.Seq(), o.state); Effect(SetState(f.state), Failure(f.failure))
         case Binary => var f := enc.protoUnmarshal(d.Seq(), o.state); Effect(SetState(f.state), Failure(f.failure))
         case Other => Effect(Untouched, Some(unmatched)))
      else
        (match FormatOf(ct)
         case Json => var f := enc.jsonUnmarshal(d.Seq(), o.state); Effect(SetState(f.state), Failure(f.failure))
         case _ => Effect(Untouched, Some(unmatched)))
  }

  /** Carries out a fill on the target: `v.Data = d` for a frame, the
      foreign decoder's in-place update for a value. */
  method Apply<S>(b: Payload<S>, fill: Fill<S>)
    requires fill.SetData? ==> b.FrameRef?
    requires fill.SetState? ==> b.ObjectRef?
    modifies b.Footprint()
    ensures b.FrameRef? ==> b.frame.Data == if fill.SetData? then fill.data else old(b.frame.Data)
    ensures b.ObjectRef? ==> b.obj.state == if fill.SetState? then fill.state else old(b.obj.state)
  {
    match fill
    case Untouched =>
    case SetData(data) => b.frame.Data := data;
    case SetState(s) => b.obj.state := s;
  }

  /** Decoder `d`, fed what encoder `c` produced without error, restores the
      state the encoder started from, whatever the target held. */
  ghost predicate Inverts<S(!new)>(enc: Encoders<S>, c: Codec, d: Codec) {
    forall s: S, t: S ::
      EncodeWith(Some(c), s, enc).err == None ==>
        Decoder(d, enc)(EncodeWith(Some(c), s, enc).buf.Seq(), t) == Filled(s, None)
  }

  /** Each foreign decoder inverts its own encoder. */
  ghost predicate RoundTrips<S(!new)>(enc: Encoders<S>) {
    forall c: Codec :: Inverts(enc, c, c)
  }

  /** The older decoders invert the newer encoders: what a value of both
      `proto.Message` generations needs, since `Marshal` encodes it as the
      newer and `Unmarshal` decodes it as the older. */
  ghost predicate GenerationsAgree<S(!new)>(enc: Encoders<S>) {
    Inverts(enc, NewBinary, OldBinary) && Inverts(enc, NewJson, OldJson)
  }

  /** Marshal then the shared unmarshal switch, into a value of the same
      type, restores the state when the encoders round-trip; for a value of
      both `proto.Message` generations the older decoders must also invert
      the newer encoders. */
  lemma MarshalThenDispatch<S(!new)>(src: Object<S>, dst: Object<S>, ct: string, enc: Encoders<S>, unmatched: Error)
    requires RoundTrips(enc)
    requires src.newProto && src.oldProto ==> GenerationsAgree(enc)
    requires src.newProto == dst.newProto && src.oldProto == dst.oldProto
    requires Marshal(ObjectRef(src), ct, enc).err == None
    ensures Dispatch(Marshal(ObjectRef(src), ct, enc).buf, ObjectRef(dst), ct, enc, unmatched)
            == Effect(SetState(src.state), None)
  {
    var c := MarshalCodec(src.newProto, src.oldProto, FormatOf(ct));
    var u := UnmarshalCodec(dst.newProto, dst.oldProto, FormatOf(ct));
    var out := Marshal(ObjectRef(src), ct, enc);
    assert c != None && u != None;
    assert Inverts(enc, c.value, u.value) by {
      if c != u {
        assert src.newProto && src.oldProto;
      }
    }
    assert EncodeWith(c, src.state, enc) == out;
    assert Decoder(u.value, enc)(out.buf.Seq(), dst.state) == Filled(src.state, None);
  }

  /** What `Unmarshal` (grpc.go:72-104) does with data `d`: nil data is
      skipped, anything else goes through the shared switch, falling through
      to `ErrInvalidMessage`. */
  function Unmarshalling<S>(d: Bytes, b: Payload<S>, ct: string, enc: Encoders<S>): (e: Effect<S>)
    reads b.Footprint()
    ensures d == Null ==> e == Effect(Untouched, None)
    ensures d != Null ==> e == Dispatch(d, b, ct, enc, InvalidMessage)
  {
    if d == Null then Effect(Untouched, None) else Dispatch(d, b, ct, enc, InvalidMessage)
  }

  /** Marshal then `Unmarshal` into a value of the same type: a non-nil
      output restores the state under the conditions of
      `MarshalThenDispatch`; a nil one (an encoder may return nil bytes)
      leaves the target as it was. */
  lemma MarshalThenUnmarshal<S(!new)>(src: Object<S>, dst: Object<S>, ct: string, enc: Encoders<S>)
    requires RoundTrips(enc)
    requires src.newProto && src.oldProto ==> GenerationsAgree(enc)
    requires src.newProto == dst.newProto && src.oldProto == dst.oldProto
    requires Marshal(ObjectRef(src), ct, enc).err == None
    ensures var d := Marshal(ObjectRef(src), ct, enc).buf;
            Unmarshalling(d, ObjectRef(dst), ct, enc)
            == if d == Null then Effect(Untouched, None) else Effect(SetState(src.state), None)
  {
    if Marshal(ObjectRef(src), ct, enc).buf != Null {
      MarshalThenDispatch(src, dst, ct, enc, InvalidMessage);
    }
  }
}
