/** The codec facade of grpc.go: routing from `:path`, header synthesis by
    message kind with the gRPC status codes, and the body operations, over a
    codec whose one mutable field is the active content-type. */
module Grpc {
  import opened Base
  import opened Streams
  import opened Strs
  import opened Content
  import Framing

  /** A header map; a missing key reads as "", as a Go map does. */
  type Header = map<string, string>

  function Get(h: Header, k: string): (v: string)
    ensures k in h ==> v == h[k]
    ensures k !in h ==> v == ""
  {
    if k in h then h[k] else ""
  }

  const StatusOK := "0"
  const StatusResourceExhausted := "8"
  const StatusInternal := "13"

  /** The end-of-stream sentinel of an Error message. */
  const EOS := "EOS"

  datatype MessageType = Request | Response | Error

  /** `codec.Message`, reduced to the fields the codec reads and writes. */
  class Message {
    var Header: Header
    var Target: string
    var Endpoint: string
    var Type: MessageType
    var Error: string

    constructor (header: Header, target: string, endpoint: string, kind: MessageType, error: string)
      ensures Header == header && Target == target && Endpoint == endpoint
      ensures Type == kind && Error == error
    {
      Header, Target, Endpoint, Type, Error := header, target, endpoint, kind, error;
    }
  }

  /** Everything the codec takes from outside these files: the size limit
      `codec.DefaultMaxMsgSize`, the text of an error (`err.Error()`), and
      the foreign encoders. */
  datatype Env<!S> = Env(maxMsgSize: nat, errorText: Error -> string, enc: Encoders<S>)

  /** `err.Error()`: a foreign encoder's error is its own text; the text of
      one of the codec's own errors is taken from the environment. */
  function ErrorString<S>(env: Env<S>, e: Error): (t: string)
    ensures e.External? ==> t == e.text
  {
    if e.External? then e.text else env.errorText(e)
  }

  /** The content-type after a `ReadHeader` or `Write` has looked at the
      headers: the `content-type` header if it is non-empty, else unchanged. */
  function Refreshed(ct: string, h: Header): (r: string)
    ensures |Get(h, "content-type")| > 0 ==> r == Get(h, "content-type")
    ensures |Get(h, "content-type")| == 0 ==> r == ct
  {
    var given := Get(h, "content-type");
    if |given| > 0 then given else ct
  }

  datatype Route = Route(target: string, endpoint: string)

  /** Where `ReadHeader` (grpc.go:53-67) routes a message: from a `:path`
      starting with '/' split into exactly three parts, else from the
      `Micro-Service` and `Micro-Endpoint` headers; `None` is the
      "Unknown request path" error. */
  function RouteOf(h: Header): (r: Option<Route>)
    ensures var path := Get(h, ":path");
            r == None <==> |path| > 0 && path[0] == '/' && Count(path, '/') != 2
    ensures var path := Get(h, ":path");
            |path| == 0 || path[0] != '/' ==>
              r == Some(Route(Get(h, "Micro-Service"), Get(h, "Micro-Endpoint")))
  {
    var path := Get(h, ":path");
    if |path| == 0 || path[0] != '/' then
      Some(Route(Get(h, "Micro-Service"), Get(h, "Micro-Endpoint")))
    else
      var parts := Split(path, '/');
      if |parts| != 3 then None
      else
        var service := Split(parts[1], '.');
        Some(Route(Join(service[..|service| - 1], '.'), Join([service[|service| - 1], parts[2]], '.')))
  }

  /** The `:path` `Write` builds for a request (grpc.go:185-187): only the
      first two `.`-parts of the endpoint are used. */
  function RequestPath(target: string, endpoint: string): (p: string)
    requires '.' in endpoint
    ensures |p| > 0 && p[0] == '/'
    ensures '/' !in target && '/' !in endpoint ==> Count(p, '/') == 2
  {
    var parts := Split(endpoint, '.');
    SplitParts(endpoint, '.');
    PathSlashes(target, parts[0], parts[1]);
    "/" + target + "." + parts[0] + "/" + parts[1]
  }

  /** "/t.a/b" holds two '/' more than its pieces do. */
  lemma {:induction false} PathSlashes(target: string, a: string, b: string)
    ensures Count("/" + target + "." + a + "/" + b, '/') == 2 + Count(target, '/') + Count(a, '/') + Count(b, '/')
  {
    var p1 := "/" + target;
    var p2 := p1 + ".";
    var p3 := p2 + a;
    var p4 := p3 + "/";
    CountAppend("/", target, '/');
    CountAppend(p1, ".", '/');
    CountAppend(p2, a, '/');
    CountAppend(p3, "/", '/');
    CountAppend(p4, b, '/');
    assert Count("/", '/') == 1 by {
      assert "/"[1..] == "";
    }
  }

  const RequestKeys := {":method", ":path", ":proto", "te", "user-agent", ":authority", "content-type"}
  const ResponseKeys := {"Trailer", "content-type", ":status", "grpc-status"}
  const ErrorKeys := {"Trailer", "grpc-status", "grpc-message"}
  const FailureKeys := {"grpc-status", "grpc-message"}

  /** The headers of an outgoing request (grpc.go:185-192): the pseudo-headers
      of section 8.1.2.3 of RFC 7540 plus `te`, `user-agent` and the
      content-type; every other header is kept. */
  function RequestHeaders(h: Header, target: string, endpoint: string, ct: string): (r: Header)
    requires '.' in endpoint
    ensures Get(r, ":method") == "POST" && Get(r, ":path") == RequestPath(target, endpoint)
    ensures Get(r, ":proto") == "HTTP/2.0" && Get(r, "te") == "trailers"
    ensures Get(r, "user-agent") == "grpc-go/1.0.0"
    ensures Get(r, ":authority") == target && Get(r, "content-type") == ct
    ensures forall k :: k !in RequestKeys ==> Get(r, k) == Get(h, k)
  {
    h[":method" := "POST"][":path" := RequestPath(target, endpoint)][":proto" := "HTTP/2.0"]
     ["te" := "trailers"]["user-agent" := "grpc-go/1.0.0"][":authority" := target]["content-type" := ct]
  }

  /** The headers of an outgoing response (grpc.go:194-197): `:status` 200 of
      section 8.1.2.4 of RFC 7540 and gRPC status 0 announced as a trailer. */
  function ResponseHeaders(h: Header, ct: string): (r: Header)
    ensures Get(r, "Trailer") == "grpc-status" && Get(r, "content-type") == ct
    ensures Get(r, ":status") == "200" && Get(r, "grpc-status") == StatusOK
    ensures forall k :: k !in ResponseKeys ==> Get(r, k) == Get(h, k)
  {
    h["Trailer" := "grpc-status"]["content-type" := ct][":status" := "200"]["grpc-status" := StatusOK]
  }

  /** The headers of an Error message (grpc.go:200-207): status 0 for the
      end-of-stream sentinel, which leaves `grpc-message` alone, else status
      13 with the error text as `grpc-message`. */
  function ErrorHeaders(h: Header, error: string): (r: Header)
    ensures Get(r, "Trailer") == "grpc-status, grpc-message"
    ensures Get(r, "grpc-status") == if error == EOS then StatusOK else StatusInternal
    ensures Get(r, "grpc-message") == if error == EOS then Get(h, "grpc-message") else error
    ensures forall k :: k !in ErrorKeys ==> Get(r, k) == Get(h, k)
  {
    var t := h["Trailer" := "grpc-status, grpc-message"];
    if error == EOS then t["grpc-status" := StatusOK]
    else t["grpc-message" := error]["grpc-status" := StatusInternal]
  }

  /** The headers after a failed marshal (grpc.go:246-247): status 8 and the
      error text, on top of the kind's headers. */
  function FailureHeaders(h: Header, text: string): (r: Header)
    ensures Get(r, "grpc-status") == StatusResourceExhausted && Get(r, "grpc-message") == text
    ensures forall k :: k !in FailureKeys ==> Get(r, k) == Get(h, k)
  {
    h["grpc-status" := StatusResourceExhausted]["grpc-message" := text]
  }

  /** The keys each kind of header synthesis adds: exactly the ones it
      sets, on top of the message's own. */
  lemma HeadersKeys(h: Header, target: string, endpoint: string, error: string, ct: string, text: string)
    ensures '.' in endpoint ==> RequestHeaders(h, target, endpoint, ct).Keys == h.Keys + RequestKeys
    ensures ResponseHeaders(h, ct).Keys == h.Keys + ResponseKeys
    ensures ErrorHeaders(h, error).Keys == h.Keys + (if error == EOS then {"Trailer", "grpc-status"} else ErrorKeys)
    ensures FailureHeaders(h, text).Keys == h.Keys + FailureKeys
  {
  }

  /** The keys a kind of message has its headers set under. */
  function KindKeys(kind: MessageType): set<string> {
    match kind
    case Request => RequestKeys
    case Response => ResponseKeys
    case Error => ErrorKeys
  }

  /** The headers `Write` synthesises for a message kind (grpc.go:183-210):
      only the kind's own keys change; the content-type is announced except
      on an Error; `grpc-status` is 0 on a response and on end of stream and
      13 on any other error. */
  function KindHeaders(h: Header, kind: MessageType, target: string, endpoint: string, error: string, ct: string): (r: Header)
    requires kind == Request ==> '.' in endpoint
    ensures forall k :: k !in KindKeys(kind) ==> Get(r, k) == Get(h, k)
    ensures kind != Error ==> Get(r, "content-type") == ct
    ensures kind == Response || (kind == Error && error == EOS) ==> Get(r, "grpc-status") == StatusOK
    ensures kind == Error && error != EOS ==> Get(r, "grpc-status") == StatusInternal
  {
    match kind
    case Request => RequestHeaders(h, target, endpoint, ct)
    case Response => ResponseHeaders(h, ct)
    case Error => ErrorHeaders(h, error)
  }

  /** What `Write` puts on the wire once the body is marshalled
      (grpc.go:244-255): nothing and the error after a failed marshal,
      nothing for an empty body, else one frame with flag 0. */
  function Transmission(out: Out, faults: seq<Option<Error>>): (t: Framing.Emitted)
    ensures out.err != None ==> t == Framing.Emitted([], out.err, faults)
    ensures out.err == None && |out.buf.Seq()| == 0 ==> t == Framing.Emitted([], None, faults)
    ensures out.err == None && t.err == None && |out.buf.Seq()| > 0 ==>
              t.written == Framing.FrameBytes(0, out.buf.Seq())
    ensures t.err == None ==> t.written == [] || t.written[0] == 0
  {
    if out.err != None then Framing.Emitted([], out.err, faults)
    else if |out.buf.Seq()| == 0 then Framing.Emitted([], None, faults)
    else Framing.Encoding(0, out.buf.Seq(), faults)
  }

  /** The wire half of `Write`. */
  method Send(conn: Writer, out: Out) returns (err: Option<Error>)
    modifies conn
    ensures var t := Transmission(out, old(conn.faults));
            err == t.err && conn.data == old(conn.data) + t.written && conn.faults == t.faults
  {
    if out.err != None {
      return out.err;
    }
    var body := out.buf.Seq();
    if |body| == 0 {
      return None;
    }
    err := Framing.Encode(0, body, conn);
  }

  /** `grpcCodec`: the codec and its active content-type. */
  class GrpcCodec {
    var ContentType: string

    /** `NewCodec` (grpc.go:262-264). */
    constructor ()
      ensures ContentType == GrpcType
    {
      ContentType := GrpcType;
    }

    /** `ReadHeader` (grpc.go:48-70): refreshes the content-type, even when
        it then fails, and routes the message. */
    method ReadHeader(m: Message) returns (err: Option<Error>)
      modifies this, m
      ensures ContentType == Refreshed(old(ContentType), old(m.Header))
      ensures m.Header == old(m.Header) && m.Type == old(m.Type) && m.Error == old(m.Error)
      ensures match RouteOf(old(m.Header))
              case Some(r) => err == None && m.Target == r.target && m.Endpoint == r.endpoint
              case None => err == Some(UnknownRequestPath) &&
                           m.Target == old(m.Target) && m.Endpoint == old(m.Endpoint)
    {
      var ct := Get(m.Header, "content-type");
      if |ct| > 0 {
        ContentType := ct;
      }
      err := SetRoute(m);
    }

    /** The routing half of `ReadHeader` (grpc.go:53-69). */
    method SetRoute(m: Message) returns (err: Option<Error>)
      modifies m
      ensures m.Header == old(m.Header) && m.Type == old(m.Type) && m.Error == old(m.Error)
      ensures match RouteOf(old(m.Header))
              case Some(r) => err == None && m.Target == r.target && m.Endpoint == r.endpoint
              case None => err == Some(UnknownRequestPath) &&
                           m.Target == old(m.Target) && m.Endpoint == old(m.Endpoint)
    {
      var h := m.Header;
      var path := Get(h, ":path");
      if |path| == 0 || path[0] != '/' {
        m.Target := Get(h, "Micro-Service");
        m.Endpoint := Get(h, "Micro-Endpoint");
      } else {
        var parts := Split(path, '/');
        if |parts| != 3 {
          return Some(UnknownRequestPath);
        }
        var service := Split(parts[1], '.');
        m.Endpoint := Join([service[|service| - 1], parts[2]], '.');
        m.Target := Join(service[..|service| - 1], '.');
      }
      return None;
    }

    /** `Write` (grpc.go:175-256): refreshes the content-type, synthesises
        the kind's headers; an Error message stops there. Otherwise the body
        is marshalled: a failure is recorded as status 8 and returned, an
        empty body is not framed, any other body is framed with flag 0. */
    method Write<S>(conn: Writer, m: Message, b: Payload<S>, env: Env<S>) returns (err: Option<Error>)
      requires m.Type == Request ==> '.' in m.Endpoint
      modifies this, m, conn
      ensures ContentType == Refreshed(old(ContentType), old(m.Header))
      ensures m.Target == old(m.Target) && m.Endpoint == old(m.Endpoint)
      ensures m.Type == old(m.Type) && m.Error == old(m.Error)
      ensures m.Type == Error ==>
                err == None && m.Header == ErrorHeaders(old(m.Header), m.Error) &&
                conn.data == old(conn.data) && conn.faults == old(conn.faults)
      ensures m.Type != Error ==>
                var h := KindHeaders(old(m.Header), m.Type, m.Target, m.Endpoint, m.Error, ContentType);
                var out := WriteBody(b, ContentType, env.enc);
                var t := Transmission(out, old(conn.faults));
                m.Header == (if out.err != None then FailureHeaders(h, ErrorString(env, out.err.value)) else h) &&
                err == t.err && conn.data == old(conn.data) + t.written && conn.faults == t.faults
    {
      SetHeaders(m);
      if m.Type == Error {
        return None;
      }
      err := Deliver(conn, m, b, env);
    }

    /** The header half of `Write` (grpc.go:176-210). */
    method SetHeaders(m: Message)
      requires m.Type == Request ==> '.' in m.Endpoint
      modifies this, m
      ensures ContentType == Refreshed(old(ContentType), old(m.Header))
      ensures m.Target == old(m.Target) && m.Endpoint == old(m.Endpoint)
      ensures m.Type == old(m.Type) && m.Error == old(m.Error)
      ensures m.Header == KindHeaders(old(m.Header), m.Type, m.Target, m.Endpoint, m.Error, ContentType)
    {
      var ct := Get(m.Header, "content-type");
      if |ct| > 0 {
        ContentType := ct;
      }
      m.Header := KindHeaders(m.Header, m.Type, m.Target, m.Endpoint, m.Error, ContentType);
    }

    /** The body half of `Write` (grpc.go:212-255). */
    method Deliver<S>(conn: Writer, m: Message, b: Payload<S>, env: Env<S>) returns (err: Option<Error>)
      modifies m, conn
      ensures m.Target == old(m.Target) && m.Endpoint == old(m.Endpoint)
      ensures m.Type == old(m.Type) && m.Error == old(m.Error)
      ensures var out := WriteBody(b, ContentType, env.enc);
              var t := Transmission(out, old(conn.faults));
              m.Header == (if out.err != None then FailureHeaders(old(m.Header), ErrorString(env, out.err.value)) else old(m.Header)) &&
              err == t.err && conn.data == old(conn.data) + t.written && conn.faults == t.faults
    {
      var out := WriteBody(b, ContentType, env.enc);
      if out.err != None {
        m.Header := FailureHeaders(m.Header, ErrorString(env, out.err.value));
      }
      err := Send(conn, out);
    }

    /** `Unmarshal` (grpc.go:72-104): nil data or a nil target is a no-op;
        otherwise the shared type switch, falling through to
        `ErrInvalidMessage`. */
    method Unmarshal<S>(d: Bytes, b: Payload<S>, env: Env<S>) returns (err: Option<Error>)
      modifies b.Footprint()
      ensures var e := old(Unmarshalling(d, b, ContentType, env.enc));
              err == e.err &&
              (b.FrameRef? ==> b.frame.Data == if e.fill.SetData? then e.fill.data else old(b.frame.Data)) &&
              (b.ObjectRef? ==> b.obj.state == if e.fill.SetState? then e.fill.state else old(b.obj.state))
    {
      if d == Null {
        return None;
      }
      err := DispatchInto(d, b, env, InvalidMessage);
    }

    /** `ReadBody` (grpc.go:137-173): a nil target reads nothing; otherwise
        one frame is decoded by `decode` as written, its error returned, and
        its payload (nil when empty) goes through the shared type switch,
        falling through to `ErrUnknownContentType`. */
    method ReadBody<S>(conn: Reader, b: Payload<S>, env: Env<S>) returns (err: Option<Error>)
      requires conn.Valid()
      modifies conn, b.Footprint()
      ensures conn.Valid() && conn.data == old(conn.data)
      ensures b.NilValue? ==> err == None && conn.pos == old(conn.pos)
      ensures !b.NilValue? ==>
                var d := Framing.Decoding(old(conn.Rest()), env.maxMsgSize);
                var e := if d.err != None then Effect(Untouched, d.err)
                         else old(Dispatch(d.msg, b, ContentType, env.enc, UnknownContentType));
                conn.pos == old(conn.pos) + d.consumed && err == e.err &&
                (b.FrameRef? ==> b.frame.Data == if e.fill.SetData? then e.fill.data else old(b.frame.Data)) &&
                (b.ObjectRef? ==> b.obj.state == if e.fill.SetState? then e.fill.state else old(b.obj.state))
    {
      if b.NilValue? {
        return None;
      }
      var _, buf, e := Framing.Decode(conn, env.maxMsgSize);
      if e != None {
        return e;
      }
      err := DispatchInto(buf, b, env, UnknownContentType);
    }

    /** `ReadBody` over the corrected decoder, which reads the header and the
        payload in full. */
    method ReadBodyFull<S>(conn: Reader, b: Payload<S>, env: Env<S>) returns (err: Option<Error>)
      requires conn.Valid()
      modifies conn, b.Footprint()
      ensures conn.Valid() && conn.data == old(conn.data)
      ensures b.NilValue? ==> err == None && conn.pos == old(conn.pos)
      ensures !b.NilValue? ==>
                var d := Framing.FullDecoding(old(conn.Rest()), env.maxMsgSize);
                var e := if d.err != None then Effect(Untouched, d.err)
                         else old(Dispatch(d.msg, b, ContentType, env.enc, UnknownContentType));
                conn.pos == old(conn.pos) + d.consumed && err == e.err &&
                (b.FrameRef? ==> b.frame.Data == if e.fill.SetData? then e.fill.data else old(b.frame.Data)) &&
                (b.ObjectRef? ==> b.obj.state == if e.fill.SetState? then e.fill.state else old(b.obj.state))
    {
      if b.NilValue? {
        return None;
      }
      var _, buf, e := Framing.DecodeFull(conn, env.maxMsgSize);
      if e != None {
        return e;
      }
      err := DispatchInto(buf, b, env, UnknownContentType);
    }

    /** The type switch shared by `Unmarshal` and `ReadBody`, carried out on
        the target. */
    method DispatchInto<S>(d: Bytes, b: Payload<S>, env: Env<S>, unmatched: Error) returns (err: Option<Error>)
      modifies b.Footprint()
      ensures var e := old(Dispatch(d, b, ContentType, env.enc, unmatched));
              err == e.err &&
              (b.FrameRef? ==> b.frame.Data == if e.fill.SetData? then e.fill.data else old(b.frame.Data)) &&
              (b.ObjectRef? ==> b.obj.state == if e.fill.SetState? then e.fill.state else old(b.obj.state))
    {
      var e := Dispatch(d, b, ContentType, env.enc, unmatched);
      Apply(b, e.fill);
      return e.err;
    }
  }

  /** A `:path` of the form "/service/method" routes to the `.`-prefix of
      the service as target and its last `.`-component joined to the method
      name as endpoint. */
  lemma {:induction false} RouteOfPath(h: Header, service: string, rpc: string)
    requires Get(h, ":path") == "/" + service + "/" + rpc
    requires '/' !in service && '/' !in rpc
    ensures var parts := Split(service, '.');
            RouteOf(h) == Some(Route(Join(parts[..|parts| - 1], '.'), Join([parts[|parts| - 1], rpc], '.')))
  {
    SplitPath(service, rpc);
  }

  /** "/service/method" splits on '/' into "", the service and the method. */
  lemma {:induction false} SplitPath(service: string, rpc: string)
    requires '/' !in service && '/' !in rpc
    ensures var parts := Split("/" + service + "/" + rpc, '/');
            |parts| == 3 && parts[0] == "" && parts[1] == service && parts[2] == rpc
  {
    var tail := service + ['/'] + rpc;
    assert "/" + service + "/" + rpc == [] + ['/'] + tail;
    SplitAround([], '/', tail);
    SplitAround(service, '/', rpc);
    SplitWithout(service, '/');
    SplitWithout(rpc, '/');
    assert Split([], '/') == [""];
  }

  /** A dotted `:path` routes back to its pieces: "/t.a/b" gives target `t`
      and endpoint "a.b" when `a` has no `.` and no piece has a '/'. */
  lemma {:induction false} RouteOfDotted(h: Header, target: string, a: string, b: string)
    requires Get(h, ":path") == "/" + target + "." + a + "/" + b
    requires '/' !in target && '/' !in a && '/' !in b && '.' !in a
    ensures RouteOf(h) == Some(Route(target, a + "." + b))
  {
    var service := target + "." + a;
    assert "/" + target + "." + a + "/" + b == "/" + service + "/" + b;
    assert '/' !in service by {
      assert service == target + ['.'] + a;
    }
    RouteOfPath(h, service, b);
    assert service == target + ['.'] + a;
    SplitAround(target, '.', a);
    SplitWithout(a, '.');
    var parts := Split(service, '.');
    assert parts == Split(target, '.') + [a];
    assert parts[..|parts| - 1] == Split(target, '.');
    JoinSplit(target, '.');
    assert Join([a, b], '.') == a + "." + b;
  }

  /** The `:path` a request is written with routes back, on the reading
      side, to the request's own target and endpoint, when the endpoint has
      exactly one `.` and neither field has a '/'. */
  lemma {:induction false} RequestRouteRoundTrip(h: Header, target: string, endpoint: string, ct: string)
    requires Count(endpoint, '.') == 1
    requires '/' !in target && '/' !in endpoint
    ensures RouteOf(RequestHeaders(h, target, endpoint, ct)) == Some(Route(target, endpoint))
  {
    var parts := Split(endpoint, '.');
    JoinSplit(endpoint, '.');
    SplitParts(endpoint, '.');
    assert endpoint == parts[0] + "." + parts[1];
    assert endpoint == parts[0] + ['.'] + parts[1];
    RouteOfDotted(RequestHeaders(h, target, endpoint, ct), target, parts[0], parts[1]);
  }

  /** A service name without a `.` routes to an empty target, the endpoint
      being "service.method". */
  lemma {:induction false} RouteOfUndotted(h: Header, service: string, rpc: string)
    requires Get(h, ":path") == "/" + service + "/" + rpc
    requires '/' !in service && '/' !in rpc && '.' !in service
    ensures RouteOf(h) == Some(Route("", service + "." + rpc))
  {
    RouteOfPath(h, service, rpc);
    SplitWithout(service, '.');
    assert Join([service, rpc], '.') == service + "." + rpc;
  }

  /** A `:path` with a single '/' (two parts) is an unknown request path. */
  lemma {:induction false} RouteOfTwoParts(h: Header, rest: string)
    requires Get(h, ":path") == "/" + rest
    requires '/' !in rest
    ensures RouteOf(h) == None
  {
    CountAppend("/", rest, '/');
    assert Count("/", '/') == 1 by {
      assert "/"[1..] == "";
    }
  }

  /** Only the first two `.`-parts of a request's endpoint reach its `:path`:
      "a.b" and "a.b.c" give the same path. */
  lemma {:induction false} RequestPathOf(target: string, a: string, b: string, suffix: string)
    requires '.' !in a && '.' !in b
    requires suffix == [] || suffix[0] == '.'
    ensures '.' in a + "." + b + suffix
    ensures RequestPath(target, a + "." + b + suffix) == "/" + target + "." + a + "/" + b
  {
    var endpoint := a + "." + b + suffix;
    assert endpoint[|a|] == '.';
    SplitWithout(a, '.');
    if suffix == [] {
      assert endpoint == a + ['.'] + b;
      SplitAround(a, '.', b);
      SplitWithout(b, '.');
    } else {
      var tail := suffix[1..];
      assert endpoint == a + ['.'] + (b + ['.'] + tail);
      SplitAround(a, '.', b + ['.'] + tail);
      SplitAround(b, '.', tail);
      SplitWithout(b, '.');
    }
  }

  /** A body `Write` frames and the writer accepts reads back whole: the
      frame either decoder takes from the written bytes carries the
      marshalled bytes, and the reader stops at the frame's end. */
  lemma {:induction false} WrittenBodyReadsBack(out: Out, faults: seq<Option<Error>>, rest: seq<byte>, maxMsgSize: nat)
    requires out.err == None && 0 < |out.buf.Seq()| <= maxMsgSize && |out.buf.Seq()| < Framing.Uint32Limit
    requires Transmission(out, faults).err == None
    ensures Framing.Decoding(Transmission(out, faults).written + rest, maxMsgSize)
            == Framing.Decoded(0, out.buf, None, 5 + |out.buf.Seq()|)
    ensures Framing.FullDecoding(Transmission(out, faults).written + rest, maxMsgSize)
            == Framing.Decoded(0, out.buf, None, 5 + |out.buf.Seq()|)
  {
    Framing.DecodeEncoded(0, out.buf.Seq(), rest, maxMsgSize);
  }

  /** Writing a value and reading the bytes back, with `ReadBody` or
      `ReadBodyFull`, into a value of the same type restores its state, when
      the encoders round-trip (for a value of both `proto.Message`
      generations, across generations too), both sides agree on the
      content-type and the marshalled body is non-empty and within the size
      limit. */
  lemma {:induction false} WriteThenReadBody<S(!new)>(src: Object<S>, dst: Object<S>, ct: string, enc: Encoders<S>,
                                                      faults: seq<Option<Error>>, rest: seq<byte>, maxMsgSize: nat)
    requires RoundTrips(enc)
    requires src.newProto && src.oldProto ==> GenerationsAgree(enc)
    requires src.newProto == dst.newProto && src.oldProto == dst.oldProto
    requires var out := WriteBody(ObjectRef(src), ct, enc);
             out.err == None && 0 < |out.buf.Seq()| <= maxMsgSize && |out.buf.Seq()| < Framing.Uint32Limit &&
             Transmission(out, faults).err == None
    ensures var out := WriteBody(ObjectRef(src), ct, enc);
            var d := Framing.Decoding(Transmission(out, faults).written + rest, maxMsgSize);
            d.err == None && Dispatch(d.msg, ObjectRef(dst), ct, enc, UnknownContentType) == Effect(SetState(src.state), None)
    ensures var out := WriteBody(ObjectRef(src), ct, enc);
            var d := Framing.FullDecoding(Transmission(out, faults).written + rest, maxMsgSize);
            d.err == None && Dispatch(d.msg, ObjectRef(dst), ct, enc, UnknownContentType) == Effect(SetState(src.state), None)
  {
    var out := WriteBody(ObjectRef(src), ct, enc);
    WrittenBodyReadsBack(out, faults, rest, maxMsgSize);
    MarshalThenDispatch(src, dst, ct, enc, UnknownContentType);
  }
}
