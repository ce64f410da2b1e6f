/**
  Recording a handler's response and replaying it. The recorder sits between the handler and the
  HTTP connection: it forwards every write and keeps a copy.
 */
module Recorder {
  import opened Common
  import RequestCache

  const OK := 200
  const NO_CONTENT := 204
  const NOT_MODIFIED := 304

  /** net/http sends no body with these statuses, and refuses the bytes a handler writes. */
  predicate BodyAllowed(code: int) {
    !(100 <= code <= 199) && code != NO_CONTENT && code != NOT_MODIFIED
  }

  /** net/http drops the Content-Type of a 304. */
  function TypeOnWire(code: int, header: string): string {
    if code == NOT_MODIFIED then "" else header
  }

  /** What a handler does to its response: set the Content-Type header, write the header, write body bytes. */
  datatype Event = SetType(contentType: string) | Header(code: int) | Body(bytes: Bytes)

  /** What a client receives: status code, Content-Type header ("" if absent) and body. */
  datatype Sent = Sent(statusCode: int, contentType: string, body: Bytes)

  // ---- Reading a handler's writes without the recorder ----

  predicate Writes(e: Event) {
    e.Header? || e.Body?
  }

  /** The first write decides the status: its code, or 200 for a body write or no write at all. */
  function FirstStatus(es: seq<Event>): int {
    if es == [] then OK
    else match es[0]
         case Header(code) => code
         case Body(_) => OK
         case SetType(_) => FirstStatus(es[1..])
  }

  function AllBytes(es: seq<Event>): Bytes {
    if es == [] then [] else (if es[0].Body? then es[0].bytes else []) + AllBytes(es[1..])
  }

  /** The header value when the first write (or the end) sends the header, starting from `header`. */
  function TypeWhenSent(es: seq<Event>, header: string): string {
    if es == [] || Writes(es[0]) then header else TypeWhenSent(es[1..], es[0].contentType)
  }

  function TypeAtEnd(es: seq<Event>, header: string): string {
    if es == [] then header
    else TypeAtEnd(es[1..], if es[0].SetType? then es[0].contentType else header)
  }

  /** The Content-Type is not touched again once the header is sent. */
  predicate TypeSettled(es: seq<Event>) {
    es == [] || if Writes(es[0]) then forall e | e in es :: !e.SetType? else TypeSettled(es[1..])
  }

  function SentBy(es: seq<Event>): Sent {
    var code := FirstStatus(es);
    Sent(code, TypeOnWire(code, TypeWhenSent(es, "")), if BodyAllowed(code) then AllBytes(es) else [])
  }

  lemma {:induction false} NoMoreTypes(es: seq<Event>, header: string)
    requires forall e | e in es :: !e.SetType?
    ensures TypeAtEnd(es, header) == header
  {
    if es != [] {
      NoMoreTypes(es[1..], header);
    }
  }

  lemma {:induction false} SettledType(es: seq<Event>, header: string)
    requires TypeSettled(es)
    ensures TypeAtEnd(es, header) == TypeWhenSent(es, header)
  {
    if es != [] {
      if Writes(es[0]) {
        NoMoreTypes(es, header);
      } else {
        SettledType(es[1..], es[0].contentType);
      }
    }
  }

  // ---- Appending one event ----

  predicate Wrote(es: seq<Event>) {
    exists e :: e in es && Writes(e)
  }

  lemma {:induction false} AppendData(es: seq<Event>, e: Event, header: string)
    ensures AllBytes(es + [e]) == AllBytes(es) + if e.Body? then e.bytes else []
    ensures TypeAtEnd(es + [e], header) == if e.SetType? then e.contentType else TypeAtEnd(es, header)
  {
    if es == [] {
      assert es + [e] == [e] && [e][1..] == [];
    } else {
      assert (es + [e])[1..] == es[1..] + [e];
      AppendData(es[1..], e, if es[0].SetType? then es[0].contentType else header);
    }
  }

  lemma WroteCons(es: seq<Event>)
    requires es != []
    ensures Wrote(es) <==> Writes(es[0]) || Wrote(es[1..])
  {
    assert forall x :: x in es <==> x == es[0] || x in es[1..];
  }

  lemma {:induction false} AppendWrite(es: seq<Event>, e: Event, header: string)
    ensures FirstStatus(es + [e]) ==
            if Wrote(es) then FirstStatus(es) else if e.Header? then e.code else OK
    ensures TypeWhenSent(es + [e], header) ==
            if Wrote(es) || Writes(e) then TypeWhenSent(es, header) else TypeAtEnd(es + [e], header)
  {
    if es == [] {
      assert es + [e] == [e] && [e][1..] == [];
    } else {
      assert (es + [e])[1..] == es[1..] + [e];
      WroteCons(es);
      AppendWrite(es[1..], e, if es[0].SetType? then es[0].contentType else header);
    }
  }

  lemma {:induction false} BeforeWrites(es: seq<Event>, header: string)
    requires !Wrote(es)
    ensures TypeWhenSent(es, header) == TypeAtEnd(es, header) && FirstStatus(es) == OK && AllBytes(es) == []
  {
    if es != [] {
      WroteCons(es);
      BeforeWrites(es[1..], if es[0].SetType? then es[0].contentType else header);
    }
  }

  lemma AppendEvent(es: seq<Event>, e: Event, header: string)
    ensures AllBytes(es + [e]) == AllBytes(es) + if e.Body? then e.bytes else []
    ensures TypeAtEnd(es + [e], header) == if e.SetType? then e.contentType else TypeAtEnd(es, header)
    ensures FirstStatus(es + [e]) ==
            if Wrote(es) then FirstStatus(es) else if e.Header? then e.code else OK
    ensures TypeWhenSent(es + [e], header) ==
            if Wrote(es) || Writes(e) then TypeWhenSent(es, header) else TypeAtEnd(es + [e], header)
    ensures !Wrote(es) ==> TypeWhenSent(es, header) == TypeAtEnd(es, header) && FirstStatus(es) == OK && AllBytes(es) == []
  {
    AppendData(es, e, header);
    AppendWrite(es, e, header);
    if !Wrote(es) {
      BeforeWrites(es, header);
    }
  }

  // ---- The objects ----

  /** The underlying http.ResponseWriter: the header map, and what went out on the wire. */
  class Connection {
    var header: string
    var headerWrites: nat
    var statusCode: int
    var sentType: string
    var body: Bytes

    constructor ()
      ensures header == "" && headerWrites == 0 && body == []
    {
      header, headerWrites, statusCode, sentType, body := "", 0, OK, "", [];
    }

    method WriteHeader(code: int)
      modifies this
      ensures header == old(header) && body == old(body) && headerWrites == old(headerWrites) + 1
      ensures if old(headerWrites) == 0 then statusCode == code && sentType == TypeOnWire(code, header)
              else statusCode == old(statusCode) && sentType == old(sentType)
    {
      if headerWrites == 0 {
        statusCode, sentType := code, TypeOnWire(code, header);
      }
      headerWrites := headerWrites + 1;
    }

    method Write(b: Bytes)
      requires headerWrites > 0
      modifies this
      ensures header == old(header) && headerWrites == old(headerWrites)
      ensures statusCode == old(statusCode) && sentType == old(sentType)
      ensures body == if BodyAllowed(statusCode) then old(body) + b else old(body)
    {
      if BodyAllowed(statusCode) {
        body := body + b;
      }
    }

    /** What the client has once the handler returned: without any write the server sends a 200 by itself. */
    method Finish() returns (sent: Sent)
      ensures sent == if headerWrites == 0 then Sent(OK, header, body) else Sent(statusCode, sentType, body)
    {
      sent := if headerWrites == 0 then Sent(OK, header, body) else Sent(statusCode, sentType, body);
    }
  }

  class ResponseWriter {
    const inner: Connection
    var body: Bytes
    var statusCode: int
    var wroteHeader: bool

    constructor (inner: Connection)
      ensures this.inner == inner && body == [] && statusCode == OK && !wroteHeader
    {
      this.inner, body, statusCode, wroteHeader := inner, [], OK, false;
    }

    /** The handler has done exactly these events through the recorder, starting from an empty header. */
    ghost predicate Follows(es: seq<Event>)
      reads this, inner
    {
      && wroteHeader == Wrote(es)
      && statusCode == FirstStatus(es)
      && body == AllBytes(es) && inner.body == (if BodyAllowed(FirstStatus(es)) then body else [])
      && inner.header == TypeAtEnd(es, "")
      && inner.headerWrites == (if Wrote(es) then 1 else 0)
      && (Wrote(es) ==> inner.statusCode == FirstStatus(es) && inner.sentType == SentBy(es).contentType)
    }

    method WriteHeader(code: int, ghost es: seq<Event>)
      requires Follows(es)
      modifies this, inner
      ensures Follows(es + [Header(code)])
    {
      AppendEvent(es, Header(code), "");
      assert Header(code) in es + [Header(code)];
      if wroteHeader {
        return;
      }
      wroteHeader := true;
      statusCode := code;
      inner.WriteHeader(code);
    }

    method Write(b: Bytes, ghost es: seq<Event>)
      requires Follows(es)
      modifies this, inner
      ensures Follows(es + [Body(b)])
    {
      AppendEvent(es, Body(b), "");
      assert Body(b) in es + [Body(b)];
      if !wroteHeader {
        wroteHeader := true;
        statusCode := OK;
        inner.WriteHeader(OK);
      }
      body := body + b;
      inner.Write(b);
    }

    /** What the handler does next. */
    method Do(e: Event, ghost es: seq<Event>)
      requires Follows(es)
      modifies this, inner
      ensures Follows(es + [e])
    {
      match e {
        case SetType(ct) =>
          AppendEvent(es, e, "");
          assert Wrote(es + [e]) <==> Wrote(es);
          inner.header := ct;
        case Header(code) => WriteHeader(code, es);
        case Body(b) => Write(b, es);
      }
    }
  }

  /** Without a write the server's own 200 has the header as it is at the end, and no body. */
  lemma NothingWritten(es: seq<Event>)
    requires !Wrote(es)
    ensures SentBy(es) == Sent(OK, TypeAtEnd(es, ""), []) && AllBytes(es) == []
  {
    BeforeWrites(es, "");
  }

  /**
    A handler's events driven through a recorder: the client receives what it would without the
    recorder, at most one header write is forwarded, and the recorder holds status and body.
   */
  method RunHandler(es: seq<Event>) returns (rw: ResponseWriter, sent: Sent)
    ensures fresh(rw) && fresh(rw.inner) && rw.Follows(es)
    ensures rw.inner.headerWrites <= 1
    ensures sent == SentBy(es)
  {
    var connection := new Connection();
    rw := new ResponseWriter(connection);
    assert es[..0] == [];
    for i := 0 to |es|
      invariant fresh(rw) && fresh(rw.inner) && rw.Follows(es[..i])
    {
      assert es[..i + 1] == es[..i] + [es[i]];
      rw.Do(es[i], es[..i]);
    }
    assert es[..|es|] == es;
    if !Wrote(es) {
      NothingWritten(es);
    }
    sent := rw.inner.Finish();
  }

  // ---- What the middleware stores, and what a replay sends ----

  /** echoStatus is the framework's own idea of the status after the handler; 0 when it has none. */
  function Recorded(es: seq<Event>, echoStatus: int): Payload {
    var recorded := FirstStatus(es);
    Payload(
      AllBytes(es),
      if echoStatus != 0 then echoStatus else if recorded != 0 then recorded else OK,
      var ct := TypeAtEnd(es, ""); if ct == "" then RequestCache.DEFAULT_CONTENT_TYPE else ct)
  }

  /** 204 is answered without body or Content-Type; anything else with both, as far as net/http sends them. */
  function Replayed(p: Payload): Sent {
    if p.statusCode == NO_CONTENT then Sent(NO_CONTENT, "", [])
    else
      var ct := if p.contentType == "" then RequestCache.DEFAULT_CONTENT_TYPE else p.contentType;
      Sent(p.statusCode, TypeOnWire(p.statusCode, ct), if BodyAllowed(p.statusCode) then p.response else [])
  }

  /** A replay is the same whether the payload comes from memory or went through the table's NULL encoding. */
  lemma ReplayThroughTable(es: seq<Event>, echoStatus: int, createdAt: int, expiresAt: int)
    ensures RequestCache.Decode(RequestCache.Encode(Recorded(es, echoStatus), createdAt, expiresAt)).payload ==
            Recorded(es, echoStatus)
  {
    RequestCache.EncodeDecode(Recorded(es, echoStatus), createdAt, expiresAt);
  }

  /** The handler named a Content-Type exactly where a replay sends one: always but for a 204, and a 304 has none on the wire. */
  predicate TypeNamed(es: seq<Event>) {
    FirstStatus(es) == NOT_MODIFIED || (FirstStatus(es) == NO_CONTENT) == (TypeAtEnd(es, "") == "")
  }

  /**
    When a replay is the original response, whatever status the framework reports. The status is, exactly when the
    framework's is unset or the one the recorder saw; then the body always is; and with a settled header the
    Content-Type is, exactly when the handler named one where a replay sends one.
   */
  lemma RoundTrip(es: seq<Event>, echoStatus: int)
    requires forall e | e in es && e.Header? :: 100 <= e.code <= 999
    ensures var was, again := SentBy(es), Replayed(Recorded(es, echoStatus));
            && (again.statusCode == was.statusCode <==> echoStatus == 0 || echoStatus == FirstStatus(es))
            && (again.statusCode == was.statusCode ==> again.body == was.body)
            && (again.statusCode == was.statusCode && TypeSettled(es) ==>
                  (again.contentType == was.contentType <==> TypeNamed(es)))
  {
    StatusIsValid(es);
    if TypeSettled(es) {
      SettledType(es, "");
    }
  }

  /** The framework reports the status of the handler's first write; then a replay is the original exactly if the type was named. */
  lemma ReplayIsOriginal(es: seq<Event>)
    requires TypeSettled(es) && forall e | e in es && e.Header? :: 100 <= e.code <= 999
    ensures Replayed(Recorded(es, FirstStatus(es))) == SentBy(es) <==> TypeNamed(es)
  {
    RoundTrip(es, FirstStatus(es));
  }

  /**
    What a replay consists of: the status the framework reported, else the handler's, which is 200 if it wrote none; with
    a 204 nothing else; otherwise the handler's bytes and its type, JSON if it named none, but no type with a 304 and
    no body with that or an informational status.
   */
  lemma ReplayConsistsOf(es: seq<Event>, echoStatus: int)
    requires forall e | e in es && e.Header? :: 100 <= e.code <= 999
    ensures var again, first := Replayed(Recorded(es, echoStatus)), TypeAtEnd(es, "");
            && (echoStatus != 0 ==> again.statusCode == echoStatus)
            && (echoStatus == 0 ==> again.statusCode == FirstStatus(es) && (!Wrote(es) ==> again.statusCode == 200))
            && (again.statusCode == 204 || again.statusCode == 304 ==> again.contentType == "" && again.body == [])
            && (again.statusCode !in {204, 304} ==> again.contentType == if first == "" then "application/json" else first)
            && (100 <= again.statusCode < 200 ==> again.body == [])
            && (again.statusCode >= 200 && again.statusCode !in {204, 304} ==> again.body == AllBytes(es))
  {
    StatusIsValid(es);
    if !Wrote(es) {
      BeforeWrites(es, "");
    }
  }

  lemma {:induction false} StatusIsValid(es: seq<Event>)
    requires forall e | e in es && e.Header? :: 100 <= e.code <= 999
    ensures 100 <= FirstStatus(es) <= 999
  {
    if es != [] {
      StatusIsValid(es[1..]);
      assert es[0] in es;
    }
  }
}
