/** A CAPI message on its way through the daemon, in both directions, and the daemon's two
    static buffers it is rewritten in. */
module Transport {
  import opened Bytes
  import opened CapiMessage
  import opened CardModel
  import opened Packets
  import opened DataB3
  import opened Framing

  predicate IsMap(m: seq<word>) {
    |m| == CAPI_MAXAPPL + 1
  }

  // ---- outbound ---------------------------------------------------------------------------

  /** The rewriting of `send_to_server`: application id mapped, controller number 1. */
  function Outgoing(m: Message, ltr: seq<word>): (r: Message)
    requires |m| >= 12 && IsMap(ltr) && AppId(m) < |ltr|
    ensures |r| == |m|
  {
    var n := SetAppId(m, ltr[AppId(m)]);
    SetControl(n, WithController(Control(n), 1))
  }

  function PutRequestHeader(len: nat, id: dword, app: dword, session: dword): Request
    requires len <= PACKET_SIZE
  {
    Request(REQUEST_HEADER_LEN + len, REQUEST_HEADER_LEN, 0, len, id, TYPE_CAPI_PUTMESSAGE, app, 1, session)
  }

  function PutRequestPacket(m: Message, ltr: seq<word>, id: dword, session: dword): seq<byte>
    requires 12 <= |m| <= PACKET_SIZE && IsMap(ltr) && AppId(m) < |ltr|
  {
    EncodeRequest(PutRequestHeader(|m|, id, ltr[AppId(m)], session)) + Outgoing(m, ltr)
  }

  /** Only bytes 2, 3 and 8 change: the id becomes `app`, and byte 8 keeps its top bit and
      gets controller 1. */
  ghost predicate Readdressed(m: Message, r: Message, app: word) {
    && |r| == |m| >= 12 && AppId(r) == app && r[8] == m[8] - m[8] % 0x80 + 1
    && forall k :: 0 <= k < |m| && k != 2 && k != 3 && k != 8 ==> r[k] == m[k]
  }

  lemma OutgoingIs(m: Message, ltr: seq<word>)
    requires |m| >= 12 && IsMap(ltr) && AppId(m) < |ltr|
    ensures Readdressed(m, Outgoing(m, ltr), ltr[AppId(m)])
  {
    var app := ltr[AppId(m)];
    var n := SetAppId(m, app);
    AppIdRewrite(m, app);
    ControllerRewrite(n, 1);
    assert n[8] == m[8] && n[2] == n[..][2];
    assert Outgoing(m, ltr) == n[8 := LowByte(n[8], 1)];
  }

  /** The rewriting leaves every field the server's parser looks at alone. */
  lemma ReaddressedParses(m: Message, r: Message, app: word)
    requires Readdressed(m, r, app)
    ensures Len(r) == Len(m) && (IsDataB3(r, REQ) <==> IsDataB3(m, REQ))
    ensures |m| >= 18 ==> DataLen(r) == DataLen(m)
    ensures WellFormedRequest(r) <==> WellFormedRequest(m)
  {
  }

  /** `p` is a request whose header locates `data` inside it. */
  ghost predicate Carries(p: seq<byte>, data: seq<byte>) {
    |p| >= REQUEST_HEADER_LEN &&
    var h := DecodeRequest(p);
    h.headerLen + h.bodyLen + h.dataLen <= |p| && p[h.headerLen + h.bodyLen..][..h.dataLen] == data
  }

  lemma PutRequestIsFrame(m: Message, ltr: seq<word>, id: dword, session: dword)
    requires 12 <= |m| <= PACKET_SIZE - REQUEST_HEADER_LEN && IsMap(ltr) && AppId(m) < |ltr|
    ensures var p := PutRequestPacket(m, ltr, id, session);
      IsFrame(p) && Carries(p, Outgoing(m, ltr)) &&
      DecodeRequest(p) == PutRequestHeader(|m|, id, ltr[AppId(m)], session)
  {
    var h := PutRequestHeader(|m|, id, ltr[AppId(m)], session);
    RequestRoundTrip(h, Outgoing(m, ltr));
  }

  /** What CAPI is handed for a message an application sent. */
  ghost predicate Preserved(m: Message, r: Message, app: word, address: dword) {
    && |r| == |m| >= 12 && AppId(r) == app && r[8] == m[8] - m[8] % 0x80 + 1
    && (forall k :: 0 <= k < |m| && k !in {2, 3, 8} && !(IsDataB3(m, REQ) && 12 <= k < 16) ==> r[k] == m[k])
    && (IsDataB3(m, REQ) ==>
          |m| >= 18 && DataLen(r) == DataLen(m) && DataPointer(r) == address + Len(m) &&
          Len(m) + DataLen(m) <= |m| && PayloadAt(r, address) == m[Len(m)..][..DataLen(m)])
  }

  lemma PutPreserves(m: Message, data: Message, app: word, address: dword)
    requires Readdressed(m, data, app) && WellFormedRequest(m) && address + |m| < 0x1_0000_0000
    ensures PutMessage(data, address).ToCapi? && Preserved(m, PutMessage(data, address).message, app, address)
  {
    ReaddressedParses(m, data, app);
    PutMessageExact(data, address);
    var r := PutMessage(data, address).message;
    if IsDataB3(m, REQ) {
      assert forall k :: 0 <= k < 12 ==> r[k] == r[..12][k] && data[..12][k] == data[k];
      assert forall k :: 16 <= k < |m| ==> r[k] == r[16..][k - 16] && data[16..][k - 16] == data[k];
      assert data[Len(m)..][..DataLen(m)] == m[Len(m)..][..DataLen(m)];
    }
  }

  /** Outbound preservation. A message the module delivered reaches `capi20_put_message`
      exactly when it is well formed, and then unchanged except for the application id, the
      low seven bits of the controller word and the pointer of a DATA_B3_REQ, behind which CAPI
      finds the payload that was sent. */
  lemma OutboundPreserved(m: Message, ltr: seq<word>, id: dword, session: dword, address: dword)
    requires 12 <= |m| <= PACKET_SIZE - REQUEST_HEADER_LEN && IsMap(ltr) && AppId(m) < |ltr|
    requires address + |m| < 0x1_0000_0000
    ensures var p := PutRequestPacket(m, ltr, id, session); IsFrame(p) && Carries(p, Outgoing(m, ltr))
    ensures PutMessage(Outgoing(m, ltr), address).ToCapi? <==> WellFormedRequest(m)
    ensures WellFormedRequest(m) ==>
      Preserved(m, PutMessage(Outgoing(m, ltr), address).message, ltr[AppId(m)], address)
  {
    var data := Outgoing(m, ltr);
    PutRequestIsFrame(m, ltr, id, session);
    OutgoingIs(m, ltr);
    ReaddressedParses(m, data, ltr[AppId(m)]);
    PutMessageExact(data, address);
    if WellFormedRequest(m) {
      PutPreserves(m, data, ltr[AppId(m)], address);
    }
  }

  predicate Sendable(ms: seq<Message>, ltr: seq<word>) {
    IsMap(ltr) && forall i :: 0 <= i < |ms| ==> 12 <= |ms[i]| <= PACKET_SIZE - REQUEST_HEADER_LEN && AppId(ms[i]) < |ltr|
  }

  /** The bytes the daemon puts on the wire for a list of messages, frame by frame. */
  function Sent(ms: seq<Message>, id: dword, ltr: seq<word>, session: dword): (ps: seq<seq<byte>>)
    requires Sendable(ms, ltr)
    ensures |ps| == |ms|
  {
    if ms == [] then []
    else [PutRequestPacket(ms[0], ltr, id, session)] + Sent(ms[1..], Wrap(id + 1), ltr, session)
  }

  /** Frame by frame, `ps` carries the rewritten messages. */
  ghost predicate CarryAll(ps: seq<seq<byte>>, ms: seq<Message>, ltr: seq<word>)
    requires Sendable(ms, ltr)
  {
    |ps| == |ms| && forall i :: 0 <= i < |ms| ==> IsFrame(ps[i]) && CarriesMessage(ps[i], ms[i], ltr)
  }

  ghost predicate CarriesMessage(p: seq<byte>, m: Message, ltr: seq<word>)
    requires |m| >= 12 && IsMap(ltr) && AppId(m) < |ltr|
  {
    Carries(p, Outgoing(m, ltr))
  }

  lemma CarryOneMore(p: seq<byte>, ps: seq<seq<byte>>, ms: seq<Message>, ltr: seq<word>)
    requires ms != [] && Sendable(ms, ltr) && IsFrame(p) && CarriesMessage(p, ms[0], ltr)
    requires CarryAll(ps, ms[1..], ltr)
    ensures CarryAll([p] + ps, ms, ltr)
  {
    var all, rest := [p] + ps, ms[1..];
    forall i | 0 <= i < |ms| ensures IsFrame(all[i]) && CarriesMessage(all[i], ms[i], ltr) {
      if i > 0 {
        assert ms[i] == rest[i - 1] && all[i] == ps[i - 1];
      }
    }
  }

  lemma {:induction false} SentAreFrames(ms: seq<Message>, id: dword, ltr: seq<word>, session: dword)
    requires Sendable(ms, ltr)
    ensures CarryAll(Sent(ms, id, ltr, session), ms, ltr)
  {
    if ms != [] {
      var p, rest := PutRequestPacket(ms[0], ltr, id, session), Sent(ms[1..], Wrap(id + 1), ltr, session);
      PutRequestIsFrame(ms[0], ltr, id, session);
      SentAreFrames(ms[1..], Wrap(id + 1), ltr, session);
      assert CarriesMessage(p, ms[0], ltr);
      CarryOneMore(p, rest, ms, ltr);
    }
  }

  /** Through any chunking of the stream: the data parts the dispatcher sees are the rewritten
      messages, in the order the daemon sent them, and nothing else. */
  lemma OutboundStream(ms: seq<Message>, id: dword, ltr: seq<word>, session: dword, fails: bool)
    requires Sendable(ms, ltr)
    ensures var c := Parse(Concat(Sent(ms, id, ltr, session)), fails);
      CarryAll(c.frames, ms, ltr) && c.end == EndOf(fails)
  {
    var ps := Sent(ms, id, ltr, session);
    SentAreFrames(ms, id, ltr, session);
    FramesComeOut(ps, [], fails);
    assert Concat(ps) + [] == Concat(ps) && ps + [] == ps;
  }

  // ---- inbound ----------------------------------------------------------------------------

  function GetAnswerHeader(request: Request, m: Message, payload: seq<byte>, session: dword): Answer
    requires |m| >= 6 && |m| + |payload| <= PACKET_SIZE
  {
    var len := |m| + |payload|;
    Answer(ANSWER_HEADER_LEN + len, ANSWER_HEADER_LEN, 0, len, request.id, TYPE_CAPI_GETMESSAGE, request.app, session,
           if ShortIndication(m) then PERROR_PARSE_ERROR else PERROR_NONE, 0)
  }

  /** The answer of GETMESSAGE when CAPI had a message. */
  function GetAnswerPacket(request: Request, m: Message, payload: seq<byte>, session: dword): seq<byte>
    requires |m| >= 6 && |m| + |payload| <= PACKET_SIZE
  {
    EncodeAnswer(GetAnswerHeader(request, m, payload, session)) + Flatten(m, payload)
  }

  /** The header of an answer locates its data inside it. */
  predicate Stripped(p: seq<byte>, data: seq<byte>) {
    |p| >= ANSWER_HEADER_LEN &&
    var h := DecodeAnswer(p);
    h.headerLen + h.bodyLen + h.dataLen <= |p| && p[h.headerLen + h.bodyLen..][..h.dataLen] == data
  }

  /** The rewriting of `send_to_module`. */
  function Incoming(data: Message, rtl: seq<word>): Message
    requires |data| >= 4 && IsMap(rtl) && AppId(data) < |rtl|
  {
    SetAppId(data, rtl[AppId(data)])
  }

  /** Inbound preservation: the data the daemon strips from a GETMESSAGE answer is the message
      the server took from its CAPI followed by the payload, and what it hands to the module
      differs from that only in the application id. */
  lemma InboundPreserved(request: Request, m: Message, payload: seq<byte>, session: dword, rtl: seq<word>)
    requires FromCapi(m, payload) && |m| + |payload| <= PACKET_SIZE - ANSWER_HEADER_LEN
    requires IsMap(rtl) && AppId(m) < |rtl|
    ensures Stripped(GetAnswerPacket(request, m, payload, session), m + payload)
    ensures DecodeAnswer(GetAnswerPacket(request, m, payload, session)).id == request.id
    ensures var r := Incoming(m + payload, rtl);
      AppId(r) == rtl[AppId(m)] && r[..2] == m[..2] && r[4..] == m[4..] + payload
  {
    AnswerStripped(GetAnswerHeader(request, m, payload, session), m + payload);
    IncomingKeeps(m, payload, rtl);
  }

  lemma AnswerStripped(h: Answer, data: seq<byte>)
    requires h.headerLen == ANSWER_HEADER_LEN && h.bodyLen == 0 && h.dataLen == |data|
    ensures Stripped(EncodeAnswer(h) + data, data) && DecodeAnswer(EncodeAnswer(h) + data) == h
  {
    var p := EncodeAnswer(h) + data;
    AnswerRoundTrip(h, data);
    assert p[ANSWER_HEADER_LEN..] == data && p[ANSWER_HEADER_LEN..][..h.dataLen] == data;
  }

  /** Translating the id of a message with its payload behind it. */
  lemma IncomingKeeps(m: Message, payload: seq<byte>, rtl: seq<word>)
    requires |m| >= 4 && IsMap(rtl) && AppId(m) < |rtl|
    ensures AppId(m + payload) == AppId(m)
    ensures var r := Incoming(m + payload, rtl);
      |r| >= 4 && AppId(r) == rtl[AppId(m)] && r[..2] == m[..2] && r[4..] == m[4..] + payload
  {
    var data := m + payload;
    assert AppId(data) == AppId(m);
    AppIdRewrite(data, rtl[AppId(m)]);
    assert data[..2] == m[..2] && data[4..] == m[4..] + payload;
  }

  /** The application id the daemon finds where the data of an answer should have one: with less
      than four bytes of data, the zeros a request header left there make up the rest. */
  function IdIn(data: Message): word {
    if |data| >= 4 then AppId(data) else if |data| == 3 then data[2] else 0
  }

  /** What `send_to_module` writes for the data of an answer: a message comes out translated, an
      empty answer, which the server sends when CAPI has no message, empty. */
  function Written(data: Message, rtl: seq<word>): (r: Message)
    requires IsMap(rtl) && IdIn(data) < |rtl|
    ensures |r| == |data| && (|data| <= 2 ==> r == data)
  {
    if |data| >= 4 then Incoming(data, rtl)
    else if |data| == 3 then data[2 := rtl[data[2]] % 0x100]
    else data
  }

  lemma HeaderStartsWithLength(h: Request)
    requires h.messageLen < 0x1_0000
    ensures EncodeRequest(h)[2] == 0 && EncodeRequest(h)[3] == 0
  {
    assert EncodeRequest(h)[..4] == Bytes32(h.messageLen);
  }

  /** `remote_get_message` and `remote_waitforsignal`: a request that is all header. */
  function TokenRequest(kind: dword, id: dword, app: dword, session: dword): Request {
    Request(REQUEST_HEADER_LEN, REQUEST_HEADER_LEN, 0, 0, id, kind, app, 1, session)
  }

  /** `remote_register_appl`: the body carries a buffer size and the three parameters of the
      module's message. */
  function RegisterRequest(id: dword, session: dword): Request {
    Request(REQUEST_HEADER_LEN + 16, REQUEST_HEADER_LEN, 16, 0, id, TYPE_CAPI_REGISTER, 0, 1, session)
  }

  function RegisterBody(m: Message): (r: seq<byte>)
    requires |m| >= 18
    ensures |r| == 16
  {
    Dwords([Wrap(1024 * U32(m, 6)), U32(m, 6), U32(m, 10), U32(m, 14)])
  }

  function RegisterRequestPacket(m: Message, id: dword, session: dword): (r: seq<byte>)
    requires |m| >= 18
    ensures |r| == 52
  {
    EncodeRequest(RegisterRequest(id, session)) + RegisterBody(m)
  }

  predicate RegisterRequestIs(p: seq<byte>, id: int, session: int, level3cnt: int, datablkcnt: int, datablklen: int) {
    |p| == 52 &&
    var r := DecodeRequest(p);
    r.messageLen == 52 && r.headerLen == 36 && r.bodyLen == 16 && r.dataLen == 0 && r.id == id && r.kind == 1 &&
    r.app == 0 && r.controller == 1 && r.session == session &&
    U32(p, 40) == level3cnt && U32(p, 44) == datablkcnt && U32(p, 48) == datablklen
  }

  /** What a REGISTER request says, field by field. */
  lemma RegisterRequestSays(m: Message, id: dword, session: dword)
    requires |m| >= 18
    ensures IsFrame(RegisterRequestPacket(m, id, session))
    ensures RegisterRequestIs(RegisterRequestPacket(m, id, session), id, session, U32(m, 6), U32(m, 10), U32(m, 14))
  {
    var body := [Wrap(1024 * U32(m, 6)), U32(m, 6), U32(m, 10), U32(m, 14)];
    var head := EncodeRequest(RegisterRequest(id, session));
    RequestRoundTrip(RegisterRequest(id, session), Dwords(body));
    DwordAt(body, 1);
    DwordAt(body, 2);
    DwordAt(body, 3);
    U32Shift(head, Dwords(body), 4);
    U32Shift(head, Dwords(body), 8);
    U32Shift(head, Dwords(body), 12);
  }

  /** What a PUTMESSAGE request says, field by field. */
  predicate PutRequestIs(p: seq<byte>, len: nat, id: int, app: int, session: int, data: seq<byte>) {
    |p| == 36 + len && p[36..] == data &&
    var r := DecodeRequest(p);
    r.messageLen == 36 + len && r.headerLen == 36 && r.bodyLen == 0 && r.dataLen == len && r.id == id &&
    r.kind == 3 && r.app == app && r.controller == 1 && r.session == session
  }

  lemma PutRequestSays(len: nat, id: dword, app: dword, session: dword, data: seq<byte>)
    requires len == |data| <= PACKET_SIZE
    ensures PutRequestIs(EncodeRequest(PutRequestHeader(len, id, app, session)) + data, len, id, app, session, data)
  {
    RequestRoundTrip(PutRequestHeader(len, id, app, session), data);
  }

  // ---- the daemon's buffers ---------------------------------------------------------------

  method Copy(dst: array<byte>, off: nat, src: seq<byte>)
    requires off + |src| <= dst.Length
    modifies dst
    ensures dst[..] == Splice(old(dst[..]), off, src)
  {
    forall i | 0 <= i < |src| {
      dst[off + i] := src[i];
    }
  }

  class Buffers {
    const sendbuffer: array<byte>
    const recvbuffer: array<byte>
    const ltr: array<word>
    const rtl: array<word>
    var msgid: dword
    const sessionId: dword

    ghost predicate Valid()
      reads this
    {
      && sendbuffer.Length == PACKET_SIZE && recvbuffer.Length == PACKET_SIZE && sendbuffer != recvbuffer
      && ltr.Length == CAPI_MAXAPPL + 1 && rtl.Length == CAPI_MAXAPPL + 1
    }

    /** A request header lies in sendbuffer, shorter than 64 kB: where an application id would be,
        there are zeros. */
    ghost predicate Ready()
      reads this, sendbuffer
      requires Valid()
    {
      sendbuffer[2] == 0 && sendbuffer[3] == 0
    }

    constructor (sessionId: dword, msgid: dword)
      ensures Valid() && Ready() && this.sessionId == sessionId && this.msgid == msgid
      ensures fresh(sendbuffer) && fresh(recvbuffer) && fresh(ltr) && fresh(rtl)
    {
      sendbuffer := new byte[PACKET_SIZE](_ => 0);
      recvbuffer := new byte[PACKET_SIZE](_ => 0);
      ltr := new word[CAPI_MAXAPPL + 1](_ => 0);
      rtl := new word[CAPI_MAXAPPL + 1](_ => 0);
      this.sessionId := sessionId;
      this.msgid := msgid;
    }

    /** `CAPIMSG_SETAPPID` and `SET_CTRL` on the message in recvbuffer; returns the new id. */
    method Rewrite() returns (app: word)
      requires Valid() && AppId(recvbuffer[..]) < ltr.Length
      modifies recvbuffer
      ensures recvbuffer[..] == Outgoing(old(recvbuffer[..]), ltr[..])
      ensures app == ltr[AppId(old(recvbuffer[..]))] && Readdressed(old(recvbuffer[..]), recvbuffer[..], app)
    {
      ghost var was := recvbuffer[..];
      Copy(recvbuffer, 2, Bytes16(ltr[AppId(recvbuffer[..])]));
      assert recvbuffer[..] == SetAppId(was, ltr[AppId(was)]);
      Copy(recvbuffer, 8, Bytes32(WithController(Control(recvbuffer[..]), 1)));
      OutgoingIs(was, ltr[..]);
      app := AppId(recvbuffer[..]);
    }

    /** A request header and what follows it, put together in sendbuffer. */
    method Compose(h: Request, body: seq<byte>) returns (packet: seq<byte>)
      requires Valid() && |body| <= PACKET_SIZE - REQUEST_HEADER_LEN && h.messageLen < 0x1_0000
      modifies sendbuffer
      ensures Ready() && packet == EncodeRequest(h) + body
    {
      var header := EncodeRequest(h);
      ghost var before := sendbuffer[..];
      Copy(sendbuffer, 0, header);
      Copy(sendbuffer, REQUEST_HEADER_LEN, body);
      packet := sendbuffer[..REQUEST_HEADER_LEN + |body|];
      HeaderThenData(before, header, body);
      HeaderStartsWithLength(h);
      assert packet[2] == header[2] && packet[3] == header[3];
    }

    /** A request that is all header. */
    method SendRequest(kind: dword, app: dword) returns (packet: seq<byte>)
      requires Valid()
      modifies this`msgid, sendbuffer
      ensures Valid() && Ready() && msgid == Wrap(old(msgid) + 1)
      ensures packet == EncodeRequest(TokenRequest(kind, msgid, app, sessionId))
    {
      msgid := Wrap(msgid + 1);
      packet := Compose(TokenRequest(kind, msgid, app, sessionId), []);
      assert EncodeRequest(TokenRequest(kind, msgid, app, sessionId)) + [] == packet;
    }

    /** `remote_register_appl` up to its `send`, for the REGISTER message in recvbuffer. */
    method SendRegister() returns (packet: seq<byte>)
      requires Valid()
      modifies this`msgid, sendbuffer
      ensures Valid() && Ready() && msgid == Wrap(old(msgid) + 1)
      ensures packet == RegisterRequestPacket(recvbuffer[..], msgid, sessionId) && IsFrame(packet)
      ensures RegisterRequestIs(packet, msgid, sessionId, U32(recvbuffer[..], 6), U32(recvbuffer[..], 10),
                                U32(recvbuffer[..], 14))
    {
      msgid := Wrap(msgid + 1);
      packet := Compose(RegisterRequest(msgid, sessionId), RegisterBody(recvbuffer[..]));
      RegisterRequestSays(recvbuffer[..], msgid, sessionId);
    }

    /** `recv`: a packet at the start of recvbuffer, older bytes behind it. */
    method Receive(packet: seq<byte>)
      requires Valid() && |packet| <= PACKET_SIZE
      modifies recvbuffer
      ensures recvbuffer[..|packet|] == packet
    {
      Copy(recvbuffer, 0, packet);
    }

    /** `send_to_server` up to and including `send`: rewrites the message in recvbuffer, builds
        the request in sendbuffer and returns the bytes sent. */
    method SendToServer(len: nat) returns (packet: seq<byte>)
      requires Valid() && len <= PACKET_SIZE - REQUEST_HEADER_LEN && AppId(recvbuffer[..]) < ltr.Length
      modifies this`msgid, sendbuffer, recvbuffer
      ensures Valid() && Ready() && msgid == Wrap(old(msgid) + 1)
      ensures recvbuffer[..] == Outgoing(old(recvbuffer[..]), ltr[..])
      ensures packet ==
        EncodeRequest(PutRequestHeader(len, msgid, ltr[AppId(old(recvbuffer[..]))], sessionId)) + recvbuffer[..len]
      ensures PutRequestIs(packet, len, msgid, ltr[AppId(old(recvbuffer[..]))], sessionId, recvbuffer[..len])
      ensures Readdressed(old(recvbuffer[..]), recvbuffer[..], ltr[AppId(old(recvbuffer[..]))])
      ensures len >= 12 ==> packet == PutRequestPacket(old(recvbuffer[..len]), ltr[..], msgid, sessionId)
    {
      ghost var was := recvbuffer[..];
      var app := Rewrite();
      msgid := Wrap(msgid + 1);
      packet := Compose(PutRequestHeader(len, msgid, app, sessionId), recvbuffer[..len]);
      PutRequestSays(len, msgid, app, sessionId, recvbuffer[..len]);
      if len >= 12 {
        SentPacket(was, ltr[..], len, msgid, sessionId);
      }
    }

    /** Strips the protocol header: the data of the answer to the start of sendbuffer. */
    method Strip(ghost data: Message) returns (len: nat)
      requires Valid() && Stripped(recvbuffer[..], data)
      modifies sendbuffer
      ensures len == |data| <= sendbuffer.Length && sendbuffer[..] == Splice(old(sendbuffer[..]), 0, data)
    {
      var h := DecodeAnswer(recvbuffer[..]);
      var off := h.headerLen + h.bodyLen;
      len := h.dataLen;
      assert recvbuffer[off..off + len] == recvbuffer[..][off..][..len];
      Copy(sendbuffer, 0, recvbuffer[off..off + len]);
    }

    /** `CAPIMSG_SETAPPID` on sendbuffer. */
    method Translate()
      requires Valid() && AppId(sendbuffer[..]) < rtl.Length
      modifies sendbuffer
      ensures sendbuffer[..] == SetAppId(old(sendbuffer[..]), rtl[AppId(old(sendbuffer[..]))])
    {
      Copy(sendbuffer, 2, Bytes16(rtl[AppId(sendbuffer[..])]));
    }

    /** `send_to_module` up to and including `write`: returns the bytes written. The id it
        translates is the data's own, or what the last request header left in its place. */
    method SendToModule(ghost data: Message) returns (written: Message)
      requires Valid() && Ready() && Stripped(recvbuffer[..], data) && IdIn(data) < rtl.Length
      modifies sendbuffer
      ensures written == Written(data, rtl[..])
    {
      ghost var was := sendbuffer[..];
      var len := Strip(data);
      IdInBuffer(was, data);
      Translate();
      WrittenInBuffer(was, data, rtl[..]);
      written := sendbuffer[..len];
    }
  }

  lemma IdInBuffer(buf: seq<byte>, data: Message)
    requires 4 <= |buf| && |data| <= |buf| && buf[2] == 0 && buf[3] == 0
    ensures AppId(Splice(buf, 0, data)) == IdIn(data)
  {
    var r := Splice(buf, 0, data);
    assert forall k :: 0 <= k < |data| ==> r[k] == r[0..|data|][k];
  }

  lemma WrittenInBuffer(buf: seq<byte>, data: Message, rtl: seq<word>)
    requires 4 <= |buf| && |data| <= |buf| && IsMap(rtl) && IdIn(data) < |rtl|
    ensures SetAppId(Splice(buf, 0, data), rtl[IdIn(data)])[..|data|] == Written(data, rtl)
  {
    var r := Splice(buf, 0, data);
    assert r[..|data|] == r[0..|data|] == data;
    if |data| >= 4 {
      SameStartTranslated(r, data, |data|, rtl[IdIn(data)]);
    } else {
      var x := SetAppId(r, rtl[IdIn(data)]);
      assert forall k :: 0 <= k < |data| ==> r[k] == r[..|data|][k];
      assert x[2] == x[2..4][0];
    }
  }

  lemma SameStartTranslated(a: Message, b: Message, n: nat, app: word)
    requires 4 <= |a| && 4 <= |b| && n <= |a| && n <= |b| && a[..n] == b[..n]
    ensures SetAppId(a, app)[..n] == SetAppId(b, app)[..n]
  {
    var x, y := SetAppId(a, app), SetAppId(b, app);
    forall k | 0 <= k < n ensures x[k] == y[k] {
      if 2 <= k < 4 {
        assert x[k] == x[2..4][k - 2] && y[k] == y[2..4][k - 2];
      } else {
        assert a[k] == a[..n][k] && b[k] == b[..n][k];
      }
    }
  }

  lemma HeaderThenData(buf: seq<byte>, header: seq<byte>, data: seq<byte>)
    requires |header| + |data| <= |buf|
    ensures Splice(Splice(buf, 0, header), |header|, data)[..|header| + |data|] == header + data
  {
    assert Splice(buf, 0, header) == header + buf[|header|..];
  }

  lemma OutgoingPrefix(buf: Message, ltr: seq<word>, len: nat)
    requires 12 <= len <= |buf| && IsMap(ltr) && AppId(buf) < |ltr|
    ensures Outgoing(buf, ltr)[..len] == Outgoing(buf[..len], ltr)
  {
    var m := buf[..len];
    OutgoingIs(buf, ltr);
    OutgoingIs(m, ltr);
    var a, b := Outgoing(buf, ltr), Outgoing(m, ltr);
    AppIdBytes(a);
    AppIdBytes(b);
    assert forall k :: 0 <= k < len ==> a[k] == b[k];
  }

  /** What `SendToServer` sends is the packet of the message at the start of its buffer. */
  lemma SentPacket(buf: Message, ltr: seq<word>, len: nat, id: dword, session: dword)
    requires 12 <= len <= |buf| <= PACKET_SIZE && IsMap(ltr) && AppId(buf) < |ltr|
    ensures PutRequestPacket(buf[..len], ltr, id, session) ==
      EncodeRequest(PutRequestHeader(len, id, ltr[AppId(buf)], session)) + Outgoing(buf, ltr)[..len]
  {
    OutgoingPrefix(buf, ltr, len);
  }

  lemma AppIdBytes(m: Message)
    requires |m| >= 4
    ensures m[2] == AppId(m) % 0x100 && m[3] == AppId(m) / 0x100
  {
    LowDigit(m[3], m[2]);
  }
}
