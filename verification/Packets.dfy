/** Request and answer headers as they travel: nine and ten 32-bit fields. */
module Packets {
  import opened Bytes

  const TYPE_CAPI_REGISTER: dword := 1
  const TYPE_CAPI_RELEASE: dword := 2
  const TYPE_CAPI_PUTMESSAGE: dword := 3
  const TYPE_CAPI_GETMESSAGE: dword := 4
  const TYPE_CAPI_WAITFORSIGNAL: dword := 5

  const PERROR_NONE: dword := 0x00
  const PERROR_PARSE_ERROR: dword := 0x06
  const PERROR_NO_RESSOURCES: dword := 0x80

  // the packet buffers of the server and of the daemon
  const PACKET_SIZE := 10000

  const REQUEST_HEADER_LEN: dword := 36
  const ANSWER_HEADER_LEN: dword := 40

  datatype Request = Request(
    messageLen: dword, headerLen: dword, bodyLen: dword, dataLen: dword,
    id: dword, kind: dword, app: dword, controller: dword, session: dword)

  datatype Answer = Answer(
    messageLen: dword, headerLen: dword, bodyLen: dword, dataLen: dword,
    id: dword, kind: dword, app: dword, session: dword, proxyError: dword, capiError: dword)

  function RequestFields(h: Request): seq<dword> {
    [h.messageLen, h.headerLen, h.bodyLen, h.dataLen, h.id, h.kind, h.app, h.controller, h.session]
  }

  function AnswerFields(h: Answer): seq<dword> {
    [h.messageLen, h.headerLen, h.bodyLen, h.dataLen, h.id, h.kind, h.app, h.session, h.proxyError, h.capiError]
  }

  function EncodeRequest(h: Request): (r: seq<byte>)
    ensures |r| == REQUEST_HEADER_LEN
  {
    Dwords(RequestFields(h))
  }

  function EncodeAnswer(h: Answer): (r: seq<byte>)
    ensures |r| == ANSWER_HEADER_LEN
  {
    Dwords(AnswerFields(h))
  }

  function DecodeRequest(p: seq<byte>): Request
    requires |p| >= REQUEST_HEADER_LEN
  {
    Request(U32(p, 0), U32(p, 4), U32(p, 8), U32(p, 12), U32(p, 16), U32(p, 20), U32(p, 24), U32(p, 28), U32(p, 32))
  }

  function DecodeAnswer(p: seq<byte>): Answer
    requires |p| >= ANSWER_HEADER_LEN
  {
    Answer(U32(p, 0), U32(p, 4), U32(p, 8), U32(p, 12), U32(p, 16), U32(p, 20), U32(p, 24), U32(p, 28), U32(p, 32),
           U32(p, 36))
  }

  lemma U32Prefix(d: seq<byte>, rest: seq<byte>, i: nat)
    requires i + 4 <= |d|
    ensures U32(d + rest, i) == U32(d, i)
  {
  }

  lemma FieldAt(vs: seq<dword>, rest: seq<byte>, k: nat)
    requires k < |vs|
    ensures U32(Dwords(vs) + rest, 4 * k) == vs[k]
  {
    DwordAt(vs, k);
    U32Prefix(Dwords(vs), rest, 4 * k);
  }

  lemma RequestRoundTrip(h: Request, rest: seq<byte>)
    ensures DecodeRequest(EncodeRequest(h) + rest) == h
  {
    var p := EncodeRequest(h) + rest;
    forall k | 0 <= k < 9 ensures U32(p, 4 * k) == RequestFields(h)[k] {
      FieldAt(RequestFields(h), rest, k);
    }
    assert U32(p, 4 * 0) == h.messageLen && U32(p, 4 * 1) == h.headerLen && U32(p, 4 * 2) == h.bodyLen;
    assert U32(p, 4 * 3) == h.dataLen && U32(p, 4 * 4) == h.id && U32(p, 4 * 5) == h.kind;
    assert U32(p, 4 * 6) == h.app && U32(p, 4 * 7) == h.controller && U32(p, 4 * 8) == h.session;
  }

  lemma AnswerRoundTrip(h: Answer, rest: seq<byte>)
    ensures DecodeAnswer(EncodeAnswer(h) + rest) == h
  {
    var p := EncodeAnswer(h) + rest;
    forall k | 0 <= k < 10 ensures U32(p, 4 * k) == AnswerFields(h)[k] {
      FieldAt(AnswerFields(h), rest, k);
    }
    assert U32(p, 4 * 0) == h.messageLen && U32(p, 4 * 1) == h.headerLen && U32(p, 4 * 2) == h.bodyLen;
    assert U32(p, 4 * 3) == h.dataLen && U32(p, 4 * 4) == h.id && U32(p, 4 * 5) == h.kind;
    assert U32(p, 4 * 6) == h.app && U32(p, 4 * 7) == h.session && U32(p, 4 * 8) == h.proxyError;
    assert U32(p, 4 * 9) == h.capiError;
  }
}
