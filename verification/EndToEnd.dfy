/** From the daemon's `send` to the calls of the CAPI library: the outbound path as a whole. */
module EndToEnd {
  import opened Bytes
  import opened CapiMessage
  import opened CardModel
  import opened Packets
  import opened DataB3
  import opened Framing
  import opened Transport
  import opened Server

  function WellFormedOnly(ms: seq<Message>): seq<Message> {
    if ms == [] then []
    else
      var m := ms[|ms| - 1];
      WellFormedOnly(ms[..|ms| - 1]) + if WellFormedRequest(m) then [m] else []
  }

  /** Call by call, in order: the right application and the message it was meant to get. */
  ghost predicate PreservedEach(ms: seq<Message>, calls: seq<CapiCall>, ltr: seq<word>, address: dword) {
    |calls| == |ms| && forall i :: 0 <= i < |ms| ==> PreservedPut(ms[i], calls[i], ltr, address)
  }

  ghost predicate PreservedPut(m: Message, c: CapiCall, ltr: seq<word>, address: dword) {
    |m| >= 12 && AppId(m) < |ltr| && c.DidPut? && c.app == ltr[AppId(m)] &&
    Preserved(m, c.message, ltr[AppId(m)], address)
  }

  function DataAddress(address: dword): dword
    requires Addressable(address)
  {
    address + REQUEST_HEADER_LEN
  }

  /** What the answer to the PUTMESSAGE request of a message says. */
  predicate PutAnswer(p: seq<byte>, m: Message, id: dword, app: word, session: dword) {
    |p| == ANSWER_HEADER_LEN &&
    var h := DecodeAnswer(p);
    h.id == id && h.kind == 3 && h.app == app && h.session == session &&
    h.proxyError == if WellFormedRequest(m) then 0 else 6
  }

  /** One message, one answer, and one put or none. */
  ghost predicate PutOutcome(
    m: Message, o: Outcome, ltr: seq<word>, id: dword, session: dword, address: dword)
    requires |m| >= 4 && AppId(m) < |ltr|
  {
    |o.answers| == 1 && PutAnswer(o.answers[0], m, id, ltr[AppId(m)], session) &&
    if WellFormedRequest(m) then |o.calls| == 1 && PreservedPut(m, o.calls[0], ltr, address) else o.calls == []
  }

  lemma RequestOfMessage(m: Message, ltr: seq<word>, id: dword, session: dword)
    requires 12 <= |m| <= PACKET_SIZE - REQUEST_HEADER_LEN && IsMap(ltr) && AppId(m) < |ltr|
    ensures var p := PutRequestPacket(m, ltr, id, session);
      var r := DecodeRequest(p);
      r == PutRequestHeader(|m|, id, ltr[AppId(m)], session) && |p| <= PACKET_SIZE && Contained(r, p) &&
      p[DataStart(r)..DataEnd(r)] == Outgoing(m, ltr)
  {
    PutRequestIsFrame(m, ltr, id, session);
  }

  lemma PutIsServed(m: Message, ltr: seq<word>, id: dword, session: dword, address: dword, o: Outcome)
    requires 12 <= |m| <= PACKET_SIZE - REQUEST_HEADER_LEN && IsMap(ltr) && AppId(m) < |ltr| && Addressable(address)
    requires var p := PutRequestPacket(m, ltr, id, session); |p| <= PACKET_SIZE && Served(p, o, session, address)
    ensures PutOutcome(m, o, ltr, id, session, DataAddress(address))
  {
    var p := PutRequestPacket(m, ltr, id, session);
    var r := DecodeRequest(p);
    RequestOfMessage(m, ltr, id, session);
    assert r.kind == 3 && KindServed(r, p, o.answers[0], o.calls, address);
    PutMeans(m, ltr, r, p, o.answers[0], o.calls, address);
  }

  lemma PutMeans(
    m: Message, ltr: seq<word>, r: Request, p: seq<byte>, answer: seq<byte>, calls: seq<CapiCall>, address: dword)
    requires 12 <= |m| <= PACKET_SIZE - REQUEST_HEADER_LEN && IsMap(ltr) && AppId(m) < |ltr| && Addressable(address)
    requires AnswersTo(answer, r) && |p| <= PACKET_SIZE && PutServed(r, p, answer, calls, address)
    requires DataStart(r) == 36 && r.app == ltr[AppId(m)] && r.kind == 3 && Contained(r, p)
    requires p[DataStart(r)..DataEnd(r)] == Outgoing(m, ltr)
    ensures PutAnswer(answer, m, r.id, ltr[AppId(m)], r.session)
    ensures if WellFormedRequest(m) then |calls| == 1 && PreservedPut(m, calls[0], ltr, DataAddress(address)) else calls == []
  {
    OutboundPreserved(m, ltr, r.id, r.session, DataAddress(address));
    PutMessageExact(Outgoing(m, ltr), DataAddress(address));
  }

  lemma NextId(id: dword, i: nat, k: dword)
    requires i > 0 && k == Wrap(id + i)
    ensures k == Wrap(Wrap(id + 1) + (i - 1))
  {
    WrapAgain(id + 1, i - 1);
  }

  /** The i-th packet of a stream, and its id. */
  lemma {:induction false} SentAt(ms: seq<Message>, id: dword, ltr: seq<word>, session: dword, i: nat, k: dword)
    requires Sendable(ms, ltr) && i < |ms| && k == Wrap(id + i)
    ensures Sent(ms, id, ltr, session)[i] == PutRequestPacket(ms[i], ltr, k, session)
  {
    if i == 0 {
      WrapIs(id);
      assert k == id;
    } else {
      NextId(id, i, k);
      SentAt(ms[1..], Wrap(id + 1), ltr, session, i - 1, k);
      assert ms[1..][i - 1] == ms[i];
    }
  }

  lemma OnePut(m: Message, o: Outcome, ltr: seq<word>, id: dword, session: dword, address: dword)
    requires |m| >= 12 && AppId(m) < |ltr| && PutOutcome(m, o, ltr, id, session, address)
    ensures PreservedEach(if WellFormedRequest(m) then [m] else [], o.calls, ltr, address)
  {
  }

  lemma PreservedAppend(
    a: seq<Message>, p: seq<CapiCall>, b: seq<Message>, q: seq<CapiCall>, ltr: seq<word>, address: dword)
    requires PreservedEach(a, p, ltr, address) && PreservedEach(b, q, ltr, address)
    ensures PreservedEach(a + b, p + q, ltr, address)
  {
  }

  /** Message by message. */
  ghost predicate PutOutcomes(
    ms: seq<Message>, os: seq<Outcome>, ltr: seq<word>, id: dword, session: dword, address: dword)
    requires Sendable(ms, ltr)
  {
    |os| == |ms| && forall i :: 0 <= i < |ms| ==> PutOutcome(ms[i], os[i], ltr, Wrap(id + i), session, address)
  }

  lemma {:induction false} AnswersInOrder(os: seq<Outcome>)
    requires forall i :: 0 <= i < |os| ==> |os[i].answers| == 1
    ensures |AnswersOf(os)| == |os| && forall i :: 0 <= i < |os| ==> AnswersOf(os)[i] == os[i].answers[0]
    decreases |os|
  {
    if os != [] {
      AnswersInOrder(os[..|os| - 1]);
    }
  }

  lemma {:induction false} SentArePut(
    ms: seq<Message>, os: seq<Outcome>, ltr: seq<word>, id: dword, session: dword, address: dword)
    requires Sendable(ms, ltr) && PutOutcomes(ms, os, ltr, id, session, address)
    ensures PreservedEach(WellFormedOnly(ms), CallsOf(os), ltr, address)
    decreases |ms|
  {
    if ms != [] {
      var n := |ms| - 1;
      SentArePut(ms[..n], os[..n], ltr, id, session, address);
      OnePut(ms[n], os[n], ltr, Wrap(id + n), session, address);
      PreservedAppend(WellFormedOnly(ms[..n]), CallsOf(os[..n]), if WellFormedRequest(ms[n]) then [ms[n]] else [],
                      os[n].calls, ltr, address);
    }
  }

  lemma ServedArePut(
    ms: seq<Message>, id: dword, ltr: seq<word>, session: dword, address: dword, os: seq<Outcome>)
    requires Sendable(ms, ltr) && Addressable(address)
    requires ServedAll(Sent(ms, id, ltr, session), os, session, address)
    ensures PutOutcomes(ms, os, ltr, id, session, DataAddress(address))
  {
    forall i | 0 <= i < |ms| ensures PutOutcome(ms[i], os[i], ltr, Wrap(id + i), session, DataAddress(address)) {
      SentAt(ms, id, ltr, session, i, Wrap(id + i));
      PutIsServed(ms[i], ltr, Wrap(id + i), session, address, os[i]);
    }
  }

  /** The messages the daemon sends, cut on their way into any pieces, reach CAPI: once the
      server has served the stream, CAPI has been handed the well-formed ones and no others, in
      order, each for the right application and each preserved; and the i-th answer carries the
      i-th id, the application and whether the message was well formed. */
  lemma MessagesReachCapi(
    ms: seq<Message>, id: dword, ltr: seq<word>, session: dword, address: dword, fails: bool, os: seq<Outcome>)
    requires Sendable(ms, ltr) && Addressable(address)
    ensures ServedAll(Parse(Concat(Sent(ms, id, ltr, session)), fails).frames, os, session, address) ==>
      PreservedEach(WellFormedOnly(ms), CallsOf(os), ltr, DataAddress(address)) &&
      |AnswersOf(os)| == |ms| &&
      forall i :: 0 <= i < |ms| ==> PutAnswer(AnswersOf(os)[i], ms[i], Wrap(id + i), ltr[AppId(ms[i])], session)
  {
    var ps := Sent(ms, id, ltr, session);
    SentAreFrames(ms, id, ltr, session);
    FramesComeOut(ps, [], fails);
    assert Concat(ps) + [] == Concat(ps) && ps + [] == ps;
    if ServedAll(ps, os, session, address) {
      ServedArePut(ms, id, ltr, session, address, os);
      SentArePut(ms, os, ltr, id, session, DataAddress(address));
      AnswersInOrder(os);
    }
  }

  /** CAPI was asked to register with the kernel's parameters, at most 8 blocks of at most 1024
      bytes, and the answer carries the request's id and what CAPI said. */
  predicate Registers(o: Outcome, params: Params, id: dword) {
    |o.answers| == 1 && |o.answers[0]| == ANSWER_HEADER_LEN && |o.calls| == 1 && o.calls[0].DidRegister? &&
    var h, asked := DecodeAnswer(o.answers[0]), o.calls[0].params;
    h.id == id && h.kind == 1 && h.app == o.calls[0].app && h.capiError == o.calls[0].error && h.proxyError == 0 &&
    asked.level3cnt == params.level3cnt &&
    asked.datablkcnt == (if params.datablkcnt <= 8 then params.datablkcnt else 8) &&
    asked.datablklen == (if params.datablklen <= 1024 then params.datablklen else 1024)
  }

  /** The parameters of a registration the kernel asked for reach CAPI: `p` is the request sent for
      the module's message at the start of the buffer. */
  lemma RegistrationReachesCapi(
    appl: word, params: Params, buf: Message, p: seq<byte>, id: dword, session: dword, address: dword, o: Outcome)
    requires |buf| >= 18 && buf[..18] == RegisterMessage(appl, Clipped(params))
    requires RegisterRequestIs(p, id, session, U32(buf, 6), U32(buf, 10), U32(buf, 14))
    requires Addressable(address) && Served(p, o, session, address)
    ensures Registers(o, params, id)
  {
    RegisterMessageSays(appl, Clipped(params));
    ClippedSays(params);
    FieldsInPrefix(buf, RegisterMessage(appl, Clipped(params)));
    RegisterIsServed(p, o, session, address);
  }

  lemma FieldsInPrefix(buf: Message, m: Message)
    requires |buf| >= 18 && buf[..18] == m
    ensures U32(buf, 6) == U32(m, 6) && U32(buf, 10) == U32(m, 10) && U32(buf, 14) == U32(m, 14)
  {
    assert forall k :: 0 <= k < 18 ==> buf[k] == buf[..18][k];
  }

  lemma RegisterIsServed(p: seq<byte>, o: Outcome, session: dword, address: dword)
    requires |p| == 52 && Addressable(address) && Served(p, o, session, address)
    requires var r := DecodeRequest(p);
      r.headerLen == 36 && r.bodyLen == 16 && r.dataLen == 0 && r.kind == 1 && r.session == session
    ensures |o.answers| == 1 && |o.calls| == 1 && o.calls[0].DidRegister? && |o.answers[0]| == 40
    ensures o.calls[0].params == Params(U32(p, 40), U32(p, 44), U32(p, 48))
    ensures var h := DecodeAnswer(o.answers[0]);
      h.id == DecodeRequest(p).id && h.kind == 1 && h.app == o.calls[0].app && h.capiError == o.calls[0].error &&
      h.proxyError == 0
  {
    var r := DecodeRequest(p);
    assert KindServed(r, p, o.answers[0], o.calls, address);
    assert RegisterServed(r, p, o.answers[0], o.calls);
  }
}
