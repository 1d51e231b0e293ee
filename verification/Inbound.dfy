/** From the server's answers to `handle_capimsg`: the inbound path as a whole. */
module Inbound {
  import opened Bytes
  import opened CapiMessage
  import opened CardModel
  import opened CardDevice
  import opened Packets
  import opened DataB3
  import opened Transport
  import opened Server

  // ---- what an answer leads to ------------------------------------------------------------

  /** The header of an answer locates its data inside it: header, body and data lengths lie at 4,
      8 and 12, the type at 20. */
  predicate Located(p: seq<byte>) {
    |p| >= ANSWER_HEADER_LEN && U32(p, 4) + U32(p, 8) + U32(p, 12) <= |p|
  }

  function Data(p: seq<byte>): seq<byte>
    requires Located(p)
  {
    p[U32(p, 4) + U32(p, 8)..][..U32(p, 12)]
  }

  lemma DataIsStripped(p: seq<byte>)
    requires Located(p)
    ensures Stripped(p, Data(p))
  {
  }

  predicate IsMessageAnswer(p: seq<byte>) {
    |p| >= ANSWER_HEADER_LEN && U32(p, 20) == 4
  }

  /** An answer that fits the buffer, with data that fits the answer and an id that fits the map. */
  predicate Deliverable(p: seq<byte>, rtl: seq<word>) {
    ANSWER_HEADER_LEN <= |p| <= PACKET_SIZE && (IsMessageAnswer(p) ==> Translatable(p, rtl))
  }

  predicate Translatable(p: seq<byte>, rtl: seq<word>) {
    IsMap(rtl) && Located(p) && IdIn(Data(p)) < |rtl|
  }

  /** What goes up to the kernel: the data of a GETMESSAGE answer. */
  function WrittenFor(p: seq<byte>, rtl: seq<word>): seq<Message> {
    if IsMessageAnswer(p) && Translatable(p, rtl) then [Written(Data(p), rtl)] else []
  }

  function WrittenEach(ps: seq<seq<byte>>, rtl: seq<word>): seq<seq<Message>> {
    seq(|ps|, i requires 0 <= i < |ps| => WrittenFor(ps[i], rtl))
  }

  function AllWritten(ps: seq<seq<byte>>, rtl: seq<word>): seq<Message> {
    Flat(WrittenEach(ps, rtl))
  }

  function Flat<T>(xs: seq<seq<T>>): seq<T> {
    if xs == [] then [] else Flat(xs[..|xs| - 1]) + xs[|xs| - 1]
  }

  lemma FlatOneMore<T>(xs: seq<seq<T>>, x: seq<T>)
    ensures Flat(xs + [x]) == Flat(xs) + x
  {
    assert (xs + [x])[..|xs|] == xs;
  }

  lemma OneMoreWritten(ps: seq<seq<byte>>, p: seq<byte>, rtl: seq<word>)
    ensures AllWritten(ps + [p], rtl) == AllWritten(ps, rtl) + AllWritten([p], rtl)
  {
    OneMoreThere(ps, p, rtl);
    OneMoreThere([], p, rtl);
    assert [] + [p] == [p];
  }

  lemma OneMoreThere(ps: seq<seq<byte>>, p: seq<byte>, rtl: seq<word>)
    ensures AllWritten(ps + [p], rtl) == AllWritten(ps, rtl) + WrittenFor(p, rtl)
  {
    FlatOneMore(WrittenEach(ps, rtl), WrittenFor(p, rtl));
    assert WrittenEach(ps + [p], rtl) == WrittenEach(ps, rtl) + [WrittenFor(p, rtl)];
  }

  lemma SplitLast<T>(a: seq<T>, b: seq<T>)
    requires b != []
    ensures a + b == (a + b[..|b| - 1]) + [b[|b| - 1]] && b == b[..|b| - 1] + [b[|b| - 1]]
  {
  }

  lemma {:induction false} WrittenAppend(ps: seq<seq<byte>>, qs: seq<seq<byte>>, rtl: seq<word>)
    ensures AllWritten(ps + qs, rtl) == AllWritten(ps, rtl) + AllWritten(qs, rtl)
    decreases |qs|
  {
    if qs == [] {
      assert ps + qs == ps;
    } else {
      var front, last := qs[..|qs| - 1], qs[|qs| - 1];
      SplitLast(ps, qs);
      WrittenAppend(ps, front, rtl);
      OneMoreWritten(ps + front, last, rtl);
      OneMoreWritten(front, last, rtl);
      AppendTwice(AllWritten(ps, rtl), AllWritten(front, rtl), AllWritten([last], rtl));
    }
  }

  lemma OneWritten(p: seq<byte>, rtl: seq<word>)
    ensures AllWritten([p], rtl) == WrittenFor(p, rtl)
  {
    OneMoreThere([], p, rtl);
    assert [] + [p] == [p];
  }

  /** `q` is a request that is all header. */
  predicate Asks(q: seq<byte>, kind: int, app: int, id: int, session: int) {
    |q| == 36 &&
    var r := DecodeRequest(q);
    r.messageLen == 36 && r.headerLen == 36 && r.bodyLen == 0 && r.dataLen == 0 && r.controller == 1 &&
    r.kind == kind && r.app == app && r.id == id && r.session == session
  }

  /** What goes back to the server: after a WAITFORSIGNAL answer (5) one GETMESSAGE request (4),
      after a GETMESSAGE answer one WAITFORSIGNAL request, for the same application; nothing
      after any other. */
  predicate NextAsked(h: Answer, requests: seq<seq<byte>>, id: int, session: int) {
    if h.kind == 5 then |requests| == 1 && Asks(requests[0], 4, h.app % 0x1_0000, id, session)
    else if h.kind == 4 then |requests| == 1 && Asks(requests[0], 5, h.app % 0x1_0000, id, session)
    else requests == []
  }

  /** The answers that a token makes among `ps`. */
  function TokenAnswers(ps: seq<seq<byte>>): seq<Answer> {
    if ps == [] then []
    else
      var p := ps[|ps| - 1];
      TokenAnswers(ps[..|ps| - 1]) +
        if |p| >= ANSWER_HEADER_LEN && (DecodeAnswer(p).kind == 4 || DecodeAnswer(p).kind == 5) then [DecodeAnswer(p)] else []
  }

  /** Request by request, with ids counted up from `first`. */
  ghost predicate AskedEach(requests: seq<seq<byte>>, answers: seq<Answer>, first: nat, session: int) {
    |requests| == |answers| &&
    forall i :: 0 <= i < |requests| ==> NextAsked(answers[i], [requests[i]], Wrap(first + i + 1), session)
  }

  /** The daemon sees an answer in its buffer, with older bytes behind it. */
  lemma AnswerInBuffer(buf: seq<byte>, p: seq<byte>)
    requires ANSWER_HEADER_LEN <= |p| <= |buf| && buf[..|p|] == p
    ensures DecodeAnswer(buf) == DecodeAnswer(p)
    ensures Located(p) ==> Stripped(buf, Data(p))
  {
    SameAnswer(buf, p);
    if Located(p) {
      var h := DecodeAnswer(p);
      DataIsStripped(p);
      SameData(buf, p, h.headerLen + h.bodyLen, h.dataLen);
    }
  }

  lemma SameAnswer(buf: seq<byte>, p: seq<byte>)
    requires ANSWER_HEADER_LEN <= |p| <= |buf| && buf[..|p|] == p
    ensures DecodeAnswer(buf) == DecodeAnswer(p)
  {
    assert forall k :: 0 <= k < ANSWER_HEADER_LEN ==> buf[k] == buf[..|p|][k];
  }

  lemma SameData(buf: seq<byte>, p: seq<byte>, off: nat, len: nat)
    requires off + len <= |p| <= |buf| && buf[..|p|] == p
    ensures buf[off..][..len] == p[off..][..len]
  {
    assert buf[off..][..len] == buf[..|p|][off..][..len];
  }

  lemma TokenRequestAsks(kind: dword, id: dword, app: dword, session: dword)
    ensures Asks(EncodeRequest(TokenRequest(kind, id, app, session)), kind, app, id, session)
  {
    var r := TokenRequest(kind, id, app, session);
    RequestRoundTrip(r, []);
    assert EncodeRequest(r) + [] == EncodeRequest(r);
  }

  /** Only a running card passes anything on. */
  function Passing(status: Status, ms: seq<Message>): seq<Message> {
    if status.Running? then ms else []
  }

  lemma PassingTwice(was: seq<Message>, status: Status, a: seq<Message>, b: seq<Message>)
    ensures was + Passing(status, a) + Passing(status, b) == was + Passing(status, a + b)
  {
  }

  // ---- the daemon -------------------------------------------------------------------------

  /** `remote_get_message` and `remote_waitforsignal`. */
  method AskNext(b: Buffers, kind: dword, app: dword) returns (request: seq<byte>)
    requires b.Valid()
    modifies b`msgid, b.sendbuffer
    ensures b.Valid() && b.Ready() && b.msgid == Wrap(old(b.msgid) + 1)
    ensures Asks(request, kind, app, b.msgid, b.sessionId)
  {
    request := b.SendRequest(kind, app);
    TokenRequestAsks(kind, b.msgid, app, b.sessionId);
  }

  lemma NotAGetWritesNothing(p: seq<byte>, rtl: seq<word>)
    requires |p| >= ANSWER_HEADER_LEN && DecodeAnswer(p).kind != TYPE_CAPI_GETMESSAGE
    ensures AllWritten([p], rtl) == []
  {
    OneWritten(p, rtl);
  }

  /** `send_to_module` and the module's write. */
  method Forward(b: Buffers, card: VirtualCard, ghost p: seq<byte>)
    requires b.Valid() && b.Ready() && card.Valid()
    requires Deliverable(p, b.rtl[..]) && b.recvbuffer[..|p|] == p && DecodeAnswer(p).kind == TYPE_CAPI_GETMESSAGE
    modifies b.sendbuffer, card`inSk, card`upward
    ensures b.Valid() && card.Valid() && card.View() == old(card.View())
    ensures card.upward == old(card.upward) + Passing(card.status, AllWritten([p], b.rtl[..]))
  {
    AnswerInBuffer(b.recvbuffer[..], p);
    OneWritten(p, b.rtl[..]);
    var written := b.SendToModule(Data(p));
    var _ := card.Write(written);
  }

  /** `handle_serverpacket` for the answer `p` in recvbuffer. */
  method HandleServerPacket(b: Buffers, card: VirtualCard, ghost p: seq<byte>) returns (requests: seq<seq<byte>>)
    requires b.Valid() && b.Ready() && card.Valid()
    requires Deliverable(p, b.rtl[..]) && b.recvbuffer[..|p|] == p
    modifies b`msgid, b.sendbuffer, card`inSk, card`upward
    ensures b.Valid() && b.Ready() && card.Valid() && card.View() == old(card.View())
    ensures NextAsked(DecodeAnswer(p), requests, Wrap(old(b.msgid) + 1), b.sessionId)
    ensures b.msgid == if requests == [] then old(b.msgid) else Wrap(old(b.msgid) + 1)
    ensures card.upward == old(card.upward) + Passing(card.status, AllWritten([p], b.rtl[..]))
  {
    AnswerInBuffer(b.recvbuffer[..], p);
    var h := DecodeAnswer(b.recvbuffer[..]);
    requests := [];
    if h.kind == TYPE_CAPI_GETMESSAGE {
      Forward(b, card, p);
      var request := AskNext(b, TYPE_CAPI_WAITFORSIGNAL, h.app % 0x1_0000);
      requests := [request];
    } else {
      NotAGetWritesNothing(p, b.rtl[..]);
      if h.kind == TYPE_CAPI_WAITFORSIGNAL {
        var request := AskNext(b, TYPE_CAPI_GETMESSAGE, h.app % 0x1_0000);
        requests := [request];
      }
    }
  }

  /** The non-blocking `recv` of the main loop, and what it leads to. */
  method ReceivePacket(b: Buffers, card: VirtualCard, p: seq<byte>) returns (requests: seq<seq<byte>>)
    requires b.Valid() && b.Ready() && card.Valid() && Deliverable(p, b.rtl[..])
    modifies b`msgid, b.sendbuffer, b.recvbuffer, card`inSk, card`upward
    ensures b.Valid() && b.Ready() && card.Valid() && card.View() == old(card.View())
    ensures NextAsked(DecodeAnswer(p), requests, Wrap(old(b.msgid) + 1), b.sessionId)
    ensures b.msgid == if requests == [] then old(b.msgid) else Wrap(old(b.msgid) + 1)
    ensures card.upward == old(card.upward) + Passing(card.status, AllWritten([p], b.rtl[..]))
  {
    b.Receive(p);
    requests := HandleServerPacket(b, card, p);
  }

  lemma CountUp(first: nat, n: nat, id: dword)
    requires id == Wrap(first + n)
    ensures Wrap(id + 1) == Wrap(first + n + 1)
  {
    WrapAgain(first + n, 1);
  }

  lemma AskedAppend(requests: seq<seq<byte>>, hs: seq<Answer>, q: seq<byte>, h: Answer, first: nat, session: int)
    requires AskedEach(requests, hs, first, session)
    requires NextAsked(h, [q], Wrap(first + |requests| + 1), session)
    ensures AskedEach(requests + [q], hs + [h], first, session)
  {
  }

  lemma OneMoreAsked(
    requests: seq<seq<byte>>, ps: seq<seq<byte>>, first: nat, id: dword, session: int, p: seq<byte>, more: seq<seq<byte>>)
    requires AskedEach(requests, TokenAnswers(ps), first, session) && id == Wrap(first + |requests|)
    requires |p| >= ANSWER_HEADER_LEN && NextAsked(DecodeAnswer(p), more, Wrap(id + 1), session)
    ensures AskedEach(requests + more, TokenAnswers(ps + [p]), first, session)
    ensures (if more == [] then id else Wrap(id + 1)) == Wrap(first + |requests + more|)
  {
    assert (ps + [p])[..|ps|] == ps;
    CountUp(first, |requests|, id);
    if more == [] {
      assert requests + more == requests;
    } else {
      assert more == [more[0]];
      AskedAppend(requests, TokenAnswers(ps), more[0], DecodeAnswer(p), first, session);
    }
  }

  /** The packets a daemon receives while no call is made, one after the other. */
  method HandleAll(b: Buffers, card: VirtualCard, packets: seq<seq<byte>>) returns (requests: seq<seq<byte>>)
    requires b.Valid() && b.Ready() && card.Valid()
    requires forall p | p in packets :: Deliverable(p, b.rtl[..])
    modifies b`msgid, b.sendbuffer, b.recvbuffer, card`inSk, card`upward
    ensures b.Valid() && b.Ready() && card.Valid() && card.View() == old(card.View())
    ensures AskedEach(requests, TokenAnswers(packets), old(b.msgid), b.sessionId)
    ensures card.upward == old(card.upward) + Passing(card.status, AllWritten(packets, b.rtl[..]))
  {
    requests := [];
    ghost var was, first := card.upward, b.msgid;
    WrapIs(first);
    var i := 0;
    while i < |packets|
      invariant 0 <= i <= |packets| && b.Ready()
      invariant Halfway(packets, i, requests, first, b.msgid, b.sessionId, was, card.upward, card.status, b.rtl[..])
    {
      requests := HandleNext(b, card, packets, i, requests, first, was);
      i := i + 1;
    }
    assert packets[..i] == packets;
  }

  /** After the first `i` packets. */
  ghost predicate Halfway(
    packets: seq<seq<byte>>, i: nat, requests: seq<seq<byte>>, first: nat, id: dword, session: int,
    was: seq<Message>, upward: seq<Message>, status: Status, rtl: seq<word>)
    requires i <= |packets|
  {
    id == Wrap(first + |requests|) && AskedEach(requests, TokenAnswers(packets[..i]), first, session) &&
    upward == was + Passing(status, AllWritten(packets[..i], rtl))
  }

  method HandleNext(
    b: Buffers, card: VirtualCard, packets: seq<seq<byte>>, i: nat, requests: seq<seq<byte>>, ghost first: nat,
    ghost was: seq<Message>)
    returns (requests': seq<seq<byte>>)
    requires b.Valid() && b.Ready() && card.Valid()
    requires i < |packets| && Deliverable(packets[i], b.rtl[..])
    requires Halfway(packets, i, requests, first, b.msgid, b.sessionId, was, card.upward, card.status, b.rtl[..])
    modifies b`msgid, b.sendbuffer, b.recvbuffer, card`inSk, card`upward
    ensures b.Ready()
    ensures Halfway(packets, i + 1, requests', first, b.msgid, b.sessionId, was, card.upward, card.status, b.rtl[..])
  {
    ghost var id := b.msgid;
    var more := ReceivePacket(b, card, packets[i]);
    OneFurther(packets, i, requests, first, id, b.sessionId, more, was, card.status, b.rtl[..]);
    requests' := requests + more;
  }

  lemma OneFurther(
    packets: seq<seq<byte>>, i: nat, requests: seq<seq<byte>>, first: nat, id: dword, session: int, more: seq<seq<byte>>,
    was: seq<Message>, status: Status, rtl: seq<word>)
    requires i < |packets| && |packets[i]| >= ANSWER_HEADER_LEN && id == Wrap(first + |requests|)
    requires AskedEach(requests, TokenAnswers(packets[..i]), first, session)
    requires NextAsked(DecodeAnswer(packets[i]), more, Wrap(id + 1), session)
    ensures AskedEach(requests + more, TokenAnswers(packets[..i + 1]), first, session)
    ensures (if more == [] then id else Wrap(id + 1)) == Wrap(first + |requests + more|)
    ensures was + Passing(status, AllWritten(packets[..i], rtl)) + Passing(status, AllWritten([packets[i]], rtl)) ==
      was + Passing(status, AllWritten(packets[..i + 1], rtl))
  {
    var before := packets[..i];
    assert packets[..i + 1] == before + [packets[i]];
    OneMoreAsked(requests, before, first, id, session, packets[i], more);
    OneMoreWritten(before, packets[i], rtl);
    PassingTwice(was, status, AllWritten(before, rtl), AllWritten([packets[i]], rtl));
  }

  // ---- from CAPI to the kernel ------------------------------------------------------------

  /** A message the server took from CAPI for a GETMESSAGE request. */
  datatype Got = Got(request: Request, message: Message, payload: seq<byte>)

  predicate Takeable(g: Got, rtl: seq<word>) {
    Gettable(g.message, g.payload) && IsMap(rtl) && AppId(g.message) < |rtl|
  }

  predicate AllTakeable(gs: seq<Got>, rtl: seq<word>) {
    IsMap(rtl) && forall i :: 0 <= i < |gs| ==> Takeable(gs[i], rtl)
  }

  function AnswerFor(g: Got, session: dword): seq<byte>
    requires |g.message| >= 6 && |g.message| + |g.payload| <= PACKET_SIZE
  {
    GetAnswerPacket(g.request, g.message, g.payload, session)
  }

  function AnswersFor(gs: seq<Got>, session: dword, rtl: seq<word>): seq<seq<byte>>
    requires AllTakeable(gs, rtl)
  {
    seq(|gs|, i requires 0 <= i < |gs| && Takeable(gs[i], rtl) => AnswerFor(gs[i], session))
  }

  /** The message and its payload, for the application the remote id stands for. */
  ghost predicate Arrived(m: Message, payload: seq<byte>, r: Message, rtl: seq<word>) {
    |m| >= 4 && |r| >= 4 && AppId(m) < |rtl| &&
    AppId(r) == rtl[AppId(m)] && r[..2] == m[..2] && r[4..] == m[4..] + payload
  }

  /** Any GETMESSAGE answer whose data are a message and its payload. */
  lemma DataArrives(p: seq<byte>, m: Message, payload: seq<byte>, rtl: seq<word>)
    requires Gettable(m, payload) && IsMap(rtl) && AppId(m) < |rtl| && ANSWER_HEADER_LEN <= |p| <= PACKET_SIZE
    requires Stripped(p, m + payload) && DecodeAnswer(p).kind == TYPE_CAPI_GETMESSAGE
    ensures Deliverable(p, rtl) && WrittenFor(p, rtl) == [Incoming(m + payload, rtl)]
    ensures Arrived(m, payload, Incoming(m + payload, rtl), rtl)
  {
    IncomingKeeps(m, payload, rtl);
    DataIsWritten(p, m + payload, rtl);
  }

  lemma DataIsWritten(p: seq<byte>, data: Message, rtl: seq<word>)
    requires |data| >= 4 && IsMap(rtl) && AppId(data) < |rtl| && ANSWER_HEADER_LEN <= |p| <= PACKET_SIZE
    requires Stripped(p, data) && DecodeAnswer(p).kind == TYPE_CAPI_GETMESSAGE
    ensures Deliverable(p, rtl) && WrittenFor(p, rtl) == [Incoming(data, rtl)]
  {
    assert Data(p) == data;
  }

  lemma AnswerArrives(g: Got, session: dword, rtl: seq<word>)
    requires Takeable(g, rtl)
    ensures var p := AnswerFor(g, session);
      Deliverable(p, rtl) && WrittenFor(p, rtl) == [Incoming(g.message + g.payload, rtl)] &&
      Arrived(g.message, g.payload, Incoming(g.message + g.payload, rtl), rtl)
  {
    InboundPreserved(g.request, g.message, g.payload, session, rtl);
    AnswerRoundTrip(GetAnswerHeader(g.request, g.message, g.payload, session), g.message + g.payload);
    DataArrives(AnswerFor(g, session), g.message, g.payload, rtl);
  }

  ghost predicate ArriveEach(gs: seq<Got>, rs: seq<Message>, rtl: seq<word>) {
    |rs| == |gs| && forall i :: 0 <= i < |gs| ==> Arrived(gs[i].message, gs[i].payload, rs[i], rtl)
  }

  lemma ArriveOneMore(gs: seq<Got>, rs: seq<Message>, g: Got, r: Message, rtl: seq<word>)
    requires ArriveEach(gs, rs, rtl) && Arrived(g.message, g.payload, r, rtl)
    ensures ArriveEach(gs + [g], rs + [r], rtl)
  {
  }

  /** Answers made of messages from CAPI are ones the daemon can handle. */
  lemma AnswersAreDeliverable(gs: seq<Got>, session: dword, rtl: seq<word>)
    requires AllTakeable(gs, rtl)
    ensures forall i :: 0 <= i < |gs| ==> Deliverable(AnswersFor(gs, session, rtl)[i], rtl)
  {
    forall i | 0 <= i < |gs| ensures Deliverable(AnswersFor(gs, session, rtl)[i], rtl) {
      AnswerArrives(gs[i], session, rtl);
    }
  }

  /** Answers made of messages from CAPI reach the kernel: handling them writes each message with
      its payload behind it, in order and nothing else, to the application its remote id stands
      for. */
  lemma {:induction false} MessagesReachKernel(gs: seq<Got>, session: dword, rtl: seq<word>)
    requires AllTakeable(gs, rtl)
    ensures ArriveEach(gs, AllWritten(AnswersFor(gs, session, rtl), rtl), rtl)
    decreases |gs|
  {
    if gs != [] {
      var n := |gs| - 1;
      MessagesReachKernel(gs[..n], session, rtl);
      var r := LastAnswer(gs, session, rtl);
      ArriveOneMore(gs[..n], AllWritten(AnswersFor(gs[..n], session, rtl), rtl), gs[n], r, rtl);
      assert gs == gs[..n] + [gs[n]];
    }
  }

  lemma LastAnswer(gs: seq<Got>, session: dword, rtl: seq<word>) returns (r: Message)
    requires AllTakeable(gs, rtl) && gs != []
    ensures AllWritten(AnswersFor(gs, session, rtl), rtl) ==
      AllWritten(AnswersFor(gs[..|gs| - 1], session, rtl), rtl) + [r]
    ensures var g := gs[|gs| - 1]; Arrived(g.message, g.payload, r, rtl)
  {
    var g, front := gs[|gs| - 1], AnswersFor(gs[..|gs| - 1], session, rtl);
    AnswerArrives(g, session, rtl);
    OneWritten(AnswerFor(g, session), rtl);
    OneMoreWritten(front, AnswerFor(g, session), rtl);
    assert AnswersFor(gs, session, rtl) == front + [AnswerFor(g, session)];
    r := Incoming(g.message + g.payload, rtl);
  }

  /** The answer the server sends when CAPI has no message: nothing is what is written. */
  lemma EmptyAnswerArrivesEmpty(p: seq<byte>, rtl: seq<word>)
    requires IsMap(rtl) && |p| == ANSWER_HEADER_LEN
    requires var h := DecodeAnswer(p);
      h.kind == TYPE_CAPI_GETMESSAGE && h.headerLen == ANSWER_HEADER_LEN && h.bodyLen == 0 && h.dataLen == 0
    ensures Deliverable(p, rtl) && WrittenFor(p, rtl) == [[]]
  {
    NoData(p);
    NoDataWritten(p, rtl);
  }

  lemma NoData(p: seq<byte>)
    requires |p| == ANSWER_HEADER_LEN
    requires var h := DecodeAnswer(p); h.headerLen == ANSWER_HEADER_LEN && h.bodyLen == 0 && h.dataLen == 0
    ensures Located(p) && Data(p) == []
  {
  }

  lemma NoDataWritten(p: seq<byte>, rtl: seq<word>)
    requires IsMap(rtl) && Located(p) && Data(p) == [] && |p| <= PACKET_SIZE && IsMessageAnswer(p)
    ensures Deliverable(p, rtl) && WrittenFor(p, rtl) == [[]]
  {
  }

  // ---- from the server's calls to the kernel ----------------------------------------------

  function Gets(calls: seq<CapiCall>): seq<CapiCall> {
    if calls == [] then []
    else
      var c := calls[|calls| - 1];
      Gets(calls[..|calls| - 1]) + if c.DidGet? then [c] else []
  }

  lemma OneMoreGet(calls: seq<CapiCall>, c: CapiCall)
    ensures Gets(calls + [c]) == Gets(calls) + if c.DidGet? then [c] else []
  {
    assert (calls + [c])[..|calls|] == calls;
  }

  lemma {:induction false} GetsAppend(calls: seq<CapiCall>, more: seq<CapiCall>)
    ensures Gets(calls + more) == Gets(calls) + Gets(more)
    decreases |more|
  {
    if more == [] {
      assert calls + more == calls;
    } else {
      var front, last := more[..|more| - 1], more[|more| - 1];
      SplitLast(calls, more);
      GetsAppend(calls, front);
      OneMoreGet(calls + front, last);
      OneMoreGet(front, last);
      AppendTwice(Gets(calls), Gets(front), if last.DidGet? then [last] else []);
    }
  }

  /** The messages CAPI gave carry ids the daemon's map has room for. */
  predicate IdsFit(calls: seq<CapiCall>, rtl: seq<word>) {
    IsMap(rtl) &&
    forall i :: 0 <= i < |calls| ==>
      calls[i].DidGet? && calls[i].error == 0 && |calls[i].message| >= 4 ==> AppId(calls[i].message) < |rtl|
  }

  /** What the kernel gets for a call: the message that came back, or nothing on an error. */
  ghost predicate ArrivedFor(c: CapiCall, r: Message, rtl: seq<word>) {
    c.DidGet? && if c.error == 0 then Arrived(c.message, c.payload, r, rtl) else r == []
  }

  ghost predicate ArrivedEach(calls: seq<CapiCall>, rs: seq<Message>, rtl: seq<word>) {
    |calls| == |rs| && forall i :: 0 <= i < |calls| ==> ArrivedFor(calls[i], rs[i], rtl)
  }

  /** One frame at the server: the answers the daemon can handle, and what they write is what the
      calls gave. */
  ghost predicate Passed(o: Outcome, rtl: seq<word>) {
    (forall p | p in o.answers :: Deliverable(p, rtl)) &&
    ArrivedEach(Gets(o.calls), AllWritten(o.answers, rtl), rtl)
  }

  lemma MessageArrives(answer: seq<byte>, c: CapiCall, rtl: seq<word>) returns (r: Message)
    requires c.DidGet? && c.error == 0 && Gettable(c.message, c.payload) && IsMap(rtl) && AppId(c.message) < |rtl|
    requires |answer| >= 40 && answer[40..] == c.message + c.payload
    requires var h := DecodeAnswer(answer);
      h.kind == 4 && h.headerLen == 40 && h.bodyLen == 0 && h.dataLen == |answer| - 40
    ensures Deliverable(answer, rtl) && AllWritten([answer], rtl) == [r] && ArrivedFor(c, r, rtl)
  {
    assert answer[40..][..|answer| - 40] == answer[40..];
    DataArrives(answer, c.message, c.payload, rtl);
    OneWritten(answer, rtl);
    r := Incoming(c.message + c.payload, rtl);
  }

  lemma OneGet(c: CapiCall)
    ensures Gets([c]) == if c.DidGet? then [c] else []
  {
    assert Gets([c][..0]) == [];
  }

  lemma GetIsPassed(request: Request, answer: seq<byte>, calls: seq<CapiCall>, rtl: seq<word>)
    requires AnswersTo(answer, request) && request.kind == 4 && GetServed(request, answer, calls) && IdsFit(calls, rtl)
    ensures Deliverable(answer, rtl) && ArrivedEach(Gets(calls), AllWritten([answer], rtl), rtl)
  {
    var c := calls[0];
    assert calls == [c];
    OneGet(c);
    if c.error == 0 {
      var r := MessageArrives(answer, c, rtl);
    } else {
      EmptyAnswerArrivesEmpty(answer, rtl);
      OneWritten(answer, rtl);
    }
  }

  lemma OtherIsPassed(answer: seq<byte>, calls: seq<CapiCall>, rtl: seq<word>)
    requires IsMap(rtl) && |answer| == 40 && DecodeAnswer(answer).kind != 4
    requires calls == [] || (|calls| == 1 && !calls[0].DidGet?)
    ensures Deliverable(answer, rtl) && ArrivedEach(Gets(calls), AllWritten([answer], rtl), rtl)
  {
    OneWritten(answer, rtl);
    if calls != [] {
      assert calls == [calls[0]];
      OneGet(calls[0]);
    }
  }

  lemma ServedIsPassed(f: seq<byte>, o: Outcome, session: dword, address: dword, rtl: seq<word>)
    requires REQUEST_HEADER_LEN <= |f| <= PACKET_SIZE && Addressable(address) && Served(f, o, session, address)
    requires IdsFit(o.calls, rtl)
    ensures Passed(o, rtl)
  {
    if o.answers != [] {
      var request, answer := DecodeRequest(f), o.answers[0];
      assert o.answers == [answer];
      if request.kind == 4 {
        GetIsPassed(request, answer, o.calls, rtl);
      } else {
        OthersCallOnce(request, f, answer, o.calls, address);
        OtherIsPassed(answer, o.calls, rtl);
      }
    }
  }

  lemma OthersCallOnce(request: Request, f: seq<byte>, answer: seq<byte>, calls: seq<CapiCall>, address: dword)
    requires AnswersTo(answer, request) && Addressable(address) && |f| <= PACKET_SIZE && request.kind != 4
    requires KindServed(request, f, answer, calls, address)
    ensures |answer| == 40 && (calls == [] || (|calls| == 1 && !calls[0].DidGet?))
  {
  }

  lemma PassedAppend(a: seq<CapiCall>, r: seq<Message>, b: seq<CapiCall>, q: seq<Message>, rtl: seq<word>)
    requires ArrivedEach(a, r, rtl) && ArrivedEach(b, q, rtl)
    ensures ArrivedEach(a + b, r + q, rtl)
  {
  }

  lemma {:induction false} AllPassed(os: seq<Outcome>, rtl: seq<word>)
    requires forall i :: 0 <= i < |os| ==> Passed(os[i], rtl)
    ensures forall p | p in AnswersOf(os) :: Deliverable(p, rtl)
    ensures ArrivedEach(Gets(CallsOf(os)), AllWritten(AnswersOf(os), rtl), rtl)
    decreases |os|
  {
    if os != [] {
      var o, front := os[|os| - 1], os[..|os| - 1];
      AllPassed(front, rtl);
      GetsAppend(CallsOf(front), o.calls);
      WrittenAppend(AnswersOf(front), o.answers, rtl);
      PassedAppend(Gets(CallsOf(front)), AllWritten(AnswersOf(front), rtl),
                   Gets(o.calls), AllWritten(o.answers, rtl), rtl);
    }
  }

  /** Server and daemon together. For every conversation the server has served: its answers are
      ones the daemon can handle, and handling them writes, for each call of
      `capi20_get_message` in order and for nothing else, the message that came back with its
      payload behind it, to the application its remote id stands for. */
  lemma CallsReachKernel(frames: seq<seq<byte>>, os: seq<Outcome>, session: dword, address: dword, rtl: seq<word>)
    requires Addressable(address) && ServedAll(frames, os, session, address)
    requires forall i :: 0 <= i < |os| ==> IdsFit(os[i].calls, rtl)
    ensures forall p | p in AnswersOf(os) :: Deliverable(p, rtl)
    ensures ArrivedEach(Gets(CallsOf(os)), AllWritten(AnswersOf(os), rtl), rtl)
  {
    forall i | 0 <= i < |os| ensures Passed(os[i], rtl) {
      ServedIsPassed(frames[i], os[i], session, address, rtl);
    }
    AllPassed(os, rtl);
  }
}
