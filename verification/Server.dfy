/** The server's side of one connection: the receive loop, the request handlers that touch the
    registry or a CAPI message, and the teardown. */
module Server {
  import opened Bytes
  import opened CapiMessage
  import opened CardModel
  import opened Packets
  import opened DataB3
  import opened Framing
  import opened Registry

  /** A call to the CAPI library, with what was passed and what came back. */
  datatype CapiCall =
    | DidRegister(params: Params, error: dword, app: nat)
    | DidRelease(app: nat, error: dword)
    | DidPut(app: nat, message: Message, error: dword)
    | DidGet(app: nat, error: dword, message: Message, payload: seq<byte>)

  function After(held: set<nat>, c: CapiCall): set<nat> {
    if c.DidRegister? && c.error == 0 then held + {c.app}
    else if c.DidRelease? && c.error == 0 then held - {c.app}
    else held
  }

  /** The ids registered and not yet successfully released after these calls. */
  function HeldBy(log: seq<CapiCall>): set<nat> {
    if log == [] then {} else After(HeldBy(log[..|log| - 1]), log[|log| - 1])
  }

  lemma HeldByOneMore(log: seq<CapiCall>, c: CapiCall)
    ensures HeldBy(log + [c]) == After(HeldBy(log), c)
  {
    assert (log + [c])[..|log|] == log;
  }

  /** The CAPI library as far as this connection goes. Its results are arbitrary within what
      CAPI promises: ids from 1 to CAPI_MAXAPPL that are not in use, released only if held. */
  class Capi {
    var log: seq<CapiCall>

    constructor ()
      ensures log == []
    {
      log := [];
    }

    /** Leaves some id in the answer even when it fails. */
    method Register(params: Params) returns (error: dword, app: dword)
      modifies this`log
      ensures log == old(log) + [DidRegister(params, error, app)]
      ensures error == 0 ==> 1 <= app <= CAPI_MAXAPPL && app as nat !in HeldBy(old(log))
    {
      error := *;
      var some: nat := *;
      app := some % 0x1_0000_0000;
      if error == 0 && !(1 <= app <= CAPI_MAXAPPL && app as nat !in HeldBy(log)) {
        error := 0x1001;
      }
      log := log + [DidRegister(params, error, app)];
    }

    method Release(app: nat) returns (error: dword)
      modifies this`log
      ensures log == old(log) + [DidRelease(app, error)]
      ensures error == 0 ==> app in HeldBy(old(log))
    {
      error := *;
      if app !in HeldBy(log) && error == 0 {
        error := 0x1101;
      }
      log := log + [DidRelease(app, error)];
    }

    method Put(app: dword, m: Message) returns (error: dword)
      modifies this`log
      ensures log == old(log) + [DidPut(app, m, error)]
    {
      error := *;
      log := log + [DidPut(app, m, error)];
    }

    /** A message and the bytes behind its data pointer, small enough for the packet buffer. */
    method Get(app: dword) returns (error: dword, m: Message, payload: seq<byte>)
      modifies this`log
      ensures log == old(log) + [DidGet(app, error, m, payload)]
      ensures error == 0 ==> Gettable(m, payload)
    {
      error := *;
      m := *;
      payload := *;
      if !Gettable(m, payload) && error == 0 {
        error := 0x1104;
      }
      log := log + [DidGet(app, error, m, payload)];
    }
  }

  predicate Gettable(m: Message, payload: seq<byte>) {
    FromCapi(m, payload) && |m| + |payload| <= PACKET_SIZE - ANSWER_HEADER_LEN
  }

  ghost predicate AreReleases(calls: seq<CapiCall>, ids: seq<nat>) {
    |calls| == |ids| && forall k :: 0 <= k < |ids| ==> calls[k].DidRelease? && calls[k].app == ids[k]
  }

  /** The last calls to CAPI are the releases of `ids`, in that order. */
  ghost predicate Tail(log: seq<CapiCall>, ids: seq<nat>) {
    |ids| <= |log| && AreReleases(log[|log| - |ids|..], ids)
  }

  lemma TailOneMore(log: seq<CapiCall>, ids: seq<nat>, c: CapiCall)
    requires Tail(log, ids) && c.DidRelease?
    ensures Tail(log + [c], ids + [c.app])
  {
    assert (log + [c])[|log| - |ids|..] == log[|log| - |ids|..] + [c];
  }

  // ---- what a request leads to ------------------------------------------------------------

  /** Where a request says its data is. */
  function DataStart(request: Request): nat {
    request.headerLen + request.bodyLen
  }

  function DataEnd(request: Request): nat {
    DataStart(request) + request.dataLen
  }

  /** The body of REGISTER: a buffer size, and the three parameters. */
  const REGISTER_BODY_LEN := 16

  /** Everything the handlers read lies inside `f`. */
  predicate Contained(request: Request, f: seq<byte>) {
    DataEnd(request) <= |f| && (request.kind == TYPE_CAPI_REGISTER ==> request.headerLen + REGISTER_BODY_LEN <= |f|)
  }

  predicate Addressable(address: dword) {
    address + PACKET_SIZE < 0x1_0000_0000
  }

  /** The packet is an answer to the request: its own header, nothing between header and data. */
  predicate AnswersTo(p: seq<byte>, request: Request) {
    |p| >= ANSWER_HEADER_LEN &&
    var h := DecodeAnswer(p);
    h.id == request.id && h.kind == request.kind && h.session == request.session &&
    h.messageLen == |p| && h.headerLen == 40 && h.bodyLen == 0 && h.dataLen == |p| - 40
  }

  function ParamsAt(f: seq<byte>, off: nat): Params
    requires off + REGISTER_BODY_LEN <= |f|
  {
    Params(U32(f, off + 4), U32(f, off + 8), U32(f, off + 12))
  }

  /** CAPI was asked once, with the parameters in the body, and the answer tells what it said. */
  predicate RegisterServed(request: Request, f: seq<byte>, answer: seq<byte>, calls: seq<CapiCall>)
    requires AnswersTo(answer, request) && request.kind == TYPE_CAPI_REGISTER
  {
    var h := DecodeAnswer(answer);
    |calls| == 1 && calls[0].DidRegister? && (Contained(request, f) ==> calls[0].params == ParamsAt(f, request.headerLen)) &&
    h.app == calls[0].app && h.capiError == calls[0].error && h.proxyError == 0 && |answer| == 40
  }

  predicate ReleaseServed(request: Request, answer: seq<byte>, calls: seq<CapiCall>)
    requires AnswersTo(answer, request)
  {
    var h := DecodeAnswer(answer);
    calls == [DidRelease(request.app, h.capiError)] && h.app == request.app && h.proxyError == 0 && |answer| == 40
  }

  /** CAPI was handed a well-formed message once, and the answer tells what it said; anything
      else is answered with a parse error, and CAPI never sees it. */
  predicate PutServed(request: Request, f: seq<byte>, answer: seq<byte>, calls: seq<CapiCall>, address: dword)
    requires AnswersTo(answer, request) && Addressable(address) && |f| <= PACKET_SIZE
  {
    var h := DecodeAnswer(answer);
    h.app == request.app && |answer| == 40 &&
    (calls == [] || (|calls| == 1 && calls[0].DidPut? && calls[0].app == request.app && calls[0].error == h.capiError)) &&
    (Contained(request, f) ==>
       var data := f[DataStart(request)..DataEnd(request)];
       if WellFormedRequest(data)
       then PutDone(request, PutMessage(data, address + DataStart(request)), h, calls) && h.proxyError == 0
       else calls == [] && h.proxyError == 6)
  }

  predicate PutDone(request: Request, put: Put, h: Answer, calls: seq<CapiCall>) {
    put.ToCapi? && calls == [DidPut(request.app, put.message, h.capiError)]
  }

  /** CAPI was asked once for the application, and the answer carries the message it gave with
      the payload behind it, or nothing. */
  predicate GetServed(request: Request, answer: seq<byte>, calls: seq<CapiCall>)
    requires AnswersTo(answer, request)
  {
    var h := DecodeAnswer(answer);
    |calls| == 1 && calls[0].DidGet? && calls[0].app == request.app && h.app == request.app &&
    h.capiError == calls[0].error &&
    if h.capiError == 0
    then Gettable(calls[0].message, calls[0].payload) && answer[40..] == calls[0].message + calls[0].payload &&
         h.proxyError == if ShortIndication(calls[0].message) then 6 else 0
    else |answer| == 40 && h.proxyError == 0
  }

  predicate KindServed(request: Request, f: seq<byte>, answer: seq<byte>, calls: seq<CapiCall>, address: dword)
    requires AnswersTo(answer, request) && Addressable(address) && |f| <= PACKET_SIZE
  {
    match request.kind
    case 1 => RegisterServed(request, f, answer, calls)
    case 2 => ReleaseServed(request, answer, calls)
    case 3 => PutServed(request, f, answer, calls, address)
    case 4 => GetServed(request, answer, calls)
    case _ => false
  }

  /** What a frame brought about: answers sent and calls made. */
  datatype Outcome = Outcome(answers: seq<seq<byte>>, calls: seq<CapiCall>)

  /** A request of this session, of a type modelled here and within the packet buffer, gets one
      answer and the calls of its type; any other frame has no effect. */
  predicate Served(f: seq<byte>, o: Outcome, session: dword, address: dword)
    requires REQUEST_HEADER_LEN <= |f| <= PACKET_SIZE && Addressable(address)
  {
    var request := DecodeRequest(f);
    if request.session == session && 1 <= request.kind <= 4 && InBuffer(request)
    then |o.answers| == 1 && AnswersTo(o.answers[0], request) && KindServed(request, f, o.answers[0], o.calls, address)
    else o == Outcome([], [])
  }

  predicate InBuffer(request: Request) {
    DataEnd(request) <= PACKET_SIZE &&
    (request.kind == TYPE_CAPI_REGISTER ==> request.headerLen + REGISTER_BODY_LEN <= PACKET_SIZE)
  }

  lemma Decoded(head: Answer, data: seq<byte>)
    ensures var p := EncodeAnswer(head) + data;
      DecodeAnswer(p) == head && p[40..] == data && |p| == 40 + |data|
  {
    AnswerRoundTrip(head, data);
  }

  /** The checks of PUTMESSAGE on the `len` bytes at `off`, and the pointer written into them in
      place; nothing outside them is read or written. */
  method ParseAndPatch(packet: array<byte>, off: nat, len: nat, address: dword) returns (put: Put)
    requires off + len <= packet.Length && address + len < 0x1_0000_0000
    modifies packet
    ensures put == PutMessage(old(packet[off..off + len]), address)
    ensures packet[..off] == old(packet[..off]) && packet[off + len..] == old(packet[off + len..])
  {
    var msg := packet[off..off + len];
    if len < 8 {
      return ParseError;
    }
    var len1: nat := Len(msg);
    if len < len1 {
      return ParseError;
    }
    if msg[4] == DATA_B3 && msg[5] == REQ {
      if len1 < 18 {
        return ParseError;
      }
      var len2: nat := DataLen(msg);
      if len1 + len2 > len {
        return ParseError;
      }
      Patch(packet, off, off + len, 12, Bytes32(Wrap(address + len1)));
    }
    put := ToCapi(packet[off..off + len]);
  }

  /** `memcpy(packet + lo + at, src, |src|)`, inside the data part from `lo` to `hi`. */
  method Patch(packet: array<byte>, lo: nat, hi: nat, at: nat, src: seq<byte>)
    requires lo + at + |src| <= hi <= packet.Length
    modifies packet
    ensures packet[lo..hi] == Splice(old(packet[lo..hi]), at, src)
    ensures packet[..lo] == old(packet[..lo]) && packet[hi..] == old(packet[hi..])
  {
    forall i | 0 <= i < |src| {
      packet[lo + at + i] := src[i];
    }
  }

  // ---- whole conversations ----------------------------------------------------------------

  /** Frame by frame. */
  ghost predicate ServedAll(frames: seq<seq<byte>>, os: seq<Outcome>, session: dword, address: dword)
    requires Addressable(address)
  {
    |os| == |frames| &&
    forall i :: 0 <= i < |frames| ==>
      REQUEST_HEADER_LEN <= |frames[i]| <= PACKET_SIZE && Served(frames[i], os[i], session, address)
  }

  function AnswersOf(os: seq<Outcome>): seq<seq<byte>> {
    if os == [] then [] else AnswersOf(os[..|os| - 1]) + os[|os| - 1].answers
  }

  function CallsOf(os: seq<Outcome>): seq<CapiCall> {
    if os == [] then [] else CallsOf(os[..|os| - 1]) + os[|os| - 1].calls
  }

  lemma OneMoreOutcome(os: seq<Outcome>, o: Outcome)
    ensures AnswersOf(os + [o]) == AnswersOf(os) + o.answers && CallsOf(os + [o]) == CallsOf(os) + o.calls
  {
    assert (os + [o])[..|os|] == os;
  }

  lemma AppendTwice<T>(a: seq<T>, b: seq<T>, c: seq<T>)
    ensures (a + b) + c == a + (b + c)
  {
  }

  lemma RequestPrefix(p: seq<byte>, len: nat)
    requires REQUEST_HEADER_LEN <= len <= |p|
    ensures DecodeRequest(p[..len]) == DecodeRequest(p)
  {
  }

  /** The handlers see a frame inside the packet buffer, with older bytes behind it. */
  lemma ServedPrefix(p: seq<byte>, len: nat, o: Outcome, session: dword, address: dword)
    requires |p| == PACKET_SIZE && REQUEST_HEADER_LEN <= len <= PACKET_SIZE && Addressable(address)
    requires Served(p, o, session, address)
    ensures Served(p[..len], o, session, address)
  {
    var request := DecodeRequest(p);
    RequestPrefix(p, len);
    if Contained(request, p[..len]) {
      SameSlice(p, len, DataStart(request), DataEnd(request));
    }
  }

  lemma SameSlice(p: seq<byte>, len: nat, i: nat, j: nat)
    requires i <= j <= len <= |p|
    ensures p[..len][i..j] == p[i..j]
  {
  }

  class Connection {
    const sessionID: dword
    const address: dword           // of in_packet
    const registry: FlagRegistry
    const capi: Capi
    var head: Answer               // the header fields of out_packet
    var sent: seq<seq<byte>>

    /** The flagged ids are exactly those obtained by a successful `capi20_register` and not
        yet successfully released. */
    ghost predicate Valid()
      reads this, registry, registry.flags, capi
    {
      registry.Valid() && registry.Ids() == HeldBy(capi.log) && Addressable(address)
    }

    constructor (sessionID: dword, address: dword)
      requires Addressable(address)
      ensures Valid() && fresh(registry) && fresh(registry.flags) && fresh(capi)
      ensures this.sessionID == sessionID && this.address == address && sent == [] && capi.log == []
    {
      this.sessionID := sessionID;
      this.address := address;
      registry := new FlagRegistry();
      capi := new Capi();
      head := Answer(0, 0, 0, 0, 0, 0, 0, 0, 0, 0);
      sent := [];
    }

    /** Compose the common fields and send; what an earlier answer left in the others stays. */
    method Send(request: Request, proxyError: dword, data: seq<byte>) returns (answer: seq<byte>)
      requires |data| <= PACKET_SIZE - ANSWER_HEADER_LEN && request.session == sessionID
      modifies this`head, this`sent
      ensures head.app == old(head.app) && head.capiError == old(head.capiError) && head.proxyError == proxyError
      ensures AnswersTo(answer, request) && DecodeAnswer(answer) == head && answer[40..] == data
      ensures |answer| == 40 + |data| && sent == old(sent) + [answer]
    {
      head := head.(headerLen := ANSWER_HEADER_LEN, bodyLen := 0, dataLen := |data|,
                    messageLen := ANSWER_HEADER_LEN + |data|, id := request.id, kind := request.kind,
                    session := sessionID, proxyError := proxyError);
      answer := EncodeAnswer(head) + data;
      Decoded(head, data);
      sent := sent + [answer];
    }

    method ExecRegister(request: Request, packet: array<byte>) returns (answer: seq<byte>, ghost calls: seq<CapiCall>)
      requires Valid() && packet.Length == PACKET_SIZE && packet != registry.flags
      requires request.session == sessionID && request.kind == TYPE_CAPI_REGISTER && InBuffer(request)
      modifies this`head, this`sent, registry.flags, capi`log
      ensures Valid() && sent == old(sent) + [answer] && capi.log == old(capi.log) + calls
      ensures AnswersTo(answer, request) && RegisterServed(request, packet[..], answer, calls)
      ensures if head.capiError == 0 then
          head.app as nat !in old(registry.Ids()) && registry.Ids() == old(registry.Ids()) + {head.app as nat}
        else registry.Ids() == old(registry.Ids())
    {
      var params := ParamsAt(packet[..], request.headerLen);
      var error, app := capi.Register(params);
      calls := [DidRegister(params, error, app)];
      HeldByOneMore(old(capi.log), calls[0]);
      if error == 0 {
        registry.AddApp(app);
      }
      head := head.(app := app, capiError := error);
      answer := Send(request, PERROR_NONE, []);
    }

    method ExecRelease(request: Request) returns (answer: seq<byte>, ghost calls: seq<CapiCall>)
      requires Valid() && request.session == sessionID
      modifies this`head, this`sent, registry.flags, capi`log
      ensures Valid() && sent == old(sent) + [answer] && capi.log == old(capi.log) + calls
      ensures AnswersTo(answer, request) && ReleaseServed(request, answer, calls)
      ensures if head.capiError == 0 then
          request.app as nat in old(registry.Ids()) && registry.Ids() == old(registry.Ids()) - {request.app as nat}
        else registry.Ids() == old(registry.Ids())
    {
      var error := capi.Release(request.app);
      calls := [DidRelease(request.app, error)];
      HeldByOneMore(old(capi.log), calls[0]);
      if error == 0 {
        assert request.app as nat in old(registry.Ids());
        registry.DelApp(request.app);
      }
      head := head.(app := request.app, capiError := error);
      answer := Send(request, PERROR_NONE, []);
    }

    /** CAPI gets what `PutMessage` says, or is not called. */
    method ExecPutMessage(request: Request, packet: array<byte>) returns (answer: seq<byte>, ghost calls: seq<CapiCall>)
      requires Valid() && packet.Length == PACKET_SIZE && packet != registry.flags
      requires request.session == sessionID && InBuffer(request)
      modifies this`head, this`sent, packet, capi`log
      ensures Valid() && sent == old(sent) + [answer] && capi.log == old(capi.log) + calls
      ensures AnswersTo(answer, request) && PutServed(request, old(packet[..]), answer, calls, address)
      ensures packet[..DataStart(request)] == old(packet[..DataStart(request)])
      ensures packet[DataEnd(request)..] == old(packet[DataEnd(request)..])
    {
      var off := DataStart(request);
      ghost var data := packet[off..off + request.dataLen];
      assert packet[..][off..DataEnd(request)] == data;
      PutMessageExact(data, address + off);
      var put := ParseAndPatch(packet, off, request.dataLen, address + off);
      head := head.(app := request.app);
      calls := [];
      if put.ToCapi? {
        var error := capi.Put(request.app, put.message);
        calls := [DidPut(request.app, put.message, error)];
        HeldByOneMore(old(capi.log), calls[0]);
        head := head.(capiError := error);
      }
      answer := Send(request, if put.ToCapi? then PERROR_NONE else PERROR_PARSE_ERROR, []);
    }

    /** Takes a message from CAPI and sends it flattened: the message, and for a DATA_B3_IND
        the payload behind it. */
    method ExecGetMessage(request: Request) returns (answer: seq<byte>, ghost calls: seq<CapiCall>)
      requires Valid() && request.session == sessionID
      modifies this`head, this`sent, capi`log
      ensures Valid() && sent == old(sent) + [answer] && capi.log == old(capi.log) + calls
      ensures AnswersTo(answer, request) && GetServed(request, answer, calls)
    {
      var error, m, payload := capi.Get(request.app);
      calls := [DidGet(request.app, error, m, payload)];
      HeldByOneMore(old(capi.log), calls[0]);
      head := head.(app := request.app, capiError := error);
      var proxyError, data := PERROR_NONE, [];
      if error == 0 {
        var len1 := U16(m, 0);
        data := m[..len1];
        assert data == m;
        if data[4] == DATA_B3 && data[5] == IND {
          if len1 < 18 {
            proxyError := PERROR_PARSE_ERROR;
          } else {
            var len2 := U16(data, 16);
            data := data + payload[..len2];
          }
        }
        assert data == m + payload;
      }
      answer := Send(request, proxyError, data);
    }

    /** The switch of the receive loop, for the requests modelled here. */
    method Execute(request: Request, packet: array<byte>) returns (ghost answer: seq<byte>, ghost calls: seq<CapiCall>)
      requires Valid() && packet.Length == PACKET_SIZE && packet != registry.flags
      requires request.session == sessionID && 1 <= request.kind <= 4 && InBuffer(request)
      modifies this`head, this`sent, packet, registry.flags, capi
      ensures Valid() && sent == old(sent) + [answer] && capi.log == old(capi.log) + calls
      ensures AnswersTo(answer, request) && KindServed(request, old(packet[..]), answer, calls, address)
    {
      if request.kind == TYPE_CAPI_REGISTER {
        answer, calls := ExecRegister(request, packet);
      } else if request.kind == TYPE_CAPI_RELEASE {
        answer, calls := ExecRelease(request);
      } else if request.kind == TYPE_CAPI_PUTMESSAGE {
        answer, calls := ExecPutMessage(request, packet);
      } else {
        answer, calls := ExecGetMessage(request);
      }
    }

    /** One request. A request of another session, or one whose lengths leave the packet,
        changes nothing and gets no answer. */
    method Dispatch(packet: array<byte>) returns (ghost o: Outcome)
      requires Valid() && packet.Length == PACKET_SIZE && packet != registry.flags
      modifies this`head, this`sent, packet, registry.flags, capi
      ensures Valid() && sent == old(sent) + o.answers && capi.log == old(capi.log) + o.calls
      ensures Served(old(packet[..]), o, sessionID, address)
    {
      var request := DecodeRequest(packet[..]);
      if request.session != sessionID || !(1 <= request.kind <= 4) || !InBuffer(request) {
        return Outcome([], []);
      }
      ghost var answer, calls := Execute(request, packet);
      o := Outcome([answer], calls);
    }

    /** `release_all` at the end of the connection. */
    method Teardown() returns (released: seq<nat>)
      requires Valid()
      modifies registry.flags, capi`log
      ensures registry.Ids() == {}
      ensures NoDuplicates(released) && Elements(released) == HeldBy(old(capi.log))
      ensures Tail(capi.log, released) && capi.log[..|capi.log| - |released|] == old(capi.log)
    {
      AscendingIs(registry.flags[..]);
      released := registry.ReleaseAll();
      ghost var before := capi.log;
      var i := 0;
      while i < |released|
        invariant 0 <= i <= |released| && registry.Ids() == {}
        invariant |capi.log| == |before| + i && capi.log[..|before|] == before
        invariant Tail(capi.log, released[..i])
      {
        ghost var log := capi.log;
        var error := capi.Release(released[i]);
        TailOneMore(log, released[..i], DidRelease(released[i], error));
        assert released[..i + 1] == released[..i] + [released[i]];
        i := i + 1;
      }
      assert released[..i] == released;
    }

    /** The request that came as the frame `packet[..len]`, after those of `os`. */
    method DispatchNext(
      packet: array<byte>, ghost len: nat, ghost frames: seq<seq<byte>>, ghost os: seq<Outcome>,
      ghost was: seq<seq<byte>>, ghost log: seq<CapiCall>)
      returns (ghost o: Outcome)
      requires Valid() && packet.Length == PACKET_SIZE && packet != registry.flags
      requires REQUEST_HEADER_LEN <= len <= PACKET_SIZE
      requires sent == was + AnswersOf(os) && capi.log == log + CallsOf(os)
      requires ServedAll(frames, os, sessionID, address)
      modifies this`head, this`sent, packet, registry.flags, capi
      ensures Valid() && sent == was + AnswersOf(os + [o]) && capi.log == log + CallsOf(os + [o])
      ensures ServedAll(frames + [old(packet[..len])], os + [o], sessionID, address)
    {
      ghost var p := packet[..];
      assert packet[..len] == p[..len];
      o := Dispatch(packet);
      ServedPrefix(p, len, o, sessionID, address);
      OneMoreOutcome(os, o);
      AppendTwice(was, AnswersOf(os), o.answers);
      AppendTwice(log, CallsOf(os), o.calls);
    }

    /** `NextFrame`, when `frames` of a conversation `all` have been dispatched already. */
    method Fetch(sock: Socket, packet: array<byte>, ghost all: Conversation, ghost frames: seq<seq<byte>>)
      returns (len: nat, end: End)
      requires sock.Valid() && packet.Length == PACKET_SIZE
      requires all == AfterFrames(frames, Parse(sock.Pending(), sock.fails))
      modifies packet, sock
      ensures sock.Valid() && len <= PACKET_SIZE
      ensures len == 0 ==> all == Conversation(frames, end)
      ensures len > 0 ==>
        IsFrame(packet[..len]) && |sock.Pending()| < |old(sock.Pending())| &&
        all == AfterFrames(frames + [packet[..len]], Parse(sock.Pending(), sock.fails))
    {
      len, end := NextFrame(sock, packet);
      AfterLast(frames, end);
      AfterOneMore(frames, packet[..if len <= PACKET_SIZE then len else 0], Parse(sock.Pending(), sock.fails));
    }

    /** The receive loop; returns what it dispatched, and what each frame brought about. */
    method Receive(sock: Socket, packet: array<byte>)
      returns (frames: seq<seq<byte>>, end: End, ghost os: seq<Outcome>)
      requires Valid() && sock.Valid() && packet.Length == PACKET_SIZE && packet != registry.flags
      modifies this`head, this`sent, packet, registry.flags, capi, sock
      ensures Valid()
      ensures Conversation(frames, end) == Parse(old(sock.Pending()), sock.fails)
      ensures sent == old(sent) + AnswersOf(os) && capi.log == old(capi.log) + CallsOf(os)
      ensures ServedAll(frames, os, sessionID, address)
    {
      frames, os := [], [];
      ghost var all, was, log := Parse(sock.Pending(), sock.fails), sent, capi.log;
      AfterNothing(all);
      var len: nat;
      len, end := Fetch(sock, packet, all, frames);
      while len > 0
        invariant Valid() && sock.Valid() && len <= PACKET_SIZE
        invariant len == 0 ==> all == Conversation(frames, end)
        invariant len > 0 ==>
          IsFrame(packet[..len]) && all == AfterFrames(frames + [packet[..len]], Parse(sock.Pending(), sock.fails))
        invariant sent == was + AnswersOf(os) && capi.log == log + CallsOf(os)
        invariant ServedAll(frames, os, sessionID, address)
        decreases len > 0, |sock.Pending()|
      {
        var frame := packet[..len];
        ghost var o := DispatchNext(packet, len, frames, os, was, log);
        frames, os := frames + [frame], os + [o];
        len, end := Fetch(sock, packet, all, frames);
      }
    }

    /** One connection from the first byte to the last. What is dispatched is what the byte
        stream parses to, however it was cut; and when the connection ends, the ids CAPI then
        holds for it, and no others, are passed to `capi20_release`, each exactly once. */
    method Serve(sock: Socket, packet: array<byte>)
      returns (frames: seq<seq<byte>>, end: End, released: seq<nat>, ghost os: seq<Outcome>)
      requires Valid() && sock.Valid() && packet.Length == PACKET_SIZE && packet != registry.flags
      modifies this`head, this`sent, packet, registry.flags, capi, sock
      ensures Conversation(frames, end) == Parse(old(sock.Pending()), sock.fails)
      ensures sent == old(sent) + AnswersOf(os) && ServedAll(frames, os, sessionID, address)
      ensures registry.Ids() == {}
      ensures Tail(capi.log, released) && NoDuplicates(released)
      ensures capi.log[..|capi.log| - |released|] == old(capi.log) + CallsOf(os)
      ensures Elements(released) == HeldBy(old(capi.log) + CallsOf(os))
    {
      frames, end, os := Receive(sock, packet);
      released := Teardown();
    }
  }

  /** A conversation that dispatches `frames` first. */
  function AfterFrames(frames: seq<seq<byte>>, c: Conversation): Conversation {
    Conversation(frames + c.frames, c.end)
  }

  lemma AfterNothing(c: Conversation)
    ensures AfterFrames([], c) == c
  {
  }

  lemma AfterOneMore(frames: seq<seq<byte>>, f: seq<byte>, c: Conversation)
    ensures AfterFrames(frames, AfterFrames([f], c)) == AfterFrames(frames + [f], c)
  {
    assert frames + ([f] + c.frames) == (frames + [f]) + c.frames;
  }

  lemma AfterLast(frames: seq<seq<byte>>, end: End)
    ensures AfterFrames(frames, Conversation([], end)) == Conversation(frames, end)
  {
    assert frames + [] == frames;
  }
}
