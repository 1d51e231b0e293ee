/** What the server hands to `capi20_put_message` for the data of a PUTMESSAGE request, and
    what it sends for a message taken from CAPI. */
module DataB3 {
  import opened Bytes
  import opened CapiMessage

  /** `capi20_put_message` is called with a pointer to these bytes, or not at all. */
  datatype Put = ParseError | ToCapi(message: Message)

  predicate IsDataB3(m: Message, sub: byte)
    requires |m| >= 6
  {
    Command(m) == DATA_B3 && Subcommand(m) == sub
  }

  /** `data` is the request's data part, which starts at `address` in the server's memory. */
  function PutMessage(data: seq<byte>, address: dword): Put {
    if |data| < 8 then ParseError
    else
      var len1 := Len(data);
      if |data| < len1 then ParseError
      else if IsDataB3(data, REQ) then
        if len1 < 18 then ParseError
        else if len1 + DataLen(data) > |data| then ParseError
        else ToCapi(Splice(data, 12, Bytes32(Wrap(address + len1))))
      else ToCapi(data)
  }

  /** The bytes CAPI finds behind the data pointer of a DATA_B3_REQ it was handed. */
  function PayloadAt(m: Message, address: dword): seq<byte>
    requires |m| >= 18 && address <= DataPointer(m) && DataPointer(m) - address + DataLen(m) <= |m|
  {
    m[DataPointer(m) - address..][..DataLen(m)]
  }

  predicate WellFormedRequest(m: Message) {
    |m| >= 8 && Len(m) <= |m| && (IsDataB3(m, REQ) ==> 18 <= Len(m) && Len(m) + DataLen(m) <= |m|)
  }

  lemma PointerBytes(m: Message, p: dword)
    requires |m| >= 18
    ensures var r := Splice(m, 12, Bytes32(p));
      DataPointer(r) == p && DataLen(r) == DataLen(m) && r[..12] == m[..12] && r[16..] == m[16..]
  {
    var r := Splice(m, 12, Bytes32(p));
    DwordRoundTrip(p);
    assert forall k :: 0 <= k < 4 ==> r[12 + k] == r[12..16][k];
  }

  /** CAPI is called exactly for well-formed data, with the very bytes that arrived except
      that the pointer of a DATA_B3_REQ points right behind the message, inside the data; all
      of the payload then lies inside the data too. */
  lemma PutMessageExact(data: seq<byte>, address: dword)
    requires address + |data| < 0x1_0000_0000
    ensures PutMessage(data, address).ToCapi? <==> WellFormedRequest(data)
    ensures WellFormedRequest(data) && !IsDataB3(data, REQ) ==> PutMessage(data, address).message == data
    ensures WellFormedRequest(data) && IsDataB3(data, REQ) ==>
      var m := PutMessage(data, address).message;
      |m| == |data| && m[..12] == data[..12] && m[16..] == data[16..] &&
      DataPointer(m) == address + Len(data) && DataLen(m) == DataLen(data) &&
      PayloadAt(m, address) == data[Len(data)..][..DataLen(data)]
  {
    if WellFormedRequest(data) && IsDataB3(data, REQ) {
      var p := address + Len(data);
      WrapIs(p);
      PointerBytes(data, p);
      var m := Splice(data, 12, Bytes32(p));
      assert m[Len(data)..] == data[Len(data)..];
    }
  }

  /** A message with its payload behind it, as GETMESSAGE lays it out. */
  function Flatten(m: Message, payload: seq<byte>): seq<byte> {
    m + payload
  }

  /** Flattening and parsing are inverse: a DATA_B3_REQ whose length field is its length comes
      out with its own bytes, pointer aside, and its payload behind the pointer. */
  lemma FlattenRoundTrip(m: Message, payload: seq<byte>, address: dword)
    requires |m| >= 18 && Len(m) == |m| && IsDataB3(m, REQ) && DataLen(m) == |payload|
    requires address + |m| + |payload| < 0x1_0000_0000
    ensures var r := PutMessage(Flatten(m, payload), address);
      r.ToCapi? && |r.message| == |m| + |payload| &&
      r.message[..12] == m[..12] && r.message[16..|m|] == m[16..] &&
      DataPointer(r.message) == address + |m| && PayloadAt(r.message, address) == payload
  {
    var data := Flatten(m, payload);
    PutMessageExact(data, address);
    var r := PutMessage(data, address).message;
    assert data[..12] == m[..12];
    assert r[16..|m|] == r[16..][..|m| - 16] == data[16..][..|m| - 16] == m[16..];
    assert data[|m|..] == payload;
  }

  // ---- GETMESSAGE -------------------------------------------------------------------------

  /** What CAPI returns: a message as long as its length field says, and for a DATA_B3_IND the
      bytes behind its data pointer. */
  predicate FromCapi(m: Message, payload: seq<byte>) {
    |m| >= 8 && Len(m) == |m| &&
    (IsDataB3(m, IND) && |m| >= 18 ==> |payload| == DataLen(m)) &&
    (!IsDataB3(m, IND) || |m| < 18 ==> payload == [])
  }

  /** A DATA_B3_IND too short to have a payload is sent, but marked as a parse error. */
  predicate ShortIndication(m: Message)
    requires |m| >= 6
  {
    IsDataB3(m, IND) && |m| < 18
  }
}
