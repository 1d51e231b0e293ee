/** Requests on the server's byte stream: `recvn` and the receive loop of the server. */
module Framing {
  import opened Bytes
  import opened Packets

  /** How a conversation stops: the peer closed, the socket failed, or a length field left the
      packet buffer (what the C program does then depends on the memory behind the buffer). */
  datatype End = Closed | Failed | Overrun

  datatype Conversation = Conversation(frames: seq<seq<byte>>, end: End)

  function EndOf(fails: bool): (r: End)
    ensures fails ==> r.Failed?
    ensures !fails ==> r.Closed?
  {
    if fails then Failed else Closed
  }

  /** The frames the dispatcher sees when exactly `stream` arrives before the connection ends. */
  function Parse(stream: seq<byte>, fails: bool): Conversation
    decreases |stream|
  {
    if |stream| < REQUEST_HEADER_LEN then Conversation([], EndOf(fails))
    else
      var n := U32(stream, 0);
      if n < REQUEST_HEADER_LEN || n > PACKET_SIZE then Conversation([], Overrun)
      else if n == REQUEST_HEADER_LEN then Conversation([], Closed)
      else if |stream| < n then Conversation([], EndOf(fails))
      else
        var rest := Parse(stream[n..], fails);
        Conversation([stream[..n]] + rest.frames, rest.end)
  }

  predicate IsFrame(f: seq<byte>) {
    REQUEST_HEADER_LEN < |f| <= PACKET_SIZE && U32(f, 0) == |f|
  }

  function Concat(fs: seq<seq<byte>>): seq<byte> {
    if fs == [] then [] else fs[0] + Concat(fs[1..])
  }

  // ---- the stream determines the frames, and the frames the stream ------------------------

  lemma FrameFirst(f: seq<byte>, tail: seq<byte>, fails: bool)
    requires IsFrame(f)
    ensures Parse(f + tail, fails) ==
      Conversation([f] + Parse(tail, fails).frames, Parse(tail, fails).end)
  {
    var s := f + tail;
    assert U32(s, 0) == U32(f, 0);
    assert s[..|f|] == f && s[|f|..] == tail;
  }

  /** Whole frames come out as they went in; what follows them is parsed on its own. */
  lemma {:induction false} FramesComeOut(fs: seq<seq<byte>>, tail: seq<byte>, fails: bool)
    requires forall f | f in fs :: IsFrame(f)
    ensures Parse(Concat(fs) + tail, fails) ==
      Conversation(fs + Parse(tail, fails).frames, Parse(tail, fails).end)
  {
    if fs == [] {
      assert Concat(fs) + tail == tail;
      assert fs + Parse(tail, fails).frames == Parse(tail, fails).frames;
    } else {
      assert Concat(fs) + tail == fs[0] + (Concat(fs[1..]) + tail);
      FramesComeOut(fs[1..], tail, fails);
      FrameFirst(fs[0], Concat(fs[1..]) + tail, fails);
      assert fs + Parse(tail, fails).frames == [fs[0]] + (fs[1..] + Parse(tail, fails).frames);
    }
  }

  /** A stream cut inside a frame yields the frames before it and nothing of the cut one. */
  lemma TruncationYieldsWholeFrames(fs: seq<seq<byte>>, f: seq<byte>, cut: nat, fails: bool)
    requires IsFrame(f) && cut < |f| && forall g | g in fs :: IsFrame(g)
    ensures Parse(Concat(fs) + f[..cut], fails) == Conversation(fs, EndOf(fails))
  {
    FramesComeOut(fs, f[..cut], fails);
    if cut >= REQUEST_HEADER_LEN {
      assert U32(f[..cut], 0) == U32(f, 0);
    }
    assert fs + [] == fs;
  }

  /** A request that is all header ends the session, whatever was still to come. */
  lemma HeaderOnlyEndsTheSession(fs: seq<seq<byte>>, header: seq<byte>, rest: seq<byte>, fails: bool)
    requires |header| == REQUEST_HEADER_LEN == U32(header, 0) && forall g | g in fs :: IsFrame(g)
    ensures Parse(Concat(fs) + (header + rest), fails) == Conversation(fs, Closed)
  {
    FramesComeOut(fs, header + rest, fails);
    assert U32(header + rest, 0) == U32(header, 0);
    assert fs + [] == fs;
  }

  /** A length that cannot be one ends the conversation before anything is read for it. */
  lemma WrongLengthOverruns(fs: seq<seq<byte>>, rest: seq<byte>, fails: bool)
    requires |rest| >= 36 && (U32(rest, 0) < 36 || U32(rest, 0) > 10000) && forall g | g in fs :: IsFrame(g)
    ensures Parse(Concat(fs) + rest, fails) == Conversation(fs, Overrun)
  {
    FramesComeOut(fs, rest, fails);
    assert fs + [] == fs;
  }

  /** Nothing else comes out: the frames are proper, and they are the start of the stream. */
  lemma {:induction false} OnlyFramesComeOut(stream: seq<byte>, fails: bool)
    ensures var c := Parse(stream, fails);
      (forall f | f in c.frames :: IsFrame(f)) && Concat(c.frames) <= stream
    decreases |stream|
  {
    var c := Parse(stream, fails);
    if c.frames != [] {
      var n := U32(stream, 0);
      OnlyFramesComeOut(stream[n..], fails);
      assert U32(stream[..n], 0) == n;
      assert c.frames[1..] == Parse(stream[n..], fails).frames;
      assert stream == stream[..n] + stream[n..];
    }
  }

  // ---- the socket -------------------------------------------------------------------------

  /** A connected socket: the pieces in which the peer's bytes arrive, and how it ends. */
  class Socket {
    var chunks: seq<seq<byte>>
    const fails: bool

    constructor (chunks: seq<seq<byte>>, fails: bool)
      requires forall c | c in chunks :: c != []
      ensures Valid() && this.chunks == chunks && this.fails == fails
    {
      this.chunks := chunks;
      this.fails := fails;
    }

    ghost predicate Valid()
      reads this
    {
      forall c | c in chunks :: c != []
    }

    ghost function Pending(): seq<byte>
      reads this
    {
      Concat(chunks)
    }

    /** `recv`: some of what has arrived, at most `left` bytes; 0 or -1 when nothing ever will. */
    method Recv(buf: array<byte>, off: nat, left: nat) returns (n: int)
      requires Valid() && 0 < left && off + left <= buf.Length
      modifies this, buf
      ensures Valid()
      ensures old(Pending()) == [] ==> n == (if fails then -1 else 0) && Pending() == [] && buf[..] == old(buf[..])
      ensures old(Pending()) != [] ==>
        0 < n <= left && n <= |old(Pending())| && Pending() == old(Pending())[n..] &&
        buf[..] == Splice(old(buf[..]), off, old(Pending())[..n])
    {
      if chunks == [] {
        return if fails then -1 else 0;
      }
      var c, rest := chunks[0], chunks[1..];
      assert c in chunks && forall d | d in rest :: d in chunks;
      ghost var all := Pending();
      assert all == c + Concat(rest);
      n := if |c| <= left then |c| else left;
      ghost var before := buf[..];
      forall i | 0 <= i < n {
        buf[off + i] := c[i];
      }
      assert buf[..] == Splice(before, off, c[..n]);
      assert c[..n] == all[..n];
      if n == |c| {
        chunks := rest;
        assert all[n..] == Concat(rest);
      } else {
        chunks := [c[n..]] + rest;
        assert chunks[1..] == rest;
        assert all[n..] == c[n..] + Concat(rest);
      }
    }
  }

  /** `recvn`: exactly `size` bytes, or the end. */
  method RecvN(sock: Socket, buf: array<byte>, off: nat, size: nat) returns (n: int)
    requires sock.Valid() && off + size <= buf.Length
    modifies sock, buf
    ensures sock.Valid()
    ensures size <= |old(sock.Pending())| ==>
      n == size && sock.Pending() == old(sock.Pending())[size..] &&
      buf[..] == Splice(old(buf[..]), off, old(sock.Pending())[..size])
    ensures size > |old(sock.Pending())| ==> n == (if sock.fails then -1 else 0)
  {
    var left := size;
    ghost var all := sock.Pending();
    ghost var was := buf[..];
    while left > 0
      invariant 0 <= left <= size && sock.Valid()
      invariant size - left <= |all| && sock.Pending() == all[size - left..]
      invariant buf[..] == Splice(was, off, all[..size - left])
    {
      var got := size - left;
      var m := sock.Recv(buf, off + got, left);
      if m <= 0 {
        return m;
      }
      left := left - m;
      SpliceOn(was, off, all, got, m);
    }
    return size;
  }

  /** Writing a stream piece by piece is writing it at once. */
  lemma SpliceOn(was: seq<byte>, off: nat, all: seq<byte>, got: nat, m: nat)
    requires got + m <= |all| && off + got + m <= |was|
    ensures Splice(Splice(was, off, all[..got]), off + got, all[got..][..m]) == Splice(was, off, all[..got + m])
    ensures all[got..][m..] == all[got + m..]
  {
    assert all[..got] + all[got..][..m] == all[..got + m];
  }

  /** One turn of the receive loop: header, then remainder. Returns the frame's length, or 0
      and how the conversation ends. What comes next depends on the bytes that arrive, never
      on how they are cut into pieces. */
  method NextFrame(sock: Socket, packet: array<byte>) returns (len: nat, end: End)
    requires sock.Valid() && packet.Length == PACKET_SIZE
    modifies sock, packet
    ensures sock.Valid()
    ensures len == 0 ==> Parse(old(sock.Pending()), sock.fails) == Conversation([], end)
    ensures len > 0 ==>
      len <= PACKET_SIZE && IsFrame(packet[..len]) && |sock.Pending()| < |old(sock.Pending())| &&
      Parse(old(sock.Pending()), sock.fails) ==
        Conversation([packet[..len]] + Parse(sock.Pending(), sock.fails).frames, Parse(sock.Pending(), sock.fails).end)
  {
    end := Closed;
    ghost var stream := sock.Pending();
    var numbytes := RecvN(sock, packet, 0, REQUEST_HEADER_LEN);
    if numbytes <= 0 {
      end := if numbytes < 0 then Failed else Closed;
      return 0, end;
    }
    ghost var header := packet[..];
    SameStart(header, stream, REQUEST_HEADER_LEN);
    len := U32(packet[..], 0);
    if len < REQUEST_HEADER_LEN || len > PACKET_SIZE {
      return 0, Overrun;
    }
    numbytes := RecvN(sock, packet, REQUEST_HEADER_LEN, len - REQUEST_HEADER_LEN);
    if numbytes <= 0 {
      end := if numbytes < 0 then Failed else Closed;
      return 0, end;
    }
    ghost var body := stream[REQUEST_HEADER_LEN..][..len - REQUEST_HEADER_LEN];
    assert packet[..len] == header[..REQUEST_HEADER_LEN] + body;
    assert packet[..len] == stream[..len];
    assert sock.Pending() == stream[len..];
    SameStart(packet[..len], stream, REQUEST_HEADER_LEN);
  }

  lemma SameStart(a: seq<byte>, b: seq<byte>, n: nat)
    requires 4 <= n <= |a| && n <= |b| && a[..n] == b[..n]
    ensures U32(a, 0) == U32(b, 0)
  {
    assert forall i | 0 <= i < n :: a[i] == a[..n][i] && b[i] == b[..n][i];
  }
}
