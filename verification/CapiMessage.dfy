/** The fields of a CAPI 2.0 message that the proxy looks at or rewrites (Part I,
    section 3.3, and DATA_B3 in chapter 5). */
module CapiMessage {
  import opened Bytes

  type Message = seq<byte>

  const DATA_B3: byte := 0x86
  const REQ: byte := 0x80
  const IND: byte := 0x82

  function Len(m: Message): word
    requires |m| >= 2
  {
    U16(m, 0)
  }

  function AppId(m: Message): word
    requires |m| >= 4
  {
    U16(m, 2)
  }

  function Command(m: Message): byte
    requires |m| >= 6
  {
    m[4]
  }

  function Subcommand(m: Message): byte
    requires |m| >= 6
  {
    m[5]
  }

  function Control(m: Message): dword
    requires |m| >= 12
  {
    U32(m, 8)
  }

  function DataPointer(m: Message): dword
    requires |m| >= 18
  {
    U32(m, 12)
  }

  function DataLen(m: Message): word
    requires |m| >= 18
  {
    U16(m, 16)
  }

  function SetAppId(m: Message, a: word): Message
    requires |m| >= 4
  {
    Splice(m, 2, Bytes16(a))
  }

  function SetControl(m: Message, v: dword): Message
    requires |m| >= 12
  {
    Splice(m, 8, Bytes32(v))
  }

  /** `ncci &= 0xFFFFFF80; ncci += ctrl`, in 32-bit arithmetic. */
  function WithController(ncci: dword, ctrl: byte): dword {
    Wrap(ncci - ncci % 0x80 + ctrl)
  }

  /** The mask of the source is the subtraction of the model. */
  lemma MaskClearsLowSeven(x: bv32)
    ensures x & 0xFFFF_FF80 == x - x % 0x80
  {
  }

  /** The low byte after masking and adding: its top bit stays. */
  function LowByte(b: byte, ctrl: byte): (r: int)
    ensures r == b - b % 0x80 + ctrl
  {
    (if b < 0x80 then 0 else 0x80) + ctrl
  }

  lemma LowSeven(a: byte, k: nat)
    ensures (a + 0x100 * k) % 0x80 == a % 0x80
  {
  }

  /** The sum before it is cut to 32 bits. */
  lemma ControllerSum(a: byte, b: byte, c: byte, d: byte, ctrl: byte)
    ensures WithController(Value(a, b, c, d), ctrl) == Wrap(LowByte(a, ctrl) + 0x100 * Value(b, c, d, 0))
  {
    LowSeven(a, Value(b, c, d, 0));
  }

  lemma ControllerInside(a: byte, b: byte, c: byte, d: byte, ctrl: byte)
    requires LowByte(a, ctrl) < 0x100
    ensures WithController(Value(a, b, c, d), ctrl) == Value(LowByte(a, ctrl), b, c, d)
  {
    ControllerSum(a, b, c, d, ctrl);
    WrapIs(Value(LowByte(a, ctrl), b, c, d));
  }

  lemma SecondDigit(q: int, r: int, a: byte)
    requires 0 <= r < 0x100
    ensures (a + 0x100 * (r + 0x100 * q)) / 0x100 % 0x100 == r
  {
    LowDigit(r + 0x100 * q, a);
    LowDigit(q, r);
  }

  function Wrap(v: nat): dword {
    v % 0x1_0000_0000
  }

  lemma WrapIs(v: nat)
    ensures v < 0x1_0000_0000 ==> Wrap(v) == v
    ensures 0x1_0000_0000 <= v < 0x2_0000_0000 ==> Wrap(v) == v - 0x1_0000_0000
  {
  }

  lemma WrapAgain(a: nat, b: nat)
    ensures Wrap(Wrap(a) + b) == Wrap(a + b)
  {
  }

  /** The controller rewrite touches nothing but byte 8 exactly when the sum stays
      inside that byte, as it does for every controller number below 128. */
  lemma ControllerRewrite(m: Message, ctrl: byte)
    requires |m| >= 12
    ensures ctrl < 0x80 ==> LowByte(m[8], ctrl) < 0x100
    ensures LowByte(m[8], ctrl) < 0x100 ==>
      SetControl(m, WithController(Control(m), ctrl)) == m[8 := LowByte(m[8], ctrl)]
    ensures LowByte(m[8], ctrl) >= 0x100 ==>
      SetControl(m, WithController(Control(m), ctrl))[9] == (m[9] as int + 1) % 0x100 != m[9]
  {
    SmallControllersFit(m[8], ctrl);
    if LowByte(m[8], ctrl) < 0x100 {
      RewriteInside(m, ctrl);
    } else {
      RewriteCarries(m, ctrl);
    }
  }

  lemma SmallControllersFit(b: byte, ctrl: byte)
    ensures ctrl < 0x80 ==> LowByte(b, ctrl) < 0x100
  {
  }

  lemma RewriteInside(m: Message, ctrl: byte)
    requires |m| >= 12 && LowByte(m[8], ctrl) < 0x100
    ensures SetControl(m, WithController(Control(m), ctrl)) == m[8 := LowByte(m[8], ctrl)]
  {
    var low: byte := LowByte(m[8], ctrl);
    ControllerInside(m[8], m[9], m[10], m[11], ctrl);
    DigitsOf(low, m[9], m[10], m[11]);
    SpliceOneByte(m, low);
  }

  lemma RewriteCarries(m: Message, ctrl: byte)
    requires |m| >= 12 && LowByte(m[8], ctrl) >= 0x100
    ensures SetControl(m, WithController(Control(m), ctrl))[9] == (m[9] as int + 1) % 0x100
  {
    ControllerSum(m[8], m[9], m[10], m[11], ctrl);
    SumCarries(m, WithController(Control(m), ctrl), LowByte(m[8], ctrl));
  }

  lemma SumCarries(m: Message, x: dword, low: int)
    requires |m| >= 12 && 0x100 <= low < 0x200 && x == Wrap(low + 0x100 * Value(m[9], m[10], m[11], 0))
    ensures SetControl(m, x)[9] == (m[9] as int + 1) % 0x100
  {
    SumShows(x, low, m[9], m[10], m[11]);
    SpliceSecondByte(m, x);
  }

  lemma SumShows(x: dword, low: int, b: byte, c: byte, d: byte)
    requires 0x100 <= low < 0x200 && x == Wrap(low + 0x100 * Value(b, c, d, 0))
    ensures x / 0x100 % 0x100 == (b as int + 1) % 0x100
  {
    WrappedShows(x, low - 0x100, b, Value(c, d, 0, 0), low + 0x100 * Value(b, c, d, 0));
  }

  lemma WrappedShows(x: dword, a: byte, b: byte, q: nat, sum: nat)
    requires q < 0x1_0000 && sum == a + 0x100 * (b as int + 1 + 0x100 * q) && x == Wrap(sum)
    ensures x / 0x100 % 0x100 == (b as int + 1) % 0x100
  {
    WrapIs(sum);
    if b < 0xFF {
      SecondDigit(q, b as int + 1, a);
    } else if q < 0xFFFF {
      SecondDigit(q + 1, 0, a);
    }
  }

  lemma SpliceOneByte(m: Message, b: byte)
    requires |m| >= 12
    ensures Splice(m, 8, [b, m[9], m[10], m[11]]) == m[8 := b]
  {
  }

  lemma SpliceSecondByte(m: Message, v: dword)
    requires |m| >= 12
    ensures SetControl(m, v)[9] == v / 0x100 % 0x100
  {
    assert SetControl(m, v)[9] == SetControl(m, v)[8..12][1];
  }

  lemma AppIdRewrite(m: Message, a: word)
    requires |m| >= 4
    ensures AppId(SetAppId(m, a)) == a
    ensures SetAppId(m, a)[..2] == m[..2] && SetAppId(m, a)[4..] == m[4..]
  {
    var r := SetAppId(m, a);
    assert r[2] == r[2..4][0] && r[3] == r[2..4][1];
  }

  /** Mapping an id out and back restores the message when the second map undoes the first. */
  lemma AppIdThereAndBack(m: Message, a: word)
    requires |m| >= 4
    ensures SetAppId(SetAppId(m, a), AppId(m)) == m
  {
    LowDigit(m[3], m[2]);
    var r := SetAppId(SetAppId(m, a), AppId(m));
    assert r[2] == r[2..4][0] && r[3] == r[2..4][1];
    assert forall k :: 0 <= k < |m| ==> r[k] == m[k];
  }
}
