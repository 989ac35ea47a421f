/** The PS/2 keyboard: a byte-stream decoder feeding the key buffer. */
module Keyboard {
  import opened RingBuffers

  const ACK: bv8 := 0xFA
  const RESEND: bv8 := 0xFE
  const EXTENDED: bv8 := 0xE0
  const MAX_RETRY := 3
  const DATA_PORT: nat := 0x60
  const CMD_PORT: nat := 0x64
  const DISABLE_PORT1: bv8 := 0xAD
  const CAPACITY := 255

  datatype Signal = Ack | Nack | Error
  datatype Mode = None | E0
  datatype PortWrite = PortWrite(port: nat, value: bv8)

  predicate IsRelease(b: bv8) {
    b & 0x80 != 0
  }

  function SingleByte(b: bv8): bv8 {
    b & 0x7F
  }

  function ExtendCode(b: bv8): bv8 {
    0x80 | (b & 0x7F)
  }

  /** The device's fields, with the buffer as a sequence. */
  datatype State = State(lastData: bv8, nackCount: nat, signal: Signal, mode: Mode, keys: seq<bv8>)

  predicate IsReply(b: bv8) {
    b == ACK || b == RESEND
  }

  /** The key a byte completes in a given mode, if any. */
  function KeyOf(mode: Mode, b: bv8): seq<bv8> {
    if b == EXTENDED || IsRelease(b) then [] else [if mode == E0 then ExtendCode(b) else SingleByte(b)]
  }

  /** One byte from the controller. */
  function Receive(s: State, b: bv8): State {
    if b == ACK then s.(signal := Ack, nackCount := 0)
    else if b == RESEND then
      if s.nackCount + 1 >= MAX_RETRY then s.(signal := Error, nackCount := 0) else s.(signal := Nack, nackCount := s.nackCount + 1)
    else if b == EXTENDED then s.(mode := E0)
    else s.(mode := None, keys := s.keys + KeyOf(s.mode, b))
  }

  /** The driver panics exactly when a key arrives at a full buffer. */
  predicate Overflows(s: State, b: bv8) {
    !IsReply(b) && KeyOf(s.mode, b) != [] && |s.keys| >= 254
  }

  class Ps2Keyboard {
    var lastData: bv8
    var nackCount: nat
    const data: RingBuffer<bv8>
    var signal: Signal
    var stateMachine: Mode

    ghost predicate Valid()
      reads this, data
    {
      data.Valid() && data.cap.Length == CAPACITY && nackCount < MAX_RETRY
    }

    ghost function S(): State
      requires Valid()
      reads this, data, data.cap
    {
      State(lastData, nackCount, signal, stateMachine, data.Contents())
    }

    constructor ()
      ensures Valid() && fresh(data) && fresh(data.cap) && S() == State(0, 0, Ack, None, [])
    {
      lastData, nackCount, signal, stateMachine := 0, 0, Ack, None;
      data := new RingBuffer(CAPACITY);
    }

    method WriteData(b: bv8) returns (sent: PortWrite)
      modifies this`lastData
      ensures lastData == b && sent == PortWrite(DATA_PORT, b)
    {
      lastData := b;
      sent := PortWrite(DATA_PORT, b);
    }

    /** `sent` is what goes out to the controller; `ok == false` is the panic that halts the machine. */
    method OnReceive(b: bv8) returns (ok: bool, sent: seq<PortWrite>)
      requires Valid()
      modifies this, data, data.cap
      ensures Valid() && ok == !Overflows(old(S()), b)
      ensures ok ==> S() == Receive(old(S()), b)
      ensures sent == if b != 0xFE then []
                      else if old(nackCount) == 2 then [PortWrite(0x64, 0xAD)]
                      else [PortWrite(0x60, old(lastData))]
    {
      hide IsRelease, SingleByte, ExtendCode;
      ok, sent := true, [];
      if b == ACK {
        signal := Ack;
        nackCount := 0;
        return;
      } else if b == RESEND {
        signal := Nack;
        nackCount := nackCount + 1;
        if nackCount >= MAX_RETRY {
          nackCount := 0;
          signal := Error;
          sent := [PortWrite(CMD_PORT, DISABLE_PORT1)];
          return;
        }
        var w := WriteData(lastData);
        sent := [w];
        return;
      } else if b == EXTENDED {
        stateMachine := E0;
        return;
      }
      var code := if stateMachine == None then SingleByte(b) else ExtendCode(b);
      stateMachine := None;
      if IsRelease(b) {
        assert old(S()).keys + [] == old(S()).keys;
        return;
      }
      ok := data.BufWrite(code);
    }

    /** A reader takes the oldest key; `ok == false` if there is none. */
    method TakeKey() returns (ok: bool, key: bv8)
      requires Valid()
      modifies data
      ensures Valid() && ok == (old(S()).keys != [])
      ensures if ok then key == old(S()).keys[0] && S() == old(S()).(keys := old(S()).keys[1..]) else S() == old(S())
    {
      key := data.GetRead();
      ok := data.BufRead();
    }
  }

  // Streams.

  /** The keys in a stream without controller replies. */
  function Decode(mode: Mode, bytes: seq<bv8>): seq<bv8>
    decreases |bytes|
  {
    if bytes == [] then []
    else KeyOf(mode, bytes[0]) + Decode(if bytes[0] == EXTENDED then E0 else None, bytes[1..])
  }

  function WithoutReplies(bytes: seq<bv8>): seq<bv8> {
    if bytes == [] then [] else (if IsReply(bytes[0]) then [] else [bytes[0]]) + WithoutReplies(bytes[1..])
  }

  datatype Event = Byte(value: bv8) | Take

  function Bytes(es: seq<Event>): seq<bv8> {
    if es == [] then [] else (if es[0].Byte? then [es[0].value] else []) + Bytes(es[1..])
  }

  /** Device state and the keys taken so far. */
  function Play(s: State, taken: seq<bv8>, es: seq<Event>): (State, seq<bv8>)
    decreases |es|
  {
    if es == [] then (s, taken)
    else match es[0]
      case Byte(b) => Play(Receive(s, b), taken, es[1..])
      case Take => if s.keys == [] then Play(s, taken, es[1..]) else Play(s.(keys := s.keys[1..]), taken + [s.keys[0]], es[1..])
  }

  /** No key arrives at a full buffer. */
  predicate Keeps(s: State, es: seq<Event>)
    decreases |es|
  {
    es == [] || match es[0]
      case Byte(b) => !Overflows(s, b) && Keeps(Receive(s, b), es[1..])
      case Take => Keeps(if s.keys == [] then s else s.(keys := s.keys[1..]), es[1..])
  }

  lemma WithoutFirst(b: bv8, rest: seq<bv8>)
    ensures WithoutReplies([b] + rest) == (if IsReply(b) then [] else [b]) + WithoutReplies(rest)
  {
    assert ([b] + rest)[1..] == rest;
  }

  lemma DecodeFirst(mode: Mode, b: bv8, rest: seq<bv8>)
    ensures Decode(mode, [b] + rest) == KeyOf(mode, b) + Decode(if b == EXTENDED then E0 else None, rest)
  {
    assert ([b] + rest)[1..] == rest;
  }

  /** Keyboard stream: whatever bytes arrive and however reads fall between them, the keys taken followed by the
      keys still buffered are the decode of the stream with the controller's replies deleted. No key is lost,
      repeated or reordered, the buffer stays below its capacity and the retry counter below its limit. */
  lemma {:induction false} StreamDecoded(s: State, taken: seq<bv8>, es: seq<Event>)
    requires s.nackCount < MAX_RETRY && |s.keys| < CAPACITY && Keeps(s, es)
    ensures var (r, keys) := Play(s, taken, es);
      && keys + r.keys == taken + s.keys + Decode(s.mode, WithoutReplies(Bytes(es)))
      && r.nackCount < MAX_RETRY && |r.keys| < CAPACITY
    decreases |es|
  {
    if es == [] {
      assert taken + s.keys == taken + s.keys + [];
    } else {
      match es[0] {
        case Byte(b) =>
          var rest := WithoutReplies(Bytes(es[1..]));
          StreamDecoded(Receive(s, b), taken, es[1..]);
          WithoutFirst(b, Bytes(es[1..]));
          if IsReply(b) {
            assert [] + rest == rest;
          } else {
            DecodeFirst(s.mode, b, rest);
            ReceiveKey(s, taken, b, Decode(if b == EXTENDED then E0 else None, rest));
          }
        case Take =>
          assert [] + Bytes(es[1..]) == Bytes(es[1..]);
          if s.keys == [] {
            StreamDecoded(s, taken, es[1..]);
          } else {
            StreamDecoded(s.(keys := s.keys[1..]), taken + [s.keys[0]], es[1..]);
            assert taken + [s.keys[0]] + s.keys[1..] == taken + s.keys;
          }
      }
    }
  }

  lemma ReceiveKey(s: State, taken: seq<bv8>, b: bv8, rest: seq<bv8>)
    requires !IsReply(b)
    ensures Receive(s, b).keys == s.keys + KeyOf(s.mode, b) && Receive(s, b).mode == if b == EXTENDED then E0 else None
    ensures taken + (s.keys + KeyOf(s.mode, b)) + rest == taken + s.keys + (KeyOf(s.mode, b) + rest)
  {
  }

  /** A pressed key and its extended twin never share a code. */
  lemma CodesDiffer(a: bv8, b: bv8)
    requires !IsRelease(a) && !IsRelease(b)
    ensures KeyOf(None, a) != KeyOf(E0, b)
    ensures KeyOf(None, a) == KeyOf(None, b) <==> a == b
    ensures KeyOf(E0, a) == KeyOf(E0, b) <==> a == b
  {
  }

  // What a keyboard sends.

  /** A key going down or up, with or without the prefix. */
  datatype Stroke = Stroke(prefixed: bool, code: bv8, down: bool)

  /** A press is the seven-bit code, a release has the top bit set. */
  function Wire(k: Stroke): seq<bv8>
    requires k.code < 0x80
  {
    (if k.prefixed then [0xE0] else []) + [if k.down then k.code else k.code + 0x80]
  }

  function Wires(ks: seq<Stroke>): seq<bv8>
    requires forall k | k in ks :: k.code < 0x80
  {
    if ks == [] then [] else Wire(ks[0]) + Wires(ks[1..])
  }

  function Pressed(k: Stroke): seq<bv8>
    requires k.code < 0x80
  {
    if !k.down then [] else [if k.prefixed then k.code + 0x80 else k.code]
  }

  /** The codes of the keys that went down. */
  function Presses(ks: seq<Stroke>): seq<bv8>
    requires forall k | k in ks :: k.code < 0x80
  {
    if ks == [] then [] else Pressed(ks[0]) + Presses(ks[1..])
  }

  /** No release that looks like a prefix, or like a reply where its prefix would be left over. */
  predicate Readable(k: Stroke) {
    k.down || (k.code != 0x60 && (k.prefixed ==> k.code != 0x7A && k.code != 0x7E))
  }

  /** The key a byte completes: in plain mode its own code, after the prefix its extended twin, on release none. */
  lemma KeyCodes(b: bv8)
    ensures KeyOf(None, b) == if b < 0x80 then [b] else []
    ensures KeyOf(E0, b) == if b < 0x80 then [b + 0x80] else []
  {
  }

  lemma BareDecoded(mode: Mode, b: bv8, rest: seq<bv8>)
    ensures Decode(mode, WithoutReplies([b] + rest)) ==
      if IsReply(b) then Decode(mode, WithoutReplies(rest))
      else KeyOf(mode, b) + Decode(if b == 0xE0 then E0 else None, WithoutReplies(rest))
  {
    WithoutFirst(b, rest);
    DecodeFirst(mode, b, WithoutReplies(rest));
    hide Decode, WithoutReplies;
    assert [] + WithoutReplies(rest) == WithoutReplies(rest);
  }

  /** What one stroke contributes, and the mode it leaves. */
  lemma StrokeDecoded(k: Stroke, rest: seq<bv8>)
    requires k.code < 0x80
    ensures Decode(None, WithoutReplies(Wire(k) + rest)) ==
      Pressed(k) + Decode(if Readable(k) then None else E0, WithoutReplies(rest))
  {
    var b: bv8 := if k.down then k.code else k.code + 0x80;
    BareDecoded(None, b, rest);
    BareDecoded(E0, b, rest);
    BareDecoded(None, 0xE0, [b] + rest);
    KeyCodes(b);
    KeyCodes(0xE0);
    hide Decode, WithoutReplies, KeyOf;
    var e := Decode(E0, WithoutReplies(rest));
    var n := Decode(None, WithoutReplies(rest));
    assert [] + e == e && [] + n == n;
    assert Wire(k) + rest == if k.prefixed then [0xE0] + ([b] + rest) else [b] + rest;
    assert [] + Decode(E0, WithoutReplies([b] + rest)) == Decode(E0, WithoutReplies([b] + rest));
  }

  /** Round trip: the decoder gives back the keys pressed, in order, whatever is released in between. */
  lemma {:induction false} StrokesDecoded(ks: seq<Stroke>)
    requires forall k | k in ks :: k.code < 0x80 && Readable(k)
    ensures Decode(None, WithoutReplies(Wires(ks))) == Presses(ks)
  {
    if ks != [] {
      StrokesDecoded(ks[1..]);
      StrokeDecoded(ks[0], Wires(ks[1..]));
    }
  }

  lemma LastPress(mode: Mode, next: bv8)
    requires next < 0x80
    ensures Decode(mode, WithoutReplies([next])) == [if mode == E0 then next + 0x80 else next]
  {
    BareDecoded(mode, next, []);
    KeyCodes(next);
    hide KeyOf;
    assert [next] + [] == [next];
  }

  lemma OneStroke(k: Stroke)
    requires k.code < 0x80
    ensures Wires([k]) == Wire(k) && Presses([k]) == Pressed(k)
  {
    hide Wire, Pressed;
    assert [k][1..] == [];
    assert Wires([k]) == Wire(k) + Wires([]) && Presses([k]) == Pressed(k) + Presses([]);
  }

  lemma TwoStrokes(k: Stroke, next: Stroke)
    requires k.code < 0x80 && next.code < 0x80
    ensures Wires([k, next]) == Wire(k) + Wire(next) && Presses([k, next]) == Pressed(k) + Pressed(next)
  {
    OneStroke(next);
    var ks := [k, next];
    hide Wire, Pressed;
    assert ks[1..] == [next];
    assert Wires(ks) == Wire(ks[0]) + Wires(ks[1..]);
    assert Presses(ks) == Pressed(ks[0]) + Presses(ks[1..]);
  }

  /** The condition is exact: after any other stroke the next plain press is read as its extended twin. */
  lemma StrokeMisread(k: Stroke, next: bv8)
    requires k.code < 0x80 && next < 0x80
    ensures var ks := [k, Stroke(false, next, true)];
      Decode(None, WithoutReplies(Wires(ks))) == Presses(ks) <==> Readable(k)
  {
    var last := Stroke(false, next, true);
    TwoStrokes(k, last);
    assert Wire(last) == [next] && Pressed(last) == [next] && next != next + 0x80;
    StrokeDecoded(k, [next]);
    LastPress(None, next);
    LastPress(E0, next);
    hide *;
    Appended(Pressed(k), next, next + 0x80);
  }

  lemma Appended(q: seq<bv8>, a: bv8, b: bv8)
    ensures q + [a] == q + [b] <==> a == b
  {
    assert (q + [a])[|q|] == a && (q + [b])[|q|] == b;
  }

  function Feed(s: State, bytes: seq<bv8>): State {
    if bytes == [] then s else Receive(Feed(s, bytes[..|bytes| - 1]), bytes[|bytes| - 1])
  }

  function Resends(n: nat): seq<bv8> {
    seq(n, i => 0xFE)
  }

  /** Every third refusal in a row gives up and starts counting anew; an acknowledgement forgets them all. Keys and
      decoder are not touched. */
  lemma {:induction false} RetriesGiveUp(s: State, n: nat)
    requires s.nackCount == 0 && n > 0
    ensures var r := Feed(s, Resends(n));
      && r == s.(nackCount := n % 3, signal := if n % 3 == 0 then Error else Nack)
      && Receive(r, 0xFA) == s.(signal := Ack)
  {
    assert Resends(n)[..n - 1] == Resends(n - 1);
    if n > 1 {
      RetriesGiveUp(s, n - 1);
    }
  }
}
