/** The IKBD interrupt handlers: the interrupt vector is the state of a packet parser, fed
    one byte per interrupt. */
module Ikbd {
  import opened Machine

  type buttons = x: int | 0 <= x < 4

  /** Which handler the vector points to: what the next byte will be taken for. */
  datatype Vector = Header | MouseX | MouseY | Joystick

  /** An interrupt of the shared line: from the MIDI port, or a byte from the keyboard. */
  datatype Event = Midi | Keyboard(data: Byte)

  type Table = t: seq<Byte> | |t| == 128 witness Blank(128)

  datatype State = State(vector: Vector, keyboard: Table, mouseb: Word, mousex: Word, mousey: Word, joystick: Word)

  const KEY_PRESSED: Byte := 0xff
  const KEY_UNDEFINED: Byte := 0x80
  const KEY_RELEASED: Byte := 0x00

  /** The table as the demo programs clear it. */
  function Blank(n: nat): (t: seq<Byte>)
    ensures |t| == n && forall k | 0 <= k < n :: t[k] == 0x80
  {
    if n == 0 then [] else Blank(n - 1) + [KEY_UNDEFINED]
  }

  // ---------- one byte ----------

  /** The sign bit of the difference of two bytes, as a byte comparison sets it. */
  predicate Minus(a: Byte, b: Byte) {
    (a - b) % 0x100 >= 0x80
  }

  /** Two byte comparisons, of which the handler tests the sign. */
  predicate TakenForMouse(d: Byte) {
    !Minus(d, 0xf8) && Minus(d, 0xfc)
  }

  /** The sign tests accept the four mouse headers and nothing else. */
  lemma MouseHeaders(d: Byte)
    ensures TakenForMouse(d) <==> 0xf8 <= d <= 0xfb
  {}

  /** The low seven bits of a key byte; the eighth is set on release. */
  function ScanCode(d: Byte): (k: nat)
    ensures k < 128
  {
    d % 0x80
  }

  function KeyMark(d: Byte): Byte {
    if d < 0x80 then KEY_PRESSED else KEY_RELEASED
  }

  function SignExtend(d: Byte): int {
    if d < 0x80 then d else d - 0x100
  }

  /** A 16-bit addition. */
  function AddWord(w: Word, i: int): Word {
    (w + i) % 0x1_0000
  }

  /** A byte moved into the low half of a word. */
  function SetLow(w: Word, d: Byte): Word {
    w - w % 0x100 + d
  }

  function Step(s: State, e: Event): State {
    if e.Midi? then s
    else
      match s.vector
      case Header =>
        if e.data == 0xff then s.(vector := Joystick)
        else if TakenForMouse(e.data) then s.(mouseb := e.data % 4, vector := MouseX)
        else s.(keyboard := s.keyboard[ScanCode(e.data) := KeyMark(e.data)])
      case MouseX => s.(mousex := AddWord(s.mousex, SignExtend(e.data)), vector := MouseY)
      case MouseY => s.(mousey := AddWord(s.mousey, SignExtend(e.data)), vector := Header)
      case Joystick => s.(joystick := SetLow(s.joystick, e.data), vector := Header)
  }

  function Run(s: State, events: seq<Event>): State
    decreases |events|
  {
    if events == [] then s else Run(Step(s, events[0]), events[1..])
  }

  // ---------- packets ----------

  datatype Packet =
    | Key(code: Byte)
    | Mouse(pressed: buttons, dx: Byte, dy: Byte)
    | Stick(position: Byte)

  /** A key code that is not taken for a header. */
  predicate Sendable(p: Packet) {
    match p
    case Key(code) => code < 0xf8 || 0xfb < code < 0xff
    case _ => true
  }

  function Encode(p: Packet): seq<Byte> {
    match p
    case Key(code) => [code]
    case Mouse(pressed, dx, dy) => [0xf8 + pressed, dx, dy]
    case Stick(position) => [0xff, position]
  }

  function EncodeAll(ps: seq<Packet>): seq<Byte> {
    if ps == [] then [] else Encode(ps[0]) + EncodeAll(ps[1..])
  }

  predicate AllSendable(ps: seq<Packet>) {
    forall i | 0 <= i < |ps| :: Sendable(ps[i])
  }

  /** What a whole packet means. */
  function Apply(s: State, p: Packet): State {
    match p
    case Key(code) =>
      s.(keyboard := s.keyboard[ScanCode(code) := if code < 0x80 then KEY_PRESSED else KEY_RELEASED])
    case Mouse(pressed, dx, dy) =>
      s.(mouseb := pressed, mousex := AddWord(s.mousex, SignExtend(dx)), mousey := AddWord(s.mousey, SignExtend(dy)))
    case Stick(position) => s.(joystick := SetLow(s.joystick, position))
  }

  function ApplyAll(s: State, ps: seq<Packet>): State
    decreases |ps|
  {
    if ps == [] then s else ApplyAll(Apply(s, ps[0]), ps[1..])
  }

  /** The keyboard bytes among the interrupts. */
  function Bytes(events: seq<Event>): seq<Byte> {
    if events == [] then []
    else (if events[0].Keyboard? then [events[0].data] else []) + Bytes(events[1..])
  }

  function RunBytes(s: State, bytes: seq<Byte>): State
    decreases |bytes|
  {
    if bytes == [] then s else RunBytes(Step(s, Keyboard(bytes[0])), bytes[1..])
  }

  /** MIDI interrupts change nothing, wherever they fall. */
  lemma {:induction false} MidiTransparent(s: State, events: seq<Event>)
    ensures Run(s, events) == RunBytes(s, Bytes(events))
    decreases |events|
  {
    if events != [] {
      MidiTransparent(Step(s, events[0]), events[1..]);
      if events[0].Keyboard? {
        assert Bytes(events)[1..] == Bytes(events[1..]);
      } else {
        assert Bytes(events) == Bytes(events[1..]);
      }
    }
  }

  lemma {:induction false} RunBytesConcat(s: State, a: seq<Byte>, b: seq<Byte>)
    ensures RunBytes(s, a + b) == RunBytes(RunBytes(s, a), b)
    decreases |a|
  {
    if a == [] {
      assert a + b == b;
    } else {
      assert (a + b)[1..] == a[1..] + b;
      RunBytesConcat(Step(s, Keyboard(a[0])), a[1..], b);
    }
  }

  lemma RunOne(s: State, d: Byte, rest: seq<Byte>)
    ensures RunBytes(s, [d] + rest) == RunBytes(Step(s, Keyboard(d)), rest)
  {
    assert ([d] + rest)[1..] == rest;
  }

  lemma RunTwo(s: State, c: Byte, d: Byte)
    ensures RunBytes(s, [c]) == Step(s, Keyboard(c))
    ensures RunBytes(s, [c, d]) == Step(Step(s, Keyboard(c)), Keyboard(d))
  {
    RunOne(s, c, []);
    RunOne(s, c, [d]);
    RunOne(Step(s, Keyboard(c)), d, []);
    assert [c] + [] == [c] && [c] + [d] == [c, d] && [d] + [] == [d];
  }

  lemma RunThree(s: State, c: Byte, d: Byte, e: Byte)
    ensures RunBytes(s, [c, d, e]) == Step(Step(Step(s, Keyboard(c)), Keyboard(d)), Keyboard(e))
  {
    RunOne(s, c, [d, e]);
    assert [c] + [d, e] == [c, d, e];
    RunTwo(Step(s, Keyboard(c)), d, e);
  }

  /** The bytes of a packet, whatever its payload, have the effect of the packet. */
  lemma PacketRoundTrip(s: State, p: Packet)
    requires s.vector.Header? && Sendable(p)
    ensures RunBytes(s, Encode(p)) == Apply(s, p)
  {
    match p
    case Key(code) => KeyRoundTrip(s, code);
    case Mouse(pressed, dx, dy) => MouseRoundTrip(s, pressed, dx, dy);
    case Stick(position) => StickRoundTrip(s, position);
  }

  lemma StickRoundTrip(s: State, position: Byte)
    requires s.vector.Header?
    ensures RunBytes(s, [0xff, position]) == Apply(s, Stick(position))
  {
    RunTwo(s, 0xff, position);
    StickSteps(s, position);
  }

  lemma StickSteps(s: State, position: Byte)
    requires s.vector.Header?
    ensures Step(Step(s, Keyboard(0xff)), Keyboard(position)) == Apply(s, Stick(position))
  {}

  lemma KeyRoundTrip(s: State, code: Byte)
    requires s.vector.Header? && Sendable(Key(code))
    ensures RunBytes(s, [code]) == Apply(s, Key(code))
  {
    RunTwo(s, code, 0);
    MouseHeaders(code);
    assert !TakenForMouse(code);
  }

  lemma MouseRoundTrip(s: State, pressed: buttons, dx: Byte, dy: Byte)
    requires s.vector.Header?
    ensures RunBytes(s, [0xf8 + pressed, dx, dy]) == Apply(s, Mouse(pressed, dx, dy))
  {
    RunThree(s, 0xf8 + pressed, dx, dy);
    MouseHeaderStep(s, pressed);
    MouseSteps(s, pressed, dx, dy);
  }

  lemma MouseSteps(s: State, pressed: buttons, dx: Byte, dy: Byte)
    requires s.vector.Header?
    ensures Step(Step(s.(mouseb := pressed, vector := MouseX), Keyboard(dx)), Keyboard(dy))
         == Apply(s, Mouse(pressed, dx, dy))
  {}

  lemma MouseHeaderStep(s: State, pressed: buttons)
    requires s.vector.Header?
    ensures Step(s, Keyboard(0xf8 + pressed)) == s.(mouseb := pressed, vector := MouseX)
  {
    MouseHeaders(0xf8 + pressed);
  }

  /** Any packets, with any MIDI interrupts in between, leave the state their fold leaves,
      ready for the next header. */
  lemma {:induction false} RoundTrip(s: State, ps: seq<Packet>, events: seq<Event>)
    requires s.vector.Header? && AllSendable(ps) && Bytes(events) == EncodeAll(ps)
    ensures Run(s, events) == ApplyAll(s, ps) && Run(s, events).vector.Header?
  {
    MidiTransparent(s, events);
    BytesRoundTrip(s, ps);
  }

  lemma {:induction false} BytesRoundTrip(s: State, ps: seq<Packet>)
    requires s.vector.Header? && AllSendable(ps)
    ensures RunBytes(s, EncodeAll(ps)) == ApplyAll(s, ps) && ApplyAll(s, ps).vector.Header?
    decreases |ps|
  {
    if ps != [] {
      PacketRoundTrip(s, ps[0]);
      RunBytesConcat(s, Encode(ps[0]), EncodeAll(ps[1..]));
      BytesRoundTrip(Apply(s, ps[0]), ps[1..]);
    }
  }

  // ---------- what packets mean, in numbers ----------

  /** A mouse packet moves by its signed displacements, modulo 2^16. */
  lemma MouseMoves(s: State, pressed: buttons, dx: int, dy: int)
    requires s.vector.Header? && -128 <= dx < 128 && -128 <= dy < 128
    ensures RunBytes(s, [0xf8 + pressed, dx % 0x100, dy % 0x100])
         == s.(mouseb := pressed, mousex := (s.mousex + dx) % 0x1_0000, mousey := (s.mousey + dy) % 0x1_0000)
  {
    MouseRoundTrip(s, pressed, dx % 0x100, dy % 0x100);
    SignedByte(dx);
    SignedByte(dy);
  }

  lemma SignedByte(d: int)
    requires -128 <= d < 128
    ensures SignExtend(d % 0x100) == d
  {}

  /** The displacements of all mouse packets added up: columns, or lines. */
  function Moved(ps: seq<Packet>, lines: bool): int {
    if ps == [] then 0
    else
      Moved(ps[1..], lines)
      + match ps[0]
        case Mouse(_, dx, dy) =>
          if lines then (if dy < 128 then dy else dy - 256) else if dx < 128 then dx else dx - 256
        case _ => 0
  }

  /** The table entry of key `k`, which was `mark`: pressed or released by its last packet. */
  function MarkAfter(ps: seq<Packet>, k: nat, mark: Byte): Byte {
    if ps == [] then mark
    else
      match ps[|ps| - 1]
      case Key(code) =>
        if code == k then 0xff else if code == k + 128 then 0 else MarkAfter(ps[..|ps| - 1], k, mark)
      case _ => MarkAfter(ps[..|ps| - 1], k, mark)
  }

  /** The buttons of the last mouse packet, and the position of the last joystick packet. */
  function ButtonsAfter(ps: seq<Packet>, was: Word): Word {
    if ps == [] then was
    else if ps[|ps| - 1].Mouse? then ps[|ps| - 1].pressed else ButtonsAfter(ps[..|ps| - 1], was)
  }

  function StickAfter(ps: seq<Packet>, was: Byte): Byte {
    if ps == [] then was
    else if ps[|ps| - 1].Stick? then ps[|ps| - 1].position else StickAfter(ps[..|ps| - 1], was)
  }

  lemma AddTwice(w: int, i: int, j: int)
    ensures ((w + i) % 0x1_0000 + j) % 0x1_0000 == (w + (j + i)) % 0x1_0000
  {}

  lemma {:induction false} MovesAdd(s: State, ps: seq<Packet>)
    ensures ApplyAll(s, ps).mousex == (s.mousex + Moved(ps, false)) % 0x1_0000
    ensures ApplyAll(s, ps).mousey == (s.mousey + Moved(ps, true)) % 0x1_0000
    decreases |ps|
  {
    if ps != [] {
      MovesAdd(Apply(s, ps[0]), ps[1..]);
      if ps[0].Mouse? {
        var Mouse(_, dx, dy) := ps[0];
        AddTwice(s.mousex, if dx < 128 then dx else dx - 256, Moved(ps[1..], false));
        AddTwice(s.mousey, if dy < 128 then dy else dy - 256, Moved(ps[1..], true));
      }
    }
  }

  lemma {:induction false} ApplyLast(s: State, ps: seq<Packet>)
    requires ps != []
    ensures ApplyAll(s, ps) == Apply(ApplyAll(s, ps[..|ps| - 1]), ps[|ps| - 1])
    decreases |ps|
  {
    if |ps| > 1 {
      ApplyLast(Apply(s, ps[0]), ps[1..]);
      assert ps[1..][..|ps| - 2] == ps[..|ps| - 1][1..];
    } else {
      assert ps[1..] == [];
    }
  }

  lemma {:induction false} MarksLast(s: State, ps: seq<Packet>, k: nat)
    requires k < 128
    ensures ApplyAll(s, ps).keyboard[k] == MarkAfter(ps, k, s.keyboard[k])
    decreases |ps|
  {
    if ps != [] {
      ApplyLast(s, ps);
      MarksLast(s, ps[..|ps| - 1], k);
    }
  }

  lemma {:induction false} OthersLast(s: State, ps: seq<Packet>)
    ensures ApplyAll(s, ps).mouseb == ButtonsAfter(ps, s.mouseb)
    ensures ApplyAll(s, ps).joystick / 0x100 == s.joystick / 0x100
    ensures ApplyAll(s, ps).joystick % 0x100 == StickAfter(ps, s.joystick % 0x100)
    decreases |ps|
  {
    if ps != [] {
      ApplyLast(s, ps);
      OthersLast(s, ps[..|ps| - 1]);
    }
  }

  /** Any packets, with MIDI in between, in numbers: the accumulators have moved by the sum of the
      signed displacements, the table holds what the last packet of each key says, the buttons and
      the low byte of the joystick word are the last ones sent, its high byte is kept. */
  lemma PacketsMean(s: State, ps: seq<Packet>, events: seq<Event>, k: nat)
    requires s.vector.Header? && AllSendable(ps) && Bytes(events) == EncodeAll(ps) && k < 128
    ensures Run(s, events).mousex == (s.mousex + Moved(ps, false)) % 0x1_0000
    ensures Run(s, events).mousey == (s.mousey + Moved(ps, true)) % 0x1_0000
    ensures Run(s, events).keyboard[k] == MarkAfter(ps, k, s.keyboard[k])
    ensures Run(s, events).mouseb == ButtonsAfter(ps, s.mouseb)
    ensures Run(s, events).joystick / 0x100 == s.joystick / 0x100
    ensures Run(s, events).joystick % 0x100 == StickAfter(ps, s.joystick % 0x100)
  {
    RoundTrip(s, ps, events);
    MovesAdd(s, ps);
    MarksLast(s, ps, k);
    OthersLast(s, ps);
  }

  // ---------- any byte stream ----------

  /** The start of a packet whose end has not come yet. */
  predicate Partial(rest: seq<Byte>) {
    rest == []
    || (rest == [0xff])
    || (1 <= |rest| <= 2 && 0xf8 <= rest[0] <= 0xfb)
  }

  /** The packet a stream begins with, if it holds a whole one. */
  function First(bytes: seq<Byte>): Option<Packet> {
    if Partial(bytes) then None
    else if bytes[0] == 0xff then Some(Stick(bytes[1]))
    else if 0xf8 <= bytes[0] <= 0xfb then Some(Mouse(bytes[0] % 4, bytes[1], bytes[2]))
    else Some(Key(bytes[0]))
  }

  lemma FirstEncodes(bytes: seq<Byte>)
    requires First(bytes).Some?
    ensures Sendable(First(bytes).value)
    ensures Encode(First(bytes).value) <= bytes && |Encode(First(bytes).value)| > 0
  {}

  /** Every stream is some whole packets and the start of one more: nothing it can send
      leads the parser astray. */
  lemma {:induction false} EveryStreamParses(bytes: seq<Byte>) returns (ps: seq<Packet>, rest: seq<Byte>)
    ensures AllSendable(ps) && Partial(rest) && EncodeAll(ps) + rest == bytes
    decreases |bytes|
  {
    if First(bytes).None? {
      ps, rest := [], bytes;
    } else {
      var p := First(bytes).value;
      FirstEncodes(bytes);
      var more;
      more, rest := EveryStreamParses(bytes[|Encode(p)|..]);
      ps := [p] + more;
      assert ps[1..] == more;
      assert bytes == Encode(p) + bytes[|Encode(p)|..];
      assert EncodeAll(ps) + rest == Encode(p) + (EncodeAll(more) + rest);
    }
  }

  lemma EncodedStart(p: Packet, tail: seq<Byte>)
    requires Sendable(p)
    ensures First(Encode(p) + tail) == Some(p)
  {
    var bytes := Encode(p) + tail;
    assert |bytes| >= |Encode(p)| && bytes[0] == Encode(p)[0];
    if p.Mouse? {
      MouseStart(bytes, p.pressed);
    } else {
      assert p.Stick? ==> bytes[1] == p.position;
    }
  }

  lemma MouseStart(bytes: seq<Byte>, b: buttons)
    requires |bytes| >= 3 && bytes[0] == 0xf8 + b
    ensures First(bytes) == Some(Mouse(b, bytes[1], bytes[2]))
  {
  }

  /** And in only one way. */
  lemma {:induction false} ParseUnique(ps: seq<Packet>, rest: seq<Byte>, qs: seq<Packet>, rest': seq<Byte>)
    requires AllSendable(ps) && Partial(rest) && AllSendable(qs) && Partial(rest')
    requires EncodeAll(ps) + rest == EncodeAll(qs) + rest'
    ensures ps == qs && rest == rest'
    decreases |ps|
  {
    StartOf(ps, rest);
    StartOf(qs, rest');
    if ps != [] {
      RestOf(ps, rest);
      RestOf(qs, rest');
      ParseUnique(ps[1..], rest, qs[1..], rest');
      assert ps == [ps[0]] + ps[1..] && qs == [qs[0]] + qs[1..];
    } else {
      assert EncodeAll(ps) + rest == rest && EncodeAll(qs) + rest' == rest';
    }
  }

  lemma StartOf(ps: seq<Packet>, rest: seq<Byte>)
    requires AllSendable(ps) && Partial(rest)
    ensures First(EncodeAll(ps) + rest) == if ps == [] then None else Some(ps[0])
  {
    if ps == [] {
      assert EncodeAll(ps) + rest == rest;
    } else {
      assert EncodeAll(ps) + rest == Encode(ps[0]) + (EncodeAll(ps[1..]) + rest);
      EncodedStart(ps[0], EncodeAll(ps[1..]) + rest);
    }
  }

  lemma RestOf(ps: seq<Packet>, rest: seq<Byte>)
    requires ps != []
    ensures (EncodeAll(ps) + rest)[|Encode(ps[0])|..] == EncodeAll(ps[1..]) + rest
  {
    assert EncodeAll(ps) + rest == Encode(ps[0]) + (EncodeAll(ps[1..]) + rest);
  }

  /** After any interrupts, the vector says how far into a packet the stream has got. */
  lemma VectorTracks(s: State, events: seq<Event>, ps: seq<Packet>, rest: seq<Byte>)
    requires s.vector.Header? && AllSendable(ps) && Partial(rest) && Bytes(events) == EncodeAll(ps) + rest
    ensures Run(s, events).vector
         == if rest == [] then Header
            else if rest[0] == 0xff then Joystick
            else if |rest| == 1 then MouseX else MouseY
    ensures Run(s, events).keyboard == ApplyAll(s, ps).keyboard
  {
    MidiTransparent(s, events);
    BytesRoundTrip(s, ps);
    RunBytesConcat(s, EncodeAll(ps), rest);
    var t := ApplyAll(s, ps);
    if rest != [] {
      MouseHeaders(rest[0]);
      if |rest| == 1 {
        assert rest == [rest[0]];
        RunTwo(t, rest[0], 0);
      } else {
        assert rest == [rest[0], rest[1]];
        RunTwo(t, rest[0], rest[1]);
      }
    }
  }

  // ---------- the handlers ----------

  class Handlers {
    var vector: Vector
    var mouseb: Word
    var mousex: Word
    var mousey: Word
    var joystick: Word
    const keyboard: array<Byte>

    ghost predicate Valid() {
      keyboard.Length == 128
    }

    ghost function Abs(): State
      requires Valid()
      reads this, keyboard
    {
      State(vector, keyboard[..], mouseb, mousex, mousey, joystick)
    }

    /** The table and variables as the demo clears them before it installs the handler. */
    constructor ()
      ensures Valid() && fresh(keyboard)
      ensures Abs() == State(Header, Blank(128), 0, 0, 0, 0)
    {
      vector := Header;
      mouseb, mousex, mousey, joystick := 0, 0, 0, 0;
      keyboard := new Byte[128](_ => KEY_UNDEFINED);
    }

    /** An interrupt: `source` is bit 0 of the keyboard ACIA status, `data` its data byte.
        The handler the vector points to is entered. */
    method Interrupt(source: bool, data: Byte)
      requires Valid()
      modifies this, keyboard
      ensures Abs() == Step(old(Abs()), if source then Keyboard(data) else Midi)
    {
      match vector
      case Header => OnHeader(source, data);
      case MouseX => OnMouseX(source, data);
      case MouseY => OnMouseY(source, data);
      case Joystick => OnJoystick(source, data);
    }

    method OnHeader(source: bool, data: Byte)
      requires Valid() && vector.Header?
      modifies this, keyboard
      ensures Abs() == Step(old(Abs()), if source then Keyboard(data) else Midi)
    {
      if !source {
        return;
      }
      if data == 0xff {
        vector := Joystick;
        return;
      }
      if !Minus(data, 0xf8) && Minus(data, 0xfc) {
        mouseb := data % 4;
        vector := MouseX;
        return;
      }
      keyboard[data % 0x80] := if data < 0x80 then 0xff else 0x00;
    }

    method OnMouseX(source: bool, data: Byte)
      requires Valid() && vector.MouseX?
      modifies this
      ensures Abs() == Step(old(Abs()), if source then Keyboard(data) else Midi)
    {
      if !source {
        return;
      }
      mousex := AddWord(mousex, SignExtend(data));
      vector := MouseY;
    }

    method OnMouseY(source: bool, data: Byte)
      requires Valid() && vector.MouseY?
      modifies this
      ensures Abs() == Step(old(Abs()), if source then Keyboard(data) else Midi)
    {
      if !source {
        return;
      }
      mousey := AddWord(mousey, SignExtend(data));
      vector := Header;
    }

    /** Only the low byte of the joystick word is written. */
    method OnJoystick(source: bool, data: Byte)
      requires Valid() && vector.Joystick?
      modifies this
      ensures Abs() == Step(old(Abs()), if source then Keyboard(data) else Midi)
    {
      if !source {
        return;
      }
      joystick := SetLow(joystick, data);
      vector := Header;
    }
  }
}
