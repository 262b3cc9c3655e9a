/** From the keyboard's packets to the reports of the polling loop: the key events a run takes
    in are the key packets the keyboard sent, whatever else was interleaved. */
module KeyPackets {
  import opened Ikbd
  import opened KeyMonitor
  import opened Machine

  /** The keyboard bytes a run was interrupted by. */
  function Received(choices: seq<Choice>): seq<Byte> {
    if choices == [] then []
    else
      var c := choices[|choices| - 1];
      Received(choices[..|choices| - 1])
      + (if c.Interrupt? && c.event.Keyboard? then [c.event.data] else [])
  }

  /** What a key packet says: below 128 a press, above a release. */
  function Sent(code: Byte): Report {
    if code < 128 then Report(code, true) else Report(code - 128, false)
  }

  /** The keys the packets stand for. */
  function KeysOf(ps: seq<Packet>): seq<Report> {
    if ps == [] then []
    else (if ps[0].Key? then [Sent(ps[0].code)] else []) + KeysOf(ps[1..])
  }

  // ---------- the vector alone ----------

  function NextVector(v: Vector, d: Byte): Vector {
    match v
    case Header => if d == 0xff then Joystick else if TakenForMouse(d) then MouseX else Header
    case MouseX => MouseY
    case MouseY => Header
    case Joystick => Header
  }

  /** What one byte is heard as. */
  function Heard(v: Vector, d: Byte): seq<Report> {
    if v.Header? && d != 0xff && !TakenForMouse(d) then [Report(ScanCode(d), d < 0x80)] else []
  }

  function Follow(v: Vector, bytes: seq<Byte>): Vector
    decreases |bytes|
  {
    if bytes == [] then v else Follow(NextVector(v, bytes[0]), bytes[1..])
  }

  function HeardAll(v: Vector, bytes: seq<Byte>): seq<Report>
    decreases |bytes|
  {
    if bytes == [] then [] else Heard(v, bytes[0]) + HeardAll(NextVector(v, bytes[0]), bytes[1..])
  }

  lemma {:induction false} OneMore(v: Vector, bytes: seq<Byte>, d: Byte)
    ensures Follow(v, bytes + [d]) == NextVector(Follow(v, bytes), d)
    ensures HeardAll(v, bytes + [d]) == HeardAll(v, bytes) + Heard(Follow(v, bytes), d)
    decreases |bytes|
  {
    if bytes == [] {
      assert [] + [d] == [d] && [d][1..] == [];
    } else {
      assert (bytes + [d])[1..] == bytes[1..] + [d];
      OneMore(NextVector(v, bytes[0]), bytes[1..], d);
    }
  }

  lemma PollUnheard(m: Monitor)
    ensures OnPoll(m).ikbd.vector == m.ikbd.vector && OnPoll(m).events == m.events
  {}

  lemma InterruptHeard(m: Monitor, e: Event)
    ensures e.Midi? ==> OnInterrupt(m, e) == m
    ensures e.Keyboard? ==> OnInterrupt(m, e).ikbd.vector == NextVector(m.ikbd.vector, e.data)
    ensures e.Keyboard? ==> OnInterrupt(m, e).events == m.events + Heard(m.ikbd.vector, e.data)
  {}

  /** The polling loop does not touch the vector, and MIDI interrupts do not either. */
  lemma {:induction false} RunHears(choices: seq<Choice>)
    ensures RunMonitor(choices).ikbd.vector == Follow(Header, Received(choices))
    ensures RunMonitor(choices).events == HeardAll(Header, Received(choices))
    decreases |choices|
  {
    if choices != [] {
      var before, c := choices[..|choices| - 1], choices[|choices| - 1];
      RunHears(before);
      match c
      case Poll =>
        PollUnheard(RunMonitor(before));
        assert Received(choices) == Received(before);
      case Interrupt(e) =>
        InterruptHeard(RunMonitor(before), e);
        if e.Keyboard? {
          OneMore(Header, Received(before), e.data);
        } else {
          assert Received(choices) == Received(before);
        }
    }
  }

  // ---------- whole packets ----------

  lemma OneHeard(v: Vector, d: Byte, tail: seq<Byte>)
    ensures HeardAll(v, [d] + tail) == Heard(v, d) + HeardAll(NextVector(v, d), tail)
  {
    assert ([d] + tail)[1..] == tail;
  }

  lemma StickHeard(position: Byte, tail: seq<Byte>)
    ensures HeardAll(Header, [0xff, position] + tail) == HeardAll(Header, tail)
  {
    assert [0xff, position] + tail == [0xff] + ([position] + tail);
    OneHeard(Header, 0xff, [position] + tail);
    OneHeard(Joystick, position, tail);
  }

  lemma MouseHeard(pressed: buttons, dx: Byte, dy: Byte, tail: seq<Byte>)
    ensures HeardAll(Header, [0xf8 + pressed, dx, dy] + tail) == HeardAll(Header, tail)
  {
    MouseHeaders(0xf8 + pressed);
    assert [0xf8 + pressed, dx, dy] + tail == [0xf8 + pressed] + ([dx] + ([dy] + tail));
    OneHeard(Header, 0xf8 + pressed, [dx] + ([dy] + tail));
    OneHeard(MouseX, dx, [dy] + tail);
    OneHeard(MouseY, dy, tail);
  }

  lemma KeyHeard(code: Byte, tail: seq<Byte>)
    requires Sendable(Key(code))
    ensures HeardAll(Header, Encode(Key(code)) + tail) == KeysOf([Key(code)]) + HeardAll(Header, tail)
  {
    MouseHeaders(code);
    OneHeard(Header, code, tail);
  }

  lemma FirstPacket(p: Packet, tail: seq<Byte>)
    requires Sendable(p)
    ensures HeardAll(Header, Encode(p) + tail) == KeysOf([p]) + HeardAll(Header, tail)
  {
    match p
    case Key(code) => KeyHeard(code, tail);
    case Stick(position) => StickHeard(position, tail);
    case Mouse(pressed, dx, dy) => MouseHeard(pressed, dx, dy, tail);
  }

  lemma NothingHeard(rest: seq<Byte>)
    requires Partial(rest)
    ensures HeardAll(Header, rest) == []
  {
    if rest != [] {
      MouseHeaders(rest[0]);
      assert rest == [rest[0]] + rest[1..];
      OneHeard(Header, rest[0], rest[1..]);
      if |rest| == 2 {
        assert rest[1..] == [rest[1]] + [];
        OneHeard(MouseX, rest[1], []);
      }
    }
  }

  lemma {:induction false} PacketsHeard(ps: seq<Packet>, rest: seq<Byte>)
    requires AllSendable(ps) && Partial(rest)
    ensures HeardAll(Header, EncodeAll(ps) + rest) == KeysOf(ps)
    decreases |ps|
  {
    if ps == [] {
      assert EncodeAll(ps) + rest == rest;
      NothingHeard(rest);
    } else {
      FirstOfPackets(ps, rest);
      PacketsHeard(ps[1..], rest);
      FirstKey(ps);
    }
  }

  lemma FirstOfPackets(ps: seq<Packet>, rest: seq<Byte>)
    requires ps != [] && Sendable(ps[0])
    ensures HeardAll(Header, EncodeAll(ps) + rest) == KeysOf([ps[0]]) + HeardAll(Header, EncodeAll(ps[1..]) + rest)
  {
    assert EncodeAll(ps) + rest == Encode(ps[0]) + (EncodeAll(ps[1..]) + rest);
    FirstPacket(ps[0], EncodeAll(ps[1..]) + rest);
  }

  lemma FirstKey(ps: seq<Packet>)
    requires ps != []
    ensures KeysOf(ps) == KeysOf([ps[0]]) + KeysOf(ps[1..])
  {}

  /** In every interleaving, the events of a run are exactly the key packets among those sent;
      no byte inside a mouse or joystick packet becomes one. */
  lemma EventsAreKeyPackets(choices: seq<Choice>, ps: seq<Packet>, rest: seq<Byte>)
    requires AllSendable(ps) && Partial(rest) && Received(choices) == EncodeAll(ps) + rest
    ensures RunMonitor(choices).events == KeysOf(ps)
  {
    RunHears(choices);
    PacketsHeard(ps, rest);
  }

  lemma {:induction false} KeySent(ps: seq<Packet>, r: Report) returns (i: nat)
    requires r in KeysOf(ps)
    ensures i < |ps| && ps[i].Key? && r == Report(ScanCode(ps[i].code), ps[i].code < 0x80)
  {
    if ps[0].Key? && r == Report(ScanCode(ps[0].code), ps[0].code < 0x80) {
      i := 0;
    } else {
      var j := KeySent(ps[1..], r);
      i := j + 1;
    }
  }

  /** So the loop ends only if the keyboard sent the packet of a pressed escape key. */
  lemma QuitMeansEscapeSent(choices: seq<Choice>, ps: seq<Packet>, rest: seq<Byte>)
    requires AllSendable(ps) && Partial(rest) && Received(choices) == EncodeAll(ps) + rest
    requires RunMonitor(choices).phase.Done?
    ensures Key(0x01) in ps
  {
    QuitMeansEscape(choices);
    EventsAreKeyPackets(choices, ps, rest);
    var i := KeySent(ps, Report(SCANCODE_ESC, true));
    EscapeCode(ps[i].code);
  }

  lemma EscapeCode(code: Byte)
    requires ScanCode(code) == SCANCODE_ESC && code < 0x80
    ensures code == SCANCODE_ESC
  {}
}
