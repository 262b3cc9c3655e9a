/** The polling loop of `keyboard/ikbdintr.c` running beside the interrupt handlers. Each
    read and each write of the shared key table is one step; interrupts fall between any
    two steps. */
module KeyMonitor {
  import opened Ikbd
  import opened Machine

  const SCANCODE_ESC := 1

  type slot = x: int | 0 <= x < 128

  datatype Report = Report(key: nat, pressed: bool)

  /** Where the loop is in its work on table entry `i`: about to read it for "pressed", to
      print, to clear, to read it for "released", to print, to clear; or out of the loop. */
  datatype Phase = ReadPressed | PrintPressed | ClearPressed | ReadReleased | PrintReleased | ClearReleased | Done

  /** `events` are the key events the handlers took in, `overrun` those among them that found
      their table entry still holding an earlier one; `log` is what the loop printed. */
  datatype Monitor = Monitor(
    ikbd: State, i: slot, phase: Phase, quit: bool,
    log: seq<Report>, events: seq<Report>, overrun: seq<Report>)

  datatype Choice = Interrupt(event: Event) | Poll

  // ---------- the steps ----------

  /** The key event of an interrupt, if it is one. */
  function KeyEvent(s: State, e: Event): Option<Report> {
    if e.Keyboard? && s.vector.Header? && e.data != 0xff && !TakenForMouse(e.data)
    then Some(Report(ScanCode(e.data), e.data < 0x80))
    else None
  }

  function OnInterrupt(m: Monitor, e: Event): Monitor {
    match KeyEvent(m.ikbd, e)
    case None => m.(ikbd := Step(m.ikbd, e))
    case Some(r) =>
      m.(ikbd := Step(m.ikbd, e),
         events := m.events + [r],
         overrun := if m.ikbd.keyboard[r.key] == KEY_UNDEFINED then m.overrun else m.overrun + [r])
  }

  /** On to the next entry, round to the first, or out. */
  function Next(m: Monitor): Monitor {
    if m.i + 1 < 128 then m.(i := m.i + 1, phase := ReadPressed)
    else if m.quit then m.(phase := Done)
    else m.(i := 0, phase := ReadPressed)
  }

  function Clear(m: Monitor): Monitor
  {
    m.(ikbd := m.ikbd.(keyboard := m.ikbd.keyboard[m.i := KEY_UNDEFINED]))
  }

  function OnPoll(m: Monitor): Monitor
  {
    match m.phase
    case ReadPressed =>
      m.(phase := if m.ikbd.keyboard[m.i] == KEY_PRESSED then PrintPressed else ReadReleased)
    case PrintPressed => m.(log := m.log + [Report(m.i, true)], phase := ClearPressed)
    case ClearPressed => Clear(m).(quit := m.quit || m.i == SCANCODE_ESC, phase := ReadReleased)
    case ReadReleased =>
      if m.ikbd.keyboard[m.i] == KEY_RELEASED then m.(phase := PrintReleased) else Next(m)
    case PrintReleased => m.(log := m.log + [Report(m.i, false)], phase := ClearReleased)
    case ClearReleased => Next(Clear(m))
    case Done => m
  }

  function MonitorStep(m: Monitor, c: Choice): Monitor
  {
    match c
    case Interrupt(e) => OnInterrupt(m, e)
    case Poll => OnPoll(m)
  }

  function Start(): Monitor {
    Monitor(State(Header, Blank(128), 0, 0, 0, 0), 0, ReadPressed, false, [], [], [])
  }

  /** The state after any interleaving of interrupts and steps of the loop. */
  function RunMonitor(choices: seq<Choice>): Monitor {
    if choices == [] then Start()
    else MonitorStep(RunMonitor(choices[..|choices| - 1]), choices[|choices| - 1])
  }

  // ---------- one key ----------

  function OfKey(rs: seq<Report>, k: nat): seq<Report> {
    if rs == [] then []
    else OfKey(rs[..|rs| - 1], k) + (if rs[|rs| - 1].key == k then [rs[|rs| - 1]] else [])
  }

  lemma OfKeyAppend(rs: seq<Report>, r: Report, k: nat)
    ensures OfKey(rs + [r], k) == OfKey(rs, k) + (if r.key == k then [r] else [])
  {
    assert (rs + [r])[..|rs|] == rs;
  }

  /** `a` is `b` with some elements left out. */
  predicate Thinned(a: seq<Report>, b: seq<Report>)
    decreases |b|
  {
    if a == [] then true
    else b != [] &&
         ((a[|a| - 1] == b[|b| - 1] && Thinned(a[..|a| - 1], b[..|b| - 1])) || Thinned(a, b[..|b| - 1]))
  }

  lemma ThinnedMore(a: seq<Report>, b: seq<Report>, r: Report)
    requires Thinned(a, b)
    ensures Thinned(a, b + [r]) && Thinned(a + [r], b + [r])
  {
    assert (b + [r])[..|b|] == b && (a + [r])[..|a|] == a;
  }

  lemma {:induction false} ThinnedSize(a: seq<Report>, b: seq<Report>)
    requires Thinned(a, b)
    ensures |a| <= |b| && (|a| == |b| ==> a == b)
    decreases |b|
  {
    if a != [] {
      var a', b' := a[..|a| - 1], b[..|b| - 1];
      if a[|a| - 1] == b[|b| - 1] && Thinned(a', b') {
        ThinnedSize(a', b');
        assert a == a' + [a[|a| - 1]] && b == b' + [b[|b| - 1]];
      } else {
        ThinnedSize(a, b');
      }
    }
  }

  /** What a run has done about one key: its table entry, whether the loop has seen that
      entry set and not cleared it yet, the reports it has printed or is about to print, the
      key events, and how many of them found the entry still set. */
  datatype KeyView = KeyView(key: nat, mark: Byte, busy: bool, reported: seq<Report>, events: seq<Report>, overrun: nat)

  function View(m: Monitor, k: slot): KeyView {
    KeyView(
      k, m.ikbd.keyboard[k],
      m.i == k && (m.phase.PrintPressed? || m.phase.ClearPressed? || m.phase.PrintReleased? || m.phase.ClearReleased?),
      OfKey(m.log, k) + (if m.i == k && m.phase.PrintPressed? then [Report(k, true)]
                         else if m.i == k && m.phase.PrintReleased? then [Report(k, false)]
                         else []),
      OfKey(m.events, k), |OfKey(m.overrun, k)|)
  }

  /** The table holds an event of the key that the loop has not seen. */
  predicate Pending(v: KeyView) {
    v.mark != KEY_UNDEFINED && !v.busy
  }

  // ---------- what every run keeps ----------

  /** What is reported are events that happened, in their order; an event not seen yet is the
      last one, and the table has its direction; every event is reported, in the table, or
      was run over. */
  predicate Accounted(v: KeyView) {
    && (v.mark == KEY_PRESSED || v.mark == KEY_RELEASED || v.mark == KEY_UNDEFINED)
    && (v.busy ==> v.mark != KEY_UNDEFINED)
    && Thinned(v.reported, v.events)
    && (Pending(v) ==>
          && v.events != []
          && v.events[|v.events| - 1] == Report(v.key, v.mark == KEY_PRESSED)
          && Thinned(v.reported, v.events[..|v.events| - 1]))
    && |v.events| == |v.reported| + v.overrun + (if Pending(v) then 1 else 0)
  }

  // The ways a step can change the view of a key.

  function Struck(v: KeyView, pressed: bool): KeyView {
    v.(mark := if pressed then KEY_PRESSED else KEY_RELEASED,
       events := v.events + [Report(v.key, pressed)],
       overrun := if v.mark == KEY_UNDEFINED then v.overrun else v.overrun + 1)
  }

  function Seen(v: KeyView): KeyView {
    v.(busy := true, reported := v.reported + [Report(v.key, v.mark == KEY_PRESSED)])
  }

  function Cleared(v: KeyView): KeyView {
    v.(busy := false, mark := KEY_UNDEFINED)
  }

  lemma StruckAccounted(v: KeyView, pressed: bool)
    requires Accounted(v)
    ensures Accounted(Struck(v, pressed))
  {
    var w := Struck(v, pressed);
    ThinnedMore(v.reported, v.events, Report(v.key, pressed));
    assert w.events[..|w.events| - 1] == v.events;
  }

  lemma SeenAccounted(v: KeyView)
    requires Accounted(v) && Pending(v)
    ensures Accounted(Seen(v))
  {
    var before, last := v.events[..|v.events| - 1], v.events[|v.events| - 1];
    ThinnedMore(v.reported, before, last);
    assert before + [last] == v.events;
  }

  lemma ClearedAccounted(v: KeyView)
    requires Accounted(v) && v.busy
    ensures Accounted(Cleared(v))
  {}

  lemma InterruptView(m: Monitor, e: Event, k: slot)
    ensures View(OnInterrupt(m, e), k)
         == if KeyEvent(m.ikbd, e).Some? && KeyEvent(m.ikbd, e).value.key == k
            then Struck(View(m, k), KeyEvent(m.ikbd, e).value.pressed) else View(m, k)
  {
    TableAfter(m.ikbd, e);
    match KeyEvent(m.ikbd, e)
    case None =>
    case Some(r) => StruckView(m, OnInterrupt(m, e), r.key, r.pressed, k);
  }

  lemma TableAfter(s: State, e: Event)
    ensures Step(s, e).keyboard
         == match KeyEvent(s, e)
            case None => s.keyboard
            case Some(r) => s.keyboard[r.key := if r.pressed then KEY_PRESSED else KEY_RELEASED]
  {}

  /** The view depends on the key's table entry, its printing and its events only. */
  lemma SameLoop(m: Monitor, n: Monitor, k: slot, mark: Byte, events: seq<Report>, overrun: nat)
    requires n.i == m.i && n.phase == m.phase && n.log == m.log
    requires n.ikbd.keyboard[k] == mark && OfKey(n.events, k) == events && |OfKey(n.overrun, k)| == overrun
    ensures View(n, k) == View(m, k).(mark := mark, events := events, overrun := overrun)
  {}

  lemma StruckView(m: Monitor, n: Monitor, key: slot, pressed: bool, k: slot)
    requires n.i == m.i && n.phase == m.phase && n.log == m.log
    requires n.ikbd.keyboard == m.ikbd.keyboard[key := if pressed then KEY_PRESSED else KEY_RELEASED]
    requires n.events == m.events + [Report(key, pressed)]
    requires n.overrun == if m.ikbd.keyboard[key] == KEY_UNDEFINED then m.overrun
                          else m.overrun + [Report(key, pressed)]
    ensures View(n, k) == if key == k then Struck(View(m, k), pressed) else View(m, k)
  {
    OfKeyAppend(m.events, Report(key, pressed), k);
    OfKeyAppend(m.overrun, Report(key, pressed), k);
    SameLoop(m, n, k, n.ikbd.keyboard[k], OfKey(n.events, k), |OfKey(n.overrun, k)|);
  }

  lemma ReadPressedView(m: Monitor, k: slot)
    requires m.phase.ReadPressed?
    ensures View(OnPoll(m), k)
         == if m.i == k && m.ikbd.keyboard[k] == KEY_PRESSED then Seen(View(m, k)) else View(m, k)
  {}

  lemma ReadReleasedView(m: Monitor, k: slot)
    requires m.phase.ReadReleased?
    ensures View(OnPoll(m), k)
         == if m.i == k && m.ikbd.keyboard[k] == KEY_RELEASED then Seen(View(m, k)) else View(m, k)
  {
    if m.ikbd.keyboard[m.i] == KEY_RELEASED {
      SeesRelease(m, k);
    } else {
      NextView(m, k);
    }
  }

  lemma SeesRelease(m: Monitor, k: slot)
    requires m.phase.ReadReleased?
    ensures View(m.(phase := PrintReleased), k)
         == if m.i == k then View(m, k).(busy := true, reported := View(m, k).reported + [Report(k, false)])
            else View(m, k)
  {}

  /** The loop sees an entry, prints it, clears it. */
  lemma ReadView(m: Monitor, k: slot)
    requires m.phase.ReadPressed? || m.phase.ReadReleased?
    ensures View(OnPoll(m), k)
         == if m.i == k && m.ikbd.keyboard[k] == (if m.phase.ReadPressed? then KEY_PRESSED else KEY_RELEASED)
            then Seen(View(m, k)) else View(m, k)
  {
    if m.phase.ReadPressed? {
      ReadPressedView(m, k);
    } else {
      ReadReleasedView(m, k);
    }
  }

  lemma PrintView(m: Monitor, k: slot)
    requires m.phase.PrintPressed? || m.phase.PrintReleased?
    ensures View(OnPoll(m), k) == View(m, k)
  {
    OfKeyAppend(m.log, Report(m.i, m.phase.PrintPressed?), k);
  }

  lemma NextView(m: Monitor, k: slot)
    requires m.phase.ReadReleased? || m.phase.Done?
    ensures View(Next(m), k) == View(m, k)
  {}

  lemma ClearView(m: Monitor, k: slot)
    requires m.phase.ClearPressed? || m.phase.ClearReleased?
    ensures View(OnPoll(m), k) == if m.i == k then Cleared(View(m, k)) else View(m, k)
  {
    var t := Clear(m).(phase := ReadReleased);
    assert View(t, k) == if m.i == k then Cleared(View(m, k)) else View(m, k);
    if m.phase.ClearReleased? {
      NextView(t, k);
      assert Next(Clear(m)) == Next(t);
    }
  }

  lemma StepAccounted(m: Monitor, c: Choice, k: slot)
    requires Accounted(View(m, k))
    ensures Accounted(View(MonitorStep(m, c), k))
  {
    var v := View(m, k);
    match c
    case Interrupt(e) =>
      InterruptView(m, e, k);
      if KeyEvent(m.ikbd, e).Some? {
        StruckAccounted(v, KeyEvent(m.ikbd, e).value.pressed);
      }
    case Poll =>
      if m.phase.ReadPressed? || m.phase.ReadReleased? {
        ReadView(m, k);
        if m.i == k && v.mark != KEY_UNDEFINED {
          SeenAccounted(v);
        }
      } else if m.phase.PrintPressed? || m.phase.PrintReleased? {
        PrintView(m, k);
      } else if !m.phase.Done? {
        ClearView(m, k);
        if v.busy {
          ClearedAccounted(v);
        }
      }
  }

  lemma {:induction false} RunAccounted(choices: seq<Choice>, k: slot)
    ensures Accounted(View(RunMonitor(choices), k))
    decreases |choices|
  {
    if choices != [] {
      RunAccounted(choices[..|choices| - 1], k);
      StepAccounted(RunMonitor(choices[..|choices| - 1]), choices[|choices| - 1], k);
    }
  }

  // ---------- what follows for every interleaving ----------

  /** No report is invented, repeated or out of order. */
  lemma ReportsAreEvents(choices: seq<Choice>, k: slot)
    ensures var m := RunMonitor(choices);
            Thinned(OfKey(m.log, k), OfKey(m.events, k)) && |OfKey(m.log, k)| <= |OfKey(m.events, k)|
  {
    RunAccounted(choices, k);
    var m := RunMonitor(choices);
    ThinnedFewer(OfKey(m.log, k), View(m, k).reported[|OfKey(m.log, k)|..], OfKey(m.events, k));
    ThinnedSize(OfKey(m.log, k), OfKey(m.events, k));
  }

  lemma {:induction false} ThinnedFewer(a: seq<Report>, tail: seq<Report>, b: seq<Report>)
    requires Thinned(a + tail, b)
    ensures Thinned(a, b)
    decreases |b|
  {
    var whole := a + tail;
    if tail == [] {
      assert whole == a;
    } else if a != [] {
      var b', t' := b[..|b| - 1], tail[..|tail| - 1];
      if whole[|whole| - 1] == b[|b| - 1] && Thinned(whole[..|whole| - 1], b') {
        assert whole[..|whole| - 1] == a + t';
        ThinnedFewer(a, t', b');
      } else {
        ThinnedFewer(a, tail, b');
      }
    }
  }

  /** Once the loop holds nothing of a key back, its reports are its events, each once and in
      order, exactly when no event of it came while its table entry was still set. */
  lemma EveryEventReported(choices: seq<Choice>, k: slot)
    requires var v := View(RunMonitor(choices), k); v.mark == KEY_UNDEFINED
    ensures var m := RunMonitor(choices);
            OfKey(m.log, k) == OfKey(m.events, k) <==> OfKey(m.overrun, k) == []
  {
    RunAccounted(choices, k);
    var m := RunMonitor(choices);
    assert View(m, k).reported == OfKey(m.log, k);
    ThinnedSize(OfKey(m.log, k), OfKey(m.events, k));
  }

  /** At any moment: events are the printed reports, one about to be printed, one still in
      the table, and those run over. */
  lemma EventsConserved(choices: seq<Choice>, k: slot)
    ensures var m := RunMonitor(choices);
            var printing := m.i == k && (m.phase.PrintPressed? || m.phase.PrintReleased?);
            |OfKey(m.events, k)| == |OfKey(m.log, k)| + (if printing then 1 else 0)
                                    + |OfKey(m.overrun, k)| + (if Pending(View(m, k)) then 1 else 0)
  {
    RunAccounted(choices, k);
  }

  /** The loop asks to stop only after an escape press it has printed. */
  predicate QuitExplained(m: Monitor) {
    && (m.quit || m.phase.Done? ==> Report(SCANCODE_ESC, true) in m.log)
    && (m.phase.ClearPressed? ==> Report(m.i, true) in m.log)
    && (m.phase.Done? ==> m.quit)
  }

  lemma {:induction false} RunExplainsQuit(choices: seq<Choice>)
    ensures QuitExplained(RunMonitor(choices))
    decreases |choices|
  {
    if choices != [] {
      RunExplainsQuit(choices[..|choices| - 1]);
      StepExplainsQuit(RunMonitor(choices[..|choices| - 1]), choices[|choices| - 1]);
    }
  }

  lemma StepExplainsQuit(m: Monitor, c: Choice)
    requires QuitExplained(m)
    ensures QuitExplained(MonitorStep(m, c))
  {}

  lemma {:induction false} OfKeyHolds(rs: seq<Report>, r: Report)
    ensures r in rs <==> r in OfKey(rs, r.key)
  {
    if rs != [] {
      OfKeyHolds(rs[..|rs| - 1], r);
      assert rs == rs[..|rs| - 1] + [rs[|rs| - 1]];
    }
  }

  lemma {:induction false} ThinnedHolds(a: seq<Report>, b: seq<Report>, r: Report)
    requires Thinned(a, b) && r in a
    ensures r in b
    decreases |b|
  {
    var a', b' := a[..|a| - 1], b[..|b| - 1];
    assert a == a' + [a[|a| - 1]] && b == b' + [b[|b| - 1]];
    if !Thinned(a, b') && r in a' {
      ThinnedHolds(a', b', r);
    } else if Thinned(a, b') {
      ThinnedHolds(a, b', r);
    }
  }

  /** The loop ends only after the escape key was really pressed. */
  lemma QuitMeansEscape(choices: seq<Choice>)
    ensures var m := RunMonitor(choices);
            m.quit || m.phase.Done? ==> Report(1, true) in m.events
  {
    var m, esc := RunMonitor(choices), Report(SCANCODE_ESC, true);
    RunExplainsQuit(choices);
    if m.quit || m.phase.Done? {
      ReportsAreEvents(choices, SCANCODE_ESC);
      OfKeyHolds(m.log, esc);
      OfKeyHolds(m.events, esc);
      ThinnedHolds(OfKey(m.log, SCANCODE_ESC), OfKey(m.events, SCANCODE_ESC), esc);
    }
  }

  // ---------- the loop beside the handlers ----------

  /** The loop's variables, its output, and the handlers whose table it shares. */
  class Loop {
    const handlers: Handlers
    var i: slot
    var phase: Phase
    var quit: bool
    var log: seq<Report>
    ghost var events: seq<Report>
    ghost var overrun: seq<Report>

    ghost predicate Valid() {
      handlers.Valid()
    }

    ghost function Abs(): Monitor
      requires Valid()
      reads this, handlers, handlers.keyboard
    {
      Monitor(handlers.Abs(), i, phase, quit, log, events, overrun)
    }

    /** The table is cleared, the handlers installed, and the first entry is up. */
    constructor ()
      ensures Valid() && Abs() == Start() && fresh(handlers) && fresh(handlers.keyboard)
    {
      handlers := new Handlers();
      i, phase, quit := 0, ReadPressed, false;
      log, events, overrun := [], [], [];
    }

    method OnInterrupt(source: bool, data: Byte)
      requires Valid()
      modifies this, handlers, handlers.keyboard
      ensures Valid()
      ensures Abs() == MonitorStep(old(Abs()), Interrupt(if source then Keyboard(data) else Midi))
    {
      ghost var r := KeyEvent(handlers.Abs(), if source then Keyboard(data) else Midi);
      if r.Some? {
        events := events + [r.value];
        overrun := if handlers.keyboard[r.value.key] == KEY_UNDEFINED then overrun else overrun + [r.value];
      }
      handlers.Interrupt(source, data);
    }

    /** Runs the loop up to just behind its next access to the table, print or assignment. */
    method Advance()
      requires Valid()
      modifies this, handlers.keyboard
      ensures Valid() && Abs() == MonitorStep(old(Abs()), Poll)
    {
      match phase
      case ReadPressed =>
        if handlers.keyboard[i] == KEY_PRESSED {
          phase := PrintPressed;
        } else {
          phase := ReadReleased;
        }
      case PrintPressed =>
        log := log + [Report(i, true)];
        phase := ClearPressed;
      case ClearPressed =>
        handlers.keyboard[i] := KEY_UNDEFINED;
        if i == SCANCODE_ESC {
          quit := true;
        }
        phase := ReadReleased;
      case ReadReleased =>
        if handlers.keyboard[i] == KEY_RELEASED {
          phase := PrintReleased;
        } else {
          GoOn();
        }
      case PrintReleased =>
        log := log + [Report(i, false)];
        phase := ClearReleased;
      case ClearReleased =>
        handlers.keyboard[i] := KEY_UNDEFINED;
        GoOn();
      case Done =>
    }

    /** The end of the inner loop's body. */
    method GoOn()
      requires Valid()
      modifies this`i, this`phase
      ensures Valid() && Abs() == Next(old(Abs()))
    {
      if i + 1 < 128 {
        i, phase := i + 1, ReadPressed;
      } else if quit {
        phase := Done;
      } else {
        i, phase := 0, ReadPressed;
      }
    }
  }
}
