/** The polling loop answers: however interrupts of other keys fall, a key left alone is clear in
    the table after at most 771 steps of the loop, or the loop has ended; and it does end, at most
    768 steps after it has printed an escape press. */
module KeyResponse {
  import opened Ikbd
  import opened KeyMonitor
  import opened KeyPackets
  import opened Machine

  /** The state after more interrupts and steps. */
  function Continue(m: Monitor, more: seq<Choice>): Monitor
    decreases |more|
  {
    if more == [] then m else Continue(MonitorStep(m, more[0]), more[1..])
  }

  lemma {:induction false} RunContinues(choices: seq<Choice>, more: seq<Choice>)
    ensures RunMonitor(choices + more) == Continue(RunMonitor(choices), more)
    decreases |more|
  {
    if more == [] {
      assert choices + more == choices;
    } else {
      var next := choices + [more[0]];
      assert next + more[1..] == choices + more && next[..|choices|] == choices;
      RunContinues(next, more[1..]);
    }
  }

  /** No event of the key falls among them. */
  predicate LeftAlone(m: Monitor, more: seq<Choice>, k: nat)
    decreases |more|
  {
    more == [] || (!Strikes(m, more[0], k) && LeftAlone(MonitorStep(m, more[0]), more[1..], k))
  }

  predicate Strikes(m: Monitor, c: Choice, k: nat) {
    c.Interrupt? && KeyEvent(m.ikbd, c.event).Some? && KeyEvent(m.ikbd, c.event).value.key == k
  }

  function Polls(more: seq<Choice>): nat {
    if more == [] then 0 else (if more[0].Poll? then 1 else 0) + Polls(more[1..])
  }

  /** The key is clear in the table, or the loop has ended. */
  predicate Answered(m: Monitor, k: slot) {
    m.ikbd.keyboard[k] == KEY_UNDEFINED || m.phase.Done?
  }

  // ---------- how far the loop is from clearing a key ----------

  /** The steps left in one entry, at most. */
  function Rank(p: Phase): nat {
    match p
    case ReadPressed => 6
    case PrintPressed => 5
    case ClearPressed => 4
    case ReadReleased => 3
    case PrintReleased => 2
    case ClearReleased => 1
    case Done => 0
  }

  /** In its entry the loop will still see the key, unless it was pressed after that was read. */
  predicate WillSee(m: Monitor, k: slot) {
    m.phase.ReadReleased? ==> m.ikbd.keyboard[k] == KEY_RELEASED
  }

  /** The entries to go before the one in which the loop sees the key. */
  function Entries(m: Monitor, k: slot): nat {
    if m.i == k && WillSee(m, k) then 0 else if m.i < k then k - m.i else 128 - m.i + k
  }

  function Distance(m: Monitor, k: slot): (d: nat)
    ensures d <= 6 * 128 + 3
  {
    6 * Entries(m, k) + Rank(m.phase)
  }

  /** An interrupt of another key leaves the distance alone; an answer stays one. */
  lemma OthersAside(m: Monitor, e: Event, k: slot)
    requires !Strikes(m, Interrupt(e), k)
    ensures Answered(OnInterrupt(m, e), k) == Answered(m, k) && Distance(OnInterrupt(m, e), k) == Distance(m, k)
  {
    InterruptView(m, e, k);
  }

  lemma AnswerStays(m: Monitor, k: slot)
    requires Answered(m, k)
    ensures Answered(OnPoll(m), k)
  {}

  /** A mark in the table is one of three. */
  predicate Marked(m: Monitor, k: slot) {
    var mark := m.ikbd.keyboard[k];
    mark == KEY_PRESSED || mark == KEY_RELEASED || mark == KEY_UNDEFINED
  }

  /** Each step of the loop brings it nearer. */
  lemma Nearer(m: Monitor, k: slot)
    requires !Answered(m, k) && Marked(m, k)
    ensures Answered(OnPoll(m), k) || Distance(OnPoll(m), k) < Distance(m, k)
  {}

  lemma MarksStay(m: Monitor, c: Choice, k: slot)
    requires Marked(m, k)
    ensures Marked(MonitorStep(m, c), k)
  {}

  lemma {:induction false} AnswersWithin(m: Monitor, more: seq<Choice>, k: slot)
    requires Marked(m, k) && LeftAlone(m, more, k)
    requires Answered(m, k) || Polls(more) >= Distance(m, k)
    ensures Answered(Continue(m, more), k)
    decreases |more|
  {
    if more == [] {
      assert !Answered(m, k) ==> Rank(m.phase) > 0;
    } else {
      MarksStay(m, more[0], k);
      if more[0].Interrupt? {
        OthersAside(m, more[0].event, k);
      } else if Answered(m, k) {
        AnswerStays(m, k);
      } else {
        Nearer(m, k);
      }
      AnswersWithin(MonitorStep(m, more[0]), more[1..], k);
    }
  }

  /** Bounded response, from every reachable state: after 771 steps of the loop with no event of
      the key among them, the key is clear in the table or the loop has ended. */
  lemma AnsweredInTime(choices: seq<Choice>, more: seq<Choice>, k: slot)
    requires LeftAlone(RunMonitor(choices), more, k) && Polls(more) >= 771
    ensures Answered(RunMonitor(choices + more), k)
  {
    RunAccounted(choices, k);
    AnswersWithin(RunMonitor(choices), more, k);
    RunContinues(choices, more);
  }

  /** So every event of a key left alone that long is reported, each once and in order, exactly
      when none of them came while its entry was still set; unless the loop has ended. */
  lemma EventsAnswered(choices: seq<Choice>, more: seq<Choice>, k: slot)
    requires LeftAlone(RunMonitor(choices), more, k) && Polls(more) >= 771
    ensures var m := RunMonitor(choices + more);
            m.phase.Done? || (OfKey(m.log, k) == OfKey(m.events, k) <==> OfKey(m.overrun, k) == [])
  {
    AnsweredInTime(choices, more, k);
    if !RunMonitor(choices + more).phase.Done? {
      EveryEventReported(choices + more, k);
    }
  }

  /** End to end: its reports are then the key packets sent for it, exactly when none was run
      over. */
  lemma PacketsAnswered(choices: seq<Choice>, more: seq<Choice>, k: slot, ps: seq<Packet>, rest: seq<Byte>)
    requires LeftAlone(RunMonitor(choices), more, k) && Polls(more) >= 771
    requires AllSendable(ps) && Partial(rest) && Received(choices + more) == EncodeAll(ps) + rest
    ensures var m := RunMonitor(choices + more);
            m.phase.Done? || (OfKey(m.log, k) == OfKey(KeysOf(ps), k) <==> OfKey(m.overrun, k) == [])
  {
    EventsAnswered(choices, more, k);
    EventsAreKeyPackets(choices + more, ps, rest);
  }

  // ---------- the end of the loop ----------

  /** The loop has ended or will leave at the last entry, or is about to decide so. */
  predicate Quitting(m: Monitor) {
    m.quit || m.phase.Done? || (m.i == SCANCODE_ESC && m.phase.ClearPressed?)
  }

  /** The steps left to the end of the table, at most. */
  function Countdown(m: Monitor): (d: nat)
    ensures d <= 768
  {
    6 * (127 - m.i) + Rank(m.phase)
  }

  lemma StepQuits(m: Monitor, c: Choice)
    requires Quitting(m)
    ensures Quitting(MonitorStep(m, c))
    ensures MonitorStep(m, c).phase.Done? || Countdown(MonitorStep(m, c)) + Polls([c]) <= Countdown(m)
  {}

  lemma EscapeStep(m: Monitor, c: Choice)
    requires Report(1, true) in m.log ==> Quitting(m)
    ensures Report(1, true) in MonitorStep(m, c).log ==> Quitting(MonitorStep(m, c))
  {
    if Quitting(m) {
      StepQuits(m, c);
    }
  }

  lemma {:induction false} EscapeQuits(choices: seq<Choice>)
    ensures Report(1, true) in RunMonitor(choices).log ==> Quitting(RunMonitor(choices))
  {
    if choices != [] {
      EscapeQuits(choices[..|choices| - 1]);
      EscapeStep(RunMonitor(choices[..|choices| - 1]), choices[|choices| - 1]);
    }
  }

  lemma {:induction false} QuitsWithin(m: Monitor, more: seq<Choice>)
    requires Quitting(m) && (m.phase.Done? || Polls(more) >= Countdown(m))
    ensures Continue(m, more).phase.Done?
    decreases |more|
  {
    if more != [] {
      StepQuits(m, more[0]);
      QuitsWithin(MonitorStep(m, more[0]), more[1..]);
    } else {
      assert !m.phase.Done? ==> Rank(m.phase) > 0;
    }
  }

  /** The loop ends exactly because of an escape press it has printed: it has not ended before,
      and has ended 768 of its steps later, whatever interrupts fall between. */
  lemma EndsAfterEscape(choices: seq<Choice>, more: seq<Choice>)
    requires Polls(more) >= 768
    ensures RunMonitor(choices).phase.Done? ==> Report(1, true) in RunMonitor(choices).log
    ensures Report(1, true) in RunMonitor(choices).log ==> RunMonitor(choices + more).phase.Done?
  {
    RunExplainsQuit(choices);
    EscapeQuits(choices);
    if Quitting(RunMonitor(choices)) {
      QuitsWithin(RunMonitor(choices), more);
      RunContinues(choices, more);
    }
  }

  /** It ends behind the last entry only: the table is always looked through to its end. */
  lemma {:induction false} EndsAtEnd(choices: seq<Choice>)
    ensures RunMonitor(choices).phase.Done? ==> RunMonitor(choices).i == 127
    decreases |choices|
  {
    if choices != [] {
      EndsAtEnd(choices[..|choices| - 1]);
      StepToEnd(RunMonitor(choices[..|choices| - 1]), choices[|choices| - 1]);
    }
  }

  lemma StepToEnd(m: Monitor, c: Choice)
    requires m.phase.Done? ==> m.i == 127
    ensures MonitorStep(m, c).phase.Done? ==> MonitorStep(m, c).i == 127
  {}

  /** So an escape press ends the loop, if none of that key's events is run over and the key is
      then left alone for a while. */
  lemma PressedEscapeEnds(choices: seq<Choice>, more: seq<Choice>, last: seq<Choice>)
    requires LeftAlone(RunMonitor(choices), more, 1) && Polls(more) >= 771 && Polls(last) >= 768
    requires Report(1, true) in RunMonitor(choices + more).events
    requires OfKey(RunMonitor(choices + more).overrun, 1) == []
    ensures RunMonitor(choices + more + last).phase.Done?
  {
    var m := RunMonitor(choices + more);
    EventsAnswered(choices, more, SCANCODE_ESC);
    OfKeyHolds(m.events, Report(SCANCODE_ESC, true));
    OfKeyHolds(m.log, Report(SCANCODE_ESC, true));
    EndsAfterEscape(choices + more, last);
  }

  // ---------- an event that is lost ----------

  lemma OneMoreStep(choices: seq<Choice>, c: Choice)
    ensures RunMonitor(choices + [c]) == MonitorStep(RunMonitor(choices), c)
  {
    assert (choices + [c])[..|choices|] == choices;
  }

  function Pressed(m: Monitor): Monitor {
    OnPoll(OnInterrupt(m, Keyboard(0)))
  }

  lemma PressSeen(m: Monitor)
    requires m.ikbd.vector.Header? && m.i == 0 && m.phase.ReadPressed? && m.ikbd.keyboard[0] == KEY_UNDEFINED
    ensures Pressed(m).phase.PrintPressed? && Pressed(m).ikbd.keyboard[0] == KEY_PRESSED
    ensures Pressed(m).ikbd.vector.Header? && Pressed(m).i == 0 && Pressed(m).log == m.log
    ensures Pressed(m).events == m.events + [Report(0, true)] && Pressed(m).overrun == m.overrun
  {
    MouseHeaders(0);
  }

  lemma ReleaseLost(m: Monitor)
    requires m.ikbd.vector.Header? && m.i == 0 && m.phase.PrintPressed? && m.ikbd.keyboard[0] == KEY_PRESSED
    ensures var r := OnPoll(OnPoll(OnInterrupt(m, Keyboard(0x80))));
            && r.ikbd.keyboard[0] == KEY_UNDEFINED && r.log == m.log + [Report(0, true)]
            && r.events == m.events + [Report(0, false)] && r.overrun == m.overrun + [Report(0, false)]
  {
    MouseHeaders(0x80);
  }

  lemma FiveSteps(a: Choice, b: Choice, c: Choice, d: Choice, e: Choice)
    ensures RunMonitor([a, b, c, d, e])
         == MonitorStep(MonitorStep(MonitorStep(MonitorStep(MonitorStep(Start(), a), b), c), d), e)
  {
    TwoMoreSteps([], a, b);
    TwoMoreSteps([a, b], c, d);
    OneMoreStep([a, b, c, d], e);
    assert [] + [a, b] == [a, b] && [a, b] + [c, d] == [a, b, c, d];
    assert [a, b, c, d] + [e] == [a, b, c, d, e];
  }

  lemma TwoMoreSteps(choices: seq<Choice>, a: Choice, b: Choice)
    ensures RunMonitor(choices + [a, b]) == MonitorStep(MonitorStep(RunMonitor(choices), a), b)
  {
    OneMoreStep(choices, a);
    OneMoreStep(choices + [a], b);
    assert choices + [a] + [b] == choices + [a, b];
  }

  /** A key pressed and released within one entry of the loop: the release comes before the
      press is cleared, and is never reported. */
  lemma LostRelease()
    ensures var m := RunMonitor([Interrupt(Keyboard(0)), Poll, Interrupt(Keyboard(0x80)), Poll, Poll]);
            && m.events == [Report(0, true), Report(0, false)] && m.log == [Report(0, true)]
            && m.overrun == [Report(0, false)] && m.ikbd.keyboard[0] == KEY_UNDEFINED
  {
    FiveSteps(Interrupt(Keyboard(0)), Poll, Interrupt(Keyboard(0x80)), Poll, Poll);
    PressSeen(Start());
    ReleaseLost(Pressed(Start()));
  }
}
