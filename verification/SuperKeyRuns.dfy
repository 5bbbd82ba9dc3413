/** What a client sees over whole runs of the transducer (src/embedder/keyboard/mod.rs:40-184), with
    the shell's verdicts arriving later than the keys, and hotkeys swallowing events in between. */
module SuperKeyRuns {
  import opened KeyEvents
  import opened SuperKeyForwarding

  /** What becomes of a typed event: the shell is asked about it, a compositor hotkey swallows it, or
      it is swallowed and the shell told all the same, as a capture does with the releases Flutter
      waits for (src/embedder/keyboard/mod.rs:290-295, 504-523). */
  datatype Fate = Asked | Swallowed | SwallowedButTold

  /** The typed events whose turn has not come, oldest first. A verdict on one is outstanding; a lost
      one needs none. `told` says whether Flutter took the key for held when its event was lost. */
  datatype Entry = Verdict(event: KeyEvent) | Lost(event: KeyEvent, told: bool)

  /** Keys are typed at any time, and the verdicts come in the order of the events they are about.
      With `CaughtUp` the oldest entry is a lost event, for which nothing happens. */
  datatype Run =
    | Start
    | Typed(before: Run, event: KeyEvent, fate: Fate)
    | Judged(before: Run, event: KeyEvent, handled: bool, held: set<Keycode>, after: Forwarding, out: seq<KeyEvent>)
    | CaughtUp(before: Run, event: KeyEvent, told: bool)

  function Final(run: Run): Forwarding {
    match run
    case Start => EMPTY
    case Typed(before, _, fate) => if fate.Asked? then Final(before) else PendingConsumed(Final(before))
    case Judged(_, _, _, _, after, _) => after
    case CaughtUp(before, _, _) => Final(before)
  }

  /** Everything the client was sent. */
  function Emitted(run: Run): seq<KeyEvent> {
    match run
    case Start => []
    case Judged(before, _, _, _, _, out) => Emitted(before) + out
    case _ => Emitted(run.before)
  }

  /** The keys the client holds. */
  function Client(run: Run): set<Keycode> {
    Track({}, Emitted(run))
  }

  /** Every event the shell has given its verdict on. */
  function Answered(run: Run): seq<KeyEvent> {
    match run
    case Start => []
    case Judged(before, event, _, _, _, _) => Answered(before) + [event]
    case _ => Answered(run.before)
  }

  /** The keys physically down, by the events as they were typed. */
  function Down(run: Run): set<Keycode> {
    match run
    case Start => {}
    case Typed(before, event, _) => TrackOne(Down(before), event)
    case _ => Down(run.before)
  }

  /** `flutter_sent_keys`: the keys Flutter was told are down and not told are up. */
  function FlutterKeys(run: Run): set<Keycode> {
    match run
    case Start => {}
    case Typed(before, event, fate) =>
      if fate.Swallowed? then FlutterKeys(before) else TrackOne(FlutterKeys(before), event)
    case _ => FlutterKeys(run.before)
  }

  function Rest(queue: seq<Entry>): seq<Entry> {
    if queue == [] then [] else queue[1..]
  }

  function Queue(run: Run): seq<Entry> {
    match run
    case Start => []
    case Typed(before, event, fate) =>
      Queue(before) + [if fate.Swallowed? then Lost(event, event.keyCode in FlutterKeys(before)) else Verdict(event)]
    case _ => Rest(Queue(run.before))
  }

  /** The keys that were down when the event was typed whose turn came last. */
  function Reached(run: Run): set<Keycode> {
    match run
    case Start => {}
    case Typed(before, _, _) => Reached(before)
    case _ => TrackOne(Reached(run.before), run.event)
  }

  /** The keys Flutter took for held at that moment. */
  function FlutterReached(run: Run): set<Keycode> {
    match run
    case Start => {}
    case Judged(before, event, _, _, _, _) => TrackOne(FlutterReached(before), event)
    case _ => FlutterReached(run.before)
  }

  ghost predicate Valid(run: Run) {
    match run
    case Start => true
    case Typed(before, _, _) => Valid(before)
    case Judged(before, event, handled, held, after, out) =>
      && Valid(before) && Queue(before) != [] && Queue(before)[0] == Verdict(event)
      && Resolves(Final(before), event, handled, held, after, out)
    case CaughtUp(before, event, told) => Valid(before) && Queue(before) != [] && Queue(before)[0] == Lost(event, told)
  }

  predicate InTurn(event: KeyEvent, down: set<Keycode>) {
    event.state == Pressed <==> event.keyCode !in down
  }

  /** Each key's events alternate press and release as they are typed, as a keyboard's do. */
  predicate Alternates(run: Run) {
    match run
    case Start => true
    case Typed(before, event, _) => Alternates(before) && InTurn(event, Down(before))
    case _ => Alternates(run.before)
  }

  /** No hotkey swallows a release of `k` while Flutter takes the key for held, unless it tells
      Flutter: what the compositor could check before it swallows one. */
  predicate PairedFor(run: Run, k: Keycode) {
    match run
    case Start => true
    case Typed(before, event, fate) =>
      PairedFor(before, k)
      && (fate.Swallowed? && event.state == Released && event.keyCode == k ==> k !in FlutterKeys(before))
    case _ => PairedFor(run.before, k)
  }

  /** The key code alone decides whether an event is a modifier: no layout or level change turns
      a modifier key into an ordinary one while the run lasts. */
  predicate Classified(run: Run, modifiers: set<Keycode>) {
    match run
    case Start => true
    case Judged(before, event, _, _, _, _) =>
      Classified(before, modifiers) && (IsModifier(event.keysym) <==> event.keyCode in modifiers)
    case _ => Classified(run.before, modifiers)
  }

  /** No hotkey keeps an event of `k` from the shell. */
  predicate NeverLost(run: Run, k: Keycode) {
    match run
    case Start => true
    case Typed(before, event, fate) => NeverLost(before, k) && !(fate.Swallowed? && event.keyCode == k)
    case _ => NeverLost(run.before, k)
  }

  // ----- the queue keeps the order of typing

  function DownAfter(down: set<Keycode>, queue: seq<Entry>): set<Keycode>
    decreases |queue|
  {
    if queue == [] then down else DownAfter(TrackOne(down, queue[0].event), queue[1..])
  }

  function ToldOne(told: set<Keycode>, entry: Entry): set<Keycode> {
    if entry.Lost? then told else TrackOne(told, entry.event)
  }

  function ToldAfter(told: set<Keycode>, queue: seq<Entry>): set<Keycode>
    decreases |queue|
  {
    if queue == [] then told else ToldAfter(ToldOne(told, queue[0]), queue[1..])
  }

  /** Every entry is in turn after those before it, and each lost one knows what Flutter had been told. */
  predicate InOrder(down: set<Keycode>, told: set<Keycode>, queue: seq<Entry>)
    decreases |queue|
  {
    queue != [] ==>
      && InTurn(queue[0].event, down)
      && (queue[0].Lost? ==> (queue[0].told <==> queue[0].event.keyCode in told))
      && InOrder(TrackOne(down, queue[0].event), ToldOne(told, queue[0]), queue[1..])
  }

  lemma {:induction false} QueueSnoc(down: set<Keycode>, told: set<Keycode>, queue: seq<Entry>, last: Entry)
    ensures DownAfter(down, queue + [last]) == TrackOne(DownAfter(down, queue), last.event)
    ensures ToldAfter(told, queue + [last]) == ToldOne(ToldAfter(told, queue), last)
    ensures InOrder(down, told, queue) && InTurn(last.event, DownAfter(down, queue))
      && (last.Lost? ==> (last.told <==> last.event.keyCode in ToldAfter(told, queue)))
      ==> InOrder(down, told, queue + [last])
    decreases |queue|
  {
    if queue == [] {
      assert [last][1..] == [];
      assert queue + [last] == [last];
    } else {
      QueueSnoc(TrackOne(down, queue[0].event), ToldOne(told, queue[0]), queue[1..], last);
      assert (queue + [last])[1..] == queue[1..] + [last];
    }
  }

  /** What the queue adds to the keys reached so far are the keys down, and Flutter's. */
  lemma {:induction false} QueueIsInOrder(run: Run)
    requires Valid(run) && Alternates(run)
    ensures InOrder(Reached(run), FlutterReached(run), Queue(run))
    ensures DownAfter(Reached(run), Queue(run)) == Down(run)
    ensures ToldAfter(FlutterReached(run), Queue(run)) == FlutterKeys(run)
  {
    if !run.Start? {
      QueueIsInOrder(run.before);
      if run.Typed? {
        var queue := Queue(run.before);
        QueueSnoc(Reached(run.before), FlutterReached(run.before), queue, Queue(run)[|queue|]);
      }
    }
  }

  // ----- the forwarded set is the client's key state

  lemma StepTracksClient(s: Forwarding, event: KeyEvent, handled: bool, held: set<Keycode>, after: Forwarding, out: seq<KeyEvent>)
    requires Resolves(s, event, handled, held, after, out)
    ensures after.forwarded == Track(s.forwarded, out)
  {
    if out == [event] {
      assert out[..0] == [];
      assert Track(s.forwarded, out) == TrackOne(s.forwarded, event);
    }
  }

  /** With no assumption at all on the events, their fates, the verdicts or the held sets, `forwarded`
      is exactly the set of keys whose last emitted event was a press. */
  lemma {:induction false} ForwardedIsClientState(run: Run)
    requires Valid(run)
    ensures Final(run).forwarded == Client(run)
  {
    if !run.Start? {
      ForwardedIsClientState(run.before);
      if run.Judged? {
        StepTracksClient(Final(run.before), run.event, run.handled, run.held, run.after, run.out);
        TrackAppend({}, Emitted(run.before), run.out);
      }
    }
  }

  // ----- the shape of the three collections and of what is sent

  /** `pending` is a Super press followed by modifier presses. */
  predicate SuperHeaded(pending: seq<KeyEvent>) {
    && AllPressed(pending)
    && (forall i | 0 <= i < |pending| :: IsModifier(pending[i].keysym))
    && (pending != [] ==> IsSuper(pending[0].keysym))
  }

  /** What every run keeps of the collections. */
  ghost predicate Shaped(s: Forwarding) {
    && SuperHeaded(s.pending)
    && WellKeyed(s.consumed)
    && forall k | k in s.consumed :: s.consumed[k].state == Pressed
  }

  lemma {:induction false} ConsumeAdds(consumed: map<Keycode, KeyEvent>, pending: seq<KeyEvent>)
    requires AllPressed(pending)
    ensures Consume(consumed, pending).Keys == consumed.Keys + Codes(pending)
    ensures (forall k | k in consumed :: consumed[k].state == Pressed)
      ==> forall k | k in Consume(consumed, pending) :: Consume(consumed, pending)[k].state == Pressed
  {
    if pending != [] {
      var init, last := pending[..|pending| - 1], pending[|pending| - 1];
      ConsumeAdds(consumed, init);
      assert pending == init + [last];
      CodesOfSnoc(init, last);
    }
  }

  lemma PendingPressIsCode(pending: seq<KeyEvent>, k: Keycode)
    requires AllPressed(pending)
    ensures PendingPress(pending, k) <==> k in Codes(pending)
  {
    if k in Codes(pending) {
      var i :| 0 <= i < |pending| && pending[i].keyCode == k;
      assert pending[i].state == Pressed;
    }
  }

  lemma {:induction false} PendingIsSuperHeaded(run: Run)
    requires Valid(run)
    ensures Shaped(Final(run))
  {
    if !run.Start? {
      PendingIsSuperHeaded(run.before);
      var s := Final(run.before);
      ConsumeAdds(s.consumed, s.pending);
    }
  }

  lemma TrackFlush(forwarded: set<Keycode>, pending: seq<KeyEvent>, event: KeyEvent)
    requires AllPressed(pending)
    ensures Track(forwarded, pending + [event]) == TrackOne(forwarded + Codes(pending), event)
  {
    TrackPresses(forwarded, pending);
    assert (pending + [event])[..|pending|] == pending;
  }

  lemma ReplayedArePresses(s: Forwarding, held: set<Keycode>, mods: seq<KeyEvent>)
    requires ReplayOrder(s.consumed, held, mods) && Shaped(s)
    ensures AllPressed(mods) && DistinctKeys(mods) && Codes(mods) <= s.consumed.Keys
    ensures forall i | 0 <= i < |mods| :: IsModifier(mods[i].keysym)
  {
    forall i | 0 <= i < |mods| ensures mods[i].state == Pressed && IsModifier(mods[i].keysym) {
      assert s.consumed[mods[i].keyCode] == mods[i];
    }
  }

  /** What a batch sends before its event: nothing, the withheld presses, or consumed modifiers. */
  ghost predicate Prefix(s: Forwarding, after: Forwarding, prefix: seq<KeyEvent>) {
    && AllPressed(prefix)
    && (forall i | 0 <= i < |prefix| :: IsModifier(prefix[i].keysym))
    && after.pending == []
    && (prefix == [] || prefix == s.pending
        || (s.pending == [] && DistinctKeys(prefix) && Codes(prefix) <= s.consumed.Keys
            && Codes(prefix) !! after.consumed.Keys))
  }

  lemma FlushIsPrefix(s: Forwarding, event: KeyEvent)
    requires Shaped(s)
    ensures var after := Forwarding([], s.consumed, Track(s.forwarded, s.pending + [event]));
      Prefix(s, after, s.pending) && after.forwarded == TrackOne(s.forwarded + Codes(s.pending), event)
  {
    TrackFlush(s.forwarded, s.pending, event);
  }

  lemma NothingIsPrefix(s: Forwarding, event: KeyEvent, after: Forwarding)
    requires after.pending == [] && after.forwarded == TrackOne(s.forwarded, event)
    ensures Prefix(s, after, []) && after.forwarded == TrackOne(s.forwarded + Codes([]), event)
  {
    assert Codes([]) == {};
  }

  lemma ReplayIsPrefix(s: Forwarding, event: KeyEvent, held: set<Keycode>, mods: seq<KeyEvent>)
    requires Shaped(s) && s.pending == [] && ReplayOrder(s.consumed, held, mods)
    ensures var after := Forwarding([], s.consumed - Codes(mods), Track(s.forwarded, mods + [event]));
      Prefix(s, after, mods) && after.forwarded == TrackOne(s.forwarded + Codes(mods), event)
  {
    ReplayedArePresses(s, held, mods);
    TrackFlush(s.forwarded, mods, event);
  }

  /** Any batch that is emitted is such a prefix of modifier presses, followed by the event itself,
      and the client's keys follow it. */
  lemma {:induction false} BatchShape(s: Forwarding, event: KeyEvent, handled: bool, held: set<Keycode>,
                                      after: Forwarding, out: seq<KeyEvent>)
    returns (prefix: seq<KeyEvent>)
    requires Shaped(s) && Resolves(s, event, handled, held, after, out) && out != []
    ensures out == prefix + [event] && Prefix(s, after, prefix)
    ensures after.forwarded == TrackOne(s.forwarded + Codes(prefix), event)
  {
    prefix := out[..|out| - 1];
    BatchCases(s, event, handled, held, after, out, prefix);
    if prefix == s.pending && after == Forwarding([], s.consumed, Track(s.forwarded, out)) {
      FlushIsPrefix(s, event);
    } else if prefix == [] && after.forwarded == TrackOne(s.forwarded, event) {
      NothingIsPrefix(s, event, after);
    } else {
      ReplayIsPrefix(s, event, held, prefix);
    }
  }

  /** The three ways to emit a batch. */
  lemma BatchCases(s: Forwarding, event: KeyEvent, handled: bool, held: set<Keycode>,
                   after: Forwarding, out: seq<KeyEvent>, prefix: seq<KeyEvent>)
    requires Resolves(s, event, handled, held, after, out) && out != [] && prefix == out[..|out| - 1]
    ensures out == prefix + [event] && after.pending == []
    ensures (prefix == s.pending && after == Forwarding([], s.consumed, Track(s.forwarded, out)))
      || (prefix == [] && after.forwarded == TrackOne(s.forwarded, event))
      || (s.pending == [] && ReplayOrder(s.consumed, held, prefix)
          && after == Forwarding([], s.consumed - Codes(prefix), Track(s.forwarded, out)))
  {
    if event.state == Pressed && s.pending == [] && !IsModifier(event.keysym) {
      assert ReplayOrder(s.consumed, held, prefix);
    } else if event.state == Released && PendingPress(s.pending, event.keyCode) {
      assert prefix == s.pending;
    } else if event.state == Pressed && s.pending != [] {
      assert prefix == s.pending;
    }
  }

  /** The keys pressed by what is sent. */
  predicate Presses(out: seq<KeyEvent>, k: Keycode) {
    exists i | 0 <= i < |out| :: out[i].keyCode == k && out[i].state == Pressed
  }

  lemma PrefixPresses(prefix: seq<KeyEvent>, event: KeyEvent, k: Keycode)
    requires AllPressed(prefix)
    ensures Presses(prefix + [event], k) <==> k in Codes(prefix) || (event.keyCode == k && event.state == Pressed)
  {
    var out := prefix + [event];
    if k in Codes(prefix) {
      var i :| 0 <= i < |prefix| && prefix[i].keyCode == k;
      assert out[i].keyCode == k && out[i].state == Pressed;
    } else if event.keyCode == k && event.state == Pressed {
      assert out[|prefix|] == event;
    }
    if Presses(out, k) {
      var i :| 0 <= i < |out| && out[i].keyCode == k && out[i].state == Pressed;
      if i < |prefix| {
        CodesHas(prefix, i);
      }
    }
  }

  // ----- exactly when a client is left holding a key that is up

  /** Key `k` is left with the client: its release is swallowed while the client holds it, or its
      press is sent when its release was already swallowed, and no release of it has been sent since.
      A release the shell is asked about is sent, unless the shell handles it while a later press
      of the key is still withheld. */
  predicate LeftHeld(run: Run, k: Keycode) {
    match run
    case Start => false
    case Typed(before, _, _) => LeftHeld(before, k)
    case CaughtUp(before, event, _) =>
      if event.keyCode == k && event.state == Released then k in Client(before) else LeftHeld(before, k)
    case Judged(before, event, _, _, _, out) =>
      if event.keyCode == k && event.state == Released then LeftHeld(before, k) && event !in out
      else LeftHeld(before, k) || (k !in Reached(run) && Presses(out, k))
  }

  /** Between events: a key that is reached as up is with the client exactly when it is left there,
      and a key withheld while with the client is left there. */
  ghost predicate Traced(s: Forwarding, reached: set<Keycode>, left: bool, k: Keycode) {
    && (left ==> k in s.forwarded)
    && (k !in reached && k in s.forwarded ==> left)
    && (k in s.forwarded && k in Codes(s.pending) ==> left)
  }

  /** The verdict on a release of the key. */
  lemma ReleaseIsTraced(s: Forwarding, reached: set<Keycode>, left: bool, event: KeyEvent, handled: bool,
                        held: set<Keycode>, after: Forwarding, out: seq<KeyEvent>)
    requires Shaped(s) && Resolves(s, event, handled, held, after, out)
    requires event.state == Released && Traced(s, reached, left, event.keyCode)
    ensures Traced(after, TrackOne(reached, event), left && event !in out, event.keyCode)
  {
    PendingPressIsCode(s.pending, event.keyCode);
    assert Codes([]) == {};
    if out != [] {
      var prefix := BatchShape(s, event, handled, held, after, out);
      assert out[|prefix|] == event;
    }
  }

  /** Any other verdict. */
  lemma OtherIsTraced(s: Forwarding, reached: set<Keycode>, left: bool, event: KeyEvent, handled: bool,
                      held: set<Keycode>, after: Forwarding, out: seq<KeyEvent>, k: Keycode)
    requires Shaped(s) && Resolves(s, event, handled, held, after, out)
    requires InTurn(event, reached) && (event.keyCode == k ==> event.state == Pressed)
    requires Traced(s, reached, left, k)
    ensures Traced(after, TrackOne(reached, event), left || (k !in TrackOne(reached, event) && Presses(out, k)), k)
  {
    assert Codes([]) == {};
    if out != [] {
      var prefix := BatchShape(s, event, handled, held, after, out);
      PrefixPresses(prefix, event, k);
    } else if after.pending != [] {
      CodesOfSnoc(s.pending, event);
      assert after.pending == s.pending + [event];
    }
  }

  lemma {:induction false} KeysAreTraced(run: Run, k: Keycode)
    requires Valid(run) && Alternates(run)
    ensures Traced(Final(run), Reached(run), LeftHeld(run, k), k)
  {
    if !run.Start? {
      KeysAreTraced(run.before, k);
      PendingIsSuperHeaded(run.before);
      QueueIsInOrder(run.before);
      var s, reached, left := Final(run.before), Reached(run.before), LeftHeld(run.before, k);
      assert Codes([]) == {};
      match run {
        case Typed(_, _, _) =>
        case CaughtUp(_, _, _) => ForwardedIsClientState(run.before);
        case Judged(_, event, handled, held, after, out) =>
          if event.keyCode == k && event.state == Released {
            ReleaseIsTraced(s, reached, left, event, handled, held, after, out);
          } else {
            OtherIsTraced(s, reached, left, event, handled, held, after, out, k);
          }
      }
    }
  }

  /** Once every verdict is in, the client holds a key that is physically up if and only if the key
      was left with it: its release was swallowed, before or after its press was sent, and no later
      release of it was. */
  lemma {:induction false} HeldWhileUpExactly(run: Run, k: Keycode)
    requires Valid(run) && Alternates(run) && Queue(run) == [] && k !in Down(run)
    ensures k in Client(run) <==> LeftHeld(run, k)
  {
    QueueIsInOrder(run);
    KeysAreTraced(run, k);
    ForwardedIsClientState(run);
  }

  /** A key the client holds and is not left with is always released by its own release: whatever the
      shell says of it, and whatever was withheld, consumed or swallowed since, it is sent alone. */
  lemma {:induction false} HeldKeyIsReleased(run: Run)
    requires Valid(run) && Alternates(run) && run.Judged? && run.event.state == Released
    requires run.event.keyCode in Client(run.before) && !LeftHeld(run.before, run.event.keyCode)
    ensures run.out == [run.event] && run.event.keyCode !in Client(run)
  {
    KeysAreTraced(run.before, run.event.keyCode);
    PendingIsSuperHeaded(run.before);
    ForwardedIsClientState(run.before);
    ForwardedIsClientState(run);
    PendingPressIsCode(Final(run.before).pending, run.event.keyCode);
  }

  // ----- a key whose releases are not lost is in one place at most

  predicate Knows(s: Forwarding, k: Keycode) {
    k in Codes(s.pending) || k in s.consumed || k in s.forwarded
  }

  predicate Once(events: seq<KeyEvent>, k: Keycode) {
    forall i, j | 0 <= i < j < |events| && events[i].keyCode == k :: events[j].keyCode != k
  }

  predicate Apart(s: Forwarding, k: Keycode) {
    && Once(s.pending, k)
    && !(k in Codes(s.pending) && k in s.consumed)
    && !(k in Codes(s.pending) && k in s.forwarded)
    && !(k in s.consumed && k in s.forwarded)
  }

  /** The key is in one collection at most, once, and only while it is down and Flutter was told. */
  ghost predicate InOnePlace(s: Forwarding, reached: set<Keycode>, told: set<Keycode>, k: Keycode) {
    Apart(s, k) && (Knows(s, k) ==> k in reached && k in told)
  }

  lemma ConsumedIsInOnePlace(s: Forwarding, reached: set<Keycode>, told: set<Keycode>, k: Keycode)
    requires Shaped(s) && InOnePlace(s, reached, told, k)
    ensures InOnePlace(PendingConsumed(s), reached, told, k)
  {
    ConsumeAdds(s.consumed, s.pending);
    assert Codes([]) == {};
  }

  lemma OnceSnoc(events: seq<KeyEvent>, event: KeyEvent, k: Keycode)
    requires Once(events, k) && (event.keyCode == k ==> k !in Codes(events))
    ensures Once(events + [event], k)
  {
    if event.keyCode == k {
      forall i | 0 <= i < |events| ensures events[i].keyCode != k {
        CodesHas(events, i);
      }
    }
  }

  lemma SilentKeepsOnePlace(s: Forwarding, event: KeyEvent, handled: bool, held: set<Keycode>, after: Forwarding, k: Keycode)
    requires Shaped(s) && Resolves(s, event, handled, held, after, []) && Apart(s, k)
    requires event.keyCode == k && event.state == Pressed ==> !Knows(s, k)
    ensures Apart(after, k)
    ensures event.keyCode != k ==> (Knows(after, k) ==> Knows(s, k))
    ensures event.keyCode == k && event.state == Released ==> !Knows(after, k)
  {
    assert Codes([]) == {};
    PendingPressIsCode(s.pending, event.keyCode);
    ConsumeAdds(s.consumed, s.pending);
    if after.pending != [] {
      assert after.pending == s.pending + [event];
      CodesOfSnoc(s.pending, event);
      OnceSnoc(s.pending, event, k);
    }
  }

  lemma BatchKeepsOnePlace(s: Forwarding, event: KeyEvent, handled: bool, held: set<Keycode>,
                           after: Forwarding, out: seq<KeyEvent>, k: Keycode)
    requires Shaped(s) && Resolves(s, event, handled, held, after, out) && out != [] && Apart(s, k)
    requires event.keyCode == k && event.state == Pressed ==> !Knows(s, k)
    ensures Apart(after, k)
    ensures event.keyCode != k ==> (Knows(after, k) ==> Knows(s, k))
    ensures event.keyCode == k && event.state == Released ==> !Knows(after, k)
  {
    assert Codes([]) == {};
    PendingPressIsCode(s.pending, event.keyCode);
    ConsumeAdds(s.consumed, s.pending);
    var prefix := BatchShape(s, event, handled, held, after, out);
  }

  lemma JudgedIsInOnePlace(s: Forwarding, reached: set<Keycode>, told: set<Keycode>, event: KeyEvent, handled: bool,
                           held: set<Keycode>, after: Forwarding, out: seq<KeyEvent>, k: Keycode)
    requires Shaped(s) && Resolves(s, event, handled, held, after, out) && InTurn(event, reached)
    requires InOnePlace(s, reached, told, k)
    ensures InOnePlace(after, TrackOne(reached, event), TrackOne(told, event), k)
  {
    if out == [] {
      SilentKeepsOnePlace(s, event, handled, held, after, k);
    } else {
      BatchKeepsOnePlace(s, event, handled, held, after, out, k);
    }
  }

  /** No lost release of `k` that is still to come finds Flutter taking the key for held. */
  predicate QueuePairedFor(queue: seq<Entry>, k: Keycode) {
    forall i | 0 <= i < |queue| && queue[i].Lost? && queue[i].event.keyCode == k && queue[i].event.state == Released ::
      !queue[i].told
  }

  lemma {:induction false} QueueStaysPaired(run: Run, k: Keycode)
    requires PairedFor(run, k)
    ensures QueuePairedFor(Queue(run), k)
  {
    if !run.Start? {
      QueueStaysPaired(run.before, k);
    }
  }

  lemma {:induction false} KeyIsInOnePlace(run: Run, k: Keycode)
    requires Valid(run) && Alternates(run) && PairedFor(run, k)
    ensures InOnePlace(Final(run), Reached(run), FlutterReached(run), k)
  {
    if !run.Start? {
      KeyIsInOnePlace(run.before, k);
      PendingIsSuperHeaded(run.before);
      QueueIsInOrder(run.before);
      QueueStaysPaired(run.before, k);
      var s, reached, told := Final(run.before), Reached(run.before), FlutterReached(run.before);
      match run {
        case Typed(_, _, _) => ConsumedIsInOnePlace(s, reached, told, k);
        case Judged(_, event, handled, held, after, out) =>
          JudgedIsInOnePlace(s, reached, told, event, handled, held, after, out, k);
        case CaughtUp(_, _, _) =>
      }
    }
  }

  /** A key is only ever left with the client by a release of its own that was swallowed while Flutter
      took the key for held: without one it never is, whatever happens to other keys. */
  lemma {:induction false} PairedKeyIsNotLeft(run: Run, k: Keycode)
    requires Valid(run) && Alternates(run) && PairedFor(run, k)
    ensures !LeftHeld(run, k)
  {
    if !run.Start? {
      PairedKeyIsNotLeft(run.before, k);
      KeyIsInOnePlace(run.before, k);
      KeyIsInOnePlace(run, k);
      KeysAreTraced(run, k);
      ForwardedIsClientState(run.before);
      QueueIsInOrder(run.before);
      QueueStaysPaired(run.before, k);
    }
  }

  // ----- no stuck keys

  ghost predicate Separated(s: Forwarding, down: set<Keycode>) {
    && DistinctKeys(s.pending)
    && Codes(s.pending) !! s.consumed.Keys
    && Codes(s.pending) !! s.forwarded
    && s.consumed.Keys !! s.forwarded
    && Codes(s.pending) + s.consumed.Keys + s.forwarded <= down
  }

  /** When no key's releases are lost, no key is in two collections, and every key in one of them was
      down when the event was typed whose turn came last. */
  lemma {:induction false} CollectionsAreSeparated(run: Run)
    requires Valid(run) && Alternates(run) && forall k :: PairedFor(run, k)
    ensures Separated(Final(run), Reached(run))
  {
    var s := Final(run);
    forall k ensures Apart(s, k) && (Knows(s, k) ==> k in Reached(run)) {
      assert PairedFor(run, k);
      KeyIsInOnePlace(run, k);
    }
    forall i, j | 0 <= i < j < |s.pending| ensures s.pending[i].keyCode != s.pending[j].keyCode {
      assert Apart(s, s.pending[i].keyCode);
    }
    forall k | k in Codes(s.pending) + s.consumed.Keys + s.forwarded ensures k in Reached(run) {
      assert Knows(s, k);
    }
    forall k | k in Codes(s.pending) ensures k !in s.consumed && k !in s.forwarded {
      assert Apart(s, k);
    }
    forall k | k in s.consumed ensures k !in s.forwarded {
      assert Apart(s, k);
    }
  }

  /** No stuck keys: once every key is up and every verdict is in, what the client still holds is
      exactly what was left with it. When no release is lost that is nothing, and nothing is withheld
      or remembered either. */
  lemma {:induction false} NoStuckKeys(run: Run)
    requires Valid(run) && Alternates(run) && Queue(run) == [] && Down(run) == {}
    ensures forall k :: k in Client(run) <==> LeftHeld(run, k)
    ensures (forall k :: PairedFor(run, k)) ==> Final(run) == EMPTY && Client(run) == {}
  {
    forall k ensures k in Client(run) <==> LeftHeld(run, k) {
      HeldWhileUpExactly(run, k);
    }
    if forall k :: PairedFor(run, k) {
      CollectionsAreSeparated(run);
      ForwardedIsClientState(run);
      QueueIsInOrder(run);
      var s := Final(run);
      if s.pending != [] {
        CodesHas(s.pending, 0);
        assert false;
      }
      assert s.consumed.Keys == {};
    }
  }

  /** The release of an ordinary key is swallowed while the verdict on its press is outstanding. The
      client is left holding the key if the shell then leaves the press to it, and is told nothing
      if the shell handles it. */
  lemma ReleaseLostBeforeVerdict(press: KeyEvent, handled: bool, held: set<Keycode>) returns (run: Run)
    requires press.state == Pressed && !IsModifier(press.keysym)
    ensures Valid(run) && Alternates(run) && Queue(run) == [] && Down(run) == {}
    ensures Client(run) == if handled then {} else {press.keyCode}
    ensures LeftHeld(run, press.keyCode) <==> !handled
  {
    var k, release := press.keyCode, press.(state := Released);
    assert Queue(Start) == [] && Final(Start) == EMPTY && Emitted(Start) == [] && Down(Start) == {} == FlutterKeys(Start);
    var r1 := Typed(Start, press, Asked);
    assert Final(r1) == EMPTY && Emitted(r1) == [];
    var r2 := Typed(r1, release, Swallowed);
    assert FlutterKeys(r1) == {k} == Down(r1);
    assert Queue(r1) == [Verdict(press)];
    assert Queue(r2) == [Verdict(press), Lost(release, true)];
    assert Final(r2) == PendingConsumed(EMPTY) == EMPTY && Emitted(r2) == [] && Down(r2) == {};
    UnhandledPressIsForwarded(press, held);
    var after := if handled then EMPTY.(consumed := map[k := press]) else Forwarding([], map[], {k});
    var out := if handled then [] else [press];
    var r3 := Judged(r2, press, handled, held, after, out);
    assert Valid(Start) && Valid(r1) && Valid(r2) && Valid(r3);
    assert Queue(r3) == [Lost(release, true)];
    run := CaughtUp(r3, release, true);
    assert Down(r3) == {} && Down(run) == {};
    assert Alternates(Start) && Alternates(r1) && Alternates(r2);
    ForwardedIsClientState(run);
    HeldWhileUpExactly(run, k);
  }

  /** A run with no verdict outstanding. */
  ghost predicate Idle(run: Run, s: Forwarding, down: set<Keycode>, told: set<Keycode>, client: set<Keycode>) {
    && Valid(run) && Alternates(run) && Queue(run) == []
    && Final(run) == s && Down(run) == down && FlutterKeys(run) == told && Client(run) == client
  }

  /** An event is typed and judged at once. */
  lemma AskedAtOnce(run: Run, s: Forwarding, down: set<Keycode>, told: set<Keycode>, event: KeyEvent, handled: bool,
                    held: set<Keycode>, after: Forwarding, out: seq<KeyEvent>)
    returns (next: Run)
    requires Idle(run, s, down, told, s.forwarded) && InTurn(event, down)
    requires Resolves(s, event, handled, held, after, out)
    ensures Idle(next, after, TrackOne(down, event), TrackOne(told, event), after.forwarded)
    ensures next == Judged(Typed(run, event, Asked), event, handled, held, after, out)
  {
    var typed := Typed(run, event, Asked);
    assert Queue(typed) == [Verdict(event)];
    next := Judged(typed, event, handled, held, after, out);
    ForwardedIsClientState(next);
  }

  /** An event is typed and swallowed. */
  lemma LostAtOnce(run: Run, s: Forwarding, down: set<Keycode>, told: set<Keycode>, event: KeyEvent) returns (next: Run)
    requires Idle(run, s, down, told, s.forwarded) && InTurn(event, down) && s.pending == []
    ensures Idle(next, s, TrackOne(down, event), told, s.forwarded)
  {
    var typed := Typed(run, event, Swallowed);
    assert Queue(typed) == [Lost(event, event.keyCode in told)];
    assert PendingConsumed(s) == s;
    next := CaughtUp(typed, event, event.keyCode in told);
    ForwardedIsClientState(next);
  }

  lemma StartIsIdle()
    ensures Idle(Start, EMPTY, {}, {}, {})
  {
  }

  /** Escape goes to the client, Ctrl is pressed, and the release of Escape is taken for the
      gaming-mode hotkey, which swallows it in either state (src/embedder/keyboard/mod.rs:552-567).
      Both keys are up and the client still holds Escape. */
  lemma SwallowedReleaseSticks(down: KeyEvent, ctrl: KeyEvent, held: set<Keycode>) returns (run: Run)
    requires down.state == Pressed && !IsModifier(down.keysym)
    requires ctrl.state == Pressed && ctrl.keysym == ControlL && ctrl.keyCode != down.keyCode
    ensures Valid(run) && Alternates(run) && Queue(run) == [] && Down(run) == {}
    ensures Client(run) == {down.keyCode}
  {
    var e, c := down.keyCode, ctrl.keyCode;
    var release, up := down.(state := Released), ctrl.(state := Released);
    UnhandledPressIsForwarded(down, held);
    var one, both := Forwarding([], map[], {e}), Forwarding([], map[], {e} + {c});
    assert both.consumed - {c} == both.consumed && {e} + {c} - {c} == {e};
    StartIsIdle();
    run := AskedAtOnce(Start, EMPTY, {}, {}, down, false, held, one, [down]);
    run := AskedAtOnce(run, one, {e}, {e}, ctrl, false, held, both, [ctrl]);
    run := LostAtOnce(run, both, {e} + {c}, {e} + {c}, release);
    run := AskedAtOnce(run, both, {e} + {c} - {e}, {e} + {c}, up, false, held, one, [up]);
  }

  /** A release the shell is asked about need not end it: Ctrl is left with the client, is pressed
      again under Super, and the shell handles that sequence. The last release of Ctrl was judged,
      every key is up, and the client still holds Ctrl. */
  lemma HandledSequenceKeepsLeftKey(ctrl: KeyEvent, meta: KeyEvent, held: set<Keycode>) returns (run: Run)
    requires ctrl.state == Pressed && ctrl.keysym == ControlL
    requires meta.state == Pressed && meta.keysym == SuperL && meta.keyCode != ctrl.keyCode
    ensures Valid(run) && Alternates(run) && Queue(run) == [] && Down(run) == {}
    ensures Client(run) == {ctrl.keyCode}
    ensures run.Judged? && run.before.Typed? && run.before.before.Judged?
    ensures run.before.before.event == ctrl.(state := Released) && run.before.before.handled
  {
    var c, m := ctrl.keyCode, meta.keyCode;
    var up, release := ctrl.(state := Released), meta.(state := Released);
    var s0 := Forwarding([], map[], {c});
    var s1, s2 := s0.(pending := [meta]), s0.(pending := [meta, ctrl]);
    assert [meta] + [ctrl] == [meta, ctrl];
    assert [meta, ctrl][1].keyCode == c && [meta, ctrl][1].state == Pressed;
    var none: map<Keycode, KeyEvent> := map[];
    assert none - {m} == none && {c} - {m} == {c};
    StartIsIdle();
    run := AskedAtOnce(Start, EMPTY, {}, {}, ctrl, false, held, s0, [ctrl]);
    run := LostAtOnce(run, s0, {c}, {c}, up);
    run := AskedAtOnce(run, s0, {}, {c}, meta, false, held, s1, []);
    run := AskedAtOnce(run, s1, {m}, {c} + {m}, ctrl, false, held, s2, []);
    run := AskedAtOnce(run, s2, {m} + {c}, {c} + {m} + {c}, up, true, held, s0, []);
    var last := run;
    assert last.event == up && last.handled;
    run := AskedAtOnce(run, s0, {m} + {c} - {c}, {c} + {m} + {c} - {c}, release, false, held, s0, [release]);
  }

  // ----- no press is repeated

  /** Every press of `k` that is sent is sent while the client does not hold the key. */
  ghost predicate NoRepeatedPress(down: set<Keycode>, events: seq<KeyEvent>, k: Keycode) {
    forall i | 0 <= i < |events| ::
      events[i].keyCode == k && events[i].state == Pressed ==> k !in Track(down, events[..i])
  }

  lemma NoRepeatedPressAppend(down: set<Keycode>, first: seq<KeyEvent>, second: seq<KeyEvent>, k: Keycode)
    requires NoRepeatedPress(down, first, k) && NoRepeatedPress(Track(down, first), second, k)
    ensures NoRepeatedPress(down, first + second, k)
  {
    var all := first + second;
    forall i | 0 <= i < |all| && all[i].keyCode == k && all[i].state == Pressed ensures k !in Track(down, all[..i]) {
      if i < |first| {
        assert all[..i] == first[..i];
      } else {
        var j := i - |first|;
        assert all[..i] == first + second[..j];
        TrackAppend(down, first, second[..j]);
        assert second[j].keyCode == k && second[j].state == Pressed;
      }
    }
  }

  lemma PressesOnce(down: set<Keycode>, events: seq<KeyEvent>, k: Keycode)
    requires AllPressed(events) && Once(events, k) && (k in Codes(events) ==> k !in down)
    ensures NoRepeatedPress(down, events, k)
  {
    forall i | 0 <= i < |events| && events[i].keyCode == k ensures k !in Track(down, events[..i]) {
      TrackPresses(down, events[..i]);
      CodesHas(events, i);
    }
  }

  lemma BatchDoesNotRepeat(s: Forwarding, event: KeyEvent, handled: bool, held: set<Keycode>,
                           after: Forwarding, out: seq<KeyEvent>, k: Keycode)
    requires Shaped(s) && Resolves(s, event, handled, held, after, out) && Apart(s, k)
    requires event.keyCode == k && event.state == Pressed ==> !Knows(s, k)
    ensures NoRepeatedPress(s.forwarded, out, k)
  {
    if out != [] {
      var prefix := BatchShape(s, event, handled, held, after, out);
      assert Codes([]) == {};
      PressesOnce(s.forwarded, prefix, k);
      TrackPresses(s.forwarded, prefix);
      assert NoRepeatedPress(Track(s.forwarded, prefix), [event], k) by {
        assert [event][..0] == [];
      }
      NoRepeatedPressAppend(s.forwarded, prefix, [event], k);
    }
  }

  /** A key none of whose releases are lost is never pressed twice on the client. */
  lemma {:induction false} NoPressIsRepeated(run: Run, k: Keycode)
    requires Valid(run) && Alternates(run) && PairedFor(run, k)
    ensures NoRepeatedPress({}, Emitted(run), k)
  {
    if !run.Start? {
      NoPressIsRepeated(run.before, k);
      if run.Judged? {
        KeyIsInOnePlace(run.before, k);
        PendingIsSuperHeaded(run.before);
        ForwardedIsClientState(run.before);
        QueueIsInOrder(run.before);
        BatchDoesNotRepeat(Final(run.before), run.event, run.handled, run.held, run.after, run.out, k);
        NoRepeatedPressAppend({}, Emitted(run.before), run.out, k);
      }
    }
  }

  // ----- both or neither, for ordinary keys

  /** The events of one key, in order. */
  function OnKey(events: seq<KeyEvent>, k: Keycode): seq<KeyEvent> {
    if events == [] then []
    else
      var init, last := OnKey(events[..|events| - 1], k), events[|events| - 1];
      if last.keyCode == k then init + [last] else init
  }

  lemma {:induction false} OnKeyAppend(first: seq<KeyEvent>, second: seq<KeyEvent>, k: Keycode)
    ensures OnKey(first + second, k) == OnKey(first, k) + OnKey(second, k)
    decreases |second|
  {
    if second == [] {
      assert first + second == first;
    } else {
      OnKeyAppend(first, second[..|second| - 1], k);
      assert (first + second)[..|first + second| - 1] == first + second[..|second| - 1];
    }
  }

  lemma {:induction false} OnKeyOfOthers(events: seq<KeyEvent>, k: Keycode)
    requires k !in Codes(events)
    ensures OnKey(events, k) == []
  {
    if events != [] {
      var init, last := events[..|events| - 1], events[|events| - 1];
      assert events == init + [last];
      CodesOfSnoc(init, last);
      OnKeyOfOthers(init, k);
    }
  }

  /** Whether the shell left the last press of `k` it judged to the client. */
  predicate LastPressUnhandled(run: Run, k: Keycode) {
    !run.Start? &&
    if run.Judged? && run.event.keyCode == k && run.event.state == Pressed then !run.handled
    else LastPressUnhandled(run.before, k)
  }

  /** The reference: a key's press goes through exactly when the shell did not handle it, and
      its release exactly when its press did, whatever the shell says about the release. */
  function PressAndReleaseTogether(run: Run, k: Keycode): seq<KeyEvent> {
    if run.Start? then []
    else
      var earlier := PressAndReleaseTogether(run.before, k);
      if run.Judged? && run.event.keyCode == k && LastPressUnhandled(run, k) then earlier + [run.event]
      else earlier
  }

  /** An ordinary key is never withheld: while it is down the client has it or the shell has it. */
  ghost predicate Decided(s: Forwarding, reached: set<Keycode>, k: Keycode, unhandled: bool) {
    && k !in Codes(s.pending)
    && (k in s.consumed ==> !IsModifier(s.consumed[k].keysym))
    && (k in s.forwarded <==> k in reached && unhandled)
    && (k in s.consumed <==> k in reached && !unhandled)
  }

  lemma {:induction false} ConsumeKeeps(consumed: map<Keycode, KeyEvent>, pending: seq<KeyEvent>, k: Keycode)
    requires AllPressed(pending) && k !in Codes(pending)
    ensures k in Consume(consumed, pending) <==> k in consumed
    ensures k in consumed ==> Consume(consumed, pending)[k] == consumed[k]
  {
    if pending != [] {
      var init, last := pending[..|pending| - 1], pending[|pending| - 1];
      assert pending == init + [last];
      CodesOfSnoc(init, last);
      ConsumeKeeps(consumed, init, k);
    }
  }

  lemma OrdinaryNotReplayed(s: Forwarding, event: KeyEvent, handled: bool, held: set<Keycode>,
                            after: Forwarding, out: seq<KeyEvent>, k: Keycode)
    requires Resolves(s, event, handled, held, after, out) && out != []
    requires k !in Codes(s.pending) && (k in s.consumed ==> !IsModifier(s.consumed[k].keysym))
    ensures k !in Codes(out[..|out| - 1])
  {
    var prefix := out[..|out| - 1];
    assert prefix == [] || prefix == s.pending || ReplayOrder(s.consumed, held, prefix);
  }

  lemma OrdinaryKeyOutput(s: Forwarding, reached: set<Keycode>, event: KeyEvent, handled: bool, held: set<Keycode>,
                          after: Forwarding, out: seq<KeyEvent>, k: Keycode, unhandled: bool)
    requires Shaped(s) && Decided(s, reached, k, unhandled) && InTurn(event, reached)
    requires event.keyCode == k ==> !IsModifier(event.keysym)
    requires Resolves(s, event, handled, held, after, out)
    ensures var now := if event.keyCode == k && event.state == Pressed then !handled else unhandled;
      OnKey(out, k) == if event.keyCode == k && now then [event] else []
  {
    PendingPressIsCode(s.pending, event.keyCode);
    ConsumeKeeps(s.consumed, s.pending, k);
    if out != [] {
      OrdinaryNotReplayed(s, event, handled, held, after, out, k);
      OnKeyOfOthers(out[..|out| - 1], k);
      assert out[|out| - 1] == event;
    }
  }

  /** What a verdict on another key does to an ordinary one. */
  lemma OtherKeyStays(s: Forwarding, event: KeyEvent, handled: bool, held: set<Keycode>,
                      after: Forwarding, out: seq<KeyEvent>, k: Keycode)
    requires Shaped(s) && Resolves(s, event, handled, held, after, out) && event.keyCode != k
    requires k !in Codes(s.pending) && (k in s.consumed ==> !IsModifier(s.consumed[k].keysym))
    ensures k !in Codes(after.pending)
    ensures k in after.forwarded <==> k in s.forwarded
    ensures k in after.consumed <==> k in s.consumed
    ensures k in s.consumed ==> after.consumed[k] == s.consumed[k]
  {
    assert Codes([]) == {};
    ConsumeKeeps(s.consumed, s.pending, k);
    if out != [] {
      OrdinaryNotReplayed(s, event, handled, held, after, out, k);
      var prefix := BatchShape(s, event, handled, held, after, out);
      assert out[..|out| - 1] == prefix;
    } else if after.pending != [] {
      CodesOfSnoc(s.pending, event);
      assert after.pending == s.pending + [event];
    }
  }

  /** What the verdicts on an ordinary key do to it. */
  lemma OwnKeyMoves(s: Forwarding, event: KeyEvent, handled: bool, held: set<Keycode>, after: Forwarding, out: seq<KeyEvent>)
    requires Shaped(s) && Resolves(s, event, handled, held, after, out) && !IsModifier(event.keysym)
    requires event.keyCode !in Codes(s.pending)
    ensures event.keyCode !in Codes(after.pending)
    ensures event.state == Released ==> event.keyCode !in after.forwarded && event.keyCode !in after.consumed
    ensures event.state == Pressed && event.keyCode !in s.forwarded && event.keyCode !in s.consumed ==>
      if handled then event.keyCode !in after.forwarded && event.keyCode in after.consumed
                      && after.consumed[event.keyCode] == event
      else event.keyCode in after.forwarded && event.keyCode !in after.consumed
  {
    assert Codes([]) == {};
    PendingPressIsCode(s.pending, event.keyCode);
    ConsumeKeeps(s.consumed, s.pending, event.keyCode);
    if out != [] {
      var prefix := BatchShape(s, event, handled, held, after, out);
    }
  }

  lemma OrdinaryKeyState(s: Forwarding, reached: set<Keycode>, event: KeyEvent, handled: bool, held: set<Keycode>,
                         after: Forwarding, out: seq<KeyEvent>, k: Keycode, unhandled: bool)
    requires Shaped(s) && Decided(s, reached, k, unhandled) && InTurn(event, reached)
    requires event.keyCode == k ==> !IsModifier(event.keysym)
    requires Resolves(s, event, handled, held, after, out)
    ensures var now := if event.keyCode == k && event.state == Pressed then !handled else unhandled;
      Decided(after, TrackOne(reached, event), k, now)
  {
    if event.keyCode == k {
      OwnKeyMoves(s, event, handled, held, after, out);
    } else {
      OtherKeyStays(s, event, handled, held, after, out, k);
    }
  }

  predicate QueueNeverLost(queue: seq<Entry>, k: Keycode) {
    forall i | 0 <= i < |queue| && queue[i].event.keyCode == k :: queue[i].Verdict?
  }

  lemma {:induction false} QueueKeepsKey(run: Run, k: Keycode)
    requires NeverLost(run, k)
    ensures QueueNeverLost(Queue(run), k)
  {
    if !run.Start? {
      QueueKeepsKey(run.before, k);
    }
  }

  lemma {:induction false} OrdinaryKeyInvariant(run: Run, modifiers: set<Keycode>, k: Keycode)
    requires Valid(run) && Alternates(run) && Classified(run, modifiers)
    requires k !in modifiers && NeverLost(run, k)
    ensures Decided(Final(run), Reached(run), k, LastPressUnhandled(run, k))
    ensures OnKey(Emitted(run), k) == PressAndReleaseTogether(run, k)
  {
    if !run.Start? {
      OrdinaryKeyInvariant(run.before, modifiers, k);
      PendingIsSuperHeaded(run.before);
      QueueIsInOrder(run.before);
      QueueKeepsKey(run.before, k);
      var s, reached, unhandled := Final(run.before), Reached(run.before), LastPressUnhandled(run.before, k);
      match run {
        case Typed(_, _, _) => ConsumeKeeps(s.consumed, s.pending, k);
        case Judged(_, event, handled, held, after, out) =>
          OnKeyAppend(Emitted(run.before), out, k);
          OrdinaryKeyOutput(s, reached, event, handled, held, after, out, k, unhandled);
          OrdinaryKeyState(s, reached, event, handled, held, after, out, k, unhandled);
        case CaughtUp(_, _, _) =>
      }
    }
  }

  /** Both or neither: on an ordinary key no hotkey keeps from the shell, the client sees exactly the
      presses the shell left to it, each with its release, in the order they were typed, whatever
      is swallowed of other keys and however late the verdicts come. */
  lemma {:induction false} BothOrNeither(run: Run, modifiers: set<Keycode>, k: Keycode)
    requires Valid(run) && Alternates(run) && Classified(run, modifiers)
    requires k !in modifiers && NeverLost(run, k)
    ensures OnKey(Emitted(run), k) == PressAndReleaseTogether(run, k)
  {
    OrdinaryKeyInvariant(run, modifiers, k);
  }

  // ----- what a flush contains

  /** The last `n` events the shell judged. */
  function Latest(run: Run, n: nat): seq<KeyEvent>
    requires n <= |Answered(run)|
  {
    Answered(run)[|Answered(run)| - n..]
  }

  lemma PendingGrowsByTyping(s: Forwarding, event: KeyEvent, handled: bool, held: set<Keycode>, after: Forwarding, out: seq<KeyEvent>)
    requires Resolves(s, event, handled, held, after, out)
    ensures after.pending == [] || after.pending == s.pending + [event]
  {
    if s.pending == [] {
      assert s.pending + [event] == [event];
    }
  }

  /** `pending` is always the most recent stretch of judged events, unbroken and in order. */
  lemma {:induction false} PendingIsLatestTyped(run: Run)
    requires Valid(run)
    ensures |Final(run).pending| <= |Answered(run)|
    ensures Final(run).pending == Latest(run, |Final(run).pending|)
  {
    if !run.Start? {
      PendingIsLatestTyped(run.before);
      if run.Judged? {
        PendingGrowsByTyping(Final(run.before), run.event, run.handled, run.held, run.after, run.out);
      }
    }
  }

  /** A flushed batch replays the withheld presses exactly as typed, with nothing left out,
      reordered or added, and ends with the event that settled the sequence. */
  lemma {:induction false} FlushReplaysTyping(run: Run)
    requires Valid(run) && run.Judged?
    requires Final(run.before).pending != [] && |run.out| > 1
    ensures |run.out| == |Final(run.before).pending| + 1 <= |Answered(run)|
    ensures run.out == Latest(run, |run.out|)
  {
    PendingIsLatestTyped(run.before);
  }

  // ----- which modifiers a client is given back

  /** What precedes an unhandled ordinary press when nothing is withheld: exactly the consumed modifiers
      that are physically held, each once, with the press that was consumed, oldest first. One that is
      up is never sent. */
  lemma {:induction false} ReplayIsExact(s: Forwarding, event: KeyEvent, held: set<Keycode>, after: Forwarding, out: seq<KeyEvent>)
    requires Shaped(s) && Resolves(s, event, false, held, after, out)
    requires event.state == Pressed && !IsModifier(event.keysym) && s.pending == []
    ensures out != [] && out[|out| - 1] == event
    ensures forall i | 0 <= i < |out| - 1 ::
      && out[i].keyCode in held && IsModifier(out[i].keysym) && out[i].state == Pressed
      && out[i].keyCode in s.consumed && s.consumed[out[i].keyCode] == out[i]
    ensures forall i, j | 0 <= i < j < |out| - 1 :: out[i].keyCode != out[j].keyCode && out[i].time <= out[j].time
    ensures forall k | k in s.consumed && k in held && IsModifier(s.consumed[k].keysym) ::
      s.consumed[k] in out[..|out| - 1]
  {
    var mods := out[..|out| - 1];
    assert ReplayOrder(s.consumed, held, mods);
    forall i | 0 <= i < |out| - 1
      ensures out[i].keyCode in held && IsModifier(out[i].keysym) && out[i].state == Pressed
        && out[i].keyCode in s.consumed && s.consumed[out[i].keyCode] == out[i]
    {
      assert mods[i] == out[i];
    }
    forall i, j | 0 <= i < j < |out| - 1 ensures out[i].keyCode != out[j].keyCode && out[i].time <= out[j].time {
      assert mods[i] == out[i] && mods[j] == out[j];
    }
  }

  /** Over runs: when the shell leaves an ordinary press to the client and nothing is withheld, a
      modifier that was consumed is with the client afterwards if and only if it was before or it is
      still held. */
  lemma {:induction false} HeldModifiersComeBack(run: Run, k: Keycode)
    requires Valid(run) && run.Judged? && !run.handled
    requires run.event.state == Pressed && !IsModifier(run.event.keysym) && run.event.keyCode != k
    requires Final(run.before).pending == []
    requires k in Final(run.before).consumed && IsModifier(Final(run.before).consumed[k].keysym)
    ensures k in Client(run) <==> k in Client(run.before) || k in run.held
    ensures k in run.held <==> k !in Final(run).consumed
  {
    PendingIsSuperHeaded(run.before);
    ForwardedIsClientState(run.before);
    ForwardedIsClientState(run);
    ReplayMoves(Final(run.before), run.event, run.held, run.after, run.out, k);
  }

  /** The replayed keys are the consumed modifiers that are held. */
  lemma ReplayedCodes(s: Forwarding, held: set<Keycode>, mods: seq<KeyEvent>, k: Keycode)
    requires Shaped(s) && ReplayOrder(s.consumed, held, mods)
    ensures k in Codes(mods) <==> k in s.consumed && IsModifier(s.consumed[k].keysym) && k in held
  {
    if k in Codes(mods) {
      var i :| 0 <= i < |mods| && mods[i].keyCode == k;
      assert s.consumed[mods[i].keyCode] == mods[i];
    }
    if k in s.consumed && IsModifier(s.consumed[k].keysym) && k in held {
      var i :| 0 <= i < |mods| && mods[i] == s.consumed[k];
      CodesHas(mods, i);
      assert s.consumed[k].keyCode == k;
    }
  }

  lemma ReplayMoves(s: Forwarding, event: KeyEvent, held: set<Keycode>, after: Forwarding, out: seq<KeyEvent>, k: Keycode)
    requires Shaped(s) && Resolves(s, event, false, held, after, out)
    requires event.state == Pressed && !IsModifier(event.keysym) && s.pending == [] && event.keyCode != k
    requires k in s.consumed && IsModifier(s.consumed[k].keysym)
    ensures k in after.forwarded <==> k in s.forwarded || k in held
    ensures k in after.consumed <==> k !in held
  {
    var mods := out[..|out| - 1];
    assert out == mods + [event];
    ReplayedArePresses(s, held, mods);
    ReplayedCodes(s, held, mods, k);
    TrackFlush(s.forwarded, mods, event);
  }

  /** With a sequence withheld, the flush sends that and no consumed modifier: such a modifier stays
      where it is. */
  lemma {:induction false} FlushGivesNothingBack(run: Run, k: Keycode)
    requires Valid(run) && run.Judged? && !run.handled
    requires run.event.state == Pressed && !IsModifier(run.event.keysym) && run.event.keyCode != k
    requires Final(run.before).pending != [] && k !in Codes(Final(run.before).pending)
    ensures k in Client(run) <==> k in Client(run.before)
    ensures k in Final(run).consumed <==> k in Final(run.before).consumed
  {
    PendingIsSuperHeaded(run.before);
    ForwardedIsClientState(run.before);
    ForwardedIsClientState(run);
    TrackFlush(Final(run.before).forwarded, Final(run.before).pending, run.event);
  }

  // ----- shell shortcuts, from any state in which nothing is withheld

  /** A tap of Super: nothing is sent for the press; the release, when the shell handles it, is silent
      too and leaves the client's keys alone, and when it does not, both events are sent. */
  lemma SuperTap(s: Forwarding, press: KeyEvent, release: KeyEvent, handled: bool, held: set<Keycode>,
                 pressed: Forwarding, first: seq<KeyEvent>, released: Forwarding, second: seq<KeyEvent>)
    requires s.pending == [] && press.state == Pressed && release.state == Released
    requires IsSuper(press.keysym) && release.keyCode == press.keyCode
    requires Resolves(s, press, false, held, pressed, first) && Resolves(pressed, release, handled, held, released, second)
    ensures first == [] && second == if handled then [] else [press, release]
    ensures released.pending == [] && released.consumed == s.consumed
    ensures released.forwarded == if handled then s.forwarded else s.forwarded - {press.keyCode}
  {
    assert pressed.pending[0] == press;
    assert [press] + [release] == [press, release];
    TrackFlush(s.forwarded, [press], release);
    assert Codes([press]) == {press.keyCode} by {
      CodesOfSnoc([], press);
      assert [] + [press] == [press] && Codes([]) == {};
    }
  }

  /** A modifier pressed alone, other than Super, reaches the client at once; under a withheld Super it
      is withheld with it. A press the shell handles reaches nobody, and takes with it what is withheld. */
  lemma ModifierPress(s: Forwarding, press: KeyEvent, handled: bool, held: set<Keycode>, after: Forwarding, out: seq<KeyEvent>)
    requires press.state == Pressed && IsModifier(press.keysym) && Resolves(s, press, handled, held, after, out)
    ensures out == if handled || s.pending != [] || IsSuper(press.keysym) then [] else [press]
    ensures handled ==> after.pending == [] && press.keyCode in after.consumed && after.forwarded == s.forwarded
    ensures !handled ==> after.consumed == s.consumed && after.pending == if out == [] then s.pending + [press] else []
  {
  }

  /** A chord under Super. If the shell handles the letter, nothing of the chord is sent: not the letter,
      not its release, and only the release of Super, which corrects a mask the client may have been
      given. If it does not, the client gets Super and then the letter. */
  lemma SuperChord(s: Forwarding, meta: KeyEvent, letter: KeyEvent, handled: bool, held: set<Keycode>,
                   withheld: Forwarding, first: seq<KeyEvent>, after: Forwarding, second: seq<KeyEvent>)
    requires s.pending == [] && meta.state == Pressed && letter.state == Pressed
    requires IsSuper(meta.keysym) && !IsModifier(letter.keysym) && meta.keyCode != letter.keyCode
    requires Resolves(s, meta, false, held, withheld, first) && Resolves(withheld, letter, handled, held, after, second)
    ensures first == [] && second == if handled then [] else [meta, letter]
    ensures after.pending == []
    ensures handled ==>
      && after.forwarded == s.forwarded
      && meta.keyCode in after.consumed && after.consumed[meta.keyCode] == meta
      && letter.keyCode in after.consumed && after.consumed[letter.keyCode] == letter
    ensures !handled ==> after.consumed == s.consumed && after.forwarded == s.forwarded + {meta.keyCode, letter.keyCode}
  {
    assert [meta] + [letter] == [meta, letter];
    TrackFlush(s.forwarded, [meta], letter);
    assert Codes([meta]) == {meta.keyCode} && Consume(s.consumed, [meta]) == s.consumed[meta.keyCode := meta] by {
      CodesOfSnoc([], meta);
      assert [] + [meta] == [meta] && Codes([]) == {};
      assert [meta][..0] == [];
    }
  }

  /** The releases after a handled chord: the letter's is withheld and the modifier's is sent, and
      neither key is remembered. */
  lemma ConsumedReleases(s: Forwarding, release: KeyEvent, handled: bool, held: set<Keycode>, after: Forwarding, out: seq<KeyEvent>)
    requires s.pending == [] && release.state == Released && release.keyCode in s.consumed && release.keyCode !in s.forwarded
    requires Resolves(s, release, handled, held, after, out)
    ensures out == if IsModifier(release.keysym) then [release] else []
    ensures after == s.(consumed := s.consumed - {release.keyCode})
  {
  }
}
