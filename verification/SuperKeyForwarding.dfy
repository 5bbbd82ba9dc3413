/** Key events as the seat reports them (src/embedder/keyboard/mod.rs). */
module KeyEvents {
  type Keycode = nat

  datatype Keysym =
    | SuperL | SuperR | ShiftL | ShiftR | ControlL | ControlR
    | AltL | AltR | MetaL | MetaR | IsoLevel3Shift
    | OtherKeysym(raw: nat)

  datatype KeyState = Pressed | Released

  /** `detail` stands for the fields no forwarding decision reads: the raw keysym, the modifier
      state, `mods_changed` and `synthesized`. */
  datatype KeyEvent = KeyEvent(keyCode: Keycode, keysym: Keysym, state: KeyState, time: nat, detail: nat)

  predicate IsModifier(keysym: Keysym) {
    !keysym.OtherKeysym?
  }

  predicate IsSuper(keysym: Keysym) {
    keysym.SuperL? || keysym.SuperR?
  }

  /** The keys held down after `event`, for whoever is told about it. */
  function TrackOne(down: set<Keycode>, event: KeyEvent): set<Keycode> {
    if event.state == Pressed then down + {event.keyCode} else down - {event.keyCode}
  }

  /** The keys held down after a whole series of events. */
  function Track(down: set<Keycode>, events: seq<KeyEvent>): set<Keycode> {
    if events == [] then down
    else TrackOne(Track(down, events[..|events| - 1]), events[|events| - 1])
  }

  lemma {:induction false} TrackAppend(down: set<Keycode>, first: seq<KeyEvent>, second: seq<KeyEvent>)
    ensures Track(down, first + second) == Track(Track(down, first), second)
    decreases |second|
  {
    if second == [] {
      assert first + second == first;
    } else {
      var init := second[..|second| - 1];
      TrackAppend(down, first, init);
      assert (first + second)[..|first + second| - 1] == first + init;
    }
  }

  predicate AllPressed(events: seq<KeyEvent>) {
    forall i | 0 <= i < |events| :: events[i].state == Pressed
  }

  predicate DistinctKeys(events: seq<KeyEvent>) {
    forall i, j | 0 <= i < j < |events| :: events[i].keyCode != events[j].keyCode
  }

  function Codes(events: seq<KeyEvent>): set<Keycode> {
    set i | 0 <= i < |events| :: events[i].keyCode
  }

  lemma CodesHas(events: seq<KeyEvent>, i: nat)
    requires i < |events|
    ensures events[i].keyCode in Codes(events)
  {
  }

  lemma CodesOfSnoc(events: seq<KeyEvent>, event: KeyEvent)
    ensures Codes(events + [event]) == Codes(events) + {event.keyCode}
  {
    var all := events + [event];
    forall k | k in Codes(events) + {event.keyCode} ensures k in Codes(all) {
      if k == event.keyCode {
        assert all[|events|].keyCode == k;
      } else {
        var i :| 0 <= i < |events| && events[i].keyCode == k;
        assert all[i].keyCode == k;
      }
    }
  }

  /** A series of presses only adds its own keys. */
  lemma {:induction false} TrackPresses(down: set<Keycode>, events: seq<KeyEvent>)
    requires AllPressed(events)
    ensures Track(down, events) == down + Codes(events)
  {
    if events != [] {
      var init := events[..|events| - 1];
      TrackPresses(down, init);
      assert events == init + [events[|events| - 1]];
      CodesOfSnoc(init, events[|events| - 1]);
    }
  }
}

/** `SuperKeyForwarding`: presses that may belong to a shell shortcut are withheld from the
    client until the shell has answered (src/embedder/keyboard/mod.rs:31-185). */
module SuperKeyForwarding {
  import opened KeyEvents

  /** The three collections of the Rust struct, as a value. */
  datatype Forwarding = Forwarding(
    pending: seq<KeyEvent>,
    consumed: map<Keycode, KeyEvent>,
    forwarded: set<Keycode>)

  const EMPTY := Forwarding([], map[], {})

  predicate WellKeyed(consumed: map<Keycode, KeyEvent>) {
    forall k | k in consumed :: consumed[k].keyCode == k
  }

  predicate PendingPress(pending: seq<KeyEvent>, keyCode: Keycode) {
    exists i | 0 <= i < |pending| :: pending[i].state == Pressed && pending[i].keyCode == keyCode
  }

  /** What `consume_pending` leaves in `consumed`. */
  function Consume(consumed: map<Keycode, KeyEvent>, pending: seq<KeyEvent>): (after: map<Keycode, KeyEvent>)
    ensures WellKeyed(consumed) ==> WellKeyed(after)
  {
    if pending == [] then consumed
    else
      var before := Consume(consumed, pending[..|pending| - 1]);
      var event := pending[|pending| - 1];
      if event.state == Pressed then before[event.keyCode := event] else before - {event.keyCode}
  }

  /** What `consume_pending` makes of the three collections. */
  function PendingConsumed(s: Forwarding): Forwarding {
    Forwarding([], Consume(s.consumed, s.pending), s.forwarded)
  }

  predicate Replayable(consumed: map<Keycode, KeyEvent>, held: set<Keycode>, k: Keycode) {
    k in consumed && IsModifier(consumed[k].keysym) && k in held
  }

  predicate SortedByTime(events: seq<KeyEvent>) {
    forall i, j | 0 <= i < j < |events| :: events[i].time <= events[j].time
  }

  /** `mods` lists the consumed modifiers that are still physically held, oldest first. The hash
      map's iteration order leaves modifiers with equal timestamps in any order. */
  ghost predicate ReplayOrder(consumed: map<Keycode, KeyEvent>, held: set<Keycode>, mods: seq<KeyEvent>) {
    && SortedByTime(mods)
    && DistinctKeys(mods)
    && (forall i | 0 <= i < |mods| ::
          Replayable(consumed, held, mods[i].keyCode) && consumed[mods[i].keyCode] == mods[i])
    && (forall k | Replayable(consumed, held, k) :: consumed[k] in mods)
  }

  /** One call of `resolve`: from `s`, on `event` with the shell's verdict `handled` and the
      physically `held` keys, to `after`, emitting `out` to the client. */
  ghost predicate Resolves(s: Forwarding, event: KeyEvent, handled: bool, held: set<Keycode>,
                           after: Forwarding, out: seq<KeyEvent>)
  {
    var k := event.keyCode;
    if event.state == Released then
      if PendingPress(s.pending, k) then
        if handled then
          out == [] && after == s.(pending := [])
        else
          out == s.pending + [event] && after == Forwarding([], s.consumed, Track(s.forwarded, out))
      else
        var consumed := Consume(s.consumed, s.pending);
        && after == Forwarding([], consumed - {k}, s.forwarded - {k})
        && out == if k !in s.forwarded && k in consumed && !IsModifier(event.keysym) then [] else [event]
    else if handled then
      out == [] && after == Forwarding([], Consume(s.consumed, s.pending)[k := event], s.forwarded)
    else if s.pending == [] then
      if IsSuper(event.keysym) then
        out == [] && after == s.(pending := [event])
      else if IsModifier(event.keysym) then
        out == [event] && after == s.(forwarded := s.forwarded + {k})
      else
        && |out| > 0 && out[|out| - 1] == event
        && ReplayOrder(s.consumed, held, out[..|out| - 1])
        && after == Forwarding([], s.consumed - Codes(out[..|out| - 1]), Track(s.forwarded, out))
    else if IsModifier(event.keysym) then
      out == [] && after == s.(pending := s.pending + [event])
    else
      out == s.pending + [event] && after == Forwarding([], s.consumed, Track(s.forwarded, out))
  }

  /** The press of an ordinary key that nothing precedes goes straight to the client. */
  lemma UnhandledPressIsForwarded(e: KeyEvent, held: set<Keycode>)
    requires e.state == Pressed && !IsModifier(e.keysym)
    ensures Resolves(EMPTY, e, false, held, Forwarding([], map[], {e.keyCode}), [e])
  {
    var none: map<Keycode, KeyEvent> := map[];
    assert [e][..0] == [] && none - Codes([]) == none;
    assert Track({}, [e]) == {e.keyCode};
    assert ReplayOrder(none, held, []);
  }

  /** The forwarding keeps the release from the client: the shell handled the sequence its press is
      still withheld in, or it belongs to an ordinary key whose press was consumed. */
  predicate Withholds(s: Forwarding, event: KeyEvent, handled: bool) {
    if PendingPress(s.pending, event.keyCode) then handled
    else event.keyCode !in s.forwarded && event.keyCode in Consume(s.consumed, s.pending) && !IsModifier(event.keysym)
  }

  /** A release is kept from the client in exactly those two cases; otherwise it ends the batch. */
  lemma ReleaseIsWithheldExactly(s: Forwarding, event: KeyEvent, handled: bool, held: set<Keycode>,
                                 after: Forwarding, out: seq<KeyEvent>)
    requires event.state == Released
    requires Resolves(s, event, handled, held, after, out)
    ensures out == [] <==> Withholds(s, event, handled)
    ensures out != [] ==> out[|out| - 1] == event
  {
  }

  /** Stable insertion, the behaviour of the standard library's `sort_by_key`. */
  function InsertByTime(sorted: seq<KeyEvent>, event: KeyEvent): seq<KeyEvent> {
    if sorted == [] || sorted[|sorted| - 1].time <= event.time then sorted + [event]
    else InsertByTime(sorted[..|sorted| - 1], event) + [sorted[|sorted| - 1]]
  }

  function SortByTime(events: seq<KeyEvent>): seq<KeyEvent> {
    if events == [] then []
    else InsertByTime(SortByTime(events[..|events| - 1]), events[|events| - 1])
  }

  lemma {:induction false} InsertByTimeMembers(sorted: seq<KeyEvent>, event: KeyEvent)
    ensures forall x :: x in InsertByTime(sorted, event) <==> x in sorted || x == event
  {
    if sorted != [] && sorted[|sorted| - 1].time > event.time {
      InsertByTimeMembers(sorted[..|sorted| - 1], event);
      assert sorted == sorted[..|sorted| - 1] + [sorted[|sorted| - 1]];
    }
  }

  lemma {:induction false} InsertByTimeKeeps(sorted: seq<KeyEvent>, event: KeyEvent)
    requires SortedByTime(sorted) && DistinctKeys(sorted)
    requires forall x | x in sorted :: x.keyCode != event.keyCode
    ensures SortedByTime(InsertByTime(sorted, event)) && DistinctKeys(InsertByTime(sorted, event))
  {
    if sorted != [] && sorted[|sorted| - 1].time > event.time {
      var init, last := sorted[..|sorted| - 1], sorted[|sorted| - 1];
      InsertByTimeKeeps(init, event);
      InsertByTimeMembers(init, event);
      var r := InsertByTime(init, event);
      forall i | 0 <= i < |r| ensures r[i].time <= last.time && r[i].keyCode != last.keyCode {
        assert r[i] in r;
        if r[i] != event {
          var j :| 0 <= j < |init| && init[j] == r[i];
          assert sorted[j] == r[i];
        }
      }
    }
  }

  lemma {:induction false} SortByTimeKeeps(events: seq<KeyEvent>)
    requires DistinctKeys(events)
    ensures var r := SortByTime(events);
      && SortedByTime(r) && DistinctKeys(r)
      && (forall x :: x in r <==> x in events)
  {
    if events != [] {
      var init, last := events[..|events| - 1], events[|events| - 1];
      assert events == init + [last];
      SortByTimeKeeps(init);
      var r := SortByTime(init);
      forall i | 0 <= i < |r| ensures r[i].keyCode != last.keyCode {
        assert r[i] in init;
        var j :| 0 <= j < |init| && init[j] == r[i];
        assert events[j] == r[i];
      }
      InsertByTimeKeeps(r, last);
      InsertByTimeMembers(r, last);
    }
  }

  class SuperKeyForwarding {
    var pending: seq<KeyEvent>
    var consumed: map<Keycode, KeyEvent>
    var forwarded: set<Keycode>

    ghost predicate Valid()
      reads this
    {
      WellKeyed(consumed)
    }

    ghost function View(): Forwarding
      reads this
    {
      Forwarding(pending, consumed, forwarded)
    }

    constructor ()
      ensures Valid() && View() == EMPTY
    {
      pending, consumed, forwarded := [], map[], {};
    }

    method Resolve(event: KeyEvent, handled: bool, held: set<Keycode>) returns (events: seq<KeyEvent>)
      requires Valid()
      modifies this
      ensures Valid()
      ensures Resolves(old(View()), event, handled, held, View(), events)
    {
      if event.state == Released {
        if PendingPress(pending, event.keyCode) {
          if handled {
            pending := [];
            return [];
          }
          events := pending + [event];
          pending := [];
          TrackAll(events);
          return;
        }
        ConsumePending();
        if event.keyCode in forwarded {
          forwarded := forwarded - {event.keyCode};
          consumed := consumed - {event.keyCode};
          return [event];
        }
        if event.keyCode in consumed {
          consumed := consumed - {event.keyCode};
          if !IsModifier(event.keysym) {
            assert forwarded == forwarded - {event.keyCode};
            return [];
          }
        }
        assert consumed == consumed - {event.keyCode};
        TrackForwarded(event);
        return [event];
      }

      if handled {
        ConsumePending();
        consumed := consumed[event.keyCode := event];
        return [];
      }

      if pending == [] {
        if IsSuper(event.keysym) {
          pending := [event];
          return [];
        }
        if !IsModifier(event.keysym) {
          var mods := ReplayableModifiers(held);
          events := mods + [event];
          assert events[..|events| - 1] == mods;
          if mods != [] {
            consumed := consumed - Codes(mods);
            TrackAll(events);
            return;
          }
          assert consumed == consumed - Codes(mods);
          assert Track(forwarded, [event]) == TrackOne(forwarded, event) by {
            assert [event][..0] == [];
          }
        }
        TrackForwarded(event);
        return [event];
      }

      pending := pending + [event];
      if IsModifier(event.keysym) {
        return [];
      }
      events := pending;
      pending := [];
      TrackAll(events);
    }

    /** The `values().filter(..).collect()` followed by `sort_by_key`. */
    method ReplayableModifiers(held: set<Keycode>) returns (mods: seq<KeyEvent>)
      requires Valid()
      ensures ReplayOrder(consumed, held, mods)
    {
      var found: seq<KeyEvent> := [];
      var rest := consumed.Keys;
      while rest != {}
        invariant rest <= consumed.Keys
        invariant DistinctKeys(found)
        invariant forall i | 0 <= i < |found| ::
          Replayable(consumed, held, found[i].keyCode) && consumed[found[i].keyCode] == found[i]
          && found[i].keyCode !in rest
        invariant forall k | Replayable(consumed, held, k) && k !in rest :: consumed[k] in found
        decreases rest
      {
        var k :| k in rest;
        rest := rest - {k};
        if IsModifier(consumed[k].keysym) && k in held {
          found := found + [consumed[k]];
        }
      }
      mods := SortByTime(found);
      SortByTimeKeeps(found);
      forall i | 0 <= i < |mods|
        ensures Replayable(consumed, held, mods[i].keyCode) && consumed[mods[i].keyCode] == mods[i]
      {
        assert mods[i] in found;
      }
    }

    method Clear()
      modifies this
      ensures Valid() && View() == EMPTY
    {
      pending, consumed, forwarded := [], map[], {};
    }

    method ConsumePending()
      requires Valid()
      modifies this
      ensures Valid()
      ensures View() == PendingConsumed(old(View()))
    {
      var i := 0;
      while i < |pending|
        invariant 0 <= i <= |pending|
        invariant pending == old(pending) && forwarded == old(forwarded)
        invariant consumed == Consume(old(consumed), pending[..i])
      {
        assert pending[..i + 1][..i] == pending[..i];
        var event := pending[i];
        match event.state {
          case Pressed => consumed := consumed[event.keyCode := event];
          case Released => consumed := consumed - {event.keyCode};
        }
        i := i + 1;
      }
      assert pending[..i] == pending;
      pending := [];
    }

    method TrackForwarded(event: KeyEvent)
      modifies this`forwarded
      ensures forwarded == TrackOne(old(forwarded), event)
    {
      match event.state {
        case Pressed => forwarded := forwarded + {event.keyCode};
        case Released => forwarded := forwarded - {event.keyCode};
      }
    }

    /** The loops that track a whole batch. */
    method TrackAll(events: seq<KeyEvent>)
      modifies this`forwarded
      ensures forwarded == Track(old(forwarded), events)
    {
      var i := 0;
      while i < |events|
        invariant 0 <= i <= |events|
        invariant forwarded == Track(old(forwarded), events[..i])
      {
        assert events[..i + 1][..i] == events[..i];
        TrackForwarded(events[i]);
        i := i + 1;
      }
      assert events[..i] == events;
    }
  }
}
