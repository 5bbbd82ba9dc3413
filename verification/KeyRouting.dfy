/** Where a key event goes: to a compositor hotkey, to the game, or to Flutter and from there to
    the focused client (src/embedder/keyboard/mod.rs:261-333, 399-440, 573-627). */
module KeyRouting {
  import opened KeyEvents
  import SKF = SuperKeyForwarding

  /** What the compositor hotkeys see in an event: its keysym and modifiers. */
  datatype Hotkey = Brightness | VtSwitch | ExitChord | Print | Escape(ctrl: bool) | NoHotkey

  /** Why a client was handed an event: straight from the keyboard in gaming mode, as a replayed
      release of such a key, or after Flutter's verdict. */
  datatype Route = Gaming | Replay | Verdict
  datatype Sent = Sent(route: Route, keyCode: Keycode, state: KeyState)

  datatype Tap = Tap(keyCode: Keycode, state: KeyState)

  datatype Router = Router(
    locked: bool,
    gaming: bool,
    capturing: bool,
    recording: bool,
    typing: bool,
    gameKeys: set<Keycode>,
    flutterKeys: set<Keycode>,
    forwarding: SKF.Forwarding,
    toClient: seq<Sent>,
    toFlutter: seq<Tap>)

  const IDLE := Router(false, false, false, false, false, {}, {}, SKF.EMPTY, [], [])

  predicate GamingInputActive(r: Router) {
    r.gaming && !r.locked
  }

  function Track(keys: set<Keycode>, keyCode: Keycode, state: KeyState): set<Keycode> {
    if state == Pressed then keys + {keyCode} else keys - {keyCode}
  }

  /** The order in which a set of keys is drained: each key once. */
  predicate Lists(order: seq<Keycode>, keys: set<Keycode>) {
    && (forall i | 0 <= i < |order| :: order[i] in keys)
    && (forall k | k in keys :: k in order)
    && (forall i, j | 0 <= i < j < |order| :: order[i] != order[j])
  }

  function Releases(order: seq<Keycode>): seq<Sent> {
    if order == [] then [] else Releases(order[..|order| - 1]) + [Sent(Replay, order[|order| - 1], Released)]
  }

  function FlutterReleases(order: seq<Keycode>): seq<Tap> {
    if order == [] then [] else FlutterReleases(order[..|order| - 1]) + [Tap(order[|order| - 1], Released)]
  }

  function ReleaseGameKeys(r: Router, order: seq<Keycode>): Router {
    r.(gameKeys := {}, toClient := r.toClient + Releases(order))
  }

  function ReleaseFlutterKeys(r: Router, order: seq<Keycode>): Router {
    r.(flutterKeys := {}, toFlutter := r.toFlutter + FlutterReleases(order))
  }

  /** A window leaves gaming mode. The game's keys are forgotten without a release, even when it was
      another window (src/embedder/meta_window_state/meta_window.rs:485-489, 1317-1323). */
  function LeaveGaming(r: Router, own: bool): Router {
    r.(gaming := r.gaming && !own, gameKeys := {})
  }

  function ToFlutter(r: Router, e: KeyEvent): Router {
    r.(toFlutter := r.toFlutter + [Tap(e.keyCode, e.state)], flutterKeys := Track(r.flutterKeys, e.keyCode, e.state))
  }

  /** `handle_embedder_hotkeys`: the state after, and whether the event is swallowed. `begins` is
      whether a capture session can start, `order` the order the game's keys are released in. */
  function Hotkeys(r: Router, e: KeyEvent, hot: Hotkey, begins: bool, order: seq<Keycode>): (Router, bool) {
    if hot.Brightness? && e.state == Pressed then (r, true)
    else if r.locked then (r, hot.VtSwitch? || hot.ExitChord? || hot.Print?)
    else if r.recording then (if hot.Print? && e.state == Pressed then r.(recording := false) else r, false)
    else if r.capturing then
      var told := if e.state == Released && e.keyCode in r.flutterKeys then ToFlutter(r, e) else r;
      (if hot.Escape? && e.state == Pressed then told.(capturing := false) else told, true)
    else if hot.Print? && e.state == Pressed then (if begins then r.(capturing := true) else r, true)
    else if hot.VtSwitch? || hot.ExitChord? then (r, true)
    else if hot == Escape(true) then (if r.gaming then LeaveGaming(ReleaseGameKeys(r, order), true) else r, true)
    else (r, false)
  }

  /** `handle_keyboard_event`. */
  function Typed(r: Router, e: KeyEvent, hot: Hotkey, begins: bool, order: seq<Keycode>): Router {
    var (after, swallowed) := Hotkeys(r, e, hot, begins, order);
    if swallowed then after.(forwarding := SKF.PendingConsumed(after.forwarding))
    else if GamingInputActive(after) then
      after.(toClient := after.toClient + [Sent(Gaming, e.keyCode, e.state)],
             gameKeys := Track(after.gameKeys, e.keyCode, e.state))
    else ToFlutter(after, e)
  }

  function Forwards(events: seq<KeyEvent>): seq<Sent> {
    if events == [] then []
    else Forwards(events[..|events| - 1]) + [Sent(Verdict, events[|events| - 1].keyCode, events[|events| - 1].state)]
  }

  /** `post_flutter_handle_key_event`, once Flutter has answered. */
  ghost predicate Judged(r: Router, e: KeyEvent, handled: bool, repeat: bool, held: set<Keycode>, after: Router) {
    if r.locked || r.typing then after == r.(forwarding := SKF.EMPTY)
    else if repeat then after == r
    else exists out ::
      && SKF.Resolves(r.forwarding, e, handled, held, after.forwarding, out)
      && after == r.(forwarding := after.forwarding, toClient := r.toClient + Forwards(out))
  }

  /** The part of `lock` that takes the keyboard away from clients. */
  function Locked(r: Router, order: seq<Keycode>): Router {
    if r.locked then r
    else ReleaseGameKeys(r.(locked := true, capturing := false), order).(forwarding := SKF.EMPTY)
  }

  function Unlocked(r: Router, flutterOrder: seq<Keycode>): Router {
    if !r.locked then r
    else if r.gaming then ReleaseFlutterKeys(r.(locked := false), flutterOrder) else r.(locked := false)
  }

  function EnteredGaming(r: Router, flutterOrder: seq<Keycode>): Router {
    ReleaseFlutterKeys(r.(gaming := true), flutterOrder)
  }

  class KeyRouter {
    const forwarding: SKF.SuperKeyForwarding
    var locked: bool
    var gaming: bool
    var capturing: bool
    var recording: bool
    var typing: bool
    var gameKeys: set<Keycode>
    var flutterKeys: set<Keycode>
    var toClient: seq<Sent>
    var toFlutter: seq<Tap>

    ghost function View(): Router
      reads this, forwarding
    {
      Router(locked, gaming, capturing, recording, typing, gameKeys, flutterKeys, forwarding.View(), toClient, toFlutter)
    }

    ghost predicate Valid()
      reads this, forwarding
    {
      forwarding.Valid()
    }

    constructor ()
      ensures Valid() && View() == IDLE && fresh(forwarding)
    {
      forwarding := new SKF.SuperKeyForwarding();
      locked, gaming, capturing, recording, typing := false, false, false, false, false;
      gameKeys, flutterKeys, toClient, toFlutter := {}, {}, [], [];
    }

    method InputForward(route: Route, keyCode: Keycode, state: KeyState)
      modifies this`toClient
      ensures toClient == old(toClient) + [Sent(route, keyCode, state)]
    {
      toClient := toClient + [Sent(route, keyCode, state)];
    }

    method SendToFlutter(e: KeyEvent)
      modifies this`toFlutter, this`flutterKeys
      ensures View() == ToFlutter(old(View()), e)
    {
      toFlutter := toFlutter + [Tap(e.keyCode, e.state)];
      flutterKeys := if e.state == Pressed then flutterKeys + {e.keyCode} else flutterKeys - {e.keyCode};
    }

    /** Takes the set and forwards a release for each key in it. */
    method ReleaseGameModeForwardedKeys() returns (ghost order: seq<Keycode>)
      modifies this`gameKeys, this`toClient
      ensures Lists(order, old(gameKeys)) && View() == ReleaseGameKeys(old(View()), order)
    {
      var rest := gameKeys;
      gameKeys := {};
      order := [];
      while rest != {}
        invariant gameKeys == {} && rest <= old(gameKeys) && Lists(order, old(gameKeys) - rest)
        invariant toClient == old(toClient) + Releases(order)
        decreases rest
      {
        var k :| k in rest;
        rest := rest - {k};
        InputForward(Replay, k, Released);
        ListsSnoc(order, old(gameKeys) - rest - {k}, k);
        assert old(gameKeys) - rest - {k} + {k} == old(gameKeys) - rest;
        ReleasesSnoc(order, k);
        order := order + [k];
      }
      assert old(gameKeys) - rest == old(gameKeys);
    }

    method ReleaseKeysOfFlutter() returns (ghost order: seq<Keycode>)
      modifies this`flutterKeys, this`toFlutter
      ensures Lists(order, old(flutterKeys)) && View() == ReleaseFlutterKeys(old(View()), order)
    {
      var rest := flutterKeys;
      flutterKeys := {};
      order := [];
      while rest != {}
        invariant flutterKeys == {} && rest <= old(flutterKeys) && Lists(order, old(flutterKeys) - rest)
        invariant toFlutter == old(toFlutter) + FlutterReleases(order)
        decreases rest
      {
        var k :| k in rest;
        rest := rest - {k};
        toFlutter := toFlutter + [Tap(k, Released)];
        ListsSnoc(order, old(flutterKeys) - rest - {k}, k);
        assert old(flutterKeys) - rest - {k} + {k} == old(flutterKeys) - rest;
        ReleasesSnoc(order, k);
        order := order + [k];
      }
      assert old(flutterKeys) - rest == old(flutterKeys);
    }

    method ForgetGame(own: bool)
      modifies this`gaming, this`gameKeys
      ensures View() == LeaveGaming(old(View()), own)
    {
      if own {
        gaming := false;
      }
      gameKeys := {};
    }

    method HandleEmbedderHotkeys(e: KeyEvent, hot: Hotkey, begins: bool) returns (swallowed: bool, ghost order: seq<Keycode>)
      modifies this
      ensures Lists(order, old(gameKeys))
      ensures (View(), swallowed) == Hotkeys(old(View()), e, hot, begins, order)
    {
      order := AnyOrder(gameKeys);
      if hot.Brightness? && e.state == Pressed {
        return true, order;
      }
      if locked {
        return hot.VtSwitch? || hot.ExitChord? || hot.Print?, order;
      }
      if recording {
        if hot.Print? && e.state == Pressed {
          recording := false;
        }
        return false, order;
      }
      if capturing {
        if e.state == Released && e.keyCode in flutterKeys {
          SendToFlutter(e);
        }
        if hot.Escape? && e.state == Pressed {
          capturing := false;
        }
        return true, order;
      }
      if hot.Print? && e.state == Pressed {
        if begins {
          capturing := true;
        }
        return true, order;
      }
      if hot.VtSwitch? || hot.ExitChord? {
        return true, order;
      }
      if hot == Escape(true) {
        if gaming {
          order := ReleaseGameModeForwardedKeys();
          ForgetGame(true);
        }
        return true, order;
      }
      swallowed := false;
    }

    method HandleKeyboardEvent(e: KeyEvent, hot: Hotkey, begins: bool) returns (ghost order: seq<Keycode>)
      requires Valid()
      modifies this, forwarding
      ensures Valid() && Lists(order, old(gameKeys))
      ensures View() == Typed(old(View()), e, hot, begins, order)
    {
      var swallowed;
      swallowed, order := HandleEmbedderHotkeys(e, hot, begins);
      if swallowed {
        forwarding.ConsumePending();
        return;
      }
      if gaming && !locked {
        InputForward(Gaming, e.keyCode, e.state);
        gameKeys := if e.state == Pressed then gameKeys + {e.keyCode} else gameKeys - {e.keyCode};
        return;
      }
      SendToFlutter(e);
    }

    method PostFlutterHandleKeyEvent(e: KeyEvent, handled: bool, repeat: bool, held: set<Keycode>)
      requires Valid()
      modifies this, forwarding
      ensures Valid() && Judged(old(View()), e, handled, repeat, held, View())
    {
      if locked || typing {
        forwarding.Clear();
        return;
      }
      if repeat {
        return;
      }
      var out := forwarding.Resolve(e, handled, held);
      ForwardAll(out);
      assert SKF.Resolves(old(forwarding.View()), e, handled, held, forwarding.View(), out);
    }

    method ForwardAll(out: seq<KeyEvent>)
      modifies this`toClient
      ensures toClient == old(toClient) + Forwards(out)
    {
      var i := 0;
      while i < |out|
        invariant 0 <= i <= |out|
        invariant toClient == old(toClient) + Forwards(out[..i])
      {
        assert out[..i + 1][..i] == out[..i];
        InputForward(Verdict, out[i].keyCode, out[i].state);
        i := i + 1;
      }
      assert out[..i] == out;
    }

    /** The part of `unlock` that hands the keyboard back. */
    method ReturnKeyboard() returns (ghost order: seq<Keycode>)
      modifies this
      ensures Lists(order, old(flutterKeys)) && View() == Unlocked(old(View()), order)
    {
      order := AnyOrder(flutterKeys);
      if !locked {
        return;
      }
      locked := false;
      if gaming {
        order := ReleaseKeysOfFlutter();
      }
    }

    method EnterGaming() returns (ghost order: seq<Keycode>)
      modifies this
      ensures Lists(order, old(flutterKeys)) && View() == EnteredGaming(old(View()), order)
    {
      gaming := true;
      order := ReleaseKeysOfFlutter();
    }

    method TakeKeyboard() returns (ghost order: seq<Keycode>)
      requires Valid()
      modifies this, forwarding
      ensures Valid() && Lists(order, old(gameKeys)) && View() == Locked(old(View()), order)
    {
      order := AnyOrder(gameKeys);
      if locked {
        return;
      }
      locked := true;
      capturing := false;
      order := ReleaseGameModeForwardedKeys();
      forwarding.Clear();
    }
  }

  lemma ReleasesSnoc(order: seq<Keycode>, k: Keycode)
    ensures Releases(order + [k]) == Releases(order) + [Sent(Replay, k, Released)]
    ensures FlutterReleases(order + [k]) == FlutterReleases(order) + [Tap(k, Released)]
  {
    assert (order + [k])[..|order|] == order;
  }

  lemma ListsSnoc(order: seq<Keycode>, keys: set<Keycode>, k: Keycode)
    requires Lists(order, keys) && k !in keys
    ensures Lists(order + [k], keys + {k})
  {
  }

  /** Every set of keys can be listed. */
  lemma {:induction false} AnyOrder(keys: set<Keycode>) returns (order: seq<Keycode>)
    ensures Lists(order, keys)
    decreases |keys|
  {
    order := [];
    if keys != {} {
      var k :| k in keys;
      var rest := AnyOrder(keys - {k});
      ListsSnoc(rest, keys - {k}, k);
      assert keys - {k} + {k} == keys;
      order := rest + [k];
    }
  }

  // ----- runs

  datatype Event =
    | KeyTyped(event: KeyEvent, hot: Hotkey, begins: bool, order: seq<Keycode>)
    | FlutterAnswered(event: KeyEvent, handled: bool, repeat: bool, held: set<Keycode>)
    | SessionLocked(order: seq<Keycode>)
    | SessionUnlocked(flutterOrder: seq<Keycode>)
    | GamingEntered(flutterOrder: seq<Keycode>)
    | GamingLeft(own: bool)
    | CaptureChanged(capturing: bool, recording: bool)
    | TypingChanged(typing: bool)

  ghost predicate Steps(r: Router, e: Event, after: Router) {
    match e
    case KeyTyped(event, hot, begins, order) => Lists(order, r.gameKeys) && after == Typed(r, event, hot, begins, order)
    case FlutterAnswered(event, handled, repeat, held) => Judged(r, event, handled, repeat, held, after)
    case SessionLocked(order) => Lists(order, r.gameKeys) && after == Locked(r, order)
    case SessionUnlocked(order) => Lists(order, r.flutterKeys) && after == Unlocked(r, order)
    case GamingEntered(order) => Lists(order, r.flutterKeys) && after == EnteredGaming(r, order)
    case GamingLeft(own) => after == LeaveGaming(r, own)
    case CaptureChanged(capturing, recording) => after == r.(capturing := capturing, recording := recording)
    case TypingChanged(typing) => after == r.(typing := typing)
  }

  datatype Run = Start | Then(before: Run, event: Event, after: Router)

  function Final(run: Run): Router {
    if run.Start? then IDLE else run.after
  }

  ghost predicate Valid(run: Run) {
    run.Then? ==> Valid(run.before) && Steps(Final(run.before), run.event, run.after)
  }

  /** What a step added to the client's events. */
  function NewSent(before: Router, after: Router): seq<Sent> {
    if |before.toClient| <= |after.toClient| then after.toClient[|before.toClient|..] else []
  }

  predicate OnRoute(s: Sent) {
    s.route != Verdict
  }

  function GameStep(held: set<Keycode>, s: Sent): set<Keycode> {
    if OnRoute(s) then Track(held, s.keyCode, s.state) else held
  }

  /** The keys the gaming route has pressed on the client and not released. */
  function GameHeld(log: seq<Sent>): set<Keycode> {
    if log == [] then {} else GameStep(GameHeld(log[..|log| - 1]), log[|log| - 1])
  }

  lemma {:induction false} GameHeldAfterReleases(log: seq<Sent>, order: seq<Keycode>)
    ensures GameHeld(log + Releases(order)) == GameHeld(log) - (set k | k in order)
    decreases |order|
  {
    if order == [] {
      assert log + Releases(order) == log;
    } else {
      var init, last := order[..|order| - 1], order[|order| - 1];
      GameHeldAfterReleases(log, init);
      assert order == init + [last];
      assert (log + Releases(order))[..|log + Releases(order)| - 1] == log + Releases(init);
    }
  }

  lemma {:induction false} GameHeldAfterForwards(log: seq<Sent>, events: seq<KeyEvent>)
    ensures GameHeld(log + Forwards(events)) == GameHeld(log)
    decreases |events|
  {
    if events == [] {
      assert log + Forwards(events) == log;
    } else {
      GameHeldAfterForwards(log, events[..|events| - 1]);
      assert (log + Forwards(events))[..|log + Forwards(events)| - 1] == log + Forwards(events[..|events| - 1]);
    }
  }

  lemma GameHeldSnoc(log: seq<Sent>, s: Sent)
    ensures GameHeld(log + [s]) == GameStep(GameHeld(log), s)
  {
    assert (log + [s])[..|log|] == log;
  }

  /** The key is remembered when a window leaves gaming mode. */
  predicate Forgets(r: Router, e: Event, k: Keycode) {
    e.GamingLeft? && k in r.gameKeys
  }

  /** The key has an event on the gaming route. */
  predicate ComesAgain(r: Router, e: Event, k: Keycode) {
    e.KeyTyped? && e.event.keyCode == k && GamingInputActive(r) && !Hotkeys(r, e.event, e.hot, e.begins, e.order).1
  }

  /** Key `k` was down on the gaming route when a window left gaming mode, and has had no event on
      that route since. */
  predicate LeftDown(run: Run, k: Keycode) {
    run.Then?
    && (Forgets(Final(run.before), run.event, k)
        || (LeftDown(run.before, k) && !ComesAgain(Final(run.before), run.event, k)))
  }

  /** The keys of the route: those remembered, and those left down; never both. */
  ghost predicate Accounted(r: Router, leftDown: iset<Keycode>) {
    && (forall k :: k in GameHeld(r.toClient) <==> k in r.gameKeys || k in leftDown)
    && (forall k :: k in r.gameKeys ==> k !in leftDown)
    && (r.locked ==> r.gameKeys == {})
  }

  ghost function AllLeftDown(run: Run): iset<Keycode> {
    iset k | LeftDown(run, k)
  }

  lemma ReleasingAccounts(r: Router, left: iset<Keycode>, order: seq<Keycode>)
    requires Accounted(r, left) && Lists(order, r.gameKeys)
    ensures Accounted(ReleaseGameKeys(r, order), left)
    ensures forall k :: k in GameHeld(ReleaseGameKeys(r, order).toClient) <==> k in left
  {
    GameHeldAfterReleases(r.toClient, order);
  }

  lemma HotkeysAccount(r: Router, left: iset<Keycode>, e: KeyEvent, hot: Hotkey, begins: bool, order: seq<Keycode>)
    requires Accounted(r, left) && Lists(order, r.gameKeys)
    ensures Accounted(Hotkeys(r, e, hot, begins, order).0, left)
    ensures Hotkeys(r, e, hot, begins, order).0.gaming == r.gaming || Hotkeys(r, e, hot, begins, order).1
    ensures Hotkeys(r, e, hot, begins, order).0.locked == r.locked
  {
    ReleasingAccounts(r, left, order);
  }

  lemma TypedAccounts(r: Router, left: iset<Keycode>, e: KeyEvent, hot: Hotkey, begins: bool, order: seq<Keycode>)
    requires Accounted(r, left) && Lists(order, r.gameKeys)
    ensures var onRoute := GamingInputActive(r) && !Hotkeys(r, e, hot, begins, order).1;
      Accounted(Typed(r, e, hot, begins, order), if onRoute then left - iset{e.keyCode} else left)
  {
    HotkeysAccount(r, left, e, hot, begins, order);
    var after := Hotkeys(r, e, hot, begins, order).0;
    GameHeldSnoc(after.toClient, Sent(Gaming, e.keyCode, e.state));
  }

  lemma AnsweredAccounts(r: Router, left: iset<Keycode>, e: KeyEvent, handled: bool, repeat: bool, held: set<Keycode>, after: Router)
    requires Accounted(r, left) && Judged(r, e, handled, repeat, held, after)
    ensures Accounted(after, left)
  {
    if !r.locked && !r.typing && !repeat {
      var out :| SKF.Resolves(r.forwarding, e, handled, held, after.forwarding, out)
        && after == r.(forwarding := after.forwarding, toClient := r.toClient + Forwards(out));
      GameHeldAfterForwards(r.toClient, out);
    }
  }

  lemma LockedAccounts(r: Router, left: iset<Keycode>, order: seq<Keycode>)
    requires Accounted(r, left) && Lists(order, r.gameKeys)
    ensures Accounted(Locked(r, order), left)
  {
    if !r.locked {
      ReleasingAccounts(r, left, order);
    }
  }

  lemma LeavingAccounts(r: Router, left: iset<Keycode>, own: bool)
    requires Accounted(r, left)
    ensures Accounted(LeaveGaming(r, own), left + (iset k | k in r.gameKeys))
  {
  }

  /** What the game-mode set leaves out: a key is down on the gaming route exactly when it is
      remembered or was left down by a window leaving gaming mode, and not both. While the session
      is locked nothing is remembered. */
  lemma {:induction false} GameKeysAreAccounted(run: Run)
    requires Valid(run)
    ensures Accounted(Final(run), AllLeftDown(run))
  {
    if run.Then? {
      GameKeysAreAccounted(run.before);
      var r, left := Final(run.before), AllLeftDown(run.before);
      match run.event {
        case KeyTyped(event, hot, begins, order) =>
          TypedAccounts(r, left, event, hot, begins, order);
          assert AllLeftDown(run) == if ComesAgain(r, run.event, event.keyCode) then left - iset{event.keyCode} else left;
        case FlutterAnswered(event, handled, repeat, held) =>
          AnsweredAccounts(r, left, event, handled, repeat, held, run.after);
          assert AllLeftDown(run) == left;
        case SessionLocked(order) =>
          LockedAccounts(r, left, order);
          assert AllLeftDown(run) == left;
        case GamingLeft(own) =>
          LeavingAccounts(r, left, own);
          assert AllLeftDown(run) == left + (iset k | k in r.gameKeys);
        case _ => assert AllLeftDown(run) == left;
      }
    }
  }

  /** The game-mode set is exactly what the gaming route has down on the client, if and only if no
      key was left down. */
  lemma {:induction false} GameKeysAreExact(run: Run)
    requires Valid(run)
    ensures Final(run).gameKeys == GameHeld(Final(run).toClient) <==> AllLeftDown(run) == iset{}
    ensures Final(run).locked ==> Final(run).gameKeys == {}
  {
    GameKeysAreAccounted(run);
    var r := Final(run);
    var left := AllLeftDown(run);
    if r.gameKeys == GameHeld(r.toClient) {
      assert forall k :: k !in left;
    } else {
      assert exists k :: k in GameHeld(r.toClient) && k !in r.gameKeys;
    }
  }

  /** Gaming mode that is left by its own hotkey, or before any key goes down, leaves none down: a
      run in which every such step finds no key remembered keeps the set exact throughout. */
  predicate LeavesReleased(run: Run) {
    run.Then? ==> LeavesReleased(run.before) && (run.event.GamingLeft? ==> Final(run.before).gameKeys == {})
  }

  lemma {:induction false} NoneLeftDown(run: Run, k: Keycode)
    requires LeavesReleased(run)
    ensures !LeftDown(run, k)
  {
    if run.Then? {
      NoneLeftDown(run.before, k);
    }
  }

  lemma {:induction false} ReleasesAreReleases(order: seq<Keycode>)
    ensures forall i | 0 <= i < |Releases(order)| :: Releases(order)[i].state == Released
  {
    if order != [] {
      ReleasesAreReleases(order[..|order| - 1]);
    }
  }

  predicate Extends(run: Run, earlier: Run) {
    run == earlier || (run.Then? && Extends(run.before, earlier))
  }

  predicate LockedSince(run: Run, earlier: Run) {
    Final(run).locked && (run == earlier || (run.Then? && LockedSince(run.before, earlier)))
  }

  lemma LockedTypingIsSilent(r: Router, e: KeyEvent, hot: Hotkey, begins: bool, order: seq<Keycode>)
    requires r.locked
    ensures Typed(r, e, hot, begins, order).toClient == r.toClient
  {
  }

  /** From the moment the session is locked until it is unlocked no client is handed any key event,
      whatever is typed and whatever Flutter says of it. */
  lemma {:induction false} LockedSessionIsSilent(run: Run, earlier: Run)
    requires Valid(run) && Extends(run, earlier) && LockedSince(run, earlier)
    ensures Final(run).toClient == Final(earlier).toClient
  {
    if run != earlier {
      LockedSessionIsSilent(run.before, earlier);
      match run.event {
        case KeyTyped(event, hot, begins, order) => LockedTypingIsSilent(Final(run.before), event, hot, begins, order);
        case _ =>
      }
    }
  }

  lemma HotkeysPressNothing(r: Router, e: KeyEvent, hot: Hotkey, begins: bool, order: seq<Keycode>)
    ensures var after := Hotkeys(r, e, hot, begins, order).0;
      && |r.toClient| <= |after.toClient|
      && after.toClient[..|r.toClient|] == r.toClient
      && forall s | s in NewSent(r, after) :: s.state == Released
  {
    ReleasesAreReleases(order);
  }

  lemma TypedPress(r: Router, e: KeyEvent, hot: Hotkey, begins: bool, order: seq<Keycode>, s: Sent)
    requires s in NewSent(r, Typed(r, e, hot, begins, order)) && s.state == Pressed
    ensures !r.locked && r.gaming && s.route == Gaming
  {
    HotkeysPressNothing(r, e, hot, begins, order);
    var (after, swallowed) := Hotkeys(r, e, hot, begins, order);
    if !swallowed && GamingInputActive(after) {
      var typed := Typed(r, e, hot, begins, order);
      assert NewSent(r, typed) == NewSent(r, after) + [Sent(Gaming, e.keyCode, e.state)];
    }
  }

  /** A press reaches a client only while the session is unlocked, and only in two ways: typed in
      gaming mode, or judged by Flutter, which may be later than it was typed. */
  lemma {:induction false} PressNeedsUnlockedSession(run: Run, s: Sent)
    requires Valid(run) && run.Then?
    requires s in NewSent(Final(run.before), Final(run)) && s.state == Pressed
    ensures !Final(run.before).locked
    ensures (run.event.KeyTyped? && Final(run.before).gaming && s.route == Gaming)
         || (run.event.FlutterAnswered? && !run.event.repeat && !Final(run.before).typing)
  {
    var r := Final(run.before);
    match run.event {
      case KeyTyped(event, hot, begins, order) => TypedPress(r, event, hot, begins, order, s);
      case SessionLocked(order) => ReleasesAreReleases(order);
      case _ =>
    }
  }

  /** The press of an ordinary key reaches the client exactly when, at the moment of its verdict,
      the session is unlocked, no text field of the shell is being typed in, the press is not a
      repeat and the shell did not handle it. When it was typed plays no part. */
  lemma {:induction false} PressReachesExactly(r: Router, e: KeyEvent, handled: bool, repeat: bool, held: set<Keycode>, after: Router)
    requires e.state == Pressed && !IsModifier(e.keysym)
    requires Judged(r, e, handled, repeat, held, after)
    ensures after.toClient != r.toClient <==> !r.locked && !r.typing && !repeat && !handled
    ensures after.toClient != r.toClient ==>
      |after.toClient| > |r.toClient| && after.toClient[|after.toClient| - 1] == Sent(Verdict, e.keyCode, Pressed)
  {
    if !r.locked && !r.typing && !repeat {
      var out :| SKF.Resolves(r.forwarding, e, handled, held, after.forwarding, out)
        && after == r.(forwarding := after.forwarding, toClient := r.toClient + Forwards(out));
      assert handled ==> Forwards(out) == [];
      assert !handled ==> out != [] && out[|out| - 1] == e;
    }
  }

  function Downs(k: Keycode): SKF.Forwarding {
    SKF.Forwarding([], map[], {k})
  }

  lemma UnhandledPressIsSent(r: Router, e: KeyEvent)
    requires e.state == Pressed && !IsModifier(e.keysym)
    requires !r.locked && !r.typing && r.forwarding == SKF.EMPTY
    ensures Judged(r, e, false, false, {},
              r.(forwarding := Downs(e.keyCode), toClient := r.toClient + [Sent(Verdict, e.keyCode, Pressed)]))
  {
    SKF.UnhandledPressIsForwarded(e, {});
    assert [e][..0] == [];
    assert Forwards([e]) == [Sent(Verdict, e.keyCode, Pressed)];
  }

  /** The verdict on a key typed at the lock screen may come after the unlock, and then any
      ordinary key Flutter left unhandled does reach the client. */
  lemma LateVerdictReachesClient(e: KeyEvent) returns (run: Run)
    requires e.state == Pressed && !IsModifier(e.keysym)
    ensures Valid(run) && InOrder(run) && run.Then? && run.event.FlutterAnswered? && run.event.event == e
    ensures run.before.Then? && run.before.event.SessionUnlocked?
    ensures run.before.before.Then? && run.before.before.event.KeyTyped? && run.before.before.event.event == e
    ensures Final(run.before.before.before).locked
    ensures Final(run).toClient == [Sent(Verdict, e.keyCode, Pressed)]
  {
    var locked := Locked(IDLE, []);
    var r1 := Then(Start, SessionLocked([]), locked);
    var typed := Typed(locked, e, NoHotkey, false, []);
    var r2 := Then(r1, KeyTyped(e, NoHotkey, false, []), typed);
    assert typed.flutterKeys == {e.keyCode};
    var unlocked := Unlocked(typed, [e.keyCode]);
    var r3 := Then(r2, SessionUnlocked([e.keyCode]), unlocked);
    UnhandledPressIsSent(unlocked, e);
    var last := unlocked.(forwarding := Downs(e.keyCode), toClient := unlocked.toClient + [Sent(Verdict, e.keyCode, Pressed)]);
    assert Valid(r1) && Valid(r2) && Valid(r3);
    assert typed.toFlutter == [Tap(e.keyCode, Pressed)] == unlocked.toFlutter;
    assert InOrder(Start) && InOrder(r1) && InOrder(r2) && InOrder(r3);
    assert Answers(Start) == 0 == Answers(r1) == Answers(r2) == Answers(r3);
    run := Then(r3, FlutterAnswered(e, false, false, {}), last);
  }

  /** Locking hands clients releases only, one for each key that is remembered; what the gaming route
      still has down then is what was left down before. */
  lemma {:induction false} LockingReleasesTheGame(run: Run)
    requires Valid(run) && run.Then? && !Final(run.before).locked && Final(run).locked
    ensures var sent := NewSent(Final(run.before), Final(run));
      && |sent| == |Final(run.before).gameKeys|
      && (forall i | 0 <= i < |sent| :: sent[i].state == Released)
    ensures forall k :: k in GameHeld(Final(run).toClient) <==> LeftDown(run.before, k)
    ensures Final(run).forwarding == SKF.EMPTY && !Final(run).capturing && Final(run).gameKeys == {}
  {
    GameKeysAreAccounted(run.before);
    var r := Final(run.before);
    OnlyLockingLocks(run);
    var order := run.event.order;
    ReleasesAreReleases(order);
    ReleasesLength(order);
    ListsCount(order, r.gameKeys);
    ReleasingAccounts(r, AllLeftDown(run.before), order);
    assert NewSent(r, Final(run)) == Releases(order);
  }

  lemma OnlyLockingLocks(run: Run)
    requires Valid(run) && run.Then? && !Final(run.before).locked && Final(run).locked
    ensures run.event.SessionLocked? && Lists(run.event.order, Final(run.before).gameKeys)
    ensures Final(run) == Locked(Final(run.before), run.event.order)
  {
  }

  // ----- the keys a client is left holding

  function HeldStep(held: set<Keycode>, s: Sent): set<Keycode> {
    Track(held, s.keyCode, s.state)
  }

  /** The keys the client holds, by every route. */
  function ClientHeld(log: seq<Sent>): set<Keycode> {
    if log == [] then {} else HeldStep(ClientHeld(log[..|log| - 1]), log[|log| - 1])
  }

  lemma ClientHeldOne(s: Sent)
    ensures ClientHeld([s]) == HeldStep({}, s)
  {
    assert [s][..0] == [];
  }

  /** A key still down when a window leaves gaming mode is left down on the client: its own release
      goes to Flutter, and when the session is locked before Flutter's verdict, nobody passes it on.
      Every key is up, nothing is remembered, and the client holds the key. */
  lemma GameKeyLeftDown(e: KeyEvent) returns (run: Run)
    requires e.state == Pressed
    ensures Valid(run) && InOrder(run) && LeftDown(run, e.keyCode) && TypedDown(run) == {}
    ensures Final(run).gameKeys == {} && Final(run).flutterKeys == {} && Final(run).forwarding == SKF.EMPTY
    ensures ClientHeld(Final(run).toClient) == GameHeld(Final(run).toClient) == {e.keyCode}
  {
    var k, up := e.keyCode, e.(state := Released);
    var r1 := EnteredGaming(IDLE, []);
    var r2 := Typed(r1, e, NoHotkey, false, []);
    assert r2.gameKeys == {k} && r2.toClient == [Sent(Gaming, k, Pressed)];
    var r3 := LeaveGaming(r2, true);
    var r4 := Typed(r3, up, NoHotkey, false, []);
    assert r4.flutterKeys == {};
    var r5 := Locked(r4, []);
    var run1 := Then(Start, GamingEntered([]), r1);
    var run2 := Then(run1, KeyTyped(e, NoHotkey, false, []), r2);
    var run3 := Then(run2, GamingLeft(true), r3);
    assert Valid(Start) && Valid(run1) && Valid(run2);
    assert Valid(run3) && LeftDown(run3, k);
    var run4 := Then(run3, KeyTyped(up, NoHotkey, false, []), r4);
    var run5 := Then(run4, SessionLocked([]), r5);
    assert Valid(run4) && LeftDown(run4, k);
    assert Valid(run5) && LeftDown(run5, k);
    assert TypedDown(Start) == {} && TypedDown(run1) == {} && TypedDown(run2) == {k} && TypedDown(run3) == {k};
    assert TypedDown(run4) == {} && TypedDown(run5) == {} && r5.toFlutter == [Tap(k, Released)];
    assert InOrder(Start) && InOrder(run1) && InOrder(run2) && InOrder(run3) && InOrder(run4) && InOrder(run5);
    assert Answers(Start) == 0 == Answers(run1) == Answers(run2) == Answers(run3) == Answers(run4) == Answers(run5);
    run := Then(run5, FlutterAnswered(up, false, false, {}), r5.(forwarding := SKF.EMPTY));
    ClientHeldOne(Sent(Gaming, k, Pressed));
    GameHeldSnoc([], Sent(Gaming, k, Pressed));
    assert [] + [Sent(Gaming, k, Pressed)] == [Sent(Gaming, k, Pressed)];
  }

  /** Outside of games, captures and the lock, Ctrl+Escape changes nothing and is swallowed. */
  lemma EscapeIsSwallowed(r: Router, e: KeyEvent)
    requires !r.locked && !r.gaming && !r.recording && !r.capturing
    ensures Typed(r, e, Escape(true), false, []) == r.(forwarding := SKF.PendingConsumed(r.forwarding))
  {
  }

  /** The gaming-mode hotkey takes Ctrl+Escape in either state, so the release of an Escape that went
      to the client is swallowed when Ctrl is down by then. No client, game or Flutter hears of it:
      Flutter and the client both still hold the key (src/embedder/keyboard/mod.rs:552-567). */
  lemma EscapeReleaseIsLost(e: KeyEvent) returns (run: Run)
    requires e.state == Pressed && !IsModifier(e.keysym)
    ensures Valid(run) && InOrder(run) && run.Then? && !Final(run).locked && !Final(run).gaming
    ensures run.event == KeyTyped(e.(state := Released), Escape(true), false, [])
    ensures ClientHeld(Final(run).toClient) == {e.keyCode} == Final(run).flutterKeys
    ensures Final(run).forwarding.forwarded == {e.keyCode}
  {
    var k := e.keyCode;
    var r1 := Typed(IDLE, e, Escape(false), false, []);
    var run1 := Then(Start, KeyTyped(e, Escape(false), false, []), r1);
    UnhandledPressIsSent(r1, e);
    var r2 := r1.(forwarding := Downs(k), toClient := r1.toClient + [Sent(Verdict, k, Pressed)]);
    var run2 := Then(run1, FlutterAnswered(e, false, false, {}), r2);
    assert Valid(Start) && Valid(run1) && Valid(run2);
    assert r1.toFlutter == [Tap(k, Pressed)] && Answers(Start) == 0 == Answers(run1);
    assert InOrder(Start) && InOrder(run1) && InOrder(run2);
    var up := e.(state := Released);
    var r3 := Typed(r2, up, Escape(true), false, []);
    EscapeIsSwallowed(r2, up);
    assert SKF.PendingConsumed(Downs(k)) == Downs(k);
    assert r3 == r2;
    run := Then(run2, KeyTyped(up, Escape(true), false, []), r3);
    assert r3.toClient == [Sent(Verdict, k, Pressed)];
    ClientHeldOne(Sent(Verdict, k, Pressed));
  }

  /** The release of a key reaches the client exactly when, at the moment of its verdict, the session
      is unlocked, no text field of the shell is being typed in, it is no repeat, and the forwarding
      does not withhold it. */
  lemma {:induction false} ReleaseReachesExactly(r: Router, e: KeyEvent, handled: bool, repeat: bool, held: set<Keycode>, after: Router)
    requires e.state == Released && Judged(r, e, handled, repeat, held, after)
    ensures after.toClient != r.toClient <==>
      !r.locked && !r.typing && !repeat && !SKF.Withholds(r.forwarding, e, handled)
    ensures after.toClient != r.toClient ==>
      |after.toClient| > 0 && after.toClient[|after.toClient| - 1] == Sent(Verdict, e.keyCode, Released)
      && e.keyCode !in ClientHeld(after.toClient)
  {
    if !r.locked && !r.typing && !repeat {
      var out :| SKF.Resolves(r.forwarding, e, handled, held, after.forwarding, out)
        && after == r.(forwarding := after.forwarding, toClient := r.toClient + Forwards(out));
      SKF.ReleaseIsWithheldExactly(r.forwarding, e, handled, held, after.forwarding, out);
      assert out == [] ==> Forwards(out) == [];
    }
  }

  /** What the client hears of a verdict, at any point of any run: of an ordinary press exactly when
      the session is unlocked by then, no text field of the shell is being typed in, it is no repeat
      and was not handled; of a release exactly when the same holds and the forwarding does not
      withhold it. When the key was typed plays no part, and a release that is heard frees the key. */
  lemma {:induction false} VerdictReachesExactly(run: Run)
    requires Valid(run) && run.Then? && run.event.FlutterAnswered?
    ensures var r, e, after := Final(run.before), run.event.event, Final(run);
      var open := !r.locked && !r.typing && !run.event.repeat;
      && (e.state == Pressed && !IsModifier(e.keysym) ==>
            (after.toClient != r.toClient <==> open && !run.event.handled))
      && (e.state == Released ==>
            (after.toClient != r.toClient <==> open && !SKF.Withholds(r.forwarding, e, run.event.handled)))
      && (after.toClient != r.toClient && (e.state == Released || !IsModifier(e.keysym)) ==>
            |after.toClient| > 0 && after.toClient[|after.toClient| - 1] == Sent(Verdict, e.keyCode, e.state)
            && (e.state == Released ==> e.keyCode !in ClientHeld(after.toClient)))
      && (r.locked || r.typing ==> after.forwarding == SKF.EMPTY)
  {
    var r, e, after := Final(run.before), run.event.event, Final(run);
    if e.state == Released {
      ReleaseReachesExactly(r, e, run.event.handled, run.event.repeat, run.event.held, after);
    } else if !IsModifier(e.keysym) {
      PressReachesExactly(r, e, run.event.handled, run.event.repeat, run.event.held, after);
    }
  }

  lemma {:induction false} ReleasesLength(order: seq<Keycode>)
    ensures |Releases(order)| == |order|
  {
    if order != [] {
      ReleasesLength(order[..|order| - 1]);
    }
  }

  lemma {:induction false} ListsCount(order: seq<Keycode>, keys: set<Keycode>)
    requires Lists(order, keys)
    ensures |order| == |keys|
    decreases |order|
  {
    if order == [] {
      assert keys == {};
    } else {
      var last := order[|order| - 1];
      forall k | k in keys - {last} ensures k in order[..|order| - 1] {
        var i :| 0 <= i < |order| && order[i] == k;
      }
      ListsCount(order[..|order| - 1], keys - {last});
    }
  }

  // ----- what Flutter believes

  function FlutterHeld(log: seq<Tap>): set<Keycode> {
    if log == [] then {} else Track(FlutterHeld(log[..|log| - 1]), log[|log| - 1].keyCode, log[|log| - 1].state)
  }

  lemma {:induction false} FlutterHeldAfterReleases(log: seq<Tap>, order: seq<Keycode>)
    ensures FlutterHeld(log + FlutterReleases(order)) == FlutterHeld(log) - (set k | k in order)
    decreases |order|
  {
    if order == [] {
      assert log + FlutterReleases(order) == log;
    } else {
      var init, last := order[..|order| - 1], order[|order| - 1];
      FlutterHeldAfterReleases(log, init);
      assert order == init + [last];
      assert (log + FlutterReleases(order))[..|log + FlutterReleases(order)| - 1] == log + FlutterReleases(init);
    }
  }

  ghost predicate FlutterKeysExact(r: Router) {
    r.flutterKeys == FlutterHeld(r.toFlutter)
  }

  lemma ToFlutterKeepsKeys(r: Router, e: KeyEvent)
    requires FlutterKeysExact(r)
    ensures FlutterKeysExact(ToFlutter(r, e))
  {
    assert (r.toFlutter + [Tap(e.keyCode, e.state)])[..|r.toFlutter|] == r.toFlutter;
  }

  lemma HotkeysKeepFlutterKeys(r: Router, e: KeyEvent, hot: Hotkey, begins: bool, order: seq<Keycode>)
    requires FlutterKeysExact(r)
    ensures FlutterKeysExact(Hotkeys(r, e, hot, begins, order).0)
  {
    ToFlutterKeepsKeys(r, e);
  }

  lemma TypedKeepsFlutterKeys(r: Router, e: KeyEvent, hot: Hotkey, begins: bool, order: seq<Keycode>)
    requires FlutterKeysExact(r)
    ensures FlutterKeysExact(Typed(r, e, hot, begins, order))
  {
    HotkeysKeepFlutterKeys(r, e, hot, begins, order);
    ToFlutterKeepsKeys(Hotkeys(r, e, hot, begins, order).0, e);
  }

  /** The keys the compositor remembers having sent to Flutter are the keys Flutter believes held,
      in every order of typing, capture, locking and gaming. */
  lemma {:induction false} FlutterKeysAreExact(run: Run)
    requires Valid(run)
    ensures Final(run).flutterKeys == FlutterHeld(Final(run).toFlutter)
  {
    if run.Then? {
      FlutterKeysAreExact(run.before);
      var r := Final(run.before);
      match run.event {
        case KeyTyped(event, hot, begins, order) => TypedKeepsFlutterKeys(r, event, hot, begins, order);
        case SessionUnlocked(order) => FlutterHeldAfterReleases(r.toFlutter, order);
        case GamingEntered(order) => FlutterHeldAfterReleases(r.toFlutter, order);
        case _ =>
      }
    }
  }

  // ----- keys that are up and still believed down

  /** The keys physically down, by the events as they were typed. */
  function TypedDown(run: Run): set<Keycode> {
    if run.Start? then {}
    else if run.event.KeyTyped? then Track(TypedDown(run.before), run.event.event.keyCode, run.event.event.state)
    else TypedDown(run.before)
  }

  /** A compositor hotkey swallows the release of the key. */
  predicate SwallowsRelease(r: Router, e: Event, k: Keycode) {
    e.KeyTyped? && e.event.keyCode == k && e.event.state == Released && Hotkeys(r, e.event, e.hot, e.begins, e.order).1
  }

  /** A release of the key was swallowed while the gaming route had it down, and the key has been
      remembered ever since. */
  predicate Overstays(run: Run, k: Keycode) {
    && run.Then? && k in Final(run).gameKeys
    && (SwallowsRelease(Final(run.before), run.event, k) || Overstays(run.before, k))
  }

  /** A release of the key was swallowed and not told to Flutter, which was told it is down, and has
      been told nothing of the key since. */
  predicate Strands(run: Run, k: Keycode) {
    && run.Then? && k in Final(run).flutterKeys
    && (SwallowsRelease(Final(run.before), run.event, k) || Strands(run.before, k))
  }

  /** The game has keys down only while it is being played, and Flutter only while it is not. */
  ghost predicate OneOwner(r: Router) {
    && (r.gameKeys != {} ==> GamingInputActive(r))
    && (GamingInputActive(r) ==> r.flutterKeys == {})
  }

  lemma TypedKeepsOneOwner(r: Router, e: KeyEvent, hot: Hotkey, begins: bool, order: seq<Keycode>)
    requires OneOwner(r)
    ensures OneOwner(Typed(r, e, hot, begins, order))
  {
  }

  lemma {:induction false} KeysHaveOneOwner(run: Run)
    requires Valid(run)
    ensures OneOwner(Final(run))
  {
    if run.Then? {
      KeysHaveOneOwner(run.before);
      match run.event {
        case KeyTyped(event, hot, begins, order) => TypedKeepsOneOwner(Final(run.before), event, hot, begins, order);
        case _ =>
      }
    }
  }

  /** What typing does to the two sets for one key: a release leaves it remembered only by being
      swallowed. */
  lemma TypedReleaseClears(r: Router, e: KeyEvent, hot: Hotkey, begins: bool, order: seq<Keycode>)
    requires OneOwner(r) && e.state == Released && !Hotkeys(r, e, hot, begins, order).1
    ensures e.keyCode !in Typed(r, e, hot, begins, order).gameKeys
    ensures e.keyCode !in Typed(r, e, hot, begins, order).flutterKeys
  {
  }

  lemma HotkeysLearnNothing(r: Router, e: KeyEvent, hot: Hotkey, begins: bool, order: seq<Keycode>)
    ensures Hotkeys(r, e, hot, begins, order).0.gameKeys <= r.gameKeys
    ensures Hotkeys(r, e, hot, begins, order).0.flutterKeys <= r.flutterKeys
  {
  }

  lemma TypedLearnsOnlyItsKey(r: Router, e: KeyEvent, hot: Hotkey, begins: bool, order: seq<Keycode>, k: Keycode)
    requires !(e.keyCode == k && e.state == Pressed)
    ensures k in Typed(r, e, hot, begins, order).gameKeys ==> k in r.gameKeys
    ensures k in Typed(r, e, hot, begins, order).flutterKeys ==> k in r.flutterKeys
  {
    HotkeysLearnNothing(r, e, hot, begins, order);
  }

  lemma {:induction false} UpKeysAreTraced(run: Run, k: Keycode)
    requires Valid(run) && k !in TypedDown(run)
    ensures k in Final(run).gameKeys <==> Overstays(run, k)
    ensures k in Final(run).flutterKeys <==> Strands(run, k)
  {
    if run.Then? {
      var r := Final(run.before);
      KeysHaveOneOwner(run.before);
      match run.event {
        case KeyTyped(event, hot, begins, order) =>
          TypedLearnsOnlyItsKey(r, event, hot, begins, order, k);
          if event.keyCode == k {
            if !Hotkeys(r, event, hot, begins, order).1 {
              TypedReleaseClears(r, event, hot, begins, order);
            }
          } else {
            UpKeysAreTraced(run.before, k);
          }
        case _ => UpKeysAreTraced(run.before, k);
      }
    }
  }

  /** The gaming route has a key down on the client that is physically up, if and only if a release of
      it was swallowed while it was down there, or it was left down by a window leaving gaming mode. */
  lemma {:induction false} GameHoldsUpKeyExactly(run: Run, k: Keycode)
    requires Valid(run) && k !in TypedDown(run)
    ensures k in GameHeld(Final(run).toClient) <==> Overstays(run, k) || LeftDown(run, k)
  {
    UpKeysAreTraced(run, k);
    GameKeysAreAccounted(run);
    assert k in AllLeftDown(run) <==> LeftDown(run, k);
  }

  /** Flutter takes a key for held that is physically up, if and only if a release of it was swallowed
      and not told to Flutter, which had been told of the press. */
  lemma {:induction false} FlutterHoldsUpKeyExactly(run: Run, k: Keycode)
    requires Valid(run) && k !in TypedDown(run)
    ensures k in FlutterHeld(Final(run).toFlutter) <==> Strands(run, k)
  {
    UpKeysAreTraced(run, k);
    FlutterKeysAreExact(run);
  }

  /** The number of events Flutter has answered. Repeats were never new to it. */
  function Answers(run: Run): nat {
    if run.Start? then 0
    else Answers(run.before) + (if run.event.FlutterAnswered? && !run.event.repeat then 1 else 0)
  }

  /** Flutter answers what it was told, in that order. */
  predicate InOrder(run: Run) {
    run.Then? ==>
      && InOrder(run.before)
      && (run.event.FlutterAnswered? && !run.event.repeat ==>
            var told := Final(run.before).toFlutter;
            Answers(run.before) < |told|
            && told[Answers(run.before)] == Tap(run.event.event.keyCode, run.event.event.state))
  }

  /** The release is swallowed before the verdict on the press: Ctrl+Escape takes the release of an
      Escape that Flutter has not answered yet, and then leaves the press to the client. */
  lemma EscapeLostBeforeVerdict(e: KeyEvent) returns (run: Run)
    requires e.state == Pressed && !IsModifier(e.keysym)
    ensures Valid(run) && InOrder(run) && TypedDown(run) == {} && Answers(run) == |Final(run).toFlutter|
    ensures ClientHeld(Final(run).toClient) == {e.keyCode} == Final(run).flutterKeys && Strands(run, e.keyCode)
  {
    var k, up := e.keyCode, e.(state := Released);
    var r1 := Typed(IDLE, e, Escape(false), false, []);
    var r2 := Typed(r1, up, Escape(true), false, []);
    assert r1.flutterKeys == {k} && r1.toFlutter == [Tap(k, Pressed)];
    EscapeIsSwallowed(r1, up);
    assert SKF.PendingConsumed(SKF.EMPTY) == SKF.EMPTY;
    assert r2 == r1;
    UnhandledPressIsSent(r2, e);
    var r3 := r2.(forwarding := Downs(k), toClient := r2.toClient + [Sent(Verdict, k, Pressed)]);
    var run1 := Then(Start, KeyTyped(e, Escape(false), false, []), r1);
    var run2 := Then(run1, KeyTyped(up, Escape(true), false, []), r2);
    assert Valid(Start) && Valid(run1) && Valid(run2) && InOrder(Start) && InOrder(run1) && InOrder(run2);
    assert Answers(Start) == 0 == Answers(run1) == Answers(run2);
    assert TypedDown(Start) == {} && TypedDown(run1) == {k} && TypedDown(run2) == {};
    run := Then(run2, FlutterAnswered(e, false, false, {}), r3);
    assert r3.toClient == [Sent(Verdict, k, Pressed)];
    ClientHeldOne(Sent(Verdict, k, Pressed));
    FlutterHoldsUpKeyExactly(run, k);
    FlutterKeysAreExact(run);
  }

  lemma CaptureSwallowsRelease(r: Router, e: KeyEvent, hot: Hotkey, order: seq<Keycode>)
    requires r.capturing && !r.locked && !r.recording && e.state == Released && e.keyCode !in r.flutterKeys
    ensures Hotkeys(r, e, hot, false, order) == (r, true)
    ensures Typed(r, e, hot, false, order) == r.(forwarding := SKF.PendingConsumed(r.forwarding))
  {
  }

  lemma PrintBeginsCapture(r: Router, e: KeyEvent, order: seq<Keycode>)
    requires !r.capturing && !r.locked && !r.recording && e.state == Pressed
    ensures Hotkeys(r, e, Print, true, order) == (r.(capturing := true), true)
    ensures Typed(r, e, Print, true, order) == r.(capturing := true, forwarding := SKF.PendingConsumed(r.forwarding))
  {
  }

  /** A capture swallows the release of a key the game holds: it is told to Flutter only for the keys
      Flutter was told of (src/embedder/keyboard/mod.rs:504-523). Every key is up, the capture is over,
      the game is still being played and still holds the key. */
  lemma CaptureLosesGameRelease(e: KeyEvent, shot: KeyEvent) returns (run: Run)
    requires e.state == Pressed && shot.state == Pressed && e.keyCode != shot.keyCode
    ensures Valid(run) && InOrder(run) && TypedDown(run) == {}
    ensures Final(run).gaming && !Final(run).capturing && !Final(run).locked && Final(run).toFlutter == []
    ensures ClientHeld(Final(run).toClient) == {e.keyCode} == Final(run).gameKeys
    ensures Overstays(run, e.keyCode) && !LeftDown(run, e.keyCode)
  {
    var k, p := e.keyCode, shot.keyCode;
    var up, shotUp := e.(state := Released), shot.(state := Released);
    assert SKF.PendingConsumed(SKF.EMPTY) == SKF.EMPTY;
    var r1 := EnteredGaming(IDLE, []);
    var r2 := Typed(r1, e, NoHotkey, false, []);
    assert r2.gameKeys == {k} && r2.toClient == [Sent(Gaming, k, Pressed)];
    var r3 := Typed(r2, shot, Print, true, [k]);
    PrintBeginsCapture(r2, shot, [k]);
    assert r3 == r2.(capturing := true);
    var r4 := Typed(r3, shotUp, Print, false, [k]);
    CaptureSwallowsRelease(r3, shotUp, Print, [k]);
    assert r4 == r3;
    var r5 := Typed(r4, up, NoHotkey, false, [k]);
    CaptureSwallowsRelease(r4, up, NoHotkey, [k]);
    assert r5 == r4;
    var r6 := r5.(capturing := false);
    var run1 := Then(Start, GamingEntered([]), r1);
    var run2 := Then(run1, KeyTyped(e, NoHotkey, false, []), r2);
    assert Valid(Start) && Valid(run1) && Valid(run2);
    var run3 := Then(run2, KeyTyped(shot, Print, true, [k]), r3);
    var run4 := Then(run3, KeyTyped(shotUp, Print, false, [k]), r4);
    assert Valid(run3) && Valid(run4);
    var run5 := Then(run4, KeyTyped(up, NoHotkey, false, [k]), r5);
    assert Valid(run5) && Overstays(run5, k);
    run := Then(run5, CaptureChanged(false, false), r6);
    assert TypedDown(Start) == {} && TypedDown(run1) == {} && TypedDown(run2) == {k};
    assert TypedDown(run3) == {k} + {p} && TypedDown(run4) == {k} && TypedDown(run5) == {} && TypedDown(run) == {};
    assert !LeftDown(run2, k) && !LeftDown(run3, k) && !LeftDown(run4, k) && !LeftDown(run5, k);
    assert InOrder(Start) && InOrder(run1) && InOrder(run2) && InOrder(run3) && InOrder(run4) && InOrder(run5);
    ClientHeldOne(Sent(Gaming, k, Pressed));
  }

  // ----- where every typed key goes

  /** No hotkey takes the event: brightness presses are always taken, the lock leaves the shell all but
      the VT switches, the exit chord and Print, a recording takes nothing more, a capture everything,
      and otherwise Print presses, VT switches, the exit chord and Ctrl+Escape are taken. */
  predicate Passes(r: Router, e: KeyEvent, hot: Hotkey) {
    && !(hot.Brightness? && e.state == Pressed)
    && if r.locked then !hot.VtSwitch? && !hot.ExitChord? && !hot.Print?
       else r.recording
            || (!r.capturing && !(hot.Print? && e.state == Pressed) && !hot.VtSwitch? && !hot.ExitChord?
                && hot != Escape(true))
  }

  /** A capture decides over the event. */
  predicate Captured(r: Router, e: KeyEvent, hot: Hotkey) {
    !r.locked && !r.recording && r.capturing && !(hot.Brightness? && e.state == Pressed)
  }

  /** Ctrl+Escape leaves the game. */
  predicate LeavesGame(r: Router, hot: Hotkey) {
    hot == Escape(true) && !r.locked && !r.recording && !r.capturing && r.gaming
  }

  lemma TypedGoesExactly(r: Router, e: KeyEvent, hot: Hotkey, begins: bool, order: seq<Keycode>)
    ensures var after := Typed(r, e, hot, begins, order);
      && after.toFlutter == r.toFlutter +
           (if (Passes(r, e, hot) && !GamingInputActive(r))
               || (Captured(r, e, hot) && e.state == Released && e.keyCode in r.flutterKeys)
            then [Tap(e.keyCode, e.state)] else [])
      && after.toClient == r.toClient +
           (if Passes(r, e, hot) && GamingInputActive(r) then [Sent(Gaming, e.keyCode, e.state)]
            else if LeavesGame(r, hot) then Releases(order) else [])
  {
    assert r.toFlutter + [] == r.toFlutter && r.toClient + [] == r.toClient;
  }

  lemma TypedModes(r: Router, e: KeyEvent, hot: Hotkey, begins: bool, order: seq<Keycode>)
    ensures var after := Typed(r, e, hot, begins, order);
      && after.locked == r.locked && after.typing == r.typing
      && after.gaming == (r.gaming && !LeavesGame(r, hot))
      && (after.recording <==> r.recording && (r.locked || !(hot.Print? && e.state == Pressed)))
      && (after.capturing <==>
            if Captured(r, e, hot) then !(hot.Escape? && e.state == Pressed)
            else r.capturing || (begins && hot.Print? && e.state == Pressed && !r.locked && !r.recording))
  {
    HotkeyModes(r, e, hot, begins, order);
    var (after, swallowed) := Hotkeys(r, e, hot, begins, order);
    assert Typed(r, e, hot, begins, order).capturing == after.capturing;
  }

  lemma HotkeyModes(r: Router, e: KeyEvent, hot: Hotkey, begins: bool, order: seq<Keycode>)
    ensures var after := Hotkeys(r, e, hot, begins, order).0;
      && after.locked == r.locked && after.typing == r.typing
      && after.gaming == (r.gaming && !LeavesGame(r, hot))
      && (after.recording <==> r.recording && (r.locked || !(hot.Print? && e.state == Pressed)))
      && (after.capturing <==>
            if Captured(r, e, hot) then !(hot.Escape? && e.state == Pressed)
            else r.capturing || (begins && hot.Print? && e.state == Pressed && !r.locked && !r.recording))
  {
  }

  /** A swallowed event consumes what is withheld; any other leaves the forwarding alone. */
  lemma SwallowedConsumesPending(r: Router, e: KeyEvent, hot: Hotkey, begins: bool, order: seq<Keycode>)
    ensures Hotkeys(r, e, hot, begins, order).1 <==> !Passes(r, e, hot)
    ensures Typed(r, e, hot, begins, order).forwarding ==
      if Passes(r, e, hot) then r.forwarding else SKF.PendingConsumed(r.forwarding)
  {
  }

  /** In every run a typed event goes to exactly one place. It reaches the game if it passes the hotkeys
      while a game is played, the shell if it passes them otherwise, and beyond that a capture tells the
      shell the releases it waits for and Ctrl+Escape replays the game's releases. */
  lemma {:induction false} KeysGoExactly(run: Run)
    requires Valid(run) && run.Then? && run.event.KeyTyped?
    ensures var r, after, e, hot := Final(run.before), Final(run), run.event.event, run.event.hot;
      && after.toFlutter == r.toFlutter +
           (if (Passes(r, e, hot) && !GamingInputActive(r))
               || (Captured(r, e, hot) && e.state == Released && e.keyCode in r.flutterKeys)
            then [Tap(e.keyCode, e.state)] else [])
      && after.toClient == r.toClient +
           (if Passes(r, e, hot) && GamingInputActive(r) then [Sent(Gaming, e.keyCode, e.state)]
            else if LeavesGame(r, hot) then Releases(run.event.order) else [])
      && after.gaming == (r.gaming && !LeavesGame(r, hot))
      && (after.recording <==> r.recording && (r.locked || !(hot.Print? && e.state == Pressed)))
      && (after.capturing <==>
            if Captured(r, e, hot) then !(hot.Escape? && e.state == Pressed)
            else r.capturing || (run.event.begins && hot.Print? && e.state == Pressed && !r.locked && !r.recording))
      && after.forwarding == (if Passes(r, e, hot) then r.forwarding else SKF.PendingConsumed(r.forwarding))
  {
    TypedGoesExactly(Final(run.before), run.event.event, run.event.hot, run.event.begins, run.event.order);
    TypedModes(Final(run.before), run.event.event, run.event.hot, run.event.begins, run.event.order);
    SwallowedConsumesPending(Final(run.before), run.event.event, run.event.hot, run.event.begins, run.event.order);
  }

  /** A recording never keeps a key from the game or the shell: the desktop stays live. */
  lemma {:induction false} RecordingStaysLive(run: Run)
    requires Valid(run) && run.Then? && run.event.KeyTyped?
    requires Final(run.before).recording && !Final(run.before).locked
    requires !(run.event.hot.Brightness? && run.event.event.state == Pressed)
    ensures var r, after, e := Final(run.before), Final(run), run.event.event;
      if r.gaming then after.toClient == r.toClient + [Sent(Gaming, e.keyCode, e.state)] && after.toFlutter == r.toFlutter
      else after.toFlutter == r.toFlutter + [Tap(e.keyCode, e.state)] && after.toClient == r.toClient
  {
    KeysGoExactly(run);
  }
}
