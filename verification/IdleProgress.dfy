/** What the screensaver does, as opposed to what it must not: activity restarts the countdown and
    wakes the screen, and every timer has its effect (src/embedder/idle/mod.rs:148-418). */
module IdleProgress {
  import opened Options
  import opened Brightness
  import opened IdleMachine
  import opened IdleRuns

  /** A timer that is wanted has been inserted at `from` or later, is live and runs for the whole
      timeout; one that is not wanted has no token. */
  predicate Counts(s: Idle, from: Token, token: Option<Token>, kind: TimerKind, timeout: nat, wanted: bool) {
    if wanted then
      token.Some? && token.value >= from && token.value in s.timers && s.timers[token.value] == Timer(kind, timeout)
    else token.None?
  }

  /** The whole countdown has just begun: a timer for each timeout that is not zero, for the power
      action only with an action and a worker to perform it, as far as the event loop took them, and
      no other timer. */
  ghost predicate CountsDown(s: Idle, from: Token, b: Backend, luck: Luck) {
    && Counts(s, from, s.dimToken, DimTimer, s.settings.dim, s.settings.dim != 0 && luck.dim)
    && Counts(s, from, s.blankToken, BlankTimer, s.settings.blank, s.settings.blank != 0 && luck.blank)
    && Counts(s, from, s.powerToken, PowerTimer, s.settings.power,
              s.settings.power != 0 && s.settings.action != Disabled && b.powerWorker && luck.power)
    && s.fadeToken.None?
    && s.timers.Keys == Own(s.dimToken) + Own(s.blankToken) + Own(s.powerToken)
    && !s.triggered
  }

  /** The screen is lit and the panel at the user's own level. */
  predicate Awake(s: Idle) {
    s.stage == Active && s.dimAlpha == 0.0 && s.panel.progress == 0.0 && !s.panel.blank
  }

  lemma DimCounts(s: Idle, from: Token, luck: Luck)
    requires NoTokens(s) && from <= s.nextToken
    ensures var a := ArmDim(s, luck);
      && Counts(a, from, a.dimToken, DimTimer, s.settings.dim, s.settings.dim != 0 && luck.dim)
      && Runs(a, a.dimToken, s.settings.dim) && from <= a.nextToken && a.triggered == s.triggered
  {
  }

  lemma ArmBlankTouches(s: Idle, luck: Luck)
    ensures var a := ArmBlank(s, luck);
      if s.settings.blank != 0 && luck.blank then
        a == Insert(s, BlankTimer, s.settings.blank).(blankToken := Some(s.nextToken))
      else a == s
  {
  }

  lemma InsertedCounts(s: Idle, kind: TimerKind, delay: nat, from: Token, token: Option<Token>, other: TimerKind, timeout: nat, wanted: bool)
    requires Counts(s, from, token, other, timeout, wanted) && Runs(s, token, timeout) && from <= s.nextToken
    ensures Counts(Insert(s, kind, delay), from, token, other, timeout, wanted)
    ensures Counts(Insert(s, kind, delay), from, Some(s.nextToken), kind, delay, true)
  {
  }

  lemma BlankCounts(s: Idle, from: Token, luck: Luck, wantedDim: bool)
    requires s.blankToken.None? && from <= s.nextToken
    requires Counts(s, from, s.dimToken, DimTimer, s.settings.dim, wantedDim) && Runs(s, s.dimToken, s.settings.dim)
    ensures var a := ArmBlank(s, luck);
      && Counts(a, from, a.dimToken, DimTimer, s.settings.dim, wantedDim)
      && Counts(a, from, a.blankToken, BlankTimer, s.settings.blank, s.settings.blank != 0 && luck.blank)
      && from <= a.nextToken && a.triggered == s.triggered
  {
    ArmBlankTouches(s, luck);
    InsertedCounts(s, BlankTimer, s.settings.blank, from, s.dimToken, DimTimer, s.settings.dim, wantedDim);
  }

  lemma PowerCounts(s: Idle, from: Token, b: Backend, luck: Luck, wantedDim: bool, wantedBlank: bool)
    requires s.powerToken.None? && from <= s.nextToken
    requires Counts(s, from, s.dimToken, DimTimer, s.settings.dim, wantedDim) && Runs(s, s.dimToken, s.settings.dim)
    requires Counts(s, from, s.blankToken, BlankTimer, s.settings.blank, wantedBlank)
    requires Runs(s, s.blankToken, s.settings.blank)
    ensures var a := ArmPower(s, b, luck);
      && Counts(a, from, a.dimToken, DimTimer, s.settings.dim, wantedDim)
      && Counts(a, from, a.blankToken, BlankTimer, s.settings.blank, wantedBlank)
      && Counts(a, from, a.powerToken, PowerTimer, s.settings.power,
                s.settings.power != 0 && s.settings.action != Disabled && b.powerWorker && luck.power)
      && a.triggered == s.triggered
  {
    ArmPowerTouches(s, b, luck);
  }

  lemma ArmTimersCount(s: Idle, b: Backend, luck: Luck)
    requires NoTokens(s)
    ensures var a := ArmTimers(s, b, luck);
      && Counts(a, s.nextToken, a.dimToken, DimTimer, s.settings.dim, s.settings.dim != 0 && luck.dim)
      && Counts(a, s.nextToken, a.blankToken, BlankTimer, s.settings.blank, s.settings.blank != 0 && luck.blank)
      && Counts(a, s.nextToken, a.powerToken, PowerTimer, s.settings.power,
                s.settings.power != 0 && s.settings.action != Disabled && b.powerWorker && luck.power)
      && a.triggered == s.triggered
  {
    var dim := ArmDim(s, luck);
    ArmDimFrom(s, luck);
    DimCounts(s, s.nextToken, luck);
    var blank := ArmBlank(dim, luck);
    ArmBlankFrom(dim, luck);
    BlankCounts(dim, s.nextToken, luck, s.settings.dim != 0 && luck.dim);
    PowerCounts(blank, s.nextToken, b, luck, s.settings.dim != 0 && luck.dim, s.settings.blank != 0 && luck.blank);
  }

  lemma CalmedStart(s: Idle)
    ensures !Calmed(s).triggered && Calmed(s).nextToken == s.nextToken && Calmed(s).settings == s.settings
    ensures Calmed(s).sessionActive == s.sessionActive && Calmed(s).fadeToken.None?
  {
  }

  /** Arming begins the whole countdown. */
  lemma ArmCountsDown(s: Idle, b: Backend, luck: Luck)
    requires TimersOk(s) && s.sessionActive
    ensures CountsDown(Arm(s, b, luck), s.nextToken, b, luck)
    ensures ArmedFrom(s.(fadeToken := None, fadeStarted := None, armings := s.armings + 1), Arm(s, b, luck))
  {
    CalmedState(s);
    CalmedStart(s);
    var calm, armed := Calmed(s), Arm(s, b, luck);
    assert armed == ArmTimers(calm, b, luck);
    ArmTimersCount(calm, b, luck);
    ArmTimersFrom(calm, b, luck);
    ArmKeepsTimers(s, b, luck);
    TimersAreOwned(armed);
  }

  /** User input, a return from another VT or from suspend. */
  predicate IsActivity(e: Event) {
    e.UserInput? || e.SessionActivated? || (e.DbusSleep? && !e.sleeping)
  }

  lemma ActivityAwakes(s: Idle, b: Backend, luck: Luck)
    requires TimersOk(s) && Faithful(s.panel) && s.sessionActive
    requires s.stage == Active ==> Awake(s)
    ensures Awake(Activity(s, b, luck)) && Activity(s, b, luck).settings == s.settings
    ensures !Inhibited(s) ==> CountsDown(Activity(s, b, luck), s.nextToken, b, luck)
    ensures Inhibited(Activity(s, b, luck)) == Inhibited(s) && Activity(s, b, luck).sessionActive
  {
    var awake := if s.stage != Active then Reset(s) else s;
    ResetIsLit(s);
    assert awake.nextToken == s.nextToken && awake.settings == s.settings && Inhibited(awake) == Inhibited(s);
    if !Inhibited(awake) {
      ArmCountsDown(awake, b, luck);
    }
  }

  /** Activity in an active session always lights the screen, and unless something inhibits idleness
      the whole countdown begins again with fresh timers. */
  lemma {:induction false} ActivityRestartsCountdown(run: Run, b: Backend)
    requires Valid(run, b) && Fresh(FirstPanel(run)) && run.Then? && IsActivity(run.event)
    requires Final(run.before, b).sessionActive || run.event.SessionActivated?
    ensures var before, s := Final(run.before, b), Final(run, b);
      && Awake(s) && s.sessionActive && s.settings == before.settings
      && (!Inhibited(before) ==> CountsDown(s, before.nextToken, b, run.event.luck))
  {
    ReachableInv(run.before, b);
    var before := Final(run.before, b);
    ActivityIsStep(before, b, run.event);
    ActivityAwakes(before.(sessionActive := true), b, run.event.luck);
  }

  lemma ActivityIsStep(s: Idle, b: Backend, e: Event)
    requires IsActivity(e) && (s.sessionActive || e.SessionActivated?)
    ensures Step(s, b, e) == Activity(s.(sessionActive := true), b, e.luck)
  {
    if s.sessionActive {
      assert s == s.(sessionActive := true);
    }
  }

  /** The countdown also begins with the machine. */
  lemma {:induction false} StartupCountsDown(run: Run, b: Backend)
    requires Valid(run, b) && run.Boot? && Fresh(FirstPanel(run))
    ensures Awake(Final(run, b)) && CountsDown(Final(run, b), 0, b, run.luck)
  {
    ArmCountsDown(Startup(run.panel, run.settings), b, run.luck);
  }

  /** New settings count down from the start while the screen is active, for the new timeouts. */
  lemma {:induction false} SettingsRestartCountdown(run: Run, b: Backend)
    requires Valid(run, b) && Fresh(FirstPanel(run)) && run.Then? && run.event.SettingsChanged?
    ensures var before, s := Final(run.before, b), Final(run, b);
      && s.settings == run.event.settings && s.stage == before.stage
      && (before.stage == Active && before.sessionActive && !Inhibited(before) ==>
            CountsDown(s, before.nextToken, b, run.event.luck))
  {
    ReachableInv(run.before, b);
    SettingsCountDown(Final(run.before, b), run.event.settings, b, run.event.luck);
  }

  lemma SettingsCountDown(s: Idle, settings: Settings, b: Backend, luck: Luck)
    requires TimersOk(s)
    ensures var a := ApplySettings(s, settings, b, luck);
      && a.settings == settings && a.stage == s.stage
      && (s.stage == Active && s.sessionActive && !Inhibited(s) ==> CountsDown(a, s.nextToken, b, luck))
  {
    var told := s.(settings := settings);
    if told.stage == Active && !Inhibited(told) {
      if told.sessionActive {
        ArmCountsDown(told, b, luck);
      } else {
        PausedArms(told, b, luck);
      }
    }
  }

  /** When the last inhibitor goes while the screen is active, the countdown begins; when one comes,
      the screen is lit and nothing counts. */
  lemma {:induction false} InhibitionRulesCountdown(run: Run, b: Backend)
    requires Valid(run, b) && Fresh(FirstPanel(run)) && run.Then?
    requires Recomputes(run.event) && !Misses(Final(run.before, b), run.event)
    ensures var before, s := Final(run.before, b), Final(run, b);
      && (Inhibited(s) ==> Awake(s) && s.timers == map[])
      && (!Inhibited(s) && before.stage == Active && before.sessionActive ==>
            CountsDown(s, before.nextToken, b, run.event.luck))
      && (!Inhibited(s) ==> s.stage == before.stage)
  {
    ReachableInv(run.before, b);
    var before, e := Final(run.before, b), run.event;
    var told := Told(before, e);
    ToldChangesInhibitorsOnly(before, e);
    InhibitorsDecideNothingElse(before, told, b);
    RefreshRulesCountdown(before, told, e.alive, b, e.luck);
  }

  lemma RefreshRulesCountdown(before: Idle, told: Idle, alive: set<Surface>, b: Backend, luck: Luck)
    requires Uninhibited(told) == Uninhibited(before) && TimersOk(told) && Faithful(told.panel)
    requires before.stage == Active ==> Awake(before)
    ensures var s := Refresh(told, alive, b, luck);
      && (Inhibited(s) ==> Awake(s) && s.timers == map[])
      && (!Inhibited(s) && before.stage == Active && before.sessionActive ==> CountsDown(s, before.nextToken, b, luck))
      && (!Inhibited(s) ==> s.stage == before.stage)
  {
    var kept := told.(surfaces := Retain(told.surfaces, alive));
    KeptIsTold(before, told, kept);
    if Inhibited(kept) {
      InhibitedLights(kept);
    } else if kept.stage == Active {
      if kept.sessionActive {
        ArmCountsDown(kept, b, luck);
      } else {
        PausedArms(kept, b, luck);
      }
    }
  }

  lemma PausedArms(s: Idle, b: Backend, luck: Luck)
    requires !s.sessionActive
    ensures Arm(s, b, luck).stage == s.stage && Inhibited(Arm(s, b, luck)) == Inhibited(s)
    ensures !Arm(s, b, luck).sessionActive && Arm(s, b, luck).settings == s.settings
  {
  }

  lemma InhibitedLights(s: Idle)
    requires TimersOk(s) && Faithful(s.panel) && (s.stage == Active ==> Awake(s)) && Inhibited(s)
    ensures var a := if s.stage != Active then Reset(s) else CancelAll(s); Awake(a) && a.timers == map[] && Inhibited(a)
  {
    if s.stage != Active {
      ResetIsLit(s);
    } else {
      CancelLeavesNothing(s);
    }
  }

  lemma KeptIsTold(s: Idle, told: Idle, kept: Idle)
    requires Uninhibited(told) == Uninhibited(s) && kept == told.(surfaces := kept.surfaces) && TimersOk(told)
    ensures TimersOk(kept) && kept.stage == s.stage && kept.sessionActive == s.sessionActive
    ensures kept.nextToken == s.nextToken && kept.settings == s.settings && (Awake(kept) <==> Awake(s))
    ensures kept.panel == told.panel
  {
    var u := Uninhibited(s);
    assert told.dimAlpha == u.dimAlpha && told.panel == u.panel;
    assert told.stage == u.stage && told.sessionActive == u.sessionActive;
    assert told.nextToken == u.nextToken && told.settings == u.settings;
  }

  // ----- every timer has its effect

  /** How much of a fade of this length is over after this time. */
  ghost predicate IsFaded(fade: nat, elapsed: int, alpha: real) {
    if elapsed >= fade then alpha == 1.0 else alpha * (fade as real) == elapsed as real
  }

  lemma ProgressIsFaded(fade: nat, started: int, now: int)
    requires started <= now
    ensures IsFaded(fade, now - started, Progress(fade, started, now))
    ensures Progress(fade, started, now) >= 1.0 <==> now - started >= fade
  {
    if fade != 0 && now - started < fade {
      ShareOf((now - started) as real, fade as real);
    }
  }

  lemma ShareOf(x: real, y: real)
    requires 0.0 <= x < y
    ensures (x / y) * y == x && x / y < 1.0
  {
    var q := x / y;
    assert q * y == x;
  }

  /** The screen shows the fade, and the panel with it. */
  predicate Shows(s: Idle, alpha: real, blank: bool) {
    s.dimAlpha == alpha && s.panel.progress == alpha && s.panel.blank == blank
  }

  lemma TickShows(s: Idle, now: int)
    requires s.fadeStarted.Some? && s.fadeStarted.value <= now
    ensures var a, elapsed := FadeTick(s, now), now - s.fadeStarted.value;
      && IsFaded(s.settings.fade, elapsed, a.dimAlpha) && Shows(a, a.dimAlpha, false)
      && (if elapsed >= s.settings.fade then a.stage == Dimmed && a.fadeToken.None? && a.fadeStarted.None?
          else a.stage == s.stage && a.fadeToken == s.fadeToken && a.fadeStarted == s.fadeStarted && a.timers == s.timers)
  {
    ProgressIsFaded(s.settings.fade, s.fadeStarted.value, now);
    ProgressInRange(s.settings.fade, s.fadeStarted.value, now);
  }

  /** The dim timer begins the fade, and the fade follows the clock until the screen is dimmed. */
  lemma {:induction false} DimTimerFades(run: Run, b: Backend)
    requires Valid(run, b) && Fresh(FirstPanel(run)) && run.Then? && run.event.TimerFired?
    requires Final(run.before, b).timers[run.event.token].kind == DimTimer
    ensures var s, elapsed, fade := Final(run, b), run.event.later - run.event.now, Final(run.before, b).settings.fade;
      && s.dimToken.None? && IsFaded(fade, elapsed, s.dimAlpha) && Shows(s, s.dimAlpha, false)
      && (elapsed >= fade ==> s.stage == Dimmed && s.fadeToken.None?)
      && (elapsed < fade ==> s.stage == Fading && s.fadeStarted == Some(run.event.now)
                             && (s.fadeToken.Some? <==> run.event.luck.fade)
                             && (s.fadeToken.Some? ==> TicksAs(s, fade)))
  {
    ReachableInv(run.before, b);
    var s := Final(run.before, b);
    var dropped := s.(timers := s.timers - {run.event.token});
    StartInserts(dropped, run.event.now, run.event.luck);
    TickShows(FadeStarted(dropped, run.event.now, run.event.luck), run.event.later);
  }

  /** The fade timer is live and comes after 40 milliseconds, or at the end of a shorter fade. */
  predicate TicksAs(s: Idle, fade: nat)
    requires s.fadeToken.Some?
  {
    s.fadeToken.value in s.timers
    && s.timers[s.fadeToken.value] == Timer(FadeTimer, if fade < 40 then fade else 40)
  }

  lemma StartInserts(s: Idle, now: int, luck: Luck)
    ensures var a := FadeStarted(s, now, luck);
      && a.stage == Fading && a.fadeStarted == Some(now) && a.dimToken.None? && a.settings == s.settings
      && (a.fadeToken.Some? <==> luck.fade)
      && (a.fadeToken.Some? ==> TicksAs(a, s.settings.fade))
  {
  }

  /** A tick of the fade at time `now` has shown its share, and ended it once the time was up. */
  ghost predicate Ticked(before: Idle, s: Idle, now: int) {
    && before.stage == Fading && before.fadeStarted.Some?
    && var elapsed := now - before.fadeStarted.value;
       && IsFaded(before.settings.fade, elapsed, s.dimAlpha) && Shows(s, s.dimAlpha, false)
       && if elapsed >= before.settings.fade then s.stage == Dimmed && s.fadeToken.None? else s.stage == Fading
  }

  /** The fade timer only ticks while the screen is fading, and each tick follows the clock. */
  lemma {:induction false} FadeFollowsClock(run: Run, b: Backend)
    requires Valid(run, b) && Fresh(FirstPanel(run)) && run.Then? && run.event.TimerFired?
    requires Final(run.before, b).timers[run.event.token].kind == FadeTimer
    ensures Ticked(Final(run.before, b), Final(run, b), run.event.now)
  {
    ReachableInv(run.before, b);
    FadeTimerTicks(Final(run.before, b), b, run.event);
  }

  lemma FadeTimerTicks(s: Idle, b: Backend, e: Event)
    requires Inv(s, b) && Enabled(s, e) && e.TimerFired? && s.timers[e.token].kind == FadeTimer
    ensures Ticked(s, Step(s, b, e), e.now)
  {
    FadeTimerIsOwned(s, e.token, b);
    FadeFires(s, e.token, e.now, e.later, b, e.luck);
    FadeTickShows(s, e.now);
  }

  lemma FadeTimerIsOwned(s: Idle, token: Token, b: Backend)
    requires Inv(s, b) && token in s.timers && s.timers[token].kind == FadeTimer
    ensures s.stage == Fading && s.fadeStarted.Some?
  {
    assert Owner(s, FadeTimer) == Some(token);
  }

  lemma FadeTickShows(s: Idle, now: int)
    requires s.stage == Fading && s.fadeStarted.Some? && s.fadeStarted.value <= now
    ensures var a, elapsed := FadeTick(s, now), now - s.fadeStarted.value;
      && IsFaded(s.settings.fade, elapsed, a.dimAlpha) && Shows(a, a.dimAlpha, false)
      && if elapsed >= s.settings.fade then a.stage == Dimmed && a.fadeToken.None? else a.stage == Fading
  {
    TickShows(s, now);
  }

  lemma FadeFires(s: Idle, token: Token, now: int, later: int, b: Backend, luck: Luck)
    requires token in s.timers && s.timers[token].kind == FadeTimer && now <= later
    requires s.fadeStarted.Some? ==> s.fadeStarted.value <= now
    ensures Fire(s, token, now, later, b, luck) == FadeTick(s, now)
  {
  }

  /** The blank timer powers the outputs down where the backend can, and dims for good where not; the
      panel is off either way and no timer of the fade is left. */
  lemma {:induction false} BlankTimerBlanks(run: Run, b: Backend)
    requires Valid(run, b) && Fresh(FirstPanel(run)) && run.Then? && run.event.TimerFired?
    requires Final(run.before, b).timers[run.event.token].kind == BlankTimer
    ensures var s := Final(run, b);
      && s.stage == (if b.canBlank then Blank else Dimmed) && Shows(s, 1.0, true)
      && s.dimToken.None? && s.blankToken.None? && s.fadeToken.None? && s.fadeStarted.None?
      && s.powerToken == Final(run.before, b).powerToken
  {
    ReachableInv(run.before, b);
    var s := Final(run.before, b);
    assert Owner(s, BlankTimer) == Some(run.event.token);
  }

  ghost predicate Untriggered(s: Idle, b: Backend) {
    s.powerToken.Some? ==> !s.triggered && b.powerWorker
  }

  lemma ArmUntriggers(s: Idle, b: Backend, luck: Luck)
    ensures Untriggered(Arm(s, b, luck), b)
  {
    var dim := ArmDim(Calmed(s), luck);
    assert !dim.triggered && dim.powerToken.None?;
    var blank := ArmBlank(dim, luck);
    assert !blank.triggered && blank.powerToken.None?;
  }

  lemma ActivityUntriggers(s: Idle, b: Backend, luck: Luck)
    requires Untriggered(s, b)
    ensures Untriggered(Activity(s, b, luck), b)
  {
    ArmUntriggers(if s.stage != Active then Reset(s) else s, b, luck);
  }

  lemma RefreshUntriggers(s: Idle, alive: set<Surface>, b: Backend, luck: Luck)
    requires Untriggered(s, b)
    ensures Untriggered(Refresh(s, alive, b, luck), b)
  {
    ArmUntriggers(s.(surfaces := Retain(s.surfaces, alive)), b, luck);
  }

  lemma RecomputedUntriggers(s: Idle, b: Backend, e: Event)
    requires Untriggered(s, b) && Recomputes(e)
    ensures Untriggered(Recomputed(s, b, e), b)
  {
    ToldChangesInhibitorsOnly(s, e);
    var told := Told(s, e);
    assert told.powerToken == Uninhibited(told).powerToken == s.powerToken;
    assert told.triggered == Uninhibited(told).triggered == s.triggered;
    RefreshUntriggers(told, e.alive, b, e.luck);
  }

  lemma TickUntriggers(s: Idle, now: int, b: Backend)
    requires Untriggered(s, b)
    requires s.fadeStarted.Some? ==> s.fadeStarted.value <= now
    ensures Untriggered(FadeTick(s, now), b)
  {
  }

  lemma StartedUntriggers(s: Idle, now: int, luck: Luck, b: Backend)
    requires Untriggered(s, b)
    ensures Untriggered(FadeStarted(s, now, luck), b)
  {
  }

  lemma DimUntriggers(s: Idle, now: int, later: int, luck: Luck, b: Backend)
    requires Untriggered(s, b) && now <= later
    ensures Untriggered(DimFired(s, now, later, luck), b)
  {
    StartedUntriggers(s, now, luck, b);
    TickUntriggers(FadeStarted(s, now, luck), later, b);
  }

  lemma BlankUntriggers(s: Idle, b: Backend)
    requires Untriggered(s, b)
    ensures Untriggered(BlankFired(s, b), b)
  {
  }

  lemma FireUntriggers(s: Idle, b: Backend, e: Event)
    requires Untriggered(s, b) && Enabled(s, e) && e.TimerFired?
    ensures Untriggered(Fire(s, e.token, e.now, e.later, b, e.luck), b)
  {
    var dropped := s.(timers := s.timers - {e.token});
    match s.timers[e.token].kind {
      case DimTimer => DimUntriggers(dropped, e.now, e.later, e.luck, b);
      case FadeTimer =>
        FadeFires(s, e.token, e.now, e.later, b, e.luck);
        TickUntriggers(s, e.now, b);
      case BlankTimer => BlankUntriggers(dropped, b);
      case PowerTimer => assert PowerFired(dropped, b).powerToken.None?;
    }
  }

  lemma ChangedUntriggers(s: Idle, b: Backend, e: Event)
    requires Untriggered(s, b) && !Recomputes(e) && !e.TimerFired?
    ensures Untriggered(Changed(s, b, e), b)
  {
    match e {
      case UserInput(luck) => ActivityUntriggers(s, b, luck);
      case DbusSleep(_, luck) => ActivityUntriggers(s, b, luck);
      case SessionActivated(luck) => ActivityUntriggers(s.(sessionActive := true), b, luck);
      case SettingsChanged(settings, luck) => ArmUntriggers(s.(settings := settings), b, luck);
      case _ =>
    }
  }

  lemma {:induction false} ArmedIsUntriggered(run: Run, b: Backend)
    requires Valid(run, b)
    ensures Untriggered(Final(run, b), b)
  {
    match run {
      case Boot(panel, settings, luck) => ArmUntriggers(Startup(panel, settings), b, luck);
      case Then(before, e) =>
        ArmedIsUntriggered(before, b);
        if Recomputes(e) {
          RecomputedUntriggers(Final(before, b), b, e);
        } else if e.TimerFired? {
          FireUntriggers(Final(before, b), b, e);
        } else {
          ChangedUntriggers(Final(before, b), b, e);
        }
    }
  }

  /** A power timer that fires always sends the power action, exactly once. */
  lemma {:induction false} PowerTimerSends(run: Run, b: Backend)
    requires Valid(run, b) && Fresh(FirstPanel(run)) && run.Then? && run.event.TimerFired?
    requires Final(run.before, b).timers[run.event.token].kind == PowerTimer
    ensures Final(run, b).sends == Final(run.before, b).sends + [Final(run.before, b).armings]
    ensures Final(run, b).powerToken.None? && Final(run, b).stage == Final(run.before, b).stage
  {
    ReachableInv(run.before, b);
    ArmedIsUntriggered(run.before, b);
    var s := Final(run.before, b);
    assert Owner(s, PowerTimer) == Some(run.event.token);
  }

  // ----- what the machine is told, and what it shows

  lemma {:induction false} RetainExactly(surfaces: seq<Surface>, alive: set<Surface>, x: Surface)
    ensures x in Retain(surfaces, alive) <==> x in surfaces && x in alive
  {
    if surfaces != [] {
      RetainExactly(surfaces[..|surfaces| - 1], alive, x);
      assert surfaces == surfaces[..|surfaces| - 1] + [surfaces[|surfaces| - 1]];
    }
  }

  lemma {:induction false} WithoutExactly(surfaces: seq<Surface>, gone: Surface, x: Surface)
    ensures x in Without(surfaces, gone) <==> x in surfaces && x != gone
  {
    if surfaces != [] {
      WithoutExactly(surfaces[..|surfaces| - 1], gone, x);
      assert surfaces == surfaces[..|surfaces| - 1] + [surfaces[|surfaces| - 1]];
    }
  }

  /** Everything from outside that decides over idleness. */
  datatype Inputs = Inputs(sessionActive: bool, dbusInhibited: bool, capturing: bool, recording: bool,
                       settings: Settings, surfaces: set<Surface>)

  /** What one event tells. An inhibiting surface counts while it was alive when that was last asked. */
  function Hears(t: Inputs, e: Event): Inputs {
    match e
    case DbusInhibit(inhibited, alive, _) => t.(dbusInhibited := inhibited, surfaces := t.surfaces * alive)
    case SurfaceAdded(surface, alive, _) => t.(surfaces := (t.surfaces + {surface}) * alive)
    case SurfaceRemoved(surface, alive, _) => t.(surfaces := (t.surfaces - {surface}) * alive)
    case CaptureBegan(alive, _) => t.(capturing := true, surfaces := t.surfaces * alive)
    case CaptureCancelled(alive, _) => if t.capturing then t.(capturing := false, surfaces := t.surfaces * alive) else t
    case CaptureFinished => t.(capturing := false)
    case RecordingBegan(alive, _) => t.(recording := true, surfaces := t.surfaces * alive)
    case RecordingStopped(alive, _) => if t.recording then t.(recording := false, surfaces := t.surfaces * alive) else t
    case RecordingLost => t.(recording := false)
    case SessionPaused => t.(sessionActive := false)
    case SessionActivated(_) => t.(sessionActive := true)
    case SettingsChanged(settings, _) => t.(settings := settings)
    case _ => t
  }

  /** What the events of a run have told the machine. */
  function Heard(run: Run): Inputs {
    match run
    case Boot(_, settings, _) => Inputs(true, false, false, false, settings, {})
    case Then(before, e) => Hears(Heard(before), e)
  }

  function InputsOf(s: Idle): Inputs {
    Inputs(s.sessionActive, s.dbusInhibited, s.capturing, s.recording, s.settings, set x | x in s.surfaces)
  }

  lemma ArmKeepsInputs(s: Idle, b: Backend, luck: Luck)
    ensures InputsOf(Arm(s, b, luck)) == InputsOf(s)
  {
    var dim := ArmDim(Calmed(s), luck);
    assert InputsOf(dim) == InputsOf(s);
    var blank := ArmBlank(dim, luck);
    assert InputsOf(blank) == InputsOf(s);
  }

  lemma ActivityKeepsInputs(s: Idle, b: Backend, luck: Luck)
    ensures InputsOf(Activity(s, b, luck)) == InputsOf(s)
  {
    ArmKeepsInputs(if s.stage != Active then Reset(s) else s, b, luck);
  }

  lemma RefreshKeepsInputs(s: Idle, alive: set<Surface>, b: Backend, luck: Luck)
    ensures InputsOf(Refresh(s, alive, b, luck)) == InputsOf(s).(surfaces := InputsOf(s).surfaces * alive)
  {
    var kept := s.(surfaces := Retain(s.surfaces, alive));
    assert InputsOf(kept).surfaces == InputsOf(s).surfaces * alive by {
      forall x ensures x in Retain(s.surfaces, alive) <==> x in s.surfaces && x in alive {
        RetainExactly(s.surfaces, alive, x);
      }
    }
    ArmKeepsInputs(kept, b, luck);
  }

  /** What an event that recomputes the inhibition tells. */
  lemma ToldInputs(s: Idle, e: Event)
    requires Recomputes(e)
    ensures InputsOf(Told(s, e)) ==
      match e
      case DbusInhibit(inhibited, _, _) => InputsOf(s).(dbusInhibited := inhibited)
      case SurfaceAdded(surface, _, _) => InputsOf(s).(surfaces := InputsOf(s).surfaces + {surface})
      case SurfaceRemoved(surface, _, _) => InputsOf(s).(surfaces := InputsOf(s).surfaces - {surface})
      case CaptureBegan(_, _) => InputsOf(s).(capturing := true)
      case CaptureCancelled(_, _) => InputsOf(s).(capturing := false)
      case RecordingBegan(_, _) => InputsOf(s).(recording := true)
      case RecordingStopped(_, _) => InputsOf(s).(recording := false)
  {
    if e.SurfaceRemoved? {
      forall x ensures x in Without(s.surfaces, e.surface) <==> x in s.surfaces && x != e.surface {
        WithoutExactly(s.surfaces, e.surface, x);
      }
    }
  }

  lemma FireKeepsInputs(s: Idle, b: Backend, e: Event)
    requires Enabled(s, e) && e.TimerFired?
    ensures InputsOf(Fire(s, e.token, e.now, e.later, b, e.luck)) == InputsOf(s)
  {
    var dropped := s.(timers := s.timers - {e.token});
    match s.timers[e.token].kind {
      case DimTimer => DimKeepsInputs(dropped, e.now, e.later, e.luck);
      case FadeTimer =>
        FadeFires(s, e.token, e.now, e.later, b, e.luck);
        TickKeepsInputs(s, e.now);
      case BlankTimer => BlankKeepsInputs(dropped, b);
      case PowerTimer => PowerKeepsInputs(dropped, b);
    }
  }

  lemma DimKeepsInputs(s: Idle, now: int, later: int, luck: Luck)
    requires now <= later
    ensures InputsOf(DimFired(s, now, later, luck)) == InputsOf(s)
  {
    StartKeepsInputs(s, now, luck);
    TickKeepsInputs(FadeStarted(s, now, luck), later);
  }

  lemma StartKeepsInputs(s: Idle, now: int, luck: Luck)
    ensures InputsOf(FadeStarted(s, now, luck)) == InputsOf(s) && FadeStarted(s, now, luck).panel == s.panel
  {
  }

  lemma BlankKeepsInputs(s: Idle, b: Backend)
    ensures InputsOf(BlankFired(s, b)) == InputsOf(s)
    ensures BlankFired(s, b).panel == s.panel || BlankFired(s, b).panel == Idled(s.panel, 1.0, true)
  {
  }

  lemma PowerKeepsInputs(s: Idle, b: Backend)
    ensures InputsOf(PowerFired(s, b)) == InputsOf(s) && PowerFired(s, b).panel == s.panel
  {
  }

  lemma TickKeepsInputs(s: Idle, now: int)
    requires s.fadeStarted.Some? ==> s.fadeStarted.value <= now
    ensures InputsOf(FadeTick(s, now)) == InputsOf(s)
  {
  }

  lemma ChangedInputs(s: Idle, b: Backend, e: Event)
    requires !Recomputes(e) && !e.TimerFired?
    ensures InputsOf(Changed(s, b, e)) ==
      match e
      case SessionPaused => InputsOf(s).(sessionActive := false)
      case SessionActivated(_) => InputsOf(s).(sessionActive := true)
      case SettingsChanged(settings, _) => InputsOf(s).(settings := settings)
      case CaptureFinished => InputsOf(s).(capturing := false)
      case RecordingLost => InputsOf(s).(recording := false)
      case _ => InputsOf(s)
  {
    match e {
      case UserInput(luck) => ActivityKeepsInputs(s, b, luck);
      case DbusSleep(_, luck) => ActivityKeepsInputs(s, b, luck);
      case SessionActivated(luck) => ActivityKeepsInputs(s.(sessionActive := true), b, luck);
      case SettingsChanged(settings, luck) => ArmKeepsInputs(s.(settings := settings), b, luck);
      case _ =>
    }
  }

  lemma StepHears(s: Idle, b: Backend, e: Event)
    requires Enabled(s, e)
    ensures InputsOf(Step(s, b, e)) == Hears(InputsOf(s), e)
  {
    if Recomputes(e) {
      if !Misses(s, e) {
        ToldInputs(s, e);
        RefreshKeepsInputs(Told(s, e), e.alive, b, e.luck);
      }
    } else if e.TimerFired? {
      FireKeepsInputs(s, b, e);
    } else {
      ChangedInputs(s, b, e);
    }
  }

  /** The machine knows exactly what it was told: no event of its own changes what decides over
      idleness, and none of what it is told is lost. */
  lemma {:induction false} InputsAreExact(run: Run, b: Backend)
    requires Valid(run, b)
    ensures InputsOf(Final(run, b)) == Heard(run)
  {
    match run {
      case Boot(panel, settings, luck) => ArmKeepsInputs(Startup(panel, settings), b, luck);
      case Then(before, e) =>
        InputsAreExact(before, b);
        StepHears(Final(before, b), b, e);
    }
  }

  /** On the way into suspend every timer is cancelled and the panel lit, and the stage stays. */
  lemma {:induction false} SleepStopsCountdown(run: Run, b: Backend)
    requires Valid(run, b) && Fresh(FirstPanel(run)) && run.Then? && run.event.DbusSleep? && run.event.sleeping
    ensures var s := Final(run, b);
      s.timers == map[] && s.panel.progress == 0.0 && !s.panel.blank && s.stage == Final(run.before, b).stage
  {
    ReachableInv(run.before, b);
    CancelLeavesNothing(Final(run.before, b));
  }

  // ----- the panel is written

  /** Nothing has been written, for want of a backlight or of a change, or the last write shows what
      the panel should. */
  ghost predicate Current(p: Panel, first: Panel) {
    p.devices == first.devices && p.available == first.available
    && (p == first || (p.available ==> p.written == Some(Values(p))))
  }

  lemma ChangesAreWritten(p: Panel, first: Panel, delta: real, progress: real, blank: bool)
    requires Current(p, first)
    ensures Current(Adjusted(p, delta), first) && Current(Idled(p, progress, blank), first) && Current(Woken(p), first)
  {
    ValuesIgnoreWritten(p.(user := Clamp(p.user + delta, MIN_USER_FRACTION, 1.0)));
    ValuesIgnoreWritten(p.(progress := Clamp(progress, 0.0, 1.0), blank := blank));
    ValuesIgnoreWritten(p.(progress := Clamp(0.0, 0.0, 1.0), blank := false));
  }

  /** The panel after a step is the one before it, changed at most by fading, blanking, waking or a key. */
  ghost predicate Changes(p: Panel, q: Panel) {
    || q == p || q == Woken(p)
    || (exists delta :: q == Adjusted(p, delta))
    || (exists progress, blank :: q == Idled(p, progress, blank))
  }

  lemma ArmKeepsPanel(s: Idle, b: Backend, luck: Luck)
    ensures Arm(s, b, luck).panel == s.panel
  {
    var dim := ArmDim(Calmed(s), luck);
    assert dim.panel == s.panel;
    assert ArmBlank(dim, luck).panel == s.panel;
  }

  lemma ActivityChanges(s: Idle, b: Backend, luck: Luck)
    ensures Changes(s.panel, Activity(s, b, luck).panel)
  {
    ArmKeepsPanel(if s.stage != Active then Reset(s) else s, b, luck);
  }

  lemma RecomputedChanges(s: Idle, b: Backend, e: Event)
    requires Recomputes(e)
    ensures Changes(s.panel, Recomputed(s, b, e).panel)
  {
    ToldChangesInhibitorsOnly(s, e);
    var told := Told(s, e);
    assert told.panel == Uninhibited(told).panel == s.panel;
    ArmKeepsPanel(told.(surfaces := Retain(told.surfaces, e.alive)), b, e.luck);
  }

  lemma TickChanges(s: Idle, now: int)
    requires s.fadeStarted.Some? ==> s.fadeStarted.value <= now
    ensures Changes(s.panel, FadeTick(s, now).panel)
  {
    if s.fadeStarted.Some? {
      assert FadeTick(s, now).panel == Idled(s.panel, Progress(s.settings.fade, s.fadeStarted.value, now), false);
    }
  }

  lemma FireChanges(s: Idle, b: Backend, e: Event)
    requires Enabled(s, e) && e.TimerFired?
    ensures Changes(s.panel, Fire(s, e.token, e.now, e.later, b, e.luck).panel)
  {
    var dropped := s.(timers := s.timers - {e.token});
    match s.timers[e.token].kind {
      case DimTimer => DimChanges(dropped, e.now, e.later, e.luck);
      case FadeTimer =>
        FadeFires(s, e.token, e.now, e.later, b, e.luck);
        TickChanges(s, e.now);
      case BlankTimer => BlankKeepsInputs(dropped, b);
      case PowerTimer => PowerKeepsInputs(dropped, b);
    }
  }

  lemma DimChanges(s: Idle, now: int, later: int, luck: Luck)
    requires now <= later
    ensures Changes(s.panel, DimFired(s, now, later, luck).panel)
  {
    StartKeepsInputs(s, now, luck);
    TickChanges(FadeStarted(s, now, luck), later);
  }

  lemma ChangedChanges(s: Idle, b: Backend, e: Event)
    requires !Recomputes(e) && !e.TimerFired?
    ensures Changes(s.panel, Changed(s, b, e).panel)
  {
    match e {
      case UserInput(luck) => ActivityChanges(s, b, luck);
      case DbusSleep(_, luck) => ActivityChanges(s, b, luck);
      case SessionActivated(luck) => ActivityChanges(s.(sessionActive := true), b, luck);
      case SettingsChanged(settings, luck) => ArmKeepsPanel(s.(settings := settings), b, luck);
      case BrightnessKey(delta) => assert Changed(s, b, e).panel == Adjusted(s.panel, delta);
      case _ =>
    }
  }

  lemma ChangesStayCurrent(p: Panel, q: Panel, first: Panel)
    requires Current(p, first) && Changes(p, q)
    ensures Current(q, first)
  {
    if q != p {
      if q == Woken(p) {
        ChangesAreWritten(p, first, 0.0, 0.0, false);
      } else if delta :| q == Adjusted(p, delta) {
        ChangesAreWritten(p, first, delta, 0.0, false);
      } else {
        var progress, blank :| q == Idled(p, progress, blank);
        ChangesAreWritten(p, first, 0.0, progress, blank);
      }
    }
  }

  /** From the first change on, a panel that can be controlled has always been written what it should
      show: no fade, no blanking, no waking and no brightness key goes unwritten. */
  lemma {:induction false} PanelIsWritten(run: Run, b: Backend)
    requires Valid(run, b)
    ensures Current(Final(run, b).panel, FirstPanel(run))
  {
    match run {
      case Boot(panel, settings, luck) => ArmKeepsPanel(Startup(panel, settings), b, luck);
      case Then(before, e) =>
        PanelIsWritten(before, b);
        var s := Final(before, b);
        if Recomputes(e) {
          RecomputedChanges(s, b, e);
        } else if e.TimerFired? {
          FireChanges(s, b, e);
        } else {
          ChangedChanges(s, b, e);
        }
        ChangesStayCurrent(s.panel, Final(run, b).panel, FirstPanel(run));
    }
  }
}
