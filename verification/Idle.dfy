/** The panel brightness the compositor owns (src/embedder/brightness/mod.rs). Fractions are exact. */
module Brightness {
  import opened Options

  const IDLE_DIM_FRACTION: real := 0.1
  const MIN_USER_FRACTION: real := 0.01

  /** `written` is the last batch sent to the writer thread, one raw value for each device. */
  datatype Panel = Panel(
    devices: seq<nat>,
    user: real,
    progress: real,
    blank: bool,
    available: bool,
    written: Option<seq<int>>)

  function Clamp(x: real, low: real, high: real): real {
    if x < low then low else if x > high then high else x
  }

  /** `f32::round` of a value that is not negative. */
  function Round(x: real): int {
    (x + 0.5).Floor
  }

  function TargetFraction(user: real, progress: real, blank: bool): real {
    if blank then 0.0
    else
      var floor := if user < IDLE_DIM_FRACTION then user else IDLE_DIM_FRACTION;
      user + (floor - user) * progress
  }

  /** The raw value written to a device of the given maximum. */
  function RawValue(p: Panel, device: nat): int {
    var raw := Round(TargetFraction(p.user, p.progress, p.blank) * (device as real));
    if p.blank then raw else if raw < 1 then 1 else raw
  }

  /** The user's own level on device `i`, never off. */
  function UserSteps(p: Panel, i: nat): int
    requires i < |p.devices|
  {
    var raw := Round(p.user * (p.devices[i] as real));
    if raw < 1 then 1 else raw
  }

  function Values(p: Panel): seq<int> {
    seq(|p.devices|, i requires 0 <= i < |p.devices| => RawValue(p, p.devices[i]))
  }

  function Applied(p: Panel): Panel {
    if p.available then p.(written := Some(Values(p))) else p
  }

  function Adjusted(p: Panel, delta: real): Panel {
    Applied(p.(user := Clamp(p.user + delta, MIN_USER_FRACTION, 1.0)))
  }

  function Idled(p: Panel, progress: real, blank: bool): Panel {
    Applied(p.(progress := Clamp(progress, 0.0, 1.0), blank := blank))
  }

  function Woken(p: Panel): Panel {
    Idled(p, 0.0, false)
  }

  /** The panel always shows the current target, the user's level is in range, and so is the fade. */
  ghost predicate Faithful(p: Panel) {
    && MIN_USER_FRACTION <= p.user <= 1.0
    && 0.0 <= p.progress <= 1.0
    && (p.written.Some? ==> p.available && p.written.value == Values(p))
  }

  lemma ChangesStayFaithful(p: Panel, delta: real, progress: real, blank: bool)
    requires Faithful(p)
    ensures Faithful(Adjusted(p, delta)) && Faithful(Idled(p, progress, blank))
  {
    ValuesIgnoreWritten(p.(user := Clamp(p.user + delta, MIN_USER_FRACTION, 1.0)));
    ValuesIgnoreWritten(p.(progress := Clamp(progress, 0.0, 1.0), blank := blank));
  }

  lemma ValuesIgnoreWritten(p: Panel)
    ensures Values(Applied(p)) == Values(p)
  {
    var a, b := Values(Applied(p)), Values(p);
    assert |a| == |b| && forall i | 0 <= i < |a| :: a[i] == b[i];
  }

  lemma RoundIsMonotone(x: real, y: real)
    requires x <= y
    ensures Round(x) <= Round(y)
  {
  }

  lemma ScaleBelow(fraction: real, limit: real, n: real)
    requires fraction <= limit && 0.0 <= n
    ensures fraction * n <= limit * n
  {
  }

  /** What a faithful panel can show: exactly zero while blanked, otherwise at least one step and
      never more than the user's own level asks for. Awake it shows the user's level. */
  lemma PanelLevels(p: Panel, i: nat)
    requires Faithful(p) && p.written.Some? && i < |p.devices|
    ensures |p.written.value| == |p.devices|
    ensures p.blank ==> p.written.value[i] == 0
    ensures !p.blank ==> p.written.value[i] >= 1
    ensures !p.blank ==> p.written.value[i] <= RawValue(p.(progress := 0.0), p.devices[i])
    ensures !p.blank && p.progress == 0.0 ==>
      p.written.value[i] == UserSteps(p, i)
  {
    assert p.written.value[i] == RawValue(p, p.devices[i]);
    if p.blank {
      BlankValue(p, p.devices[i]);
    } else {
      AwakeValue(p, p.devices[i]);
    }
  }

  lemma BlankValue(p: Panel, device: nat)
    requires p.blank
    ensures RawValue(p, device) == 0
  {
    assert TargetFraction(p.user, p.progress, p.blank) * (device as real) == 0.0;
  }

  lemma AwakeValue(p: Panel, device: nat)
    requires Faithful(p) && !p.blank
    ensures 1 <= RawValue(p, device) <= RawValue(p.(progress := 0.0), device)
  {
    var n := device as real;
    var target := TargetFraction(p.user, p.progress, false);
    FadeNeverBrightens(p.user, p.progress);
    ScaleBelow(target, p.user, n);
    assert TargetFraction(p.user, 0.0, false) == p.user;
    RoundIsMonotone(target * n, p.user * n);
  }

  /** A value is the number of steps nearest to its fraction of the device, but never off while awake. */
  lemma ValueIsNearest(p: Panel, device: nat)
    ensures var exact, raw := TargetFraction(p.user, p.progress, p.blank) * (device as real), RawValue(p, device);
      if !p.blank && exact < 0.5 then raw == 1 else -0.5 < (raw as real) - exact <= 0.5
  {
  }

  /** Fading moves monotonically from the user's level to the dim level, never above the former
      and never below the lower of the two. */
  lemma FadeNeverBrightens(user: real, progress: real)
    requires 0.0 <= user && 0.0 <= progress <= 1.0
    ensures TargetFraction(user, progress, false) <= user
    ensures TargetFraction(user, progress, false) >= TargetFraction(user, 1.0, false)
    ensures TargetFraction(user, 1.0, false) == if user < IDLE_DIM_FRACTION then user else IDLE_DIM_FRACTION
  {
    var floor := if user < IDLE_DIM_FRACTION then user else IDLE_DIM_FRACTION;
    assert (floor - user) * progress <= 0.0;
    assert (floor - user) * (progress - 1.0) >= 0.0;
    assert (floor - user) * progress == (floor - user) * (progress - 1.0) + (floor - user);
  }

  /** The fade is even: half the way is half the change. */
  lemma FadeIsEven(user: real, p: real, q: real)
    ensures TargetFraction(user, (p + q) / 2.0, false) * 2.0
      == TargetFraction(user, p, false) + TargetFraction(user, q, false)
    ensures TargetFraction(user, 0.0, false) == user
    ensures TargetFraction(user, 1.0, false) == if user < 0.1 then user else 0.1
    ensures TargetFraction(user, p, true) == 0.0
  {
  }

  class Brightness {
    const devices: seq<nat>
    const available: bool
    var user: real
    var progress: real
    var blank: bool
    var written: Option<seq<int>>

    ghost function View(): Panel
      reads this
    {
      Panel(devices, user, progress, blank, available, written)
    }

    /** A device list read at startup with its measured level, or no controllable backlight. */
    constructor (devices: seq<nat>, measured: real, enabled: bool)
      ensures View() == Panel(if enabled then devices else [],
                              if enabled && devices != [] then Clamp(measured, MIN_USER_FRACTION, 1.0) else 1.0,
                              0.0, false, enabled && devices != [], None)
      ensures Faithful(View())
    {
      this.devices := if enabled then devices else [];
      available := enabled && devices != [];
      user := if enabled && devices != [] then Clamp(measured, MIN_USER_FRACTION, 1.0) else 1.0;
      progress, blank, written := 0.0, false, None;
    }

    method Apply()
      modifies this`written
      ensures View() == Applied(old(View()))
    {
      if !available {
        return;
      }
      var updates: seq<int> := [];
      var i := 0;
      while i < |devices|
        invariant 0 <= i <= |devices| && |updates| == i
        invariant forall j | 0 <= j < i :: updates[j] == RawValue(old(View()), devices[j])
      {
        var raw := Round(TargetFraction(user, progress, blank) * (devices[i] as real));
        updates := updates + [if blank then raw else if raw < 1 then 1 else raw];
        i := i + 1;
      }
      assert updates == Values(old(View()));
      written := Some(updates);
    }

    method Adjust(delta: real)
      modifies this
      ensures View() == Adjusted(old(View()), delta)
    {
      user := Clamp(user + delta, MIN_USER_FRACTION, 1.0);
      Apply();
    }

    method SetIdle(progress: real, blank: bool)
      modifies this
      ensures View() == Idled(old(View()), progress, blank)
    {
      this.progress := Clamp(progress, 0.0, 1.0);
      this.blank := blank;
      Apply();
    }

    method Wake()
      modifies this
      ensures View() == Woken(old(View()))
    {
      SetIdle(0.0, false);
    }
  }
}

/** The screensaver state machine (src/embedder/idle/mod.rs). Durations and times are in
    milliseconds, alpha and the fade are exact. */
module IdleMachine {
  import opened Options
  import opened Brightness

  type Token = nat
  type Surface = nat

  datatype Stage = Active | Fading | Dimmed | Blank

  datatype TimerKind = DimTimer | BlankTimer | FadeTimer | PowerTimer
  datatype Timer = Timer(kind: TimerKind, delay: nat)

  const FADE_TICK: nat := 40

  datatype PowerAction = Disabled | Suspend | Hibernate | SuspendThenHibernate

  datatype Settings = Settings(dim: nat, blank: nat, fade: nat, action: PowerAction, power: nat)

  /** What the backend offers: powering outputs down, and a worker for the power action. */
  datatype Backend = Backend(canBlank: bool, powerWorker: bool)

  /** Whether the event loop accepts the timers a callback inserts. */
  datatype Luck = Luck(dim: bool, blank: bool, power: bool, fade: bool)

  /** `timers` are the live timer sources of the event loop. `armings` counts the calls of
      `arm_activity_timers`, and `sends` holds, for each power action sent, the arming it was
      sent in; nothing decides on either. */
  datatype Idle = Idle(
    stage: Stage,
    dimAlpha: real,
    settings: Settings,
    fadeStarted: Option<int>,
    dimToken: Option<Token>,
    blankToken: Option<Token>,
    fadeToken: Option<Token>,
    powerToken: Option<Token>,
    triggered: bool,
    surfaces: seq<Surface>,
    dbusInhibited: bool,
    capturing: bool,
    recording: bool,
    sessionActive: bool,
    timers: map<Token, Timer>,
    nextToken: Token,
    panel: Panel,
    armings: nat,
    sends: seq<nat>)

  function Startup(panel: Panel, settings: Settings): Idle {
    Idle(Active, 0.0, settings, None, None, None, None, None, false, [], false, false, false, true, map[], 0, panel, 0, [])
  }

  function Own(o: Option<Token>): set<Token> {
    if o.Some? then {o.value} else {}
  }

  function OwnAll(tokens: seq<Option<Token>>): set<Token> {
    if tokens == [] then {} else OwnAll(tokens[..|tokens| - 1]) + Own(tokens[|tokens| - 1])
  }

  lemma OwnAllOfThree(a: Option<Token>, b: Option<Token>, c: Option<Token>)
    ensures OwnAll([a, b, c]) == Own(a) + Own(b) + Own(c)
  {
    assert [a, b, c][..2] == [a, b];
    assert [a, b][..1] == [a];
    assert [a][..0] == [];
    assert OwnAll([a]) == Own(a);
    assert OwnAll([a, b]) == Own(a) + Own(b);
  }

  lemma OwnAllOfFour(a: Option<Token>, b: Option<Token>, c: Option<Token>, d: Option<Token>)
    ensures OwnAll([a, b, c, d]) == Own(a) + Own(b) + Own(c) + Own(d)
  {
    assert [a, b, c, d][..3] == [a, b, c];
    OwnAllOfThree(a, b, c);
  }

  predicate Inhibited(s: Idle) {
    s.dbusInhibited || s.surfaces != [] || s.capturing || s.recording
  }

  function CancelVisual(s: Idle): Idle {
    s.(dimToken := None, blankToken := None, fadeToken := None, fadeStarted := None,
       timers := s.timers - Own(s.dimToken) - Own(s.blankToken) - Own(s.fadeToken))
  }

  function CancelAll(s: Idle): Idle {
    s.(dimToken := None, blankToken := None, fadeToken := None, powerToken := None, fadeStarted := None,
       timers := s.timers - Own(s.dimToken) - Own(s.blankToken) - Own(s.fadeToken) - Own(s.powerToken))
  }

  function Insert(s: Idle, kind: TimerKind, delay: nat): Idle {
    s.(timers := s.timers[s.nextToken := Timer(kind, delay)], nextToken := s.nextToken + 1)
  }

  function ArmDim(s: Idle, luck: Luck): Idle {
    if s.settings.dim == 0 || !luck.dim then s else Insert(s, DimTimer, s.settings.dim).(dimToken := Some(s.nextToken))
  }

  function ArmBlank(s: Idle, luck: Luck): Idle {
    if s.settings.blank == 0 || !luck.blank then s else Insert(s, BlankTimer, s.settings.blank).(blankToken := Some(s.nextToken))
  }

  function ArmPower(s: Idle, b: Backend, luck: Luck): Idle {
    if s.settings.power == 0 || s.settings.action == Disabled || !b.powerWorker || !luck.power then s
    else Insert(s, PowerTimer, s.settings.power).(powerToken := Some(s.nextToken))
  }

  function Calmed(s: Idle): Idle {
    CancelAll(s).(triggered := false, armings := s.armings + 1)
  }

  function ArmTimers(s: Idle, b: Backend, luck: Luck): Idle {
    ArmPower(ArmBlank(ArmDim(s, luck), luck), b, luck)
  }

  function Arm(s: Idle, b: Backend, luck: Luck): Idle {
    if !s.sessionActive then Calmed(s) else ArmTimers(Calmed(s), b, luck)
  }

  /** Back to the lit, undimmed stage. */
  function Reset(s: Idle): Idle {
    CancelAll(s).(dimAlpha := 0.0, stage := Active, panel := Woken(s.panel))
  }

  function Activity(s: Idle, b: Backend, luck: Luck): Idle {
    if !s.sessionActive then s
    else
      var awake := if s.stage != Active then Reset(s) else s;
      if Inhibited(awake) then awake else Arm(awake, b, luck)
  }

  function Retain(surfaces: seq<Surface>, alive: set<Surface>): seq<Surface> {
    if surfaces == [] then []
    else
      var init, last := Retain(surfaces[..|surfaces| - 1], alive), surfaces[|surfaces| - 1];
      if last in alive then init + [last] else init
  }

  function Refresh(s: Idle, alive: set<Surface>, b: Backend, luck: Luck): Idle {
    var kept := s.(surfaces := Retain(s.surfaces, alive));
    if !Inhibited(kept) then (if kept.stage == Active then Arm(kept, b, luck) else kept)
    else if kept.stage != Active then Reset(kept)
    else CancelAll(kept)
  }

  function ApplySettings(s: Idle, settings: Settings, b: Backend, luck: Luck): Idle {
    var told := s.(settings := settings);
    if told.stage != Active then told
    else if Inhibited(told) then CancelAll(told) else Arm(told, b, luck)
  }

  function Paused(s: Idle): Idle {
    Reset(s.(sessionActive := false))
  }

  function Activated(s: Idle, b: Backend, luck: Luck): Idle {
    Activity(s.(sessionActive := true), b, luck)
  }

  function PrepareForSleep(s: Idle, sleeping: bool, b: Backend, luck: Luck): Idle {
    if sleeping then CancelAll(s).(panel := Woken(s.panel)) else Activity(s, b, luck)
  }

  function Progress(fade: nat, started: int, now: int): real
    requires started <= now
  {
    if fade == 0 then 1.0
    else if now - started >= fade then 1.0
    else ((now - started) as real) / (fade as real)
  }

  function FadeTick(s: Idle, now: int): Idle
    requires s.fadeStarted.Some? ==> s.fadeStarted.value <= now
  {
    if s.fadeStarted.None? then s
    else
      var progress := Progress(s.settings.fade, s.fadeStarted.value, now);
      var shown := s.(dimAlpha := progress, panel := Idled(s.panel, progress, false));
      if progress < 1.0 then shown
      else shown.(fadeStarted := None, fadeToken := None, timers := shown.timers - Own(shown.fadeToken), stage := Dimmed)
  }

  /** The first tick comes no later than the end of the fade. */
  function FirstTick(fade: nat): nat {
    if FADE_TICK <= fade then FADE_TICK else fade
  }

  function FadeStarted(s: Idle, now: int, luck: Luck): Idle {
    var fading := s.(dimToken := None, stage := Fading, fadeStarted := Some(now));
    if luck.fade then Insert(fading, FadeTimer, FirstTick(s.settings.fade)).(fadeToken := Some(fading.nextToken)) else fading.(fadeToken := None)
  }

  /** `now` is the reading of `Instant::now`, `later` the one inside the first tick. */
  function DimFired(s: Idle, now: int, later: int, luck: Luck): Idle
    requires now <= later
  {
    FadeTick(FadeStarted(s, now, luck), later)
  }

  function BlankFired(s: Idle, b: Backend): Idle {
    if s.stage == Blank then s
    else
      CancelVisual(s.(blankToken := None, dimAlpha := 1.0, panel := Idled(s.panel, 1.0, true)))
        .(stage := if b.canBlank then Blank else Dimmed)
  }

  function PowerFired(s: Idle, b: Backend): Idle {
    var spent := s.(powerToken := None);
    if !spent.sessionActive || spent.triggered || Inhibited(spent) then spent
    else spent.(triggered := true, sends := if b.powerWorker then spent.sends + [spent.armings] else spent.sends)
  }

  /** A timer callback that returns `TimeoutAction::Drop` removes its source; the fade timer stays
      unless its own callback removed it. */
  function Fire(s: Idle, token: Token, now: int, later: int, b: Backend, luck: Luck): Idle
    requires token in s.timers && now <= later
    requires s.fadeStarted.Some? ==> s.fadeStarted.value <= now
  {
    var dropped := s.(timers := s.timers - {token});
    match s.timers[token].kind
    case DimTimer => DimFired(dropped, now, later, luck)
    case BlankTimer => BlankFired(dropped, b)
    case PowerTimer => PowerFired(dropped, b)
    case FadeTimer => FadeTick(s, now)
  }

  class IdleState {
    const backend: Backend
    const brightness: Brightness
    var stage: Stage
    var dimAlpha: real
    var settings: Settings
    var fadeStarted: Option<int>
    var dimToken: Option<Token>
    var blankToken: Option<Token>
    var fadeToken: Option<Token>
    var powerToken: Option<Token>
    var triggered: bool
    var surfaces: seq<Surface>
    var dbusInhibited: bool
    var capturing: bool
    var recording: bool
    var sessionActive: bool
    var timers: map<Token, Timer>
    var nextToken: Token
    var armings: nat
    var sends: seq<nat>

    ghost function View(): Idle
      reads this, brightness
    {
      Idle(stage, dimAlpha, settings, fadeStarted, dimToken, blankToken, fadeToken, powerToken, triggered, surfaces,
           dbusInhibited, capturing, recording, sessionActive, timers, nextToken, brightness.View(), armings, sends)
    }

    constructor (backend: Backend, brightness: Brightness, settings: Settings)
      ensures this.backend == backend && this.brightness == brightness
      ensures View() == Startup(brightness.View(), settings)
    {
      this.backend, this.brightness, this.settings := backend, brightness, settings;
      stage, dimAlpha, fadeStarted := Active, 0.0, None;
      dimToken, blankToken, fadeToken, powerToken, triggered := None, None, None, None, false;
      surfaces, dbusInhibited, capturing, recording, sessionActive := [], false, false, false, true;
      timers, nextToken, armings, sends := map[], 0, 0, [];
    }

    method RemoveSources(tokens: seq<Option<Token>>)
      modifies this`timers
      ensures timers == old(timers) - OwnAll(tokens)
    {
      var i := 0;
      while i < |tokens|
        invariant 0 <= i <= |tokens|
        invariant timers == old(timers) - OwnAll(tokens[..i])
      {
        assert tokens[..i + 1][..i] == tokens[..i];
        if tokens[i].Some? {
          timers := timers - {tokens[i].value};
        }
        i := i + 1;
      }
      assert tokens[..i] == tokens;
    }

    method ForgetVisualTokens()
      modifies this`dimToken, this`blankToken, this`fadeToken, this`fadeStarted
      ensures View() == old(View()).(dimToken := None, blankToken := None, fadeToken := None, fadeStarted := None)
    {
      dimToken, blankToken, fadeToken, fadeStarted := None, None, None, None;
    }

    method ForgetTokens()
      modifies this`dimToken, this`blankToken, this`fadeToken, this`powerToken, this`fadeStarted
      ensures View() == old(View()).(dimToken := None, blankToken := None, fadeToken := None, powerToken := None,
                                     fadeStarted := None)
    {
      powerToken := None;
      ForgetVisualTokens();
    }

    method CancelAllTimers()
      modifies this`dimToken, this`blankToken, this`fadeToken, this`powerToken, this`fadeStarted, this`timers
      ensures View() == CancelAll(old(View()))
    {
      var tokens := [dimToken, blankToken, fadeToken, powerToken];
      OwnAllOfFour(dimToken, blankToken, fadeToken, powerToken);
      ForgetTokens();
      RemoveSources(tokens);
      assert timers == old(timers) - Own(old(dimToken)) - Own(old(blankToken)) - Own(old(fadeToken)) - Own(old(powerToken));
    }

    method CancelVisualTimers()
      modifies this`dimToken, this`blankToken, this`fadeToken, this`fadeStarted, this`timers
      ensures View() == CancelVisual(old(View()))
    {
      var tokens := [dimToken, blankToken, fadeToken];
      OwnAllOfThree(dimToken, blankToken, fadeToken);
      ForgetVisualTokens();
      RemoveSources(tokens);
      assert timers == old(timers) - Own(old(dimToken)) - Own(old(blankToken)) - Own(old(fadeToken));
    }

    /** `insert_source`: none when the event loop refuses the timer. */
    method InsertSource(kind: TimerKind, delay: nat, accepted: bool) returns (token: Option<Token>)
      modifies this`timers, this`nextToken
      ensures if accepted then View() == Insert(old(View()), kind, delay) && token == Some(old(nextToken))
              else View() == old(View()) && token.None?
    {
      if !accepted {
        return None;
      }
      token := Some(nextToken);
      timers := timers[nextToken := Timer(kind, delay)];
      nextToken := nextToken + 1;
    }

    method ArmActivityTimers(luck: Luck)
      modifies this
      ensures View() == Arm(old(View()), backend, luck)
    {
      BeginArming();
      if !sessionActive {
        return;
      }
      ArmFirst(luck);
      ArmLater(luck);
    }

    method ArmFirst(luck: Luck)
      requires dimToken.None?
      modifies this`dimToken, this`timers, this`nextToken
      ensures View() == ArmDim(old(View()), luck)
    {
      if settings.dim != 0 {
        dimToken := InsertSource(DimTimer, settings.dim, luck.dim);
      }
    }

    method BeginArming()
      modifies this`dimToken, this`blankToken, this`fadeToken, this`powerToken, this`fadeStarted, this`timers, this`triggered, this`armings
      ensures View() == Calmed(old(View()))
    {
      CancelAllTimers();
      triggered := false;
      armings := armings + 1;
    }

    method ArmLater(luck: Luck)
      requires blankToken.None? && powerToken.None?
      modifies this`blankToken, this`powerToken, this`timers, this`nextToken
      ensures View() == ArmPower(ArmBlank(old(View()), luck), backend, luck)
    {
      if settings.blank != 0 {
        blankToken := InsertSource(BlankTimer, settings.blank, luck.blank);
      }
      assert View() == ArmBlank(old(View()), luck);
      if settings.power != 0 && settings.action != Disabled && backend.powerWorker {
        powerToken := InsertSource(PowerTimer, settings.power, luck.power);
      }
    }

    method ResetStage()
      modifies this, brightness
      ensures View() == Reset(old(View()))
    {
      dimAlpha := 0.0;
      CancelAllTimers();
      stage := Active;
      brightness.Wake();
    }

    method OnActivity(luck: Luck)
      modifies this, brightness
      ensures View() == Activity(old(View()), backend, luck)
    {
      if !sessionActive {
        return;
      }
      if stage != Active {
        ResetStage();
      }
      if !IsInhibited() {
        ArmActivityTimers(luck);
      }
    }

    predicate IsInhibited()
      reads this, brightness
      ensures IsInhibited() <==> Inhibited(View())
    {
      dbusInhibited || surfaces != [] || capturing || recording
    }

    method RefreshIdleInhibit(alive: set<Surface>, luck: Luck)
      modifies this, brightness
      ensures View() == Refresh(old(View()), alive, backend, luck)
    {
      surfaces := Retain(surfaces, alive);
      if !IsInhibited() {
        if stage == Active {
          ArmActivityTimers(luck);
        }
        return;
      }
      if stage != Active {
        ResetStage();
      } else {
        CancelAllTimers();
      }
    }

    method ApplyIdleSettings(settings: Settings, luck: Luck)
      modifies this, brightness
      ensures View() == ApplySettings(old(View()), settings, backend, luck)
    {
      this.settings := settings;
      if stage == Active {
        if IsInhibited() {
          CancelAllTimers();
        } else {
          ArmActivityTimers(luck);
        }
      }
    }

    method OnSessionPaused()
      modifies this, brightness
      ensures View() == Paused(old(View()))
    {
      sessionActive := false;
      ResetStage();
    }

    method OnSessionActivated(luck: Luck)
      modifies this, brightness
      ensures View() == Activated(old(View()), backend, luck)
    {
      sessionActive := true;
      OnActivity(luck);
    }

    method OnPrepareForSleep(sleeping: bool, luck: Luck)
      modifies this, brightness
      ensures View() == PrepareForSleep(old(View()), sleeping, backend, luck)
    {
      if sleeping {
        CancelAllTimers();
        brightness.Wake();
      } else {
        OnActivity(luck);
      }
    }

    method OnFadeTick(now: int)
      requires fadeStarted.Some? ==> fadeStarted.value <= now
      modifies this, brightness
      ensures View() == FadeTick(old(View()), now)
    {
      if fadeStarted.None? {
        return;
      }
      var progress := Progress(settings.fade, fadeStarted.value, now);
      ShowFade(progress);
      if progress >= 1.0 {
        EndFade();
      }
    }

    method ShowFade(progress: real)
      modifies this`dimAlpha, brightness
      ensures View() == old(View()).(dimAlpha := progress, panel := Idled(old(brightness.View()), progress, false))
    {
      dimAlpha := progress;
      brightness.SetIdle(progress, false);
    }

    method EndFade()
      modifies this`fadeStarted, this`fadeToken, this`timers, this`stage
      ensures View() == old(View()).(fadeStarted := None, fadeToken := None,
                                     timers := old(timers) - Own(old(fadeToken)), stage := Dimmed)
    {
      fadeStarted := None;
      if fadeToken.Some? {
        timers := timers - {fadeToken.value};
        fadeToken := None;
      }
      stage := Dimmed;
    }

    method OnDimFired(now: int, later: int, luck: Luck)
      requires now <= later
      modifies this, brightness
      ensures View() == DimFired(old(View()), now, later, luck)
    {
      StartFade(now, luck);
      OnFadeTick(later);
    }

    method StartFade(now: int, luck: Luck)
      modifies this`dimToken, this`stage, this`fadeStarted, this`fadeToken, this`timers, this`nextToken
      ensures View() == FadeStarted(old(View()), now, luck)
    {
      MarkFading(now);
      fadeToken := InsertSource(FadeTimer, FirstTick(settings.fade), luck.fade);
    }

    method MarkFading(now: int)
      modifies this`dimToken, this`stage, this`fadeStarted
      ensures View() == old(View()).(dimToken := None, stage := Fading, fadeStarted := Some(now))
    {
      dimToken := None;
      stage := Fading;
      fadeStarted := Some(now);
    }

    method OnBlankFired()
      modifies this`dimToken, this`blankToken, this`fadeToken, this`fadeStarted, this`timers, this`dimAlpha, this`stage, brightness
      ensures View() == BlankFired(old(View()), backend)
    {
      if stage == Blank {
        return;
      }
      TurnPanelOff();
      CancelVisualTimers();
      stage := if backend.canBlank then Blank else Dimmed;
    }

    method TurnPanelOff()
      modifies this`blankToken, this`dimAlpha, brightness
      ensures View() == old(View()).(blankToken := None, dimAlpha := 1.0, panel := Idled(old(brightness.View()), 1.0, true))
    {
      blankToken := None;
      dimAlpha := 1.0;
      brightness.SetIdle(1.0, true);
    }

    method OnPowerFired()
      modifies this`powerToken, this`triggered, this`sends
      ensures View() == PowerFired(old(View()), backend)
    {
      powerToken := None;
      if !sessionActive || triggered || IsInhibited() {
        return;
      }
      triggered := true;
      if backend.powerWorker {
        sends := sends + [armings];
      }
    }
  }
}
