/** The lock protocol: the compositor loop, the PAM worker threads and logind, in any
    interleaving (src/embedder/lock/mod.rs, src/embedder/lock/pam.rs).

    A worker runs its PAM stack on its own thread, so its sends and its finish may fall between
    any two callbacks of the loop. The loop's channel keeps the order of sends. `born`,
    `lockedAt`, `typedIn` and `reader` are bookkeeping for the statements below: no transition
    decides on them. */
module LockProtocol {
  import opened Options
  import opened Authentication
  import opened LockState

  /** `Stillborn` is a worker whose thread could not be started: the responder exists, but its
      receiver was dropped with the closure (src/embedder/lock/pam.rs:162-176). */
  datatype Status = Running | Ending | Ended | Stillborn

  datatype Worker = Worker(
    source: AuthSource,
    generation: nat,
    born: nat,
    status: Status,
    connected: bool,
    waiting: bool,
    asked: nat,
    heard: nat,
    given: seq<Answer>,
    taken: nat)

  datatype Mail = Mail(sender: WorkerId, message: AuthMessage)

  datatype World = World(
    loop: Loop,
    workers: map<WorkerId, Worker>,
    mail: seq<Mail>,
    timers: set<Token>,
    clock: nat,
    lockedAt: nat,
    typedIn: map<nat, nat>,
    nextTicket: nat,
    reader: Option<WorkerId>)

  const BOOT := World(UNLOCKED, map[], [], {}, 0, 0, map[], 0, None)

  datatype Input =
    | LockSession
    | Logind(event: LogindEvent)
    | Typed(text: string)
    | Shown
    | ShellReady
    | TimerFired(token: Token)
    | Deliver

  /** What the host decides during one callback: whether new threads start, and whether there is an
      engine that passes notices on to the shell. */
  datatype Luck = Luck(host: Host, passwordThread: bool, fingerprintThread: bool, engine: bool)

  datatype Action =
    | Say(event: AuthEvent)
    | TakeAnswer
    | Cancelled
    | Finish(outcome: AuthOutcome)

  datatype Step =
    | Callback(input: Input, luck: Luck)
    | Work(worker: WorkerId, action: Action)

  predicate InputEnabled(w: World, input: Input) {
    match input
    case TimerFired(token) => token in w.timers
    case Deliver => w.mail != []
    case _ => true
  }

  /** A worker speaks only while it runs and is not blocked on a prompt; a prompt blocks it until
      an answer arrives or the channel is empty and its responder gone. */
  predicate ActionEnabled(w: Worker, action: Action) {
    && w.status == Running
    && match action
       case Say(event) => !w.waiting && !event.Finished?
       case TakeAnswer => w.waiting && w.taken < |w.given|
       case Cancelled => w.waiting && w.taken == |w.given| && !w.connected
       case Finish(outcome) => !w.waiting && (outcome.Unavailable? ==> w.source == Fingerprint)
  }

  predicate Enabled(w: World, step: Step) {
    match step
    case Callback(input, _) => InputEnabled(w, input)
    case Work(id, action) => id in w.workers && w.workers[id].taken <= |w.workers[id].given|
                             && ActionEnabled(w.workers[id], action)
  }

  function Handle(w: World, input: Input, host: Host): Loop
    requires InputEnabled(w, input)
  {
    var l := w.loop.(turn := QUIET);
    match input
    case LockSession => DoLock(l, true, host)
    case Logind(event) => DoLogind(l, event, host)
    case Typed(text) => DoRespond(l, Answer(w.nextTicket, text))
    case Shown => DoShown(l, host)
    case ShellReady => DoReplay(l)
    case TimerFired(_) => DoTimer(l)
    case Deliver => DoAuth(l, w.mail[0].message, host)
  }

  /** What a callback does to a worker that already exists. An answer sent to a worker whose
      receiver is gone is lost. */
  function Touched(id: WorkerId, x: Worker, turn: Turn, delivered: Option<Mail>): Worker {
    var mine := delivered.Some? && delivered.value.sender == id;
    x.(connected := x.connected && id !in turn.dropped,
       given := if turn.answered.Some? && turn.answered.value.worker == id && x.status == Running
                then x.given + [turn.answered.value.answer] else x.given,
       heard := if mine && delivered.value.message.event.Prompt? then x.heard + 1 else x.heard,
       status := if mine && delivered.value.message.event.Finished? then Ended else x.status)
  }

  function Newborn(source: AuthSource, generation: nat, clock: nat, started: bool): Worker {
    Worker(source, generation, clock, if started then Running else Stillborn, source == Password, false, 0, 0, [], 0)
  }

  function Settle(w: World, l: Loop, delivered: Option<Mail>, luck: Luck): map<WorkerId, Worker> {
    map id | id in w.workers.Keys + Own(l.turn.password) + Own(l.turn.fingerprint) ::
      if id in w.workers then Touched(id, w.workers[id], l.turn, delivered)
      else if l.turn.password == Some(id) then Newborn(Password, l.generation, w.clock, luck.passwordThread)
      else Newborn(Fingerprint, l.generation, w.clock, luck.fingerprintThread)
  }

  function Delivered(w: World, input: Input): Option<Mail>
    requires InputEnabled(w, input)
  {
    if input.Deliver? then Some(w.mail[0]) else None
  }

  /** The world once the loop has become `l` by handling `input`. */
  function Land(w: World, input: Input, l: Loop, luck: Luck): World
    requires InputEnabled(w, input)
  {
    World(
      l,
      Settle(w, l, Delivered(w, input), luck),
      if input.Deliver? then w.mail[1..] else w.mail,
      (w.timers - (if input.TimerFired? then {input.token} else {}) - l.turn.cancelled)
        + (if l.turn.armed.Some? then {l.turn.armed.value.token} else {}),
      w.clock + 1,
      if l.locked && !w.loop.locked then w.clock else w.lockedAt,
      if input.Typed? then w.typedIn[w.nextTicket := w.loop.generation] else w.typedIn,
      if input.Typed? then w.nextTicket + 1 else w.nextTicket,
      if l.turn.fingerprint.Some? then l.turn.fingerprint
      else if l.fingerprintRunning then w.reader else None)
  }

  function AfterCallback(w: World, input: Input, luck: Luck): World
    requires InputEnabled(w, input)
  {
    Land(w, input, Handle(w, input, luck.host), luck)
  }

  function AfterWork(w: World, id: WorkerId, action: Action): World
    requires Enabled(w, Work(id, action))
  {
    var x := w.workers[id];
    var next := match action
      case Say(event) => if event.Prompt? then x.(asked := x.asked + 1, waiting := true) else x
      case TakeAnswer => x.(taken := x.taken + 1, waiting := false)
      case Cancelled => x.(waiting := false)
      case Finish(_) => x.(status := Ending);
    var sent := match action
      case Say(event) => [Mail(id, AuthMessage(x.generation, x.source, event))]
      case Finish(outcome) => [Mail(id, AuthMessage(x.generation, x.source, Finished(outcome)))]
      case _ => [];
    w.(workers := w.workers[id := next], mail := w.mail + sent, clock := w.clock + 1)
  }

  function After(w: World, step: Step): World
    requires Enabled(w, step)
  {
    match step
    case Callback(input, luck) => AfterCallback(w, input, luck)
    case Work(id, action) => AfterWork(w, id, action)
  }

  datatype Run = Boot | Then(before: Run, step: Step)

  predicate Valid(run: Run)
    decreases run, 0
  {
    run.Then? ==> Valid(run.before) && Enabled(Final(run.before), run.step)
  }

  function Final(run: Run): World
    requires Valid(run)
    decreases run, 1
  {
    if run.Boot? then BOOT else After(Final(run.before), run.step)
  }

  // ----- the invariant

  /** The prompts of worker `id` that are still in the channel. */
  function Prompts(mail: seq<Mail>, id: WorkerId): nat {
    if mail == [] then 0
    else (if mail[0].sender == id && mail[0].message.event.Prompt? then 1 else 0) + Prompts(mail[1..], id)
  }

  lemma {:induction false} PromptsSnoc(mail: seq<Mail>, last: Mail, id: WorkerId)
    ensures Prompts(mail + [last], id)
         == Prompts(mail, id) + (if last.sender == id && last.message.event.Prompt? then 1 else 0)
  {
    if mail == [] {
      assert [last][1..] == [];
      assert mail + [last] == [last];
    } else {
      PromptsSnoc(mail[1..], last, id);
      assert (mail + [last])[1..] == mail[1..] + [last];
    }
  }

  /** Everything in the channel is from a worker that has not been heard to the end, tagged as
      that worker was spawned, and nothing follows a worker's result. */
  ghost predicate MailOk(workers: map<WorkerId, Worker>, mail: seq<Mail>) {
    && (forall i | 0 <= i < |mail| ::
          && mail[i].sender in workers
          && var x := workers[mail[i].sender];
             && mail[i].message.generation == x.generation
             && mail[i].message.source == x.source
             && (x.status == Running || x.status == Ending)
             && (mail[i].message.event.Finished? ==> x.status == Ending))
    && (forall i, j | 0 <= i < j < |mail| ::
          mail[i].message.event.Finished? ==> mail[j].sender != mail[i].sender)
  }

  /** The counts of one worker: answers taken, given, prompts heard by the loop, prompts asked. */
  ghost predicate Counted(x: Worker, inChannel: nat) {
    && x.taken <= |x.given| <= x.heard <= x.asked
    && inChannel == x.asked - x.heard
    && (x.waiting ==> x.status == Running)
    && (x.status == Stillborn ==> x.asked == 0)
    && (x.source == Fingerprint ==> x.given == [])
  }

  ghost predicate CountsOk(w: World) {
    forall id | id in w.workers :: Counted(w.workers[id], Prompts(w.mail, id))
  }

  ghost predicate AgesOk(w: World) {
    && w.lockedAt <= w.clock
    && (forall id | id in w.workers ::
          && id < w.loop.nextWorker
          && w.workers[id].generation <= w.loop.generation
          && (w.loop.locked && w.workers[id].generation == w.loop.generation ==> w.workers[id].born >= w.lockedAt))
  }

  predicate Current(w: World, id: WorkerId, source: AuthSource) {
    && id in w.workers
    && w.workers[id].generation == w.loop.generation
    && w.workers[id].source == source
    && w.workers[id].status != Ended
  }

  /** The loop's idea of who is authenticating is exact. */
  ghost predicate CurrentOk(w: World) {
    && (forall id: WorkerId :: Current(w, id, Password) <==> w.loop.password == Some(id))
    && (forall id: WorkerId :: Current(w, id, Fingerprint) <==> w.reader == Some(id))
    && (w.loop.fingerprintRunning <==> w.reader.Some?)
  }

  /** The current password worker is blocked exactly while a prompt of it is unanswered, and the
      loop shows that prompt exactly from when it hears it to when it answers it. */
  ghost predicate PairedOk(w: World) {
    && (w.loop.pendingPrompt.Some? ==> w.loop.password.Some?)
    && (w.loop.password.Some? ==>
          && w.loop.password.value in w.workers
          && var x := w.workers[w.loop.password.value];
             && x.connected
             && x.asked == x.taken + (if x.waiting then 1 else 0)
             && x.heard == |x.given| + (if w.loop.pendingPrompt.Some? then 1 else 0))
  }

  ghost predicate UnlockedOk(l: Loop) {
    !l.locked ==>
      && l.password.None? && l.pendingPrompt.None? && l.queuedResponse.None?
      && !l.fingerprintRunning && l.fingerprintMessage.None?
      && !l.sleepPending && l.sleepReleaseToken.None?
  }

  ghost predicate BudgetOk(l: Loop) {
    && l.fingerprintFailures <= FINGERPRINT_ATTEMPTS
    && (l.fingerprintRunning ==> l.fingerprintFailures < FINGERPRINT_ATTEMPTS && l.fingerprintAvailable != Some(false))
  }

  ghost predicate SleepOk(w: World) {
    && w.timers == Own(w.loop.sleepReleaseToken)
    && (w.loop.sleepReleaseToken.Some? ==> w.loop.locked && w.loop.sleepReleaseToken.value < w.loop.nextToken)
    && (w.loop.sleepPending ==> w.loop.sleepReleaseToken.Some?)
  }

  predicate TicketOf(w: World, a: Answer, generation: nat) {
    a.ticket < w.nextTicket && a.ticket in w.typedIn && w.typedIn[a.ticket] == generation
  }

  /** No two answers given to workers were one typed answer. */
  ghost predicate PlacesDistinct(workers: map<WorkerId, Worker>) {
    forall id, i, jd, j |
      && id in workers && 0 <= i < |workers[id].given|
      && jd in workers && 0 <= j < |workers[jd].given|
      && workers[id].given[i].ticket == workers[jd].given[j].ticket :: id == jd && i == j
  }

  /** What a worker has been given once an answer, if any, was handed over. */
  function Given(workers: map<WorkerId, Worker>, id: WorkerId, handover: Option<Handover>): seq<Answer> {
    if id !in workers then []
    else if handover.Some? && handover.value.worker == id then workers[id].given + [handover.value.answer]
    else workers[id].given
  }

  lemma GivingKeepsPlaces(before: map<WorkerId, Worker>, after: map<WorkerId, Worker>, handover: Option<Handover>)
    requires PlacesDistinct(before)
    requires forall id | id in after :: after[id].given == Given(before, id, handover)
    requires handover.Some? ==> forall id, i | id in before && 0 <= i < |before[id].given| ::
      before[id].given[i].ticket != handover.value.answer.ticket
    ensures PlacesDistinct(after)
  {
  }

  /** Every typed answer is in at most one place, and only where it was typed for. */
  ghost predicate AnswersOk(w: World) {
    && (forall id, i | id in w.workers && 0 <= i < |w.workers[id].given| ::
          TicketOf(w, w.workers[id].given[i], w.workers[id].generation))
    && PlacesDistinct(w.workers)
    && (w.loop.queuedResponse.Some? ==>
          && TicketOf(w, w.loop.queuedResponse.value, w.loop.generation)
          && forall id, i | id in w.workers && 0 <= i < |w.workers[id].given| ::
               w.workers[id].given[i].ticket != w.loop.queuedResponse.value.ticket)
  }

  ghost predicate Inv(w: World) {
    && MailOk(w.workers, w.mail)
    && CountsOk(w)
    && AgesOk(w)
    && CurrentOk(w)
    && PairedOk(w)
    && UnlockedOk(w.loop)
    && BudgetOk(w.loop)
    && SleepOk(w)
    && AnswersOk(w)
  }

  // ----- worker steps keep it

  lemma WorkKeepsMail(w: World, id: WorkerId, action: Action)
    requires Inv(w) && Enabled(w, Work(id, action))
    ensures var after := AfterWork(w, id, action); MailOk(after.workers, after.mail)
  {
    assert Counted(w.workers[id], Prompts(w.mail, id));
  }

  lemma WorkKeepsCounts(w: World, id: WorkerId, action: Action)
    requires Inv(w) && Enabled(w, Work(id, action))
    ensures CountsOk(AfterWork(w, id, action))
  {
    var after := AfterWork(w, id, action);
    forall jd | jd in after.workers ensures Counted(after.workers[jd], Prompts(after.mail, jd)) {
      assert Counted(w.workers[jd], Prompts(w.mail, jd));
      if |after.mail| > |w.mail| {
        PromptsSnoc(w.mail, after.mail[|w.mail|], jd);
        assert after.mail == w.mail + [after.mail[|w.mail|]];
      } else {
        assert after.mail == w.mail;
      }
    }
  }

  lemma WorkKeepsCurrent(w: World, id: WorkerId, action: Action)
    requires Inv(w) && Enabled(w, Work(id, action))
    ensures CurrentOk(AfterWork(w, id, action)) && AgesOk(AfterWork(w, id, action))
  {
    var after := AfterWork(w, id, action);
    forall jd: WorkerId, source: AuthSource ensures Current(after, jd, source) <==> Current(w, jd, source) {
    }
    forall jd: WorkerId ensures Current(after, jd, Password) <==> after.loop.password == Some(jd) {
    }
    forall jd: WorkerId ensures Current(after, jd, Fingerprint) <==> after.reader == Some(jd) {
    }
  }

  lemma WorkKeepsAnswers(w: World, id: WorkerId, action: Action)
    requires Inv(w) && Enabled(w, Work(id, action))
    ensures AnswersOk(AfterWork(w, id, action))
  {
    var after := AfterWork(w, id, action);
    WorkGivesNothing(w, id, action);
    GivingKeepsPlaces(w.workers, after.workers, None);
  }

  lemma WorkGivesNothing(w: World, id: WorkerId, action: Action)
    requires Enabled(w, Work(id, action))
    ensures var after := AfterWork(w, id, action);
      && after.workers.Keys == w.workers.Keys
      && after.loop == w.loop && after.typedIn == w.typedIn && after.nextTicket == w.nextTicket
      && forall jd | jd in w.workers ::
           after.workers[jd].given == w.workers[jd].given && after.workers[jd].generation == w.workers[jd].generation
  {
  }

  lemma WorkKeepsPaired(w: World, id: WorkerId, action: Action)
    requires Inv(w) && Enabled(w, Work(id, action))
    ensures PairedOk(AfterWork(w, id, action))
  {
    assert Counted(w.workers[id], Prompts(w.mail, id));
  }

  lemma WorkKeepsInv(w: World, id: WorkerId, action: Action)
    requires Inv(w) && Enabled(w, Work(id, action))
    ensures Inv(AfterWork(w, id, action))
  {
    WorkKeepsMail(w, id, action);
    WorkKeepsCounts(w, id, action);
    WorkKeepsCurrent(w, id, action);
    WorkKeepsAnswers(w, id, action);
    WorkKeepsPaired(w, id, action);
  }

  // ----- what a callback may do, without saying which callback it was

  predicate Accepted(w: World, input: Input)
    requires InputEnabled(w, input)
  {
    input.Deliver? && w.loop.locked && w.mail[0].message.generation == w.loop.generation
  }

  predicate Ends(w: World, input: Input, source: AuthSource)
    requires InputEnabled(w, input)
  {
    Accepted(w, input) && w.mail[0].message.source == source && w.mail[0].message.event.Finished?
  }

  predicate Hears(w: World, input: Input)
    requires InputEnabled(w, input)
  {
    Accepted(w, input) && w.mail[0].message.source == Password && w.mail[0].message.event.Prompt?
  }

  /** The facts about an input that decide which workers a callback may touch. */
  datatype Cue = Cue(typed: Option<Answer>, hears: bool, endsPassword: bool, endsFingerprint: bool, fired: bool)

  const NO_CUE := Cue(None, false, false, false, false)

  function CueOf(w: World, input: Input): Cue
    requires InputEnabled(w, input)
  {
    Cue(if input.Typed? then Some(Answer(w.nextTicket, input.text)) else None,
        Hears(w, input), Ends(w, input, Password), Ends(w, input, Fingerprint), input.TimerFired?)
  }

  /** What the invariant says of the loop alone when an input arrives. */
  ghost predicate LoopReady(l: Loop, cue: Cue) {
    && l.turn == QUIET
    && UnlockedOk(l) && BudgetOk(l)
    && (l.pendingPrompt.Some? ==> l.password.Some?)
    && (l.sleepReleaseToken.Some? ==> l.locked && l.sleepReleaseToken.value < l.nextToken)
    && (l.sleepPending ==> l.sleepReleaseToken.Some?)
    && (cue.hears ==> l.password.Some? && l.pendingPrompt.None?)
    && (cue.endsPassword ==> l.password.Some?)
    && (cue.endsFingerprint ==> l.fingerprintRunning)
    && (cue.fired ==> l.sleepReleaseToken.Some?)
  }

  /** Generations only grow, and they change exactly when `locked` does. */
  predicate GenerationContract(l0: Loop, l: Loop) {
    if l.locked == l0.locked then l.generation == l0.generation else l.generation == l0.generation + 1
  }

  predicate SpawnContract(l0: Loop, l: Loop) {
    && l0.nextWorker <= l.nextWorker
    && (l.turn.password.Some? ==> l.locked && l0.nextWorker <= l.turn.password.value < l.nextWorker)
    && (l.turn.fingerprint.Some? ==> l.locked && l0.nextWorker <= l.turn.fingerprint.value < l.nextWorker)
    && (l.turn.password.Some? && l.turn.fingerprint.Some? ==> l.turn.password != l.turn.fingerprint)
  }

  /** A transaction starts only where none is under way. */
  predicate PasswordContract(l0: Loop, l: Loop, cue: Cue) {
    if l.generation != l0.generation then l.password == l.turn.password
    else
      && (l.turn.password.Some? ==> l0.password.None? || cue.endsPassword)
      && l.password == (if l.turn.password.Some? then l.turn.password
                        else if cue.endsPassword then None else l0.password)
  }

  predicate FingerprintContract(l0: Loop, l: Loop, cue: Cue) {
    if l.generation != l0.generation then l.fingerprintRunning <==> l.turn.fingerprint.Some?
    else
      && (l.turn.fingerprint.Some? ==> !l0.fingerprintRunning || cue.endsFingerprint)
      && (l.fingerprintRunning <==> l.turn.fingerprint.Some? || (l0.fingerprintRunning && !cue.endsFingerprint))
  }

  /** Prompts are shown or answered at once, answers go to the password worker, and a worker that
      stays keeps its responder. */
  predicate PromptContract(l0: Loop, l: Loop, cue: Cue) {
    && (l.turn.password.Some? || l.password.None? ==> l.pendingPrompt.None?)
    && (l.turn.answered.Some? ==>
          && l.turn.password.None? && l.generation == l0.generation && l.locked
          && l.password == l0.password == Some(l.turn.answered.value.worker)
          && ((cue.typed.Some? && l0.pendingPrompt.Some?) || cue.hears))
    && (l.generation == l0.generation && l.turn.password.None? && l.password.Some? ==>
          && l.turn.dropped == {}
          && if cue.typed.Some? && l0.pendingPrompt.Some? then l.turn.answered.Some? && l.pendingPrompt.None?
             else if cue.hears then l.pendingPrompt.Some? <==> l.turn.answered.None?
             else l.turn.answered.None? && l.pendingPrompt == l0.pendingPrompt)
  }

  /** Where an answer goes: it is typed, kept for the next prompt, or handed over. */
  predicate AnswerContract(l0: Loop, l: Loop, cue: Cue) {
    && (l.queuedResponse.Some? ==>
          && l.generation == l0.generation
          && (l.queuedResponse == l0.queuedResponse || (l.queuedResponse == cue.typed && l.turn.answered.None?)))
    && (l.turn.answered.Some? ==>
          if cue.typed.Some? then cue.typed == Some(l.turn.answered.value.answer)
          else l0.queuedResponse == Some(l.turn.answered.value.answer) && l.queuedResponse.None?)
  }

  predicate SleepContract(l0: Loop, l: Loop, cue: Cue) {
    if l.turn.armed.Some? then
      && !cue.fired && l.turn.cancelled == Own(l0.sleepReleaseToken)
      && l.sleepReleaseToken == Some(l.turn.armed.value.token)
      && l.turn.armed.value.token == l0.nextToken < l.nextToken
    else
      && l.nextToken == l0.nextToken
      && (l.turn.cancelled == {} || l.turn.cancelled == Own(l0.sleepReleaseToken))
      && l.sleepReleaseToken == (if cue.fired || l.turn.cancelled != {} then None else l0.sleepReleaseToken)
  }

  ghost predicate Contract(l0: Loop, l: Loop, cue: Cue) {
    && GenerationContract(l0, l) && SpawnContract(l0, l)
    && PasswordContract(l0, l, cue) && FingerprintContract(l0, l, cue)
    && PromptContract(l0, l, cue) && AnswerContract(l0, l, cue) && SleepContract(l0, l, cue)
    && UnlockedOk(l) && BudgetOk(l)
    && (l.sleepReleaseToken.Some? ==> l.locked)
    && (l.sleepPending ==> l.sleepReleaseToken.Some?)
  }

  lemma LockMeets(l: Loop, authenticate: bool, host: Host)
    requires LoopReady(l, NO_CUE)
    ensures Contract(l, DoLock(l, authenticate, host), NO_CUE)
  {
  }

  lemma PrepareForSleepMeets(l: Loop, host: Host)
    requires LoopReady(l, NO_CUE)
    ensures Contract(l, DoLogind(l, PrepareForSleep, host), NO_CUE)
  {
    if !(l.locked && l.shown) {
      var locked := DoLock(l.(sleepPending := true), false, host);
      assert locked.turn.cancelled == {} && locked.turn.armed.None?;
      assert locked.sleepReleaseToken == l.sleepReleaseToken && locked.nextToken == l.nextToken;
    }
  }

  lemma ResumeMeets(l: Loop, host: Host)
    requires LoopReady(l, NO_CUE)
    ensures Contract(l, DoResume(l, host), NO_CUE)
  {
  }

  /** Unlocking, by logind or by a successful transaction. */
  lemma UnlockMeets(l: Loop, cue: Cue)
    requires LoopReady(l, cue) && cue.typed.None? && !cue.hears && !cue.fired
    ensures Contract(l, DoUnlock(l), cue)
  {
  }

  lemma PasswordSuccessMeets(l: Loop, host: Host)
    requires LoopReady(l, NO_CUE.(endsPassword := true)) && l.locked
    ensures Contract(l, PasswordFinished(l, Success, host), NO_CUE.(endsPassword := true))
  {
  }

  lemma PasswordFailureMeets(l: Loop, outcome: AuthOutcome, host: Host)
    requires LoopReady(l, NO_CUE.(endsPassword := true)) && l.locked && !outcome.Success?
    ensures Contract(l, PasswordFinished(l, outcome, host), NO_CUE.(endsPassword := true))
  {
  }

  lemma FingerprintSuccessMeets(l: Loop, host: Host)
    requires LoopReady(l, NO_CUE.(endsFingerprint := true)) && l.locked
    ensures Contract(l, FingerprintFinished(l, Success, host), NO_CUE.(endsFingerprint := true))
  {
  }

  lemma FingerprintGoneMeets(l: Loop, host: Host)
    requires LoopReady(l, NO_CUE.(endsFingerprint := true)) && l.locked
    ensures Contract(l, FingerprintFinished(l, Unavailable, host), NO_CUE.(endsFingerprint := true))
  {
  }

  lemma FingerprintFailureMeets(l: Loop, outcome: AuthOutcome, host: Host)
    requires LoopReady(l, NO_CUE.(endsFingerprint := true)) && l.locked && (outcome.Rejected? || outcome.Failed?)
    ensures Contract(l, FingerprintFinished(l, outcome, host), NO_CUE.(endsFingerprint := true))
  {
  }

  lemma FingerprintFinishedMeets(l: Loop, outcome: AuthOutcome, host: Host)
    requires LoopReady(l, NO_CUE.(endsFingerprint := true)) && l.locked
    ensures Contract(l, FingerprintFinished(l, outcome, host), NO_CUE.(endsFingerprint := true))
  {
    match outcome {
      case Success => FingerprintSuccessMeets(l, host);
      case Unavailable => FingerprintGoneMeets(l, host);
      case _ => FingerprintFailureMeets(l, outcome, host);
    }
  }

  lemma TypedMeets(l: Loop, answer: Answer)
    requires LoopReady(l, NO_CUE.(typed := Some(answer)))
    ensures Contract(l, DoRespond(l, answer), NO_CUE.(typed := Some(answer)))
  {
  }

  lemma ShownMeets(l: Loop, host: Host)
    requires LoopReady(l, NO_CUE)
    ensures Contract(l, DoShown(l, host), NO_CUE)
  {
  }

  lemma TimerMeets(l: Loop)
    requires LoopReady(l, NO_CUE.(fired := true))
    ensures Contract(l, DoTimer(l), NO_CUE.(fired := true))
  {
  }

  /** Telling the shell something changes nothing else. */
  lemma TalkMeets(l0: Loop, l: Loop)
    requires LoopReady(l0, NO_CUE)
    requires l == l0.(shown := l.shown, fingerprintMessage := l.fingerprintMessage, turn := QUIET.(told := l.turn.told))
    requires !l0.locked ==> l.fingerprintMessage == l0.fingerprintMessage
    ensures Contract(l0, l, NO_CUE)
  {
  }

  lemma ReplayMeets(l: Loop)
    requires LoopReady(l, NO_CUE)
    ensures Contract(l, DoReplay(l), NO_CUE)
  {
    ReplayOnlyTells(l);
    TalkMeets(l, DoReplay(l));
  }

  lemma ReplayOnlyTells(l: Loop)
    requires l.turn == QUIET
    ensures DoReplay(l) == l.(shown := DoReplay(l).shown, turn := QUIET.(told := DoReplay(l).turn.told))
  {
  }

  lemma PromptShownMeets(l: Loop, message: string, echo: bool)
    requires LoopReady(l, NO_CUE.(hears := true)) && l.locked && l.queuedResponse.None?
    ensures Contract(l, DoPrompt(l, message, echo), NO_CUE.(hears := true))
  {
  }

  lemma PromptAnsweredMeets(l: Loop, message: string, echo: bool)
    requires LoopReady(l, NO_CUE.(hears := true)) && l.locked && l.queuedResponse.Some?
    ensures Contract(l, DoPrompt(l, message, echo), NO_CUE.(hears := true))
  {
  }

  lemma PromptMeets(l: Loop, message: string, echo: bool)
    requires LoopReady(l, NO_CUE.(hears := true)) && l.locked
    ensures Contract(l, DoPrompt(l, message, echo), NO_CUE.(hears := true))
  {
    if l.queuedResponse.None? {
      PromptShownMeets(l, message, echo);
    } else {
      PromptAnsweredMeets(l, message, echo);
    }
  }

  function CueOfMessage(l: Loop, m: AuthMessage): Cue {
    var here := l.locked && m.generation == l.generation;
    Cue(None, here && m.source == Password && m.event.Prompt?, here && m.source == Password && m.event.Finished?,
        here && m.source == Fingerprint && m.event.Finished?, false)
  }

  lemma AuthMeets(l: Loop, m: AuthMessage, host: Host)
    requires LoopReady(l, CueOfMessage(l, m))
    ensures Contract(l, DoAuth(l, m, host), CueOfMessage(l, m))
  {
    if !l.locked || m.generation != l.generation {
      TalkMeets(l, l);
    } else if m.event.Finished? {
      var outcome := m.event.outcome;
      if m.source == Fingerprint {
        FingerprintFinishedMeets(l, outcome, host);
      } else if outcome.Success? {
        PasswordSuccessMeets(l, host);
      } else {
        PasswordFailureMeets(l, outcome, host);
      }
    } else if m.source == Password && m.event.Prompt? {
      PromptMeets(l, m.event.message, m.event.echo);
    } else {
      NoteMeets(l, m, host);
    }
  }

  /** What a stack only has to say, and a prompt of the fingerprint stack. */
  lemma NoteMeets(l: Loop, m: AuthMessage, host: Host)
    requires LoopReady(l, NO_CUE) && l.locked && m.generation == l.generation
    requires !m.event.Finished? && !(m.source == Password && m.event.Prompt?)
    ensures Contract(l, DoAuth(l, m, host), NO_CUE)
  {
    TalkMeets(l, DoAuth(l, m, host));
  }

  // ----- the invariant gives every callback what it needs

  /** A message the loop accepts comes from the worker the loop believes in. */
  lemma AcceptedIsCurrent(w: World, input: Input)
    requires Inv(w) && InputEnabled(w, input) && Accepted(w, input)
    ensures Current(w, w.mail[0].sender, w.mail[0].message.source)
  {
  }

  lemma ReadyForInput(w: World, input: Input)
    requires Inv(w) && InputEnabled(w, input)
    ensures LoopReady(w.loop.(turn := QUIET), CueOf(w, input))
  {
    if Accepted(w, input) {
      AcceptedIsCurrent(w, input);
      var id := w.mail[0].sender;
      assert Current(w, id, Password) <==> w.loop.password == Some(id);
      assert Current(w, id, Fingerprint) <==> w.reader == Some(id);
      assert Counted(w.workers[id], Prompts(w.mail, id));
    }
  }

  lemma {:induction false} HandleMeets(w: World, input: Input, host: Host)
    requires Inv(w) && InputEnabled(w, input)
    ensures Contract(w.loop.(turn := QUIET), Handle(w, input, host), CueOf(w, input))
  {
    ReadyForInput(w, input);
    var l := w.loop.(turn := QUIET);
    match input {
      case LockSession => LockMeets(l, true, host);
      case Logind(event) =>
        match event {
          case Lock => LockMeets(l, true, host);
          case Unlock => UnlockMeets(l, NO_CUE);
          case PrepareForSleep => PrepareForSleepMeets(l, host);
          case Resumed => ResumeMeets(l, host);
        }
      case Typed(text) => TypedMeets(l, Answer(w.nextTicket, text));
      case Shown => ShownMeets(l, host);
      case ShellReady => ReplayMeets(l);
      case TimerFired(_) => TimerMeets(l);
      case Deliver =>
        assert CueOf(w, input) == CueOfMessage(l, w.mail[0].message);
        AuthMeets(l, w.mail[0].message, host);
    }
  }

  // ----- callbacks keep the invariant

  lemma LandKeepsMail(w: World, input: Input, l: Loop, luck: Luck)
    requires Inv(w) && InputEnabled(w, input)
    requires Contract(w.loop.(turn := QUIET), l, CueOf(w, input))
    ensures var after := Land(w, input, l, luck); MailOk(after.workers, after.mail)
  {
  }

  lemma LandKeepsAges(w: World, input: Input, l: Loop, luck: Luck)
    requires Inv(w) && InputEnabled(w, input)
    requires Contract(w.loop.(turn := QUIET), l, CueOf(w, input))
    ensures AgesOk(Land(w, input, l, luck))
  {
  }

  predicate EndedBy(w: World, input: Input, id: WorkerId)
    requires InputEnabled(w, input)
  {
    input.Deliver? && w.mail[0].sender == id && w.mail[0].message.event.Finished?
  }

  /** Who is current after a callback, worker by worker. */
  lemma CurrentAfter(w: World, input: Input, l: Loop, luck: Luck, id: WorkerId, source: AuthSource)
    requires AgesOk(w) && InputEnabled(w, input)
    requires GenerationContract(w.loop.(turn := QUIET), l) && SpawnContract(w.loop.(turn := QUIET), l)
    ensures var spawned := if source == Password then l.turn.password else l.turn.fingerprint;
      Current(Land(w, input, l, luck), id, source) <==>
        || spawned == Some(id)
        || (l.generation == w.loop.generation && Current(w, id, source) && !EndedBy(w, input, id))
  {
  }

  /** Only the accepted result of a worker ends it while it is current. */
  lemma CurrentEndsExactly(w: World, input: Input, id: WorkerId, source: AuthSource)
    requires Inv(w) && InputEnabled(w, input) && Current(w, id, source)
    ensures EndedBy(w, input, id) <==> Ends(w, input, source)
  {
    assert Current(w, id, Password) <==> w.loop.password == Some(id);
    assert Current(w, id, Fingerprint) <==> w.reader == Some(id);
    if Ends(w, input, source) {
      AcceptedIsCurrent(w, input);
      var sender := w.mail[0].sender;
      assert Current(w, sender, Password) <==> w.loop.password == Some(sender);
      assert Current(w, sender, Fingerprint) <==> w.reader == Some(sender);
    }
  }

  lemma LandKeepsCurrent(w: World, input: Input, l: Loop, luck: Luck)
    requires Inv(w) && InputEnabled(w, input)
    requires Contract(w.loop.(turn := QUIET), l, CueOf(w, input))
    ensures CurrentOk(Land(w, input, l, luck))
  {
    var after := Land(w, input, l, luck);
    forall id: WorkerId ensures Current(after, id, Password) <==> l.password == Some(id) {
      CurrentAfter(w, input, l, luck, id, Password);
      if Current(w, id, Password) {
        CurrentEndsExactly(w, input, id, Password);
      }
      assert Current(w, id, Password) <==> w.loop.password == Some(id);
    }
    forall id: WorkerId ensures Current(after, id, Fingerprint) <==> after.reader == Some(id) {
      CurrentAfter(w, input, l, luck, id, Fingerprint);
      if Current(w, id, Fingerprint) {
        CurrentEndsExactly(w, input, id, Fingerprint);
      }
      assert Current(w, id, Fingerprint) <==> w.reader == Some(id);
    }
  }

  /** An answer is handed only to a worker that is blocked on its prompt and has an open channel. */
  lemma AnsweredIsWaiting(w: World, input: Input, l: Loop)
    requires Inv(w) && InputEnabled(w, input)
    requires Contract(w.loop.(turn := QUIET), l, CueOf(w, input))
    requires l.turn.answered.Some?
    ensures w.loop.password == Some(l.turn.answered.value.worker)
    ensures l.turn.answered.value.worker in w.workers
    ensures var x := w.workers[l.turn.answered.value.worker];
      && x.status == Running && x.waiting && x.connected && x.taken == |x.given|
      && x.asked == |x.given| + 1
      && (if Hears(w, input) then x.heard == |x.given| && w.mail[0].sender == l.turn.answered.value.worker
          else x.heard == |x.given| + 1)
  {
    var id := l.turn.answered.value.worker;
    assert Counted(w.workers[id], Prompts(w.mail, id));
    if Hears(w, input) {
      AcceptedIsCurrent(w, input);
      var sender := w.mail[0].sender;
      assert Current(w, sender, Password) <==> w.loop.password == Some(sender);
    }
  }

  lemma LandKeepsCounts(w: World, input: Input, l: Loop, luck: Luck)
    requires Inv(w) && InputEnabled(w, input)
    requires Contract(w.loop.(turn := QUIET), l, CueOf(w, input))
    ensures CountsOk(Land(w, input, l, luck))
  {
    var after := Land(w, input, l, luck);
    forall id | id in after.workers ensures Counted(after.workers[id], Prompts(after.mail, id)) {
      if id in w.workers {
        CountAfter(w, input, l, luck, id);
      } else {
        NewbornCount(w, input, l, luck, id);
      }
    }
  }

  lemma NewbornCount(w: World, input: Input, l: Loop, luck: Luck, id: WorkerId)
    requires MailOk(w.workers, w.mail) && InputEnabled(w, input)
    requires id !in w.workers && id in Land(w, input, l, luck).workers
    ensures Counted(Land(w, input, l, luck).workers[id], Prompts(Land(w, input, l, luck).mail, id))
  {
    NoMailFrom(w.workers, Land(w, input, l, luck).mail, id);
  }

  lemma CountAfter(w: World, input: Input, l: Loop, luck: Luck, id: WorkerId)
    requires Inv(w) && InputEnabled(w, input) && id in w.workers
    requires Contract(w.loop.(turn := QUIET), l, CueOf(w, input))
    ensures Counted(Land(w, input, l, luck).workers[id], Prompts(Land(w, input, l, luck).mail, id))
  {
    var after := Land(w, input, l, luck);
    assert after.workers[id] == Touched(id, w.workers[id], l.turn, Delivered(w, input));
    assert Counted(w.workers[id], Prompts(w.mail, id));
    if l.turn.answered.Some? && l.turn.answered.value.worker == id {
      AnsweredIsWaiting(w, input, l);
      assert Current(w, id, Password) <==> w.loop.password == Some(id);
    }
  }

  lemma {:induction false} NoMailFrom(workers: map<WorkerId, Worker>, mail: seq<Mail>, id: WorkerId)
    requires forall i | 0 <= i < |mail| :: mail[i].sender in workers
    requires id !in workers
    ensures Prompts(mail, id) == 0
  {
    if mail != [] {
      NoMailFrom(workers, mail[1..], id);
    }
  }

  /** The loop hears a prompt of the current password worker exactly when it is delivered. */
  lemma HearsExactly(w: World, input: Input, id: WorkerId)
    requires Inv(w) && InputEnabled(w, input) && Current(w, id, Password)
    ensures input.Deliver? && w.mail[0].sender == id && w.mail[0].message.event.Prompt? <==> Hears(w, input)
  {
    assert Current(w, id, Password) <==> w.loop.password == Some(id);
    if Hears(w, input) {
      AcceptedIsCurrent(w, input);
      assert Current(w, w.mail[0].sender, Password) <==> w.loop.password == Some(w.mail[0].sender);
    }
  }

  lemma PairedStays(w: World, input: Input, l: Loop, luck: Luck, id: WorkerId)
    requires Inv(w) && InputEnabled(w, input)
    requires PromptContract(w.loop.(turn := QUIET), l, CueOf(w, input))
    requires w.loop.password == l.password == Some(id) && l.turn.password.None? && l.generation == w.loop.generation
    requires Current(w, id, Password) && Counted(w.workers[id], Prompts(w.mail, id))
    requires !Ends(w, input, Password)
    requires l.turn.answered.Some? ==> l.turn.answered.value.worker == id && w.workers[id].status == Running
                                       && w.workers[id].waiting
    ensures id in Land(w, input, l, luck).workers
    ensures var y := Land(w, input, l, luck).workers[id];
      && y.connected
      && y.asked == y.taken + (if y.waiting then 1 else 0)
      && y.heard == |y.given| + (if l.pendingPrompt.Some? then 1 else 0)
  {
    HearsExactly(w, input, id);
    CurrentEndsExactly(w, input, id, Password);
    var x := w.workers[id];
    var y := Touched(id, x, l.turn, Delivered(w, input));
    assert Land(w, input, l, luck).workers[id] == y;
    assert y.connected && y.asked == x.asked && y.taken == x.taken && y.waiting == x.waiting;
    assert y.heard == x.heard + (if Hears(w, input) then 1 else 0);
    assert |y.given| == |x.given| + (if l.turn.answered.Some? then 1 else 0);
  }

  lemma LandKeepsPaired(w: World, input: Input, l: Loop, luck: Luck)
    requires Inv(w) && InputEnabled(w, input)
    requires Contract(w.loop.(turn := QUIET), l, CueOf(w, input))
    ensures PairedOk(Land(w, input, l, luck))
  {
    if l.password.Some? && l.turn.password.None? {
      var id := l.password.value;
      assert Current(w, id, Password) <==> w.loop.password == Some(id);
      assert Counted(w.workers[id], Prompts(w.mail, id));
      if l.turn.answered.Some? {
        AnsweredIsWaiting(w, input, l);
      }
      PairedStays(w, input, l, luck, id);
    }
  }

  /** The answers given to a worker, after a callback. */
  lemma GivenAfter(w: World, input: Input, l: Loop, luck: Luck, id: WorkerId)
    requires Inv(w) && InputEnabled(w, input)
    requires Contract(w.loop.(turn := QUIET), l, CueOf(w, input))
    requires id in Land(w, input, l, luck).workers
    ensures Land(w, input, l, luck).workers[id].given == Given(w.workers, id, l.turn.answered)
    ensures id in w.workers ==> Land(w, input, l, luck).workers[id].generation == w.workers[id].generation
  {
    if l.turn.answered.Some? {
      AnsweredIsWaiting(w, input, l);
    }
  }

  /** The answer a callback hands over was given to nobody before. */
  lemma AnsweredIsNew(w: World, input: Input, l: Loop, luck: Luck)
    requires Inv(w) && InputEnabled(w, input)
    requires Contract(w.loop.(turn := QUIET), l, CueOf(w, input))
    requires l.turn.answered.Some?
    ensures TicketOf(Land(w, input, l, luck), l.turn.answered.value.answer, w.loop.generation)
    ensures forall id, i | id in w.workers && 0 <= i < |w.workers[id].given| ::
      w.workers[id].given[i].ticket != l.turn.answered.value.answer.ticket
    ensures l.queuedResponse.Some? ==> l.queuedResponse.value.ticket != l.turn.answered.value.answer.ticket
  {
    assert forall id, i | id in w.workers && 0 <= i < |w.workers[id].given| ::
      TicketOf(w, w.workers[id].given[i], w.workers[id].generation);
  }

  lemma LandKeepsGiven(w: World, input: Input, l: Loop, luck: Luck)
    requires Inv(w) && InputEnabled(w, input)
    requires Contract(w.loop.(turn := QUIET), l, CueOf(w, input))
    ensures var after := Land(w, input, l, luck);
      forall id, i | id in after.workers && 0 <= i < |after.workers[id].given| ::
        TicketOf(after, after.workers[id].given[i], after.workers[id].generation)
  {
    var after := Land(w, input, l, luck);
    forall id, i | id in after.workers && 0 <= i < |after.workers[id].given|
      ensures TicketOf(after, after.workers[id].given[i], after.workers[id].generation)
    {
      GivenAfter(w, input, l, luck, id);
      if i < |w.workers[id].given| {
        assert TicketOf(w, w.workers[id].given[i], w.workers[id].generation);
      } else {
        AnsweredIsNew(w, input, l, luck);
        assert Current(w, id, Password) <==> w.loop.password == Some(id);
      }
    }
  }

  lemma LandKeepsPlaces(w: World, input: Input, l: Loop, luck: Luck)
    requires Inv(w) && InputEnabled(w, input)
    requires Contract(w.loop.(turn := QUIET), l, CueOf(w, input))
    ensures PlacesDistinct(Land(w, input, l, luck).workers)
  {
    var after := Land(w, input, l, luck);
    forall id | id in after.workers ensures after.workers[id].given == Given(w.workers, id, l.turn.answered) {
      GivenAfter(w, input, l, luck, id);
    }
    if l.turn.answered.Some? {
      AnsweredIsNew(w, input, l, luck);
    }
    GivingKeepsPlaces(w.workers, after.workers, l.turn.answered);
  }

  lemma LandKeepsQueued(w: World, input: Input, l: Loop, luck: Luck)
    requires Inv(w) && InputEnabled(w, input)
    requires Contract(w.loop.(turn := QUIET), l, CueOf(w, input))
    requires l.queuedResponse.Some?
    ensures var after := Land(w, input, l, luck);
      && TicketOf(after, l.queuedResponse.value, l.generation)
      && forall id, i | id in after.workers && 0 <= i < |after.workers[id].given| ::
           after.workers[id].given[i].ticket != l.queuedResponse.value.ticket
  {
    var after := Land(w, input, l, luck);
    forall id, i | id in after.workers && 0 <= i < |after.workers[id].given|
      ensures after.workers[id].given[i].ticket != l.queuedResponse.value.ticket
    {
      GivenAfter(w, input, l, luck, id);
      if i < |w.workers[id].given| {
        assert TicketOf(w, w.workers[id].given[i], w.workers[id].generation);
      } else {
        AnsweredIsNew(w, input, l, luck);
      }
    }
  }

  lemma LandKeepsTickets(w: World, input: Input, l: Loop, luck: Luck)
    requires Inv(w) && InputEnabled(w, input)
    requires Contract(w.loop.(turn := QUIET), l, CueOf(w, input))
    ensures AnswersOk(Land(w, input, l, luck))
  {
    LandKeepsGiven(w, input, l, luck);
    LandKeepsPlaces(w, input, l, luck);
    if l.queuedResponse.Some? {
      LandKeepsQueued(w, input, l, luck);
    }
  }

  lemma LandKeepsSleep(w: World, input: Input, l: Loop, luck: Luck)
    requires Inv(w) && InputEnabled(w, input)
    requires Contract(w.loop.(turn := QUIET), l, CueOf(w, input))
    ensures SleepOk(Land(w, input, l, luck))
  {
  }

  lemma {:induction false} CallbackKeepsInv(w: World, input: Input, luck: Luck)
    requires Inv(w) && InputEnabled(w, input)
    ensures Inv(AfterCallback(w, input, luck))
  {
    var l := Handle(w, input, luck.host);
    HandleMeets(w, input, luck.host);
    LandKeepsMail(w, input, l, luck);
    LandKeepsCounts(w, input, l, luck);
    LandKeepsAges(w, input, l, luck);
    LandKeepsCurrent(w, input, l, luck);
    LandKeepsPaired(w, input, l, luck);
    LandKeepsSleep(w, input, l, luck);
    LandKeepsTickets(w, input, l, luck);
  }

  /** Every reachable world satisfies the invariant. */
  lemma {:induction false} ReachableInv(run: Run)
    requires Valid(run)
    ensures Inv(Final(run))
  {
    if run.Then? {
      ReachableInv(run.before);
      match run.step {
        case Callback(input, luck) => CallbackKeepsInv(Final(run.before), input, luck);
        case Work(id, action) => WorkKeepsInv(Final(run.before), id, action);
      }
    }
  }
}
