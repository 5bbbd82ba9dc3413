/** The recording worker and its loop-side session (src/embedder/capture/recording.rs,
    src/embedder/capture/mod.rs:1807-1823). */
module RecordingWorker {
  import opened Options

  const STALL_DROP_LIMIT: nat := 120

  datatype Command = Frame(bytes: nat) | Stop

  datatype BusMessage = BusError | BusEos | BusOther

  /** What the pipeline does about one frame: whether its queue is full, what the bus holds then,
      and whether it takes the buffer. */
  datatype Reaction = Reaction(saturated: bool, bus: Option<BusMessage>, takes: bool)

  /** Everything outside the worker: whether the pipeline can be built, its reaction to each frame,
      what the bus holds at each poll before the deadline, and whether the file can be renamed. */
  datatype Outside = Outside(builds: bool, reactions: seq<Reaction>, polls: seq<Option<BusMessage>>, renames: bool)

  datatype Reason = NotBuilt | WrongSize | PipelineDied | Stalled | NotDelivered | NoUserStop | EndError | EndTimeout | NotRenamed

  datatype Result =
    | Completed(generation: nat, frames: nat, dropped: nat)
    | Failed(generation: nat, reason: Reason, partial: bool)

  /** The recording's files: the claimed destination and the partial file. */
  datatype Destination = Unclaimed | Placeholder | Recording

  // ----- the reference: what happens to each frame, without the worker's loop

  /** The number of frames up to and including frame `i` that were dropped in a row. */
  function DropsInARow(reactions: seq<Reaction>, i: nat): nat
    requires i < |reactions|
  {
    if !reactions[i].saturated then 0
    else if i == 0 then 1 else 1 + DropsInARow(reactions, i - 1)
  }

  function Dropped(reactions: seq<Reaction>, n: nat): nat
    requires n <= |reactions|
  {
    if n == 0 then 0 else Dropped(reactions, n - 1) + (if reactions[n - 1].saturated then 1 else 0)
  }

  /** Why the recording ends at frame `i`, if it does. */
  function FatalAt(frameLen: nat, bytes: nat, reactions: seq<Reaction>, i: nat): Option<Reason>
    requires i < |reactions|
  {
    var r := reactions[i];
    if bytes != frameLen then Some(WrongSize)
    else if r.saturated then
      if r.bus == Some(BusError) || r.bus == Some(BusEos) then Some(PipelineDied)
      else if DropsInARow(reactions, i) >= STALL_DROP_LIMIT then Some(Stalled)
      else None
    else if !r.takes then Some(NotDelivered)
    else None
  }

  /** The first `n` commands are frames the worker survives. */
  predicate Survives(frameLen: nat, commands: seq<Command>, reactions: seq<Reaction>, n: nat)
    requires n <= |commands| <= |reactions|
  {
    forall i | 0 <= i < n :: commands[i].Frame? && FatalAt(frameLen, commands[i].bytes, reactions, i).None?
  }

  /** What the worker survives, in words: each frame has the right length; one that meets a full queue
      is dropped, with no error and no end of stream on the bus and fewer than 120 drops in a row; any
      other is taken. */
  lemma SurvivesExactly(frameLen: nat, commands: seq<Command>, reactions: seq<Reaction>, n: nat)
    requires n <= |commands| <= |reactions|
    ensures Survives(frameLen, commands, reactions, n) <==> forall i | 0 <= i < n ::
      && commands[i].Frame? && commands[i].bytes == frameLen
      && if reactions[i].saturated then
           reactions[i].bus != Some(BusError) && reactions[i].bus != Some(BusEos) && DropsInARow(reactions, i) < 120
         else reactions[i].takes
  {
    forall i | 0 <= i < n
      ensures commands[i].Frame? && FatalAt(frameLen, commands[i].bytes, reactions, i).None? <==>
        && commands[i].Frame? && commands[i].bytes == frameLen
        && if reactions[i].saturated then
             reactions[i].bus != Some(BusError) && reactions[i].bus != Some(BusEos) && DropsInARow(reactions, i) < 120
           else reactions[i].takes
    {
    }
  }

  /** How the bus ends the playout: the first end of stream or error seen before the deadline. */
  function PlayedOut(polls: seq<Option<BusMessage>>): Option<BusMessage> {
    if polls == [] then None
    else if polls[0] == Some(BusEos) || polls[0] == Some(BusError) then polls[0]
    else PlayedOut(polls[1..])
  }

  /** The drops in a row up to frame `i` are at least `m` exactly when the last `m` frames were dropped. */
  lemma {:induction false} DropsInARowExactly(reactions: seq<Reaction>, i: nat, m: nat)
    requires i < |reactions|
    ensures DropsInARow(reactions, i) >= m <==> m <= i + 1 && forall j | i - m < j <= i :: 0 <= j && reactions[j].saturated
  {
    if m > 0 && reactions[i].saturated && i > 0 {
      DropsInARowExactly(reactions, i - 1, m - 1);
    } else if m > 0 && !reactions[i].saturated {
      assert i - m < i <= i;
    }
  }

  /** And the drops among the first `n` frames are those the queue was full for. */
  lemma {:induction false} DroppedIsCount(reactions: seq<Reaction>, n: nat)
    requires n <= |reactions|
    ensures Dropped(reactions, n) == |set i | 0 <= i < n && reactions[i].saturated|
  {
    if n > 0 {
      DroppedIsCount(reactions, n - 1);
      var before, all := set i | 0 <= i < n - 1 && reactions[i].saturated, set i | 0 <= i < n && reactions[i].saturated;
      assert all == if reactions[n - 1].saturated then before + {n - 1} else before;
    }
  }

  predicate Ends(poll: Option<BusMessage>) {
    poll == Some(BusEos) || poll == Some(BusError)
  }

  /** The playout ends with the first end of stream or error the bus holds, at whatever poll, and
      without one at the deadline. */
  lemma {:induction false} PlayedOutExactly(polls: seq<Option<BusMessage>>)
    ensures PlayedOut(polls).None? <==> forall i | 0 <= i < |polls| :: !Ends(polls[i])
    ensures PlayedOut(polls).Some? ==> exists i | 0 <= i < |polls| ::
      Ends(polls[i]) && PlayedOut(polls) == polls[i] && forall j | 0 <= j < i :: !Ends(polls[j])
  {
    if polls != [] && !Ends(polls[0]) {
      PlayedOutExactly(polls[1..]);
      if PlayedOut(polls).Some? {
        var i :| 0 <= i < |polls[1..]| && Ends(polls[1..][i]) && PlayedOut(polls[1..]) == polls[1..][i]
          && forall j | 0 <= j < i :: !Ends(polls[1..][j]);
        assert polls[i + 1] == polls[1..][i];
        forall j | 0 <= j < i + 1 ensures !Ends(polls[j]) {
          assert j > 0 ==> polls[j] == polls[1..][j - 1];
        }
      } else {
        forall i | 0 <= i < |polls| ensures !Ends(polls[i]) {
          assert i > 0 ==> polls[i] == polls[1..][i - 1];
        }
      }
    }
  }

  /** The one way a recording completes. */
  ghost predicate Completes(frameLen: nat, commands: seq<Command>, outside: Outside, n: nat)
    requires |commands| <= |outside.reactions|
  {
    && outside.builds
    && n < |commands| && commands[n].Stop? && Survives(frameLen, commands, outside.reactions, n)
    && PlayedOut(outside.polls) == Some(BusEos)
    && outside.renames
  }

  lemma CompletesOnce(frameLen: nat, commands: seq<Command>, outside: Outside, n: nat, m: nat)
    requires |commands| <= |outside.reactions|
    requires Completes(frameLen, commands, outside, n) && Completes(frameLen, commands, outside, m)
    ensures n == m
  {
  }

  // ----- the worker

  class Worker {
    const generation: nat
    const frameLen: nat
    var events: seq<Result>
    var destination: Destination
    var partial: bool

    constructor (generation: nat, frameLen: nat)
      ensures this.generation == generation && this.frameLen == frameLen
      ensures events == [] && destination == Unclaimed && !partial
    {
      this.generation, this.frameLen := generation, frameLen;
      events, destination, partial := [], Unclaimed, false;
    }

    /** `RunningPipeline::fail`: the empty claim goes, the partial recording stays. */
    method Fail(reason: Reason)
      requires destination != Recording
      modifies this
      ensures events == old(events) + [Failed(generation, reason, true)]
      ensures destination == Unclaimed && partial == old(partial)
    {
      if destination == Placeholder {
        destination := Unclaimed;
      }
      events := events + [Failed(generation, reason, true)];
    }

    /** The command loop. It ends with a failure sent, with the user's stop, or when the channel closes. */
    method TakeCommands(commands: seq<Command>, reactions: seq<Reaction>)
      returns (frames: nat, dropped: nat, taken: nat, stopped: bool, failed: bool)
      requires |commands| <= |reactions| && destination == Placeholder && partial && events == []
      modifies this
      ensures taken <= |commands| && Survives(frameLen, commands, reactions, taken)
      ensures !failed ==> dropped == Dropped(reactions, taken) && frames + dropped == taken
      ensures forall i | 0 <= i < taken :: DropsInARow(reactions, i) < STALL_DROP_LIMIT
      ensures partial
      ensures if failed then
                && taken < |commands| && commands[taken].Frame?
                && FatalAt(frameLen, commands[taken].bytes, reactions, taken).Some?
                && events == [Failed(generation, FatalAt(frameLen, commands[taken].bytes, reactions, taken).value, true)]
                && destination == Unclaimed
              else
                && events == [] && destination == Placeholder
                && (stopped <==> taken < |commands|)
                && (stopped ==> commands[taken].Stop?)
    {
      frames, dropped, taken, stopped, failed := 0, 0, 0, false, false;
      var inARow := 0;
      while taken < |commands|
        invariant 0 <= taken <= |commands|
        invariant Survives(frameLen, commands, reactions, taken)
        invariant dropped == Dropped(reactions, taken) && frames + dropped == taken
        invariant inARow == if taken == 0 then 0 else DropsInARow(reactions, taken - 1)
        invariant forall i | 0 <= i < taken :: DropsInARow(reactions, i) < STALL_DROP_LIMIT
        invariant events == [] && destination == Placeholder && partial && !stopped && !failed
      {
        match commands[taken] {
          case Stop =>
            stopped := true;
            return;
          case Frame(bytes) =>
            var r := reactions[taken];
            if bytes != frameLen {
              Fail(WrongSize);
              failed := true;
              return;
            }
            if r.saturated {
              dropped := dropped + 1;
              inARow := inARow + 1;
              if r.bus == Some(BusError) || r.bus == Some(BusEos) {
                Fail(PipelineDied);
                failed := true;
                return;
              }
              if inARow >= STALL_DROP_LIMIT {
                Fail(Stalled);
                failed := true;
                return;
              }
            } else {
              if !r.takes {
                Fail(NotDelivered);
                failed := true;
                return;
              }
              frames := frames + 1;
              inARow := 0;
            }
        }
        taken := taken + 1;
      }
    }

    /** Waits for the end of stream until the deadline. */
    method PlayOut(polls: seq<Option<BusMessage>>) returns (finish: Option<BusMessage>)
      ensures finish == PlayedOut(polls)
    {
      finish := None;
      var i := 0;
      while i < |polls|
        invariant 0 <= i <= |polls|
        invariant finish == None
        invariant PlayedOut(polls) == PlayedOut(polls[i..])
      {
        if polls[i] == Some(BusEos) || polls[i] == Some(BusError) {
          return polls[i];
        }
        i := i + 1;
      }
    }

    /** One session of the worker: exactly one result, and it is a completion exactly when the
        reference says so. */
    method Run(commands: seq<Command>, outside: Outside)
      requires |commands| <= |outside.reactions|
      requires events == [] && destination == Unclaimed && !partial
      modifies this
      ensures |events| == 1 && events[0].generation == generation
      ensures events[0].Completed? <==> exists n: nat :: Completes(frameLen, commands, outside, n)
      ensures events[0].Completed? ==> exists n: nat ::
        && Completes(frameLen, commands, outside, n)
        && events[0].frames + events[0].dropped == n
        && events[0].dropped == Dropped(outside.reactions, n)
        && (forall i | 0 <= i < n :: DropsInARow(outside.reactions, i) < STALL_DROP_LIMIT)
      // A completion leaves the recording in place; a failure never leaves an empty file behind,
      // and says where the partial recording is.
      ensures destination == if events[0].Completed? then Recording else Unclaimed
      ensures events[0].Failed? ==> (events[0].partial <==> outside.builds) && partial == outside.builds
    {
      if !outside.builds {
        events := [Failed(generation, NotBuilt, false)];
        return;
      }
      destination, partial := Placeholder, true;
      var frames, dropped, taken, stopped, failed := TakeCommands(commands, outside.reactions);
      if failed {
        return;
      }
      if !stopped {
        Fail(NoUserStop);
        return;
      }
      var finish := PlayOut(outside.polls);
      if finish == Some(BusEos) {
        if outside.renames {
          destination, partial := Recording, false;
          events := [Completed(generation, frames, dropped)];
          assert Completes(frameLen, commands, outside, taken);
        } else {
          destination := Unclaimed;
          events := [Failed(generation, NotRenamed, true)];
        }
      } else if finish == Some(BusError) {
        Fail(EndError);
      } else {
        Fail(EndTimeout);
      }
    }
  }

  // ----- the loop side

  /** `session` is the generation of the live session, `owing` the workers that have not reported. */
  datatype LoopSide = LoopSide(session: Option<nat>, owing: set<nat>, next: nat)

  /** `Refused` is a start whose worker did not take the first frame: it reports, but never had a session. */
  datatype LoopEvent = Started | Refused | Stopped | Reported(generation: nat)

  /** `handle_recording_event`: a result releases the session it belongs to and no other. */
  function AfterReport(session: Option<nat>, generation: nat): Option<nat> {
    if session == Some(generation) then None else session
  }

  function LoopStep(l: LoopSide, e: LoopEvent): LoopSide {
    match e
    case Started => LoopSide(Some(l.next), l.owing + {l.next}, l.next + 1)
    case Refused => LoopSide(l.session, l.owing + {l.next}, l.next + 1)
    case Stopped => l.(session := None)
    case Reported(generation) => l.(session := AfterReport(l.session, generation), owing := l.owing - {generation})
  }

  datatype LoopRun = LoopStart | LoopThen(before: LoopRun, event: LoopEvent)

  /** Each worker reports once, as `Run` shows. */
  predicate ValidLoop(run: LoopRun)
    decreases run, 0
  {
    run.LoopThen? ==> ValidLoop(run.before) && (run.event.Reported? ==> run.event.generation in LoopFinal(run.before).owing)
  }

  function LoopFinal(run: LoopRun): LoopSide
    requires ValidLoop(run)
    decreases run, 1
  {
    if run.LoopStart? then LoopSide(None, {}, 1) else LoopStep(LoopFinal(run.before), run.event)
  }

  /** The live session always has a worker that still owes its result: it is never kept for a dead
      worker, and a late result of an earlier recording does not end it. */
  lemma {:induction false} SessionHasItsWorker(run: LoopRun)
    requires ValidLoop(run)
    ensures var l := LoopFinal(run);
      && (l.session.Some? ==> l.session.value in l.owing)
      && (forall g | g in l.owing :: g < l.next)
    ensures run.LoopThen? && run.event.Reported? ==>
      LoopFinal(run).session ==
        if LoopFinal(run.before).session == Some(run.event.generation) then None else LoopFinal(run.before).session
  {
    if run.LoopThen? {
      SessionHasItsWorker(run.before);
    }
  }
}
