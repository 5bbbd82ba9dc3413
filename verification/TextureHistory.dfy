/** What is on screen and what is out, told from the history of events alone
    (src/embedder/flutter_engine/view.rs:103-255, 476-489). */
module TextureHistory {
  import opened Options
  import opened TexturePool

  function ViewOf(run: Run): int {
    match run
    case Boot(viewId, _, _) => viewId
    case Then(before, _) => ViewOf(before)
  }

  function SizeOf(run: Run): (nat, nat) {
    match run
    case Boot(_, width, height) => (width, height)
    case Then(before, event) => if event.OutputResized? then (event.width, event.height) else SizeOf(before)
  }

  /** The texture a request is answered with: the idle one that was returned last, else a new one. */
  function HandedOut(idle: seq<Texture>, created: Option<Texture>): Option<Texture> {
    if idle != [] then Some(idle[|idle| - 1]) else created
  }

  predicate Names(run: Run, id: BackingStoreId, generation: nat) {
    id.viewId == ViewOf(run) && id.generation == generation
  }

  /** The texture handed out under a generation, until the engine first presents or collects it. */
  function OutTexture(run: Run, generation: nat): Option<Texture>
    requires Valid(run)
  {
    match run
    case Boot(_, _, _) => None
    case Then(before, event) =>
      match event
      case BufferRequest(created, delivered) =>
        if delivered && generation == Final(before).nextGeneration then HandedOut(Final(before).pool.idle, created)
        else OutTexture(before, generation)
      case FramePresented(id, _) => if Names(before, id, generation) then None else OutTexture(before, generation)
      case FrameCollected(id) => if Names(before, id, generation) then None else OutTexture(before, generation)
      case OutputResized(_, _) => OutTexture(before, generation)
  }

  /** The texture of the last frame that was presented while no capture froze the desktop and its
      store was out, unless the size has changed since. */
  function ShownTexture(run: Run): Option<Texture>
    requires Valid(run)
  {
    match run
    case Boot(_, _, _) => None
    case Then(before, event) =>
      match event
      case FramePresented(id, false) =>
        if id.viewId == ViewOf(before) && OutTexture(before, id.generation).Some? then OutTexture(before, id.generation)
        else ShownTexture(before)
      case OutputResized(width, height) => if (width, height) == SizeOf(before) then ShownTexture(before) else None
      case _ => ShownTexture(before)
  }

  function InFlight(v: View, generation: nat): Option<Texture> {
    if generation in v.inFlight then Some(v.inFlight[generation]) else None
  }

  lemma {:induction false} PlaceIsExact(run: Run)
    requires Valid(run)
    ensures Final(run).viewId == ViewOf(run) && (Final(run).width, Final(run).height) == SizeOf(run)
  {
    if run.Then? {
      PlaceIsExact(run.before);
    }
  }

  /** What a request leaves in flight. */
  lemma RequestedInFlight(v: View, created: Option<Texture>, delivered: bool, generation: nat)
    requires Owned(v)
    ensures InFlight(Requested(v, created, delivered), generation) ==
      if delivered && generation == v.nextGeneration then HandedOut(v.pool.idle, created) else InFlight(v, generation)
    ensures Requested(v, created, delivered).lastRendered == v.lastRendered
  {
    PopOfFitting(v);
  }

  /** The stores that are out are exactly those handed out and not presented or collected since, each
      with the texture it was handed out with. */
  lemma {:induction false} OutIsExact(run: Run, generation: nat)
    requires Valid(run)
    ensures InFlight(Final(run), generation) == OutTexture(run, generation)
  {
    if run.Then? {
      OutIsExact(run.before, generation);
      ReachableOwned(run.before);
      PlaceIsExact(run.before);
      match run.event {
        case BufferRequest(created, delivered) => RequestedInFlight(Final(run.before), created, delivered, generation);
        case _ =>
      }
    }
  }

  /** The texture on screen is exactly that of the last frame presented while its store was out and
      nothing froze the desktop, since the last change of size. Holding, collecting, requesting and
      repeated or late events never change it. */
  lemma {:induction false} ShownIsLastPresented(run: Run)
    requires Valid(run)
    ensures Final(run).lastRendered == ShownTexture(run)
  {
    if run.Then? {
      ShownIsLastPresented(run.before);
      PlaceIsExact(run.before);
      ReachableOwned(run.before);
      match run.event {
        case BufferRequest(created, delivered) => RequestedInFlight(Final(run.before), created, delivered, 0);
        case FramePresented(id, _) => OutIsExact(run.before, id.generation);
        case _ =>
      }
    }
  }

  // ----- no texture that still fits is lost

  predicate Keeps(v: View, t: Texture) {
    t in v.pool.idle || (exists g :: g in v.inFlight && v.inFlight[g] == t) || v.lastRendered == Some(t)
  }

  lemma RequestKeepsTextures(v: View, created: Option<Texture>, delivered: bool, t: Texture)
    requires Owned(v) && Keeps(v, t) && Fits(v.pool, t)
    ensures Keeps(Requested(v, created, delivered), t)
  {
    PopOfFitting(v);
    var (out, acquired) := Acquired(v, created);
    assert Keeps(acquired, t) by {
      if t in v.pool.idle {
        var i :| 0 <= i < |v.pool.idle| && v.pool.idle[i] == t;
        if i == |v.pool.idle| - 1 {
          assert acquired.inFlight[v.nextGeneration] == t;
        } else {
          assert acquired.pool.idle[i] == t;
        }
      } else if v.lastRendered != Some(t) {
        var g :| g in v.inFlight && v.inFlight[g] == t;
        assert acquired.inFlight[g] == t;
      }
    }
    ReturnKeepsTextures(acquired, BackingStoreId(v.viewId, v.nextGeneration), t);
  }

  lemma ReturnKeepsTextures(v: View, id: BackingStoreId, t: Texture)
    requires Keeps(v, t) && Fits(v.pool, t)
    ensures Keeps(Discarded(v, id), t)
  {
    if Holds(v, id) && t !in v.pool.idle && v.lastRendered != Some(t) {
      var g :| g in v.inFlight && v.inFlight[g] == t;
      if g != id.generation {
        assert Discarded(v, id).inFlight[g] == t;
      }
    }
  }

  lemma PresentKeepsTextures(v: View, id: BackingStoreId, t: Texture)
    requires Keeps(v, t) && Fits(v.pool, t)
    ensures Keeps(Presented(v, id), t)
  {
    if Holds(v, id) && t !in v.pool.idle && v.lastRendered != Some(t) {
      var g :| g in v.inFlight && v.inFlight[g] == t;
      if g != id.generation {
        assert Presented(v, id).inFlight[g] == t;
      }
    }
  }

  /** A texture of the view's size is never dropped: whatever happens, it stays idle, out or on
      screen. Only a change of size loses textures. */
  lemma {:induction false} FittingTexturesAreKept(run: Run, t: Texture)
    requires Valid(run) && run.Then? && Keeps(Final(run.before), t)
    requires (t.width, t.height) == SizeOf(run)
    ensures Keeps(Final(run), t)
  {
    PlaceIsExact(run);
    PlaceIsExact(run.before);
    ReachableOwned(run.before);
    var v := Final(run.before);
    match run.event {
      case BufferRequest(created, delivered) => RequestKeepsTextures(v, created, delivered, t);
      case FramePresented(id, freeze) =>
        if freeze {
          ReturnKeepsTextures(v, id, t);
        } else {
          PresentKeepsTextures(v, id, t);
        }
      case FrameCollected(id) => ReturnKeepsTextures(v, id, t);
      case OutputResized(width, height) => ResizeKeepsTextures(v, width, height, t);
    }
  }

  lemma ResizeKeepsTextures(v: View, width: nat, height: nat, t: Texture)
    requires Owned(v) && Keeps(v, t) && (t.width, t.height) == (width, height)
    ensures Keeps(ViewResized(v, width, height), t)
  {
    var after := ViewResized(v, width, height);
    if after != v {
      if v.lastRendered == Some(t) {
        assert t in after.pool.idle;
      } else {
        var g :| g in v.inFlight && v.inFlight[g] == t;
        assert after.inFlight[g] == t;
      }
    }
  }

  /** The frame a new one replaces, and a store that is held or collected, can be handed out again at
      once if they have the view's size. */
  lemma {:induction false} ReturnedTexturesAreIdle(run: Run, t: Texture)
    requires Valid(run) && run.Then? && (t.width, t.height) == SizeOf(run)
    ensures run.event.FramePresented? && !run.event.freeze && ShownTexture(run.before) == Some(t)
      && run.event.id.viewId == ViewOf(run) && OutTexture(run.before, run.event.id.generation).Some?
      ==> t in Final(run).pool.idle
    ensures (run.event.FrameCollected? || (run.event.FramePresented? && run.event.freeze))
      && run.event.id.viewId == ViewOf(run) && OutTexture(run.before, run.event.id.generation) == Some(t)
      ==> t in Final(run).pool.idle
  {
    PlaceIsExact(run.before);
    PlaceIsExact(run);
    ReachableOwned(run.before);
    ShownIsLastPresented(run.before);
    match run.event {
      case FramePresented(id, _) => OutIsExact(run.before, id.generation);
      case FrameCollected(id) => OutIsExact(run.before, id.generation);
      case _ =>
    }
  }

  /** The generation of the last frame put on screen, whatever became of it since. */
  function LastPresented(run: Run): Option<nat>
    requires Valid(run)
  {
    match run
    case Boot(_, _, _) => None
    case Then(before, FramePresented(id, false)) =>
      if id.viewId == ViewOf(before) && OutTexture(before, id.generation).Some? then Some(id.generation) else LastPresented(before)
    case Then(before, _) => LastPresented(before)
  }

  lemma {:induction false} LastGenerationIsLastPresented(run: Run)
    requires Valid(run)
    ensures Final(run).lastGeneration == LastPresented(run)
  {
    if run.Then? {
      LastGenerationIsLastPresented(run.before);
      PlaceIsExact(run.before);
      match run.event {
        case FramePresented(id, _) => OutIsExact(run.before, id.generation);
        case _ =>
      }
    }
  }
}
