/** The texture pool of a Flutter view and its backing stores (src/embedder/flutter_engine/view.rs,
    driven by src/embedder/flutter_engine/compositor.rs). */
module TexturePool {
  import opened Options

  datatype Texture = Texture(id: nat, width: nat, height: nat)
  datatype BackingStoreId = BackingStoreId(viewId: int, generation: nat)

  datatype Pool = Pool(width: nat, height: nat, idle: seq<Texture>)

  datatype View = View(
    viewId: int,
    width: nat,
    height: nat,
    pool: Pool,
    nextGeneration: nat,
    inFlight: map<nat, Texture>,
    lastRendered: Option<Texture>,
    lastGeneration: Option<nat>)

  predicate Fits(p: Pool, t: Texture) {
    t.width == p.width && t.height == p.height
  }

  /** Popping idle textures from the end until one fits; the others are dropped. */
  function Popped(p: Pool): (Option<Texture>, Pool)
    decreases |p.idle|
  {
    if p.idle == [] then (None, p)
    else
      var last, rest := p.idle[|p.idle| - 1], p.(idle := p.idle[..|p.idle| - 1]);
      if Fits(p, last) then (Some(last), rest) else Popped(rest)
  }

  function Recycled(p: Pool, t: Texture): Pool {
    if Fits(p, t) then p.(idle := p.idle + [t]) else p
  }

  function Resized(p: Pool, width: nat, height: nat): Pool {
    if p.width == width && p.height == height then p else Pool(width, height, [])
  }

  /** `created` is what the backend's `new_texture` returns if it is asked. */
  function Acquired(v: View, created: Option<Texture>): (Option<Texture>, View) {
    var (popped, pool) := Popped(v.pool);
    var texture := if popped.Some? then popped else created;
    (texture,
     if texture.None? then v.(pool := pool)
     else v.(pool := pool, nextGeneration := v.nextGeneration + 1,
             inFlight := v.inFlight[v.nextGeneration := texture.value]))
  }

  predicate Holds(v: View, id: BackingStoreId) {
    id.viewId == v.viewId && id.generation in v.inFlight
  }

  function Presented(v: View, id: BackingStoreId): View {
    if !Holds(v, id) then v
    else
      v.(inFlight := v.inFlight - {id.generation},
         lastGeneration := Some(id.generation),
         lastRendered := Some(v.inFlight[id.generation]),
         pool := if v.lastRendered.Some? then Recycled(v.pool, v.lastRendered.value) else v.pool)
  }

  /** `discard_backing_store` and `hold_backing_store` do the same. */
  function Discarded(v: View, id: BackingStoreId): View {
    if !Holds(v, id) then v
    else v.(inFlight := v.inFlight - {id.generation}, pool := Recycled(v.pool, v.inFlight[id.generation]))
  }

  function ViewResized(v: View, width: nat, height: nat): View {
    if v.width == width && v.height == height then v
    else
      var pool := Resized(v.pool, width, height);
      v.(width := width, height := height, lastRendered := None,
         pool := if v.lastRendered.Some? then Recycled(pool, v.lastRendered.value) else pool)
  }

  class TextureSwapchain {
    var width: nat
    var height: nat
    var idle: seq<Texture>

    ghost function State(): Pool
      reads this
    {
      Pool(width, height, idle)
    }

    constructor (width: nat, height: nat)
      ensures State() == Pool(width, height, [])
    {
      this.width, this.height, idle := width, height, [];
    }

    method Acquire(created: Option<Texture>) returns (texture: Option<Texture>)
      modifies this
      ensures State() == Popped(old(State())).1
      ensures texture == if Popped(old(State())).0.Some? then Popped(old(State())).0 else created
    {
      while idle != []
        invariant width == old(width) && height == old(height)
        invariant Popped(State()) == Popped(old(State()))
        decreases |idle|
      {
        var last := idle[|idle| - 1];
        idle := idle[..|idle| - 1];
        if last.width == width && last.height == height {
          return Some(last);
        }
      }
      texture := created;
    }

    method Recycle(texture: Texture)
      modifies this
      ensures State() == Recycled(old(State()), texture)
    {
      if texture.width == width && texture.height == height {
        idle := idle + [texture];
      }
    }

    method Resize(width: nat, height: nat)
      modifies this
      ensures State() == Resized(old(State()), width, height)
    {
      if this.width == width && this.height == height {
        return;
      }
      this.width := width;
      this.height := height;
      idle := [];
    }
  }

  class VeshellView {
    const viewId: int
    const swapchain: TextureSwapchain
    var width: nat
    var height: nat
    var nextGeneration: nat
    var inFlight: map<nat, Texture>
    var lastRendered: Option<Texture>
    var lastGeneration: Option<nat>

    ghost function State(): View
      reads this, swapchain
    {
      View(viewId, width, height, swapchain.State(), nextGeneration, inFlight, lastRendered, lastGeneration)
    }

    constructor (viewId: int, width: nat, height: nat)
      ensures fresh(swapchain) && State() == NewView(viewId, width, height)
    {
      this.viewId, this.width, this.height := viewId, width, height;
      swapchain := new TextureSwapchain(width, height);
      nextGeneration, inFlight, lastRendered, lastGeneration := 1, map[], None, None;
    }

    method AcquireBackingStore(created: Option<Texture>) returns (acquired: Option<(BackingStoreId, Texture)>)
      modifies this, swapchain
      ensures State() == Acquired(old(State()), created).1
      ensures acquired == match Acquired(old(State()), created).0
        case None => None
        case Some(t) => Some((BackingStoreId(viewId, old(nextGeneration)), t))
    {
      var texture := swapchain.Acquire(created);
      if texture.None? {
        return None;
      }
      var generation := nextGeneration;
      nextGeneration := nextGeneration + 1;
      inFlight := inFlight[generation := texture.value];
      acquired := Some((BackingStoreId(viewId, generation), texture.value));
    }

    method PresentBackingStore(id: BackingStoreId) returns (shown: bool)
      modifies this, swapchain
      ensures State() == Presented(old(State()), id)
      ensures shown <==> old(Holds(State(), id))
    {
      if id.viewId != viewId || id.generation !in inFlight {
        return false;
      }
      var frame := inFlight[id.generation];
      inFlight := inFlight - {id.generation};
      lastGeneration := Some(id.generation);
      var previous := lastRendered;
      lastRendered := Some(frame);
      if previous.Some? {
        swapchain.Recycle(previous.value);
      }
      shown := true;
    }

    method DiscardBackingStore(id: BackingStoreId)
      modifies this, swapchain
      ensures State() == Discarded(old(State()), id)
    {
      if id.viewId == viewId && id.generation in inFlight {
        var frame := inFlight[id.generation];
        inFlight := inFlight - {id.generation};
        swapchain.Recycle(frame);
      }
    }

    /** The tail of `resize_view`, for a view with a texture pool. */
    method ResizeView(width: nat, height: nat)
      modifies this, swapchain
      ensures State() == ViewResized(old(State()), width, height)
    {
      if this.width != width || this.height != height {
        this.width := width;
        this.height := height;
        swapchain.Resize(width, height);
        if lastRendered.Some? {
          var previous := lastRendered.value;
          lastRendered := None;
          swapchain.Recycle(previous);
        }
      }
    }

    /** A buffer request of the engine: a store whose reply cannot be delivered is discarded. */
    method OnBufferRequest(created: Option<Texture>, delivered: bool) returns (acquired: Option<(BackingStoreId, Texture)>)
      modifies this, swapchain
      ensures State() == Requested(old(State()), created, delivered)
    {
      acquired := AcquireBackingStore(created);
      if !delivered && acquired.Some? {
        DiscardBackingStore(acquired.value.0);
        acquired := None;
      }
    }

    /** A backing-store event of the engine; while a capture freezes the desktop, a presented frame
        is held instead of shown. */
    method OnPresented(id: BackingStoreId, freeze: bool)
      modifies this, swapchain
      ensures State() == if freeze then Discarded(old(State()), id) else Presented(old(State()), id)
    {
      if freeze {
        DiscardBackingStore(id);
      } else {
        var _ := PresentBackingStore(id);
      }
    }
  }

  function NewView(viewId: int, width: nat, height: nat): View {
    View(viewId, width, height, Pool(width, height, []), 1, map[], None, None)
  }

  function Requested(v: View, created: Option<Texture>, delivered: bool): View {
    var (texture, after) := Acquired(v, created);
    if !delivered && texture.Some? then Discarded(after, BackingStoreId(v.viewId, v.nextGeneration)) else after
  }

  // ----- runs

  datatype Event =
    | BufferRequest(created: Option<Texture>, delivered: bool)
    | FramePresented(id: BackingStoreId, freeze: bool)
    | FrameCollected(id: BackingStoreId)
    | OutputResized(width: nat, height: nat)

  function Step(v: View, e: Event): View {
    match e
    case BufferRequest(created, delivered) => Requested(v, created, delivered)
    case FramePresented(id, freeze) => if freeze then Discarded(v, id) else Presented(v, id)
    case FrameCollected(id) => Discarded(v, id)
    case OutputResized(width, height) => ViewResized(v, width, height)
  }

  function IdsOf(textures: seq<Texture>): set<nat> {
    set i | 0 <= i < |textures| :: textures[i].id
  }

  function IdsIn(textures: map<nat, Texture>): set<nat> {
    set g | g in textures :: textures[g].id
  }

  /** The ids of the textures the view keeps alive. */
  function IdleIds(v: View): set<nat> {
    IdsOf(v.pool.idle)
  }

  function InFlightIds(v: View): set<nat> {
    IdsIn(v.inFlight)
  }

  function ShownIds(v: View): set<nat> {
    if v.lastRendered.Some? then {v.lastRendered.value.id} else {}
  }

  /** A texture the backend creates is a new one: none that the view still holds. */
  predicate Enabled(v: View, e: Event) {
    e.BufferRequest? && e.created.Some? ==> e.created.value.id !in IdleIds(v) + InFlightIds(v) + ShownIds(v)
  }

  datatype Run = Boot(viewId: int, width: nat, height: nat) | Then(before: Run, event: Event)

  predicate Valid(run: Run)
    decreases run, 0
  {
    run.Then? ==> Valid(run.before) && Enabled(Final(run.before), run.event)
  }

  function Final(run: Run): View
    requires Valid(run)
    decreases run, 1
  {
    match run
    case Boot(viewId, width, height) => NewView(viewId, width, height)
    case Then(before, event) => Step(Final(before), event)
  }

  /** The most stores that were in flight at once, counting one whose reply failed. */
  function Peak(run: Run): nat
    requires Valid(run)
  {
    if run.Boot? then 0
    else
      var now := |Final(run.before).inFlight| + (if run.event.BufferRequest? then 1 else 0);
      var earlier := Peak(run.before);
      if now > earlier then now else earlier
  }

  function Total(v: View): nat {
    |v.pool.idle| + |v.inFlight| + (if v.lastRendered.Some? then 1 else 0)
  }

  /** Every texture is in one place only, and the idle ones have the current size. */
  ghost predicate Owned(v: View) {
    && DistinctIdle(v.pool.idle)
    && DistinctIn(v.inFlight)
    && IdleIds(v) !! InFlightIds(v)
    && IdleIds(v) !! ShownIds(v)
    && InFlightIds(v) !! ShownIds(v)
    && (forall i | 0 <= i < |v.pool.idle| :: Fits(v.pool, v.pool.idle[i]))
    && v.pool.width == v.width && v.pool.height == v.height
    && (forall g | g in v.inFlight :: g < v.nextGeneration)
  }

  lemma PopOfFitting(v: View)
    requires Owned(v)
    ensures Popped(v.pool) ==
      if v.pool.idle == [] then (None, v.pool)
      else (Some(v.pool.idle[|v.pool.idle| - 1]), v.pool.(idle := v.pool.idle[..|v.pool.idle| - 1]))
  {
  }

  lemma IdleIdsSnoc(v: View, t: Texture)
    ensures IdleIds(v.(pool := v.pool.(idle := v.pool.idle + [t]))) == IdleIds(v) + {t.id}
  {
    var after := v.(pool := v.pool.(idle := v.pool.idle + [t]));
    forall id | id in IdleIds(v) + {t.id} ensures id in IdleIds(after) {
      if id == t.id {
        assert after.pool.idle[|v.pool.idle|].id == id;
      } else {
        var i :| 0 <= i < |v.pool.idle| && v.pool.idle[i].id == id;
        assert after.pool.idle[i].id == id;
      }
    }
  }

  lemma TakeIdle(v: View) returns (t: Texture, rest: View)
    requires Owned(v) && v.pool.idle != []
    ensures t == v.pool.idle[|v.pool.idle| - 1]
    ensures rest == v.(pool := v.pool.(idle := v.pool.idle[..|v.pool.idle| - 1]))
    ensures Owned(rest) && t.id !in IdleIds(rest) + InFlightIds(rest) + ShownIds(rest)
  {
    t := v.pool.idle[|v.pool.idle| - 1];
    rest := v.(pool := v.pool.(idle := v.pool.idle[..|v.pool.idle| - 1]));
    assert t.id in IdleIds(v);
    forall id | id in IdleIds(rest) ensures id in IdleIds(v) && id != t.id {
      var i :| 0 <= i < |rest.pool.idle| && rest.pool.idle[i].id == id;
      assert v.pool.idle[i].id == id;
    }
    assert InFlightIds(rest) == InFlightIds(v) && ShownIds(rest) == ShownIds(v);
  }

  predicate DistinctIn(textures: map<nat, Texture>) {
    forall g, h | g in textures && h in textures && g != h :: textures[g].id != textures[h].id
  }

  lemma DistinctInAdd(textures: map<nat, Texture>, g: nat, t: Texture)
    requires DistinctIn(textures) && t.id !in IdsIn(textures) && g !in textures
    ensures DistinctIn(textures[g := t])
  {
    forall h | h in textures ensures textures[h].id != t.id {
      assert textures[h].id in IdsIn(textures);
    }
  }

  lemma PutInFlight(v: View, t: Texture)
    requires Owned(v) && t.id !in IdleIds(v) + InFlightIds(v) + ShownIds(v)
    ensures var after := v.(nextGeneration := v.nextGeneration + 1, inFlight := v.inFlight[v.nextGeneration := t]);
      Owned(after) && |after.inFlight| == |v.inFlight| + 1
  {
    IdsInAdd(v.inFlight, v.nextGeneration, t);
    DistinctInAdd(v.inFlight, v.nextGeneration, t);
    var after := v.(nextGeneration := v.nextGeneration + 1, inFlight := v.inFlight[v.nextGeneration := t]);
    assert InFlightIds(after) == InFlightIds(v) + {t.id};
    assert IdleIds(after) == IdleIds(v) && ShownIds(after) == ShownIds(v);
  }

  /** Handing out a texture keeps the ownership, whichever way it was found. */
  lemma AcquireKeeps(v: View, created: Option<Texture>)
    requires Owned(v)
    requires created.Some? ==> created.value.id !in IdleIds(v) + InFlightIds(v) + ShownIds(v)
    ensures var (t, after) := Acquired(v, created);
      && Owned(after)
      && (t.Some? ==> t.value.id !in InFlightIds(v) && t.value.id !in ShownIds(v))
      && |after.inFlight| <= |v.inFlight| + 1
      && (if v.pool.idle == [] then |after.pool.idle| == 0 && after.lastRendered == v.lastRendered
          else Total(after) <= Total(v))
  {
    PopOfFitting(v);
    if v.pool.idle != [] {
      var t, rest := TakeIdle(v);
      PutInFlight(rest, t);
      assert InFlightIds(rest) == InFlightIds(v) && ShownIds(rest) == ShownIds(v);
    } else if created.Some? {
      PutInFlight(v, created.value);
    }
  }

  lemma IdsInAdd(textures: map<nat, Texture>, g: nat, t: Texture)
    requires g !in textures
    ensures IdsIn(textures[g := t]) == IdsIn(textures) + {t.id}
    ensures |textures[g := t]| == |textures| + 1
  {
    var after := textures[g := t];
    assert after[g].id in IdsIn(after);
    forall id | id in IdsIn(textures) ensures id in IdsIn(after) {
      var h :| h in textures && textures[h].id == id;
      assert after[h].id == id;
    }
    assert after.Keys == textures.Keys + {g};
  }

  lemma InFlightIdsRemove(v: View, g: nat)
    requires Owned(v) && g in v.inFlight
    ensures InFlightIds(v.(inFlight := v.inFlight - {g})) == InFlightIds(v) - {v.inFlight[g].id}
    ensures |v.inFlight - {g}| == |v.inFlight| - 1
  {
    var after := v.(inFlight := v.inFlight - {g});
    forall id | id in InFlightIds(v) - {v.inFlight[g].id} ensures id in InFlightIds(after) {
      var h :| h in v.inFlight && v.inFlight[h].id == id;
      assert after.inFlight[h].id == id;
    }
    forall id | id in InFlightIds(after) ensures id in InFlightIds(v) && id != v.inFlight[g].id {
      var h :| h in after.inFlight && after.inFlight[h].id == id;
      assert v.inFlight[h].id == id;
    }
    assert (v.inFlight - {g}).Keys == v.inFlight.Keys - {g};
  }

  predicate DistinctIdle(idle: seq<Texture>) {
    forall i, j | 0 <= i < j < |idle| :: idle[i].id != idle[j].id
  }

  lemma IdleStaysDistinct(v: View, t: Texture)
    requires DistinctIdle(v.pool.idle) && t.id !in IdleIds(v)
    ensures DistinctIdle(v.pool.idle + [t])
  {
    forall i | 0 <= i < |v.pool.idle| ensures v.pool.idle[i].id != t.id {
      assert v.pool.idle[i].id in IdleIds(v);
    }
  }

  /** A texture given back to the pool, having been nowhere else, is idle or gone. */
  lemma RecycleKeeps(v: View, t: Texture)
    requires Owned(v) && t.id !in IdleIds(v) + InFlightIds(v) + ShownIds(v)
    ensures var after := v.(pool := Recycled(v.pool, t));
      Owned(after) && IdleIds(after) <= IdleIds(v) + {t.id} && Total(after) <= Total(v) + 1
  {
    var after := v.(pool := Recycled(v.pool, t));
    assert InFlightIds(after) == InFlightIds(v) && ShownIds(after) == ShownIds(v);
    if Fits(v.pool, t) {
      IdleIdsSnoc(v, t);
      IdleStaysDistinct(v, t);
    }
  }

  lemma DiscardKeeps(v: View, id: BackingStoreId)
    requires Owned(v)
    ensures Owned(Discarded(v, id)) && Total(Discarded(v, id)) <= Total(v)
  {
    if Holds(v, id) {
      var g := id.generation;
      var t := v.inFlight[g];
      assert t.id in InFlightIds(v);
      InFlightIdsRemove(v, g);
      var taken := v.(inFlight := v.inFlight - {g});
      assert IdleIds(taken) == IdleIds(v) && ShownIds(taken) == ShownIds(v);
      RecycleKeeps(taken, t);
    }
  }

  lemma PresentKeeps(v: View, id: BackingStoreId)
    requires Owned(v)
    ensures Owned(Presented(v, id)) && Total(Presented(v, id)) <= Total(v)
  {
    if Holds(v, id) {
      var g := id.generation;
      var t := v.inFlight[g];
      assert t.id in InFlightIds(v);
      InFlightIdsRemove(v, g);
      var shown := v.(inFlight := v.inFlight - {g}, lastGeneration := Some(g), lastRendered := Some(t));
      assert IdleIds(shown) == IdleIds(v);
      assert Owned(shown);
      if v.lastRendered.Some? {
        RecycleKeeps(shown, v.lastRendered.value);
      }
    }
  }

  lemma ResizeKeeps(v: View, width: nat, height: nat)
    requires Owned(v)
    ensures Owned(ViewResized(v, width, height)) && Total(ViewResized(v, width, height)) <= Total(v)
  {
    if v.width != width || v.height != height {
      var emptied := v.(width := width, height := height, lastRendered := None, pool := Pool(width, height, []));
      assert Owned(emptied);
      if v.lastRendered.Some? {
        RecycleKeeps(emptied, v.lastRendered.value);
      }
    }
  }

  lemma RequestKeeps(v: View, e: Event, peak: nat)
    requires Owned(v) && Enabled(v, e) && e.BufferRequest?
    requires Total(v) <= peak + 1
    ensures Owned(Step(v, e))
    ensures Total(Step(v, e)) <= (if |v.inFlight| + 1 > peak then |v.inFlight| + 1 else peak) + 1
  {
    AcquireKeeps(v, e.created);
    var (t, after) := Acquired(v, e.created);
    DiscardKeeps(after, BackingStoreId(v.viewId, v.nextGeneration));
  }

  lemma {:induction false} ReachableOwned(run: Run)
    requires Valid(run)
    ensures Owned(Final(run))
    ensures Total(Final(run)) <= Peak(run) + 1
  {
    if run.Then? {
      ReachableOwned(run.before);
      var v := Final(run.before);
      match run.event {
        case BufferRequest(_, _) => RequestKeeps(v, run.event, Peak(run.before));
        case FramePresented(id, freeze) => DiscardKeeps(v, id); PresentKeeps(v, id);
        case FrameCollected(id) => DiscardKeeps(v, id);
        case OutputResized(width, height) => ResizeKeeps(v, width, height);
      }
    }
  }

  /** In every order of requests, presents, holds, discards and resizes, with late and repeated
      events, no texture is in two places and every idle texture has the view's size. */
  lemma {:induction false} TexturesHaveOneOwner(run: Run)
    requires Valid(run)
    ensures var v := Final(run);
      && IdleIds(v) !! InFlightIds(v) && IdleIds(v) !! ShownIds(v) && InFlightIds(v) !! ShownIds(v)
      && (forall g, h | g in v.inFlight && h in v.inFlight && g != h :: v.inFlight[g].id != v.inFlight[h].id)
      && (forall i | 0 <= i < |v.pool.idle| :: v.pool.idle[i].width == v.width && v.pool.idle[i].height == v.height)
  {
    ReachableOwned(run);
  }

  /** The frame on screen is never handed to Flutter to draw into, nor is a store already out. */
  lemma {:induction false} ShownIsNeverHandedOut(run: Run, created: Option<Texture>)
    requires Valid(run) && Enabled(Final(run), BufferRequest(created, true))
    ensures var t := Acquired(Final(run), created).0;
      t.Some? ==> t.value.id !in ShownIds(Final(run)) && t.value.id !in InFlightIds(Final(run))
  {
    ReachableOwned(run);
    AcquireKeeps(Final(run), created);
  }

  /** The view never keeps more textures than were ever in flight at once, and one on screen. */
  lemma {:induction false} PoolIsBounded(run: Run)
    requires Valid(run)
    ensures Total(Final(run)) <= Peak(run) + 1
  {
    ReachableOwned(run);
  }

  // ----- each store is shown at most once

  function TimesShown(run: Run, id: BackingStoreId): nat
    requires Valid(run)
  {
    if run.Boot? then 0
    else TimesShown(run.before, id)
         + (if run.event == FramePresented(id, false) && Holds(Final(run.before), id) then 1 else 0)
  }

  lemma GenerationsOnlyGrow(v: View, e: Event, g: nat)
    requires forall h | h in v.inFlight :: h < v.nextGeneration
    ensures v.nextGeneration <= Step(v, e).nextGeneration && Step(v, e).viewId == v.viewId
    ensures g < v.nextGeneration && g !in v.inFlight ==> g !in Step(v, e).inFlight
  {
  }

  /** However often the engine reports it, a backing store is put on screen at most once. */
  lemma {:induction false} ShownAtMostOnce(run: Run, id: BackingStoreId)
    requires Valid(run)
    ensures TimesShown(run, id) <= 1
    ensures TimesShown(run, id) == 1 ==>
      id.generation < Final(run).nextGeneration && id.generation !in Final(run).inFlight
  {
    if run.Then? {
      ShownAtMostOnce(run.before, id);
      ReachableOwned(run.before);
      GenerationsOnlyGrow(Final(run.before), run.event, id.generation);
    }
  }
}
