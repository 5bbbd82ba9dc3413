/** Keeping the pointer on the outputs (src/embedder/input_handling.rs:44-86).

    Positions lie on a uniform grid of `unit` steps to the logical pixel, so the largest position
    strictly below an edge is one step before it. */
module PointerConfinement {
  datatype Point = Point(x: int, y: int)
  datatype Output = Output(x: int, y: int, w: int, h: int)

  predicate NonEmpty(o: Output) {
    o.w > 0 && o.h > 0
  }

  /** Outputs are half-open: the far edge is not on them. */
  predicate Contains(o: Output, unit: int, p: Point) {
    o.x * unit <= p.x < (o.x + o.w) * unit && o.y * unit <= p.y < (o.y + o.h) * unit
  }

  function Max(a: int, b: int): int {
    if a >= b then a else b
  }

  function Clamp(v: int, low: int, high: int): int {
    if v < low then low else if v > high then high else v
  }

  function ClampInto(p: Point, o: Output, unit: int): Point {
    var (minX, minY) := (o.x * unit, o.y * unit);
    var maxX, maxY := Max((o.x + o.w) * unit - 1, minX), Max((o.y + o.h) * unit - 1, minY);
    Point(Clamp(p.x, minX, maxX), Clamp(p.y, minY, maxY))
  }

  function Square(n: int): (s: int)
    ensures s >= 0
  {
    n * n
  }

  function Distance(a: Point, b: Point): int {
    Square(b.x - a.x) + Square(b.y - a.y)
  }

  predicate OnSome(outputs: seq<Output>, unit: int, p: Point) {
    exists i | 0 <= i < |outputs| :: Contains(outputs[i], unit, p)
  }

  /** What `confine_to_outputs` returns: a point on an output stays, otherwise it goes into the
      first of the outputs whose clamped point is nearest. */
  ghost predicate ConfinedTo(p: Point, outputs: seq<Output>, unit: int, r: Point) {
    if OnSome(outputs, unit, p) || outputs == [] then r == p
    else exists i | 0 <= i < |outputs| ::
      && r == ClampInto(p, outputs[i], unit)
      && (forall j | 0 <= j < |outputs| :: Distance(p, r) <= Distance(p, ClampInto(p, outputs[j], unit)))
      && (forall j | 0 <= j < i :: Distance(p, r) < Distance(p, ClampInto(p, outputs[j], unit)))
  }

  method ConfineToOutputs(p: Point, outputs: seq<Output>, unit: int) returns (r: Point)
    ensures ConfinedTo(p, outputs, unit, r)
  {
    var best := 0;
    ghost var chosen := 0;
    r := p;
    var i := 0;
    while i < |outputs|
      invariant 0 <= i <= |outputs|
      invariant forall j | 0 <= j < i :: !Contains(outputs[j], unit, p)
      invariant i == 0 ==> r == p
      invariant i > 0 ==>
        && 0 <= chosen < i && r == ClampInto(p, outputs[chosen], unit) && best == Distance(p, r)
        && (forall j | 0 <= j < i :: best <= Distance(p, ClampInto(p, outputs[j], unit)))
        && (forall j | 0 <= j < chosen :: best < Distance(p, ClampInto(p, outputs[j], unit)))
    {
      if Contains(outputs[i], unit, p) {
        return p;
      }
      var candidate := ClampInto(p, outputs[i], unit);
      var distance := Distance(p, candidate);
      if i == 0 || distance < best {
        best, r := distance, candidate;
        chosen := i;
      }
      i := i + 1;
    }
  }

  // ----- it is a nearest-point projection

  lemma SquareGrows(a: int, b: int)
    requires 0 <= a <= b || b <= a <= 0
    ensures Square(a) <= Square(b)
  {
    if 0 <= a <= b {
      assert a * a <= a * b <= b * b;
    } else {
      assert (-a) * (-a) <= (-a) * (-b) <= (-b) * (-b);
    }
  }

  lemma EdgesOf(at: int, length: int, unit: int)
    requires length > 0 && unit > 0
    ensures at * unit + 1 <= (at + length) * unit
  {
    assert (at + length) * unit == at * unit + length * unit;
    assert length * unit >= 1;
  }

  /** Clamping into a non-empty output lands on it, at the point of it nearest to the input. */
  lemma {:induction false} ClampIsNearest(p: Point, o: Output, unit: int, q: Point)
    requires NonEmpty(o) && unit > 0
    ensures Contains(o, unit, ClampInto(p, o, unit))
    ensures Contains(o, unit, q) ==> Distance(p, ClampInto(p, o, unit)) <= Distance(p, q)
  {
    EdgesOf(o.x, o.w, unit);
    EdgesOf(o.y, o.h, unit);
    if Contains(o, unit, q) {
      var c := ClampInto(p, o, unit);
      SquareGrows(c.x - p.x, q.x - p.x);
      SquareGrows(c.y - p.y, q.y - p.y);
    }
  }

  /** With no empty output, the pointer ends up on some output, and no point of any output is
      nearer to where it was sent. */
  lemma {:induction false} ConfinedIsNearest(p: Point, outputs: seq<Output>, unit: int, r: Point)
    requires unit > 0 && outputs != [] && forall i | 0 <= i < |outputs| :: NonEmpty(outputs[i])
    requires ConfinedTo(p, outputs, unit, r)
    ensures OnSome(outputs, unit, r)
    ensures forall q | OnSome(outputs, unit, q) :: Distance(p, r) <= Distance(p, q)
  {
    if OnSome(outputs, unit, p) {
      assert Distance(p, r) == 0;
    } else {
      var i :| 0 <= i < |outputs| && r == ClampInto(p, outputs[i], unit);
      ClampIsNearest(p, outputs[i], unit, p);
      forall q | OnSome(outputs, unit, q) ensures Distance(p, r) <= Distance(p, q) {
        var j :| 0 <= j < |outputs| && Contains(outputs[j], unit, q);
        ClampIsNearest(p, outputs[j], unit, q);
        assert Distance(p, r) <= Distance(p, ClampInto(p, outputs[j], unit));
      }
    }
  }

  /** A point on an output is not moved, so confining twice is confining once. */
  lemma {:induction false} ConfinedTwice(p: Point, outputs: seq<Output>, unit: int, r: Point, r': Point)
    requires unit > 0 && forall i | 0 <= i < |outputs| :: NonEmpty(outputs[i])
    requires ConfinedTo(p, outputs, unit, r) && ConfinedTo(r, outputs, unit, r')
    ensures r' == r
    ensures OnSome(outputs, unit, p) <==> r == p && outputs != []
  {
    if outputs != [] {
      ConfinedIsNearest(p, outputs, unit, r);
    }
  }

  lemma ClampsToItself(p: Point, o: Output, unit: int)
    ensures ClampInto(ClampInto(p, o, unit), o, unit) == ClampInto(p, o, unit)
    ensures NonEmpty(o) && unit > 0 ==> Contains(o, unit, ClampInto(p, o, unit))
  {
    if NonEmpty(o) && unit > 0 {
      ClampIsNearest(p, o, unit, p);
    }
  }

  /** A point some output clamps to itself is where a request for that point ends up. */
  lemma {:induction false} FixedPointIsKept(p: Point, outputs: seq<Output>, unit: int, i: nat)
    requires i < |outputs| && ClampInto(p, outputs[i], unit) == p
    ensures ConfinedTo(p, outputs, unit, p)
    decreases i
  {
    if j: nat :| j < i && ClampInto(p, outputs[j], unit) == p {
      FixedPointIsKept(p, outputs, unit, j);
    } else if !OnSome(outputs, unit, p) {
      assert Distance(p, p) == 0;
      forall j | 0 <= j < i ensures Distance(p, p) < Distance(p, ClampInto(p, outputs[j], unit)) {
        OtherPointIsAway(p, ClampInto(p, outputs[j], unit));
      }
    }
  }

  lemma OtherPointIsAway(p: Point, q: Point)
    requires p != q
    ensures Distance(p, q) > 0
  {
    if p.x != q.x {
      NonZeroSquare(q.x - p.x);
    } else {
      NonZeroSquare(q.y - p.y);
    }
  }

  lemma NonZeroSquare(n: int)
    requires n != 0
    ensures Square(n) > 0
  {
    if n > 0 {
      assert n * n >= n;
    } else {
      assert (-n) * (-n) >= -n;
    }
  }

  /** Outputs without area change the guarantee: the pointer always ends up on some output, from
      anywhere, if and only if there is an output and every point of an empty output that pointers
      are clamped to lies on some other output. */
  lemma AlwaysOnSomeOutputExactly(outputs: seq<Output>, unit: int)
    requires unit > 0
    ensures (forall p, r | ConfinedTo(p, outputs, unit, r) :: OnSome(outputs, unit, r)) <==>
      && outputs != []
      && forall p, i | 0 <= i < |outputs| && !NonEmpty(outputs[i]) && ClampInto(p, outputs[i], unit) == p ::
           OnSome(outputs, unit, p)
  {
    if outputs == [] {
      assert ConfinedTo(Point(0, 0), outputs, unit, Point(0, 0));
    } else if forall p, i | 0 <= i < |outputs| && !NonEmpty(outputs[i]) && ClampInto(p, outputs[i], unit) == p ::
                OnSome(outputs, unit, p) {
      forall p, r | ConfinedTo(p, outputs, unit, r) ensures OnSome(outputs, unit, r) {
        if !OnSome(outputs, unit, p) {
          var i :| 0 <= i < |outputs| && r == ClampInto(p, outputs[i], unit);
          ClampsToItself(p, outputs[i], unit);
        }
      }
    } else {
      var p, i :| 0 <= i < |outputs| && !NonEmpty(outputs[i]) && ClampInto(p, outputs[i], unit) == p
        && !OnSome(outputs, unit, p);
      FixedPointIsKept(p, outputs, unit, i);
    }
  }

  /** An output without area would attract the pointer when it is the nearest; the function itself
      does not exclude one. */
  lemma EmptyOutputAttracts()
    ensures ConfinedTo(Point(0, 0), [Output(5, 0, 0, 4), Output(9, 0, 4, 4)], 2, Point(10, 0))
    ensures !OnSome([Output(5, 0, 0, 4), Output(9, 0, 4, 4)], 2, Point(10, 0))
  {
    var outputs := [Output(5, 0, 0, 4), Output(9, 0, 4, 4)];
    assert ClampInto(Point(0, 0), outputs[0], 2) == Point(10, 0);
    assert ClampInto(Point(0, 0), outputs[1], 2) == Point(18, 0);
    assert Distance(Point(0, 0), Point(10, 0)) == 100 && Distance(Point(0, 0), Point(18, 0)) == 324;
  }
}
