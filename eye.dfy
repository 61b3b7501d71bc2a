/** `Eye`: a fan of photoreceptor cells. Each food the animal can see, near
    enough and inside the field of view, adds its energy to the one cell
    that covers its direction. */
module Eyes {

  /** `PI` and `FRAC_PI_4`, rounded to eight significant digits. */
  const PI: real := 3.1415927
  const FRAC_PI_4: real := 0.78539819

  /** How far the eye sees, as a fraction of the map. */
  const FOV_RANGE: real := 0.25
  /** The width of the field of view. */
  const FOV_ANGLE: real := PI * FRAC_PI_4
  /** The number of photoreceptors. */
  const CELLS: nat := 9

  /** A length, as `norm` gives it: never negative. */
  type Distance = d: real | 0.0 <= d

  /** One food as the eye meets it: its distance from the animal and its
      direction relative to the animal's heading, already wrapped into
      [-PI, PI]. */
  datatype FoodSighting = FoodSighting(dist: Distance, angle: real)

  /** A value cast `as usize`: nothing below zero, otherwise truncated. */
  function ToUsize(x: real): (n: nat)
    ensures x <= 0.0 ==> n == 0
    ensures 0.0 <= x ==> n as real <= x < n as real + 1.0
  {
    if x <= 0.0 then 0 else x.Floor
  }

  datatype Eye = Eye(fovRange: real, fovAngle: real, cells: nat) {

    /** What `Eye::new` asserts, and so holds of every eye. */
    predicate Valid()
    {
      fovRange > 0.0 && fovAngle > 0.0 && cells > 0
    }

    /** `Eye::new`. */
    static function New(fovRange: real, fovAngle: real, cells: nat): (e: Eye)
      requires fovRange > 0.0 && fovAngle > 0.0 && cells > 0
      ensures e.Valid()
      ensures e.fovRange == fovRange && e.fovAngle == fovAngle && e.cells == cells
    {
      Eye(fovRange, fovAngle, cells)
    }

    /** `Eye::default`. */
    static function Default(): (e: Eye)
      ensures e.Valid() && e.Cells() == CELLS
      ensures e == Eye(FOV_RANGE, FOV_ANGLE, CELLS)
    {
      New(FOV_RANGE, FOV_ANGLE, CELLS)
    }

    /** `Eye::cells`: the number of photoreceptors, at least one. */
    function Cells(): (n: nat)
      ensures n == cells
      ensures Valid() ==> n > 0
    {
      cells
    }

    /** A food is seen when it is nearer than the range and its direction is
        within half the field of view either side of the heading. */
    predicate Sees(f: FoodSighting)
    {
      f.dist < fovRange && -fovAngle / 2.0 <= f.angle <= fovAngle / 2.0
    }

    /** Where direction `angle` falls across the field of view, from 0 at
        its left edge to `cells` at its right edge. */
    function Position(angle: real): real
      requires Valid()
    {
      (angle + fovAngle / 2.0) / fovAngle * (cells as real)
    }

    /** The cell covering direction `angle`: the position of the angle
        across the field of view, scaled to the cells and truncated; the
        right edge itself would give `cells`, so it is folded into the last
        cell. */
    function CellIndex(angle: real): (k: nat)
      requires Valid()
      ensures k < cells
    {
      var cell := ToUsize(Position(angle));
      if cell < cells - 1 then cell else cells - 1
    }

    /** The intensity with which a food at `dist` is seen. */
    function Energy(dist: Distance): real
      requires Valid()
    {
      (fovRange - dist) / fovRange
    }

    /** What `process_vision` returns for the foods met in this order: every
        cell starts at 0, and each food seen adds its energy to its cell. */
    function Vision(foods: seq<FoodSighting>): (r: seq<real>)
      requires Valid()
      ensures |r| == cells
      ensures forall k :: 0 <= k < |r| ==> r[k] >= 0.0
      ensures |foods| == 0 ==> forall k :: 0 <= k < |r| ==> r[k] == 0.0
      decreases |foods|
    {
      if |foods| == 0 then seq(cells, _ => 0.0)
      else
        var prev := Vision(foods[..|foods| - 1]);
        var f := foods[|foods| - 1];
        if Sees(f) then
          EnergyBounds(f.dist);
          var k := CellIndex(f.angle);
          prev[k := prev[k] + Energy(f.dist)]
        else prev
    }

    /** `Eye::process_vision` on the foods' distances and directions. */
    method ProcessVision(foods: seq<FoodSighting>) returns (r: seq<real>)
      requires Valid()
      ensures r == Vision(foods)
    {
      var cells := new real[this.cells](_ => 0.0);
      assert cells[..] == Vision(foods[..0]);
      for i := 0 to |foods|
        invariant cells.Length == this.cells
        invariant cells[..] == Vision(foods[..i])
      {
        var food := foods[i];
        ghost var seen := Vision(foods[..i]);
        assert foods[..i + 1] == foods[..i] + [food];
        VisionSnoc(foods[..i], food);
        var dist := food.dist;
        if dist >= fovRange {
          // Out of range: not seen.
          assert Vision(foods[..i + 1]) == seen;
          continue;
        }
        var angle := food.angle;
        if angle < -fovAngle / 2.0 || angle > fovAngle / 2.0 {
          // Outside the field of view: not seen.
          assert Vision(foods[..i + 1]) == seen;
          continue;
        }
        var cell := ToUsize(Position(angle));
        if cell > cells.Length - 1 {
          cell := cells.Length - 1;
        }
        assert cell == CellIndex(angle);
        var energy := Energy(dist);
        cells[cell] := cells[cell] + energy;
        assert cells[..] == seen[cell := seen[cell] + Energy(dist)];
      }
      assert foods[..|foods|] == foods;
      r := cells[..];
    }

    /** Unrolling `Vision` by its last food. */
    lemma VisionSnoc(foods: seq<FoodSighting>, f: FoodSighting)
      requires Valid()
      ensures Vision(foods + [f])
           == if Sees(f) then Vision(foods)[CellIndex(f.angle) := Vision(foods)[CellIndex(f.angle)] + Energy(f.dist)]
              else Vision(foods)
    {
      assert (foods + [f])[..|foods|] == foods;
    }

    /** A food seen has energy in (0, 1]: the nearer, the stronger, and 1
        when it is right at the animal. */
    lemma EnergyBounds(dist: Distance)
      requires Valid() && dist < fovRange
      ensures 0.0 < Energy(dist) <= 1.0
      ensures dist == 0.0 ==> Energy(dist) == 1.0
    {
      var e := Energy(dist);
      assert e * fovRange == fovRange - dist;
      assert fovRange - dist <= fovRange == 1.0 * fovRange;
      CancelPositive(e, 1.0, fovRange);
    }
  }

  lemma CancelPositive(x: real, y: real, c: real)
    requires c > 0.0 && x * c <= y * c
    ensures x <= y
  {
  }

  // ---------------------------------------------------------------------------
  // Properties of the specification

  /** A food the eye does not see changes nothing. */
  lemma UnseenFoodIgnored(eye: Eye, foods: seq<FoodSighting>, f: FoodSighting)
    requires eye.Valid() && !eye.Sees(f)
    ensures eye.Vision(foods + [f]) == eye.Vision(foods)
  {
    assert (foods + [f])[..|foods|] == foods;
  }

  /** A food the eye sees adds its energy to its own cell and to no other. */
  lemma SeenFoodAddsToOneCell(eye: Eye, foods: seq<FoodSighting>, f: FoodSighting, k: nat)
    requires eye.Valid() && eye.Sees(f) && k < eye.cells
    ensures eye.Vision(foods + [f])[k]
         == eye.Vision(foods)[k] + (if k == eye.CellIndex(f.angle) then eye.Energy(f.dist) else 0.0)
  {
    assert (foods + [f])[..|foods|] == foods;
  }

  /** Food exactly at the range is not seen, whatever its direction. */
  lemma FoodAtRangeUnseen(eye: Eye, foods: seq<FoodSighting>, angle: real)
    requires eye.Valid()
    ensures eye.Vision(foods + [FoodSighting(eye.fovRange, angle)]) == eye.Vision(foods)
  {
    UnseenFoodIgnored(eye, foods, FoodSighting(eye.fovRange, angle));
  }

  /** What one food adds to cell `k`. */
  function Contribution(eye: Eye, f: FoodSighting, k: nat): real
    requires eye.Valid()
  {
    if eye.Sees(f) && eye.CellIndex(f.angle) == k then eye.Energy(f.dist) else 0.0
  }

  /** The sum of the contributions of the foods to cell `k`, from the first
      food on. */
  function Total(eye: Eye, foods: seq<FoodSighting>, k: nat): real
    requires eye.Valid()
    decreases |foods|
  {
    if |foods| == 0 then 0.0 else Contribution(eye, foods[0], k) + Total(eye, foods[1..], k)
  }

  lemma {:induction false} TotalAppend(eye: Eye, a: seq<FoodSighting>, b: seq<FoodSighting>, k: nat)
    requires eye.Valid()
    ensures Total(eye, a + b, k) == Total(eye, a, k) + Total(eye, b, k)
    decreases |a|
  {
    if |a| > 0 {
      assert (a + b)[1..] == a[1..] + b;
      TotalAppend(eye, a[1..], b, k);
    } else {
      assert a + b == b;
    }
  }

  /** Each cell holds exactly the summed energy of the foods seen in it. */
  lemma {:induction false} VisionIsTotal(eye: Eye, foods: seq<FoodSighting>, k: nat)
    requires eye.Valid() && k < eye.cells
    ensures eye.Vision(foods)[k] == Total(eye, foods, k)
    decreases |foods|
  {
    if |foods| > 0 {
      var init, f := foods[..|foods| - 1], foods[|foods| - 1];
      assert foods == init + [f];
      VisionIsTotal(eye, init, k);
      TotalAppend(eye, init, [f], k);
      assert Total(eye, [f], k) == Contribution(eye, f, k) by {
        assert [f][1..] == [];
      }
    }
  }

  /** Vision is additive: seeing two groups of foods one after the other
      gives, in every cell, the sum of what each group alone gives. So the
      order in which the foods are met does not matter. */
  lemma VisionAdditive(eye: Eye, a: seq<FoodSighting>, b: seq<FoodSighting>, k: nat)
    requires eye.Valid() && k < eye.cells
    ensures eye.Vision(a + b)[k] == eye.Vision(a)[k] + eye.Vision(b)[k]
    ensures eye.Vision(a + b)[k] == eye.Vision(b + a)[k]
  {
    VisionIsTotal(eye, a + b, k);
    VisionIsTotal(eye, b + a, k);
    VisionIsTotal(eye, a, k);
    VisionIsTotal(eye, b, k);
    TotalAppend(eye, a, b, k);
    TotalAppend(eye, b, a, k);
  }

  /** The scaled position of a direction in the field of view lies in
      [0, cells], reaching `cells` only at the right edge. */
  lemma ScaledPosition(eye: Eye, angle: real)
    requires eye.Valid() && -eye.fovAngle / 2.0 <= angle <= eye.fovAngle / 2.0
    ensures var x := eye.Position(angle);
            && 0.0 <= x <= eye.cells as real
            && (angle < eye.fovAngle / 2.0 ==> x < eye.cells as real)
            && (angle == eye.fovAngle / 2.0 ==> x == eye.cells as real)
  {
    var w, n := eye.fovAngle, eye.cells as real;
    var p := (angle + w / 2.0) / w;
    assert p * w == angle + w / 2.0;
    assert 0.0 <= p <= 1.0;
    assert angle < w / 2.0 ==> p < 1.0;
    assert angle == w / 2.0 ==> p == 1.0;
    assert p * n + (1.0 - p) * n == n;
    assert (1.0 - p) * n >= 0.0;
    assert p * n >= 0.0;
    assert p < 1.0 ==> (1.0 - p) * n > 0.0;
  }

  /** The clamp only ever acts on the right edge: every other direction in
      the field of view gets the truncated scaled position itself, and the
      right edge gets the last cell. */
  lemma CellIndexClamp(eye: Eye, angle: real)
    requires eye.Valid() && -eye.fovAngle / 2.0 <= angle <= eye.fovAngle / 2.0
    ensures angle < eye.fovAngle / 2.0 ==>
              eye.CellIndex(angle) == ToUsize(eye.Position(angle))
    ensures angle == eye.fovAngle / 2.0 ==> eye.CellIndex(angle) == eye.cells - 1
    ensures angle == -eye.fovAngle / 2.0 ==> eye.CellIndex(angle) == 0
  {
    ScaledPosition(eye, angle);
  }

  /** With the default eye, a food straight ahead falls in the middle cell,
      and one at the right edge of the view in the last. */
  lemma DefaultEyeCells()
    ensures Eye.Default().CellIndex(0.0) == 4
    ensures Eye.Default().CellIndex(FOV_ANGLE / 2.0) == 8
  {
    var e := Eye.Default();
    assert (0.0 + FOV_ANGLE / 2.0) / FOV_ANGLE * (9 as real) == 4.5;
    CellIndexClamp(e, FOV_ANGLE / 2.0);
  }
}
