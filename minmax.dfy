/** `MinMaxTransformer` (utils.py): rescales the configured numeric columns with a
    scikit-learn MinMaxScaler of the default range (0, 1), fitted once and then
    applied to copies of later frames. */
module MinMax {
  import opened Frames

  /** The default `features` argument of `MinMaxTransformer.__init__`. */
  const DefaultScaled: seq<Name> := [Field("Age"), Field("Height"), Field("Weight"), Field("BMI")]

  /** The minimum and maximum one column had at fit time. */
  datatype Bounds = Bounds(lo: real, hi: real)

  /** `self.scaler`: None, a MinMaxScaler whose fit raised, or a fitted one. */
  datatype ScalerState = NoScaler | Unfitted | Fitted(bounds: map<Name, Bounds>)

  function MinOf(s: seq<real>): (m: real)
    requires |s| > 0
    ensures m in s
    ensures forall v :: v in s ==> m <= v
  {
    if |s| == 1 then s[0]
    else
      var m := MinOf(s[1..]);
      assert s == [s[0]] + s[1..];
      if s[0] <= m then s[0] else m
  }

  function MaxOf(s: seq<real>): (m: real)
    requires |s| > 0
    ensures m in s
    ensures forall v :: v in s ==> v <= m
  {
    if |s| == 1 then s[0]
    else
      var m := MaxOf(s[1..]);
      assert s == [s[0]] + s[1..];
      if m <= s[0] then s[0] else m
  }

  predicate Numeric(col: seq<Cell>) {
    forall c :: c in col ==> c.Num?
  }

  function Reals(col: seq<Cell>): (r: seq<real>)
    requires Numeric(col)
    ensures |r| == |col|
  {
    seq(|col|, i requires 0 <= i < |col| => col[i].x)
  }

  /** `self.scaler.fit(X[self.features])`: the bounds of every configured column. */
  function FitBounds(t: Table, features: seq<Name>): (r: Result<map<Name, Bounds>>)
    requires WellFormed(t)
    ensures r.Ok? <==>
      Has(t, features) && |t.index| > 0 && features != [] && forall f :: f in features ==> Numeric(t.cells[f])
    ensures r.Ok? ==> forall f :: f in r.value <==> f in features
    ensures r.Ok? ==> forall f :: f in features ==>
      && r.value[f].lo in Reals(t.cells[f]) && r.value[f].hi in Reals(t.cells[f])
      && forall x :: x in Reals(t.cells[f]) ==> r.value[f].lo <= x <= r.value[f].hi
  {
    if !Has(t, features) then Err(MissingColumns)
    else if |t.index| == 0 then Err(EmptyInput)
    else if features == [] then Err(NoFeatures)
    else if exists f :: f in features && !Numeric(t.cells[f]) then Err(NotNumeric)
    else Ok(map f | f in features :: Bounds(MinOf(Reals(t.cells[f])), MaxOf(Reals(t.cells[f]))))
  }

  /** Every configured column has fitted bounds of non-zero width. */
  ghost predicate Scalable(bounds: map<Name, Bounds>, features: seq<Name>) {
    forall f :: f in features ==> f in bounds && bounds[f].lo != bounds[f].hi
  }

  /** MinMaxScaler's formula for the range (0, 1). */
  function Scale(v: real, b: Bounds): (s: real)
    requires b.lo != b.hi
    ensures s * (b.hi - b.lo) == v - b.lo
  {
    (v - b.lo) / (b.hi - b.lo)
  }

  function ScaledColumn(col: seq<Cell>, b: Bounds): (r: seq<Cell>)
    requires Numeric(col) && b.lo != b.hi
    ensures |r| == |col|
  {
    seq(|col|, i requires 0 <= i < |col| => Num(Scale(col[i].x, b)))
  }

  /** `MinMaxTransformer.transform(X)`: X itself when a configured column is
      missing, else a copy whose configured columns are rescaled. */
  function MinMaxTransform(t: Table, features: seq<Name>, scaler: ScalerState): (r: Result<Table>)
    requires WellFormed(t)
    requires Has(t, features) && scaler.Fitted? ==> Scalable(scaler.bounds, features)
    ensures r.Ok? ==> WellFormed(r.value)
  {
    if !Has(t, features) then Ok(t)
    else if !scaler.Fitted? then Err(NotFitted)
    else if exists f :: f in features && !Numeric(t.cells[f]) then Err(NotNumeric)
    else if |t.index| == 0 then Err(EmptyInput)
    else Ok(Overwritten(t, map f | f in features :: ScaledColumn(t.cells[f], scaler.bounds[f])))
  }

  /** The transform keeps the column order, the index and every column that is not
      configured; a configured cell equal to the fitted minimum becomes 0 and one
      equal to the fitted maximum becomes 1; the order of values is kept. */
  lemma MinMaxTransformShape(t: Table, features: seq<Name>, bounds: map<Name, Bounds>)
    requires WellFormed(t) && Has(t, features) && Scalable(bounds, features)
    requires forall f :: f in features ==> Numeric(t.cells[f])
    ensures MinMaxTransform(t, features, Fitted(bounds)).Ok? <==> |t.index| > 0
    ensures |t.index| > 0 ==> var r := MinMaxTransform(t, features, Fitted(bounds)).value;
      && r.columns == t.columns && r.index == t.index
      && (forall c :: c in t.cells && c !in features ==> r.cells[c] == t.cells[c])
      && (forall f, i :: f in features && 0 <= i < |t.index| && t.cells[f][i] == Num(bounds[f].lo) ==>
            r.cells[f][i] == Num(0.0))
      && (forall f, i :: f in features && 0 <= i < |t.index| && t.cells[f][i] == Num(bounds[f].hi) ==>
            r.cells[f][i] == Num(1.0))
      && (forall f, i, j ::
            (f in features && 0 <= i < |t.index| && 0 <= j < |t.index| &&
             bounds[f].lo < bounds[f].hi && t.cells[f][i].x <= t.cells[f][j].x) ==>
            r.cells[f][i].x <= r.cells[f][j].x)
  {
    if |t.index| > 0 {
      var r := MinMaxTransform(t, features, Fitted(bounds)).value;
      forall f, i | f in features && 0 <= i < |t.index|
        ensures r.cells[f][i] == Num(Scale(t.cells[f][i].x, bounds[f]))
      {
        ScaledAt(t, features, bounds, f, i);
      }
      forall f | f in features
        ensures Scale(bounds[f].hi, bounds[f]) == 1.0
      {
        ScaleTop(bounds[f]);
      }
      forall f, i, j | f in features && 0 <= i < |t.index| && 0 <= j < |t.index| &&
        bounds[f].lo < bounds[f].hi && t.cells[f][i].x <= t.cells[f][j].x
        ensures r.cells[f][i].x <= r.cells[f][j].x
      {
        ScaleMonotone(t.cells[f][i].x, t.cells[f][j].x, bounds[f]);
      }
    }
  }

  /** Where the rescaled value of one configured cell comes from. */
  lemma ScaledAt(t: Table, features: seq<Name>, bounds: map<Name, Bounds>, f: Name, i: int)
    requires WellFormed(t) && Has(t, features) && Scalable(bounds, features)
    requires forall g :: g in features ==> Numeric(t.cells[g])
    requires f in features && 0 <= i < |t.index|
    ensures MinMaxTransform(t, features, Fitted(bounds)).Ok?
    ensures MinMaxTransform(t, features, Fitted(bounds)).value.cells[f][i] == Num(Scale(t.cells[f][i].x, bounds[f]))
  {
  }

  lemma ScaleTop(b: Bounds)
    requires b.lo != b.hi
    ensures Scale(b.hi, b) == 1.0
  {
    DivSelf(b.hi - b.lo);
  }

  lemma DivSelf(d: real)
    requires d != 0.0
    ensures d / d == 1.0
  {
  }

  lemma ScaleMonotone(v: real, w: real, b: Bounds)
    requires b.lo < b.hi && v <= w
    ensures Scale(v, b) <= Scale(w, b)
  {
    var d := b.hi - b.lo;
    assert Scale(w, b) - Scale(v, b) == (w - v) / d;
  }

  lemma ScaleInUnitRange(v: real, b: Bounds)
    requires b.lo <= v <= b.hi && b.lo < b.hi
    ensures 0.0 <= Scale(v, b) <= 1.0
  {
    var d := b.hi - b.lo;
    assert Scale(v, b) * d == v - b.lo;
  }

  /** Transforming the frame the scaler was fitted on: every configured value lands
      in [0, 1], and each configured column reaches both 0 and 1 (its fitted
      minimum and maximum occur in it). */
  lemma FitThenTransformInUnitRange(t: Table, features: seq<Name>)
    requires WellFormed(t)
    requires FitBounds(t, features).Ok?
    requires Scalable(FitBounds(t, features).value, features)
    ensures var b := FitBounds(t, features).value;
      && MinMaxTransform(t, features, Fitted(b)).Ok?
      && var r := MinMaxTransform(t, features, Fitted(b)).value;
      && (forall f, i :: f in features && 0 <= i < |t.index| ==>
            r.cells[f][i].Num? && 0.0 <= r.cells[f][i].x <= 1.0)
      && (forall f :: f in features ==>
            (exists i :: 0 <= i < |t.index| && r.cells[f][i] == Num(0.0)) &&
            (exists i :: 0 <= i < |t.index| && r.cells[f][i] == Num(1.0)))
  {
    var b := FitBounds(t, features).value;
    var r := MinMaxTransform(t, features, Fitted(b)).value;
    forall f, i | f in features && 0 <= i < |t.index|
      ensures r.cells[f][i].Num? && 0.0 <= r.cells[f][i].x <= 1.0
    {
      FittedCellInUnitRange(t, features, f, i);
    }
    forall f | f in features
      ensures (exists i :: 0 <= i < |t.index| && r.cells[f][i] == Num(0.0))
           && (exists i :: 0 <= i < |t.index| && r.cells[f][i] == Num(1.0))
    {
      FittedColumnReachesEnds(t, features, f);
    }
  }

  lemma FittedColumnReachesEnds(t: Table, features: seq<Name>, f: Name)
    requires WellFormed(t)
    requires FitBounds(t, features).Ok?
    requires Scalable(FitBounds(t, features).value, features)
    requires f in features
    ensures var b := FitBounds(t, features).value;
      && MinMaxTransform(t, features, Fitted(b)).Ok?
      && var r := MinMaxTransform(t, features, Fitted(b)).value;
      && (exists i :: 0 <= i < |t.index| && r.cells[f][i] == Num(0.0))
      && (exists i :: 0 <= i < |t.index| && r.cells[f][i] == Num(1.0))
  {
    var b := FitBounds(t, features).value;
    var vs := Reals(t.cells[f]);
    assert b[f] == Bounds(MinOf(vs), MaxOf(vs));
    var i :| 0 <= i < |vs| && vs[i] == b[f].lo;
    var j :| 0 <= j < |vs| && vs[j] == b[f].hi;
    ScaledAt(t, features, b, f, i);
    ScaledAt(t, features, b, f, j);
    ScaleTop(b[f]);
  }

  lemma FittedCellInUnitRange(t: Table, features: seq<Name>, f: Name, i: int)
    requires WellFormed(t)
    requires FitBounds(t, features).Ok?
    requires Scalable(FitBounds(t, features).value, features)
    requires f in features && 0 <= i < |t.index|
    ensures var b := FitBounds(t, features).value;
      && MinMaxTransform(t, features, Fitted(b)).Ok?
      && var r := MinMaxTransform(t, features, Fitted(b)).value;
      && r.cells[f][i].Num? && 0.0 <= r.cells[f][i].x <= 1.0
  {
    var b := FitBounds(t, features).value;
    var vs := Reals(t.cells[f]);
    assert vs[i] == t.cells[f][i].x && vs[i] in vs;
    assert b[f] == Bounds(MinOf(vs), MaxOf(vs));
    ScaledAt(t, features, b, f, i);
    ScaleInUnitRange(vs[i], b[f]);
  }

  /** The transformer object: `features` is fixed at construction, `scaler` is set by `Fit`. */
  class MinMaxTransformer {
    const features: seq<Name>
    var scaler: ScalerState

    ghost predicate Valid()
      reads this
    {
      scaler.Fitted? ==> forall f :: f in scaler.bounds <==> f in features
    }

    constructor (features: seq<Name> := DefaultScaled)
      ensures Valid() && this.features == features && scaler == NoScaler
    {
      this.features := features;
      scaler := NoScaler;
    }

    /** `fit(X)`: a new scaler is stored first, then fitted; if fitting raises, the
        stored scaler stays unfitted. */
    method Fit(X: DataFrame) returns (outcome: Result<()>)
      requires X.Valid()
      modifies this
      ensures Valid() && unchanged(X)
      ensures FitBounds(X.View(), features).Ok? ==> scaler == Fitted(FitBounds(X.View(), features).value) && outcome == Ok(())
      ensures FitBounds(X.View(), features).Err? ==> scaler == Unfitted && outcome == Err(FitBounds(X.View(), features).error)
    {
      scaler := Unfitted;
      var fitted := FitBounds(X.View(), features);
      if fitted.Err? {
        return Err(fitted.error);
      }
      scaler := Fitted(fitted.value);
      return Ok(());
    }

    /** `transform(X)`: the same object X when a configured column is missing,
        otherwise a fresh copy with the configured columns rescaled. */
    method Transform(X: DataFrame) returns (r: Result<DataFrame>)
      requires Valid() && X.Valid()
      requires Has(X.View(), features) && scaler.Fitted? ==> Scalable(scaler.bounds, features)
      ensures unchanged(X)
      ensures r.Ok? <==> MinMaxTransform(X.View(), features, scaler).Ok?
      ensures r.Ok? ==> r.value.Valid() && r.value.View() == MinMaxTransform(X.View(), features, scaler).value
      ensures !Has(X.View(), features) ==> r == Ok(X)
      ensures Has(X.View(), features) && r.Ok? ==> fresh(r.value)
      ensures r.Err? ==> MinMaxTransform(X.View(), features, scaler) == Err(r.error)
    {
      if Has(X.View(), features) {
        var copy := X.Copy();
        if !scaler.Fitted? {
          return Err(NotFitted);
        }
        if exists f :: f in features && !Numeric(copy.cells[f]) {
          return Err(NotNumeric);
        }
        if |copy.index| == 0 {
          return Err(EmptyInput);
        }
        copy.Overwrite(map f | f in features :: ScaledColumn(copy.cells[f], scaler.bounds[f]));
        return Ok(copy);
      } else {
        return Ok(X);
      }
    }
  }
}
