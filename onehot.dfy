/** `OneHotEncodingTransformer` (utils.py): a scikit-learn OneHotEncoder with
    `handle_unknown='ignore'` over the configured categorical columns. Transforming
    drops those columns and appends one 0/1 column per (feature, category) learned
    at fit time, after the remaining columns. */
module OneHot {
  import opened Frames
  import opened Categories

  /** The default `onehot_features` argument of `OneHotEncodingTransformer.__init__`. */
  const DefaultOneHot: seq<Name> := [Field("CAEC"), Field("CALC"), Field("MTRANS")]

  /** `self.encoder`: None, an encoder whose fit raised, or a fitted one holding
      `categories_`, one ascending list per configured feature. */
  datatype EncoderState = NoEncoder | Unfitted | Fitted(categories: seq<seq<Cell>>)

  /** What a fitted encoder's categories satisfy. */
  ghost predicate CategoriesOk(features: seq<Name>, cats: seq<seq<Cell>>) {
    && Distinct(features)
    && |cats| == |features|
    && forall k :: 0 <= k < |cats| ==> Increasing(cats[k])
  }

  /** `OneHotEncoder.fit(X[features]).categories_`; the first feature whose column
      cannot be sorted makes it raise. */
  function CategoriesOf(t: Table, features: seq<Name>): (r: Result<seq<seq<Cell>>>)
    requires WellFormed(t) && Has(t, features)
    ensures r.Ok? <==> forall f :: f in features ==> Homogeneous(t.cells[f])
    ensures r.Ok? ==> |r.value| == |features|
    ensures r.Ok? ==> forall k :: 0 <= k < |features| ==>
      Increasing(r.value[k]) && forall c :: c in r.value[k] <==> c in t.cells[features[k]]
  {
    if features == [] then Ok([])
    else if !Homogeneous(t.cells[features[0]]) then Err(MixedTypes(features[0]))
    else match CategoriesOf(t, features[1..])
      case Err(e) => Err(e)
      case Ok(rest) => Ok([Unique(t.cells[features[0]])] + rest)
  }

  /** The labels of one feature's dummy columns, in category order. */
  function Block(f: Name, cats: seq<Cell>): (r: seq<Name>)
    ensures |r| == |cats|
  {
    seq(|cats|, j requires 0 <= j < |cats| => Dummy(f, cats[j]))
  }

  /** `get_feature_names_out(features)`: the blocks of all features, in feature order. */
  function DummyNames(features: seq<Name>, cats: seq<seq<Cell>>): (r: seq<Name>)
    requires |features| == |cats|
    ensures forall n :: n in r ==> n.Dummy? && n.feature in features
  {
    if features == [] then [] else Block(features[0], cats[0]) + DummyNames(features[1..], cats[1..])
  }

  /** Which labels the dummy names are, and that there are no repeats among them. */
  lemma {:induction false} DummyNamesShape(features: seq<Name>, cats: seq<seq<Cell>>)
    requires CategoriesOk(features, cats)
    ensures Distinct(DummyNames(features, cats))
    ensures forall n :: n in DummyNames(features, cats) <==>
      n.Dummy? && exists k :: 0 <= k < |features| && n.feature == features[k] && n.category in cats[k]
  {
    if features != [] {
      var f, fs, cs := features[0], features[1..], cats[1..];
      assert CategoriesOk(fs, cs) by {
        forall i, j | 0 <= i < j < |fs| ensures fs[i] != fs[j] {
          assert fs[i] == features[i + 1] && fs[j] == features[j + 1];
        }
        forall k | 0 <= k < |cs| ensures Increasing(cs[k]) {
          assert cs[k] == cats[k + 1];
        }
      }
      DummyNamesShape(fs, cs);
      var head, tail := Block(f, cats[0]), DummyNames(fs, cs);
      assert DummyNames(features, cats) == head + tail;
      IncreasingDistinct(cats[0]);
      assert forall n :: n in head ==> n !in tail;
      DistinctAppend(head, tail);
      forall n: Name ensures n in head + tail <==>
        n.Dummy? && exists k :: 0 <= k < |features| && n.feature == features[k] && n.category in cats[k]
      {
        if n.Dummy? && n.feature == f && n.category in cats[0] {
          var j :| 0 <= j < |cats[0]| && cats[0][j] == n.category;
          assert head[j] == n;
        }
        if n in tail {
          var k :| 0 <= k < |fs| && n.feature == fs[k] && n.category in cs[k];
          assert features[k + 1] == fs[k] && cats[k + 1] == cs[k];
        }
        if n.Dummy? && n.feature != f && exists k :: 0 <= k < |features| && n.feature == features[k] && n.category in cats[k] {
          var k :| 0 <= k < |features| && n.feature == features[k] && n.category in cats[k];
          assert k != 0;
          assert fs[k - 1] == features[k] && cs[k - 1] == cats[k];
        }
      }
    }
  }

  /** With distinct features, `Dummy(features[k], c)` is a dummy label exactly when
      `c` is one of feature k's categories. */
  lemma DummyNameOf(features: seq<Name>, cats: seq<seq<Cell>>, k: int, c: Cell)
    requires CategoriesOk(features, cats) && 0 <= k < |features|
    ensures Dummy(features[k], c) in DummyNames(features, cats) <==> c in cats[k]
  {
    DummyNamesShape(features, cats);
    if Dummy(features[k], c) in DummyNames(features, cats) {
      var k' :| 0 <= k' < |features| && features[k] == features[k'] && c in cats[k'];
      assert k == k';
    }
  }

  function Indicator(v: Cell, c: Cell): Cell {
    if v == c then Num(1.0) else Num(0.0)
  }

  /** The dummy column of category `c` for a column of values. */
  function DummyColumn(col: seq<Cell>, c: Cell): (r: seq<Cell>)
    ensures |r| == |col|
  {
    seq(|col|, i requires 0 <= i < |col| => Indicator(col[i], c))
  }

  /** `encoder.transform(X[features])`, one column per dummy label. */
  function DummyCells(t: Table, names: seq<Name>): map<Name, seq<Cell>> {
    map n | n in names :: if n.Dummy? && n.feature in t.cells then DummyColumn(t.cells[n.feature], n.category) else []
  }

  /** The frame of dummy columns on X's index. */
  function Encoded(t: Table, features: seq<Name>, cats: seq<seq<Cell>>): (r: Table)
    requires WellFormed(t) && Has(t, features) && CategoriesOk(features, cats)
    ensures WellFormed(r) && r.columns == DummyNames(features, cats) && r.index == t.index
  {
    var names := DummyNames(features, cats);
    DummyNamesShape(features, cats);
    Table(names, DummyCells(t, names), t.index)
  }

  /** No existing label of `t` collides with a dummy label. */
  ghost predicate NoClash(t: Table, features: seq<Name>, cats: seq<seq<Cell>>)
    requires |features| == |cats|
  {
    forall n :: n in t.columns ==> n !in DummyNames(features, cats)
  }

  /** `OneHotEncodingTransformer.transform(X)`: X itself when a configured column
      is missing; otherwise the other columns followed by the dummy columns. */
  function OneHotTransform(t: Table, features: seq<Name>, enc: EncoderState): (r: Result<Table>)
    requires WellFormed(t)
    requires Has(t, features) && enc.Fitted? ==>
      CategoriesOk(features, enc.categories) && NoClash(t, features, enc.categories)
    ensures r.Ok? ==> WellFormed(r.value)
  {
    if !Has(t, features) then Ok(t)
    else if !enc.Fitted? then Err(NotFitted)
    else if |t.index| == 0 then Err(EmptyInput)
    else Ok(Concat(Dropped(t, features), Encoded(t, features, enc.categories)))
  }

  /** The layout of a transformed frame: the columns other than the configured ones
      in their original order, then the dummy columns in fit order; the index and
      every kept column unchanged; every configured column gone. */
  lemma OneHotLayout(t: Table, features: seq<Name>, cats: seq<seq<Cell>>)
    requires WellFormed(t) && Has(t, features)
    requires CategoriesOk(features, cats) && NoClash(t, features, cats)
    ensures OneHotTransform(t, features, Fitted(cats)).Ok? <==> |t.index| > 0
    ensures |t.index| > 0 ==> var r := OneHotTransform(t, features, Fitted(cats)).value;
      && r.columns == Without(t.columns, features) + DummyNames(features, cats)
      && r.index == t.index
      && (forall c :: c in t.cells && c !in features ==> r.cells[c] == t.cells[c])
      && (forall f :: f in features ==> f !in r.columns)
  {
    if |t.index| > 0 {
      var r := OneHotTransform(t, features, Fitted(cats)).value;
      DummyNamesShape(features, cats);
      WithoutMembers(t.columns, features);
      forall f | f in features ensures f !in r.columns {
        assert f !in Without(t.columns, features);
        assert f in t.columns;
      }
    }
  }

  /** The cell of dummy column (features[k], c) in row i is 1 when row i's value of
      features[k] is c and 0 otherwise. */
  lemma OneHotCell(t: Table, features: seq<Name>, cats: seq<seq<Cell>>, k: int, c: Cell, i: int)
    requires WellFormed(t) && Has(t, features)
    requires CategoriesOk(features, cats) && NoClash(t, features, cats)
    requires 0 <= k < |features| && c in cats[k] && 0 <= i < |t.index|
    ensures var r := OneHotTransform(t, features, Fitted(cats)).value;
      && Dummy(features[k], c) in r.cells
      && r.cells[Dummy(features[k], c)][i] == Indicator(t.cells[features[k]][i], c)
  {
    DummyNameOf(features, cats, k, c);
  }

  /** The number of 1 cells in a row of cells. */
  function Ones(row: seq<Cell>): nat {
    if row == [] then 0 else (if row[0] == Num(1.0) then 1 else 0) + Ones(row[1..])
  }

  /** One row of one feature's dummy block: the indicators of `v` for each category. */
  function BlockRow(v: Cell, cats: seq<Cell>): (r: seq<Cell>)
    ensures |r| == |cats|
  {
    seq(|cats|, j requires 0 <= j < |cats| => Indicator(v, cats[j]))
  }

  /** A dummy block row holds exactly one 1 when the value was seen at fit time and
      none when it was not. */
  lemma {:induction false} BlockRowOnes(v: Cell, cats: seq<Cell>)
    requires Distinct(cats)
    ensures Ones(BlockRow(v, cats)) == if v in cats then 1 else 0
  {
    if cats != [] {
      var rest := cats[1..];
      assert Distinct(rest) by {
        forall i, j | 0 <= i < j < |rest| ensures rest[i] != rest[j] {
          assert rest[i] == cats[i + 1] && rest[j] == cats[j + 1];
        }
      }
      BlockRowOnes(v, rest);
      assert BlockRow(v, cats)[1..] == BlockRow(v, rest);
      assert cats == [cats[0]] + rest;
      if v == cats[0] {
        assert v !in rest;
      }
    }
  }

  /** Row i of the block of features[k] in the transformed frame, read column by column. */
  lemma OneHotRowBlock(t: Table, features: seq<Name>, cats: seq<seq<Cell>>, k: int, i: int)
    requires WellFormed(t) && Has(t, features)
    requires CategoriesOk(features, cats) && NoClash(t, features, cats)
    requires 0 <= k < |features| && 0 <= i < |t.index|
    ensures var r := OneHotTransform(t, features, Fitted(cats)).value;
      && (forall c :: c in cats[k] ==> Dummy(features[k], c) in r.cells)
      && seq(|cats[k]|, j requires 0 <= j < |cats[k]| => r.cells[Dummy(features[k], cats[k][j])][i])
           == BlockRow(t.cells[features[k]][i], cats[k])
      && Ones(BlockRow(t.cells[features[k]][i], cats[k])) == if t.cells[features[k]][i] in cats[k] then 1 else 0
  {
    forall c | c in cats[k] ensures Dummy(features[k], c) in OneHotTransform(t, features, Fitted(cats)).value.cells {
      OneHotCell(t, features, cats, k, c, 0 + i);
    }
    forall j | 0 <= j < |cats[k]| {
      OneHotCell(t, features, cats, k, cats[k][j], i);
    }
    IncreasingDistinct(cats[k]);
    BlockRowOnes(t.cells[features[k]][i], cats[k]);
  }

  /** Feeding a transformed frame back in takes the pass-through path: its
      configured columns are gone. */
  lemma TransformTwicePassesThrough(t: Table, features: seq<Name>, cats: seq<seq<Cell>>)
    requires WellFormed(t) && Has(t, features) && features != []
    requires CategoriesOk(features, cats) && NoClash(t, features, cats)
    ensures var r := OneHotTransform(t, features, Fitted(cats));
      r.Ok? ==> !Has(r.value, features) && OneHotTransform(r.value, features, Fitted(cats)) == r
  {
    OneHotLayout(t, features, cats);
    assert features[0] in features;
  }

  /** A fit on a frame holding every configured column learns, per feature, as many
      categories as the column has distinct values, hence that many dummy columns. */
  lemma CategoryCount(t: Table, features: seq<Name>, k: int)
    requires WellFormed(t) && Has(t, features)
    requires CategoriesOf(t, features).Ok? && 0 <= k < |features|
    ensures |CategoriesOf(t, features).value[k]| == |set c | c in t.cells[features[k]]|
    ensures |Block(features[k], CategoriesOf(t, features).value[k])| == |set c | c in t.cells[features[k]]|
  {
    var cats := CategoriesOf(t, features).value;
    IncreasingDistinct(cats[k]);
    DistinctCard(cats[k]);
    assert (set c | c in cats[k]) == (set c | c in t.cells[features[k]]);
  }

  /** The transformer object: `onehotFeatures` is fixed at construction; `Fit` sets
      `encoder` and `featureNames`. */
  class OneHotEncodingTransformer {
    const onehotFeatures: seq<Name>
    var encoder: EncoderState
    var featureNames: Option<seq<Name>>

    ghost predicate Valid()
      reads this
    {
      && Distinct(onehotFeatures)
      && (encoder.Fitted? ==>
            && CategoriesOk(onehotFeatures, encoder.categories)
            && featureNames == Some(DummyNames(onehotFeatures, encoder.categories)))
    }

    constructor (onehotFeatures: seq<Name> := DefaultOneHot)
      requires Distinct(onehotFeatures)
      ensures Valid() && this.onehotFeatures == onehotFeatures
      ensures encoder == NoEncoder && featureNames == None
    {
      this.onehotFeatures := onehotFeatures;
      encoder := NoEncoder;
      featureNames := None;
    }

    /** `fit(X)`: does nothing unless every configured column is present; a new
        encoder is stored first, so a fit that raises leaves it unfitted. */
    method Fit(X: DataFrame) returns (outcome: Result<()>)
      requires Valid() && X.Valid()
      modifies this
      ensures Valid() && unchanged(X)
      ensures !Has(X.View(), onehotFeatures) ==>
        encoder == old(encoder) && featureNames == old(featureNames) && outcome == Ok(())
      ensures Has(X.View(), onehotFeatures) && CategoriesOf(X.View(), onehotFeatures).Ok? ==>
        var cats := CategoriesOf(X.View(), onehotFeatures).value;
        encoder == Fitted(cats) && featureNames == Some(DummyNames(onehotFeatures, cats)) && outcome == Ok(())
      ensures Has(X.View(), onehotFeatures) && CategoriesOf(X.View(), onehotFeatures).Err? ==>
        encoder == Unfitted && featureNames == old(featureNames)
        && outcome == Err(CategoriesOf(X.View(), onehotFeatures).error)
    {
      if Has(X.View(), onehotFeatures) {
        encoder := Unfitted;
        var fitted := CategoriesOf(X.View(), onehotFeatures);
        if fitted.Err? {
          return Err(fitted.error);
        }
        encoder := Fitted(fitted.value);
        featureNames := Some(DummyNames(onehotFeatures, fitted.value));
      }
      return Ok(());
    }

    /** `transform(X)`: the same object X when a configured column is missing,
        otherwise a fresh frame. */
    method Transform(X: DataFrame) returns (r: Result<DataFrame>)
      requires Valid() && X.Valid()
      requires Has(X.View(), onehotFeatures) && encoder.Fitted? ==>
        NoClash(X.View(), onehotFeatures, encoder.categories)
      ensures unchanged(X)
      ensures r.Ok? <==> OneHotTransform(X.View(), onehotFeatures, encoder).Ok?
      ensures r.Ok? ==> r.value.Valid() && r.value.View() == OneHotTransform(X.View(), onehotFeatures, encoder).value
      ensures !Has(X.View(), onehotFeatures) ==> r == Ok(X)
      ensures Has(X.View(), onehotFeatures) && r.Ok? ==> fresh(r.value)
      ensures r.Err? ==> OneHotTransform(X.View(), onehotFeatures, encoder) == Err(r.error)
    {
      if Has(X.View(), onehotFeatures) {
        var copy := X.Copy();
        if !encoder.Fitted? {
          return Err(NotFitted);
        }
        if |copy.index| == 0 {
          return Err(EmptyInput);
        }
        var encoded := new DataFrame(Encoded(copy.View(), onehotFeatures, encoder.categories));
        var kept := copy.Drop(onehotFeatures);
        DummyNamesShape(onehotFeatures, encoder.categories);
        var full := ConcatColumns(kept, encoded);
        return Ok(full);
      } else {
        return Ok(X);
      }
    }
  }
}
