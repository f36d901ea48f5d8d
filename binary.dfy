/** `BinaryEncoder` (utils.py): one scikit-learn LabelEncoder per configured
    feature, fitted on the features present in the fit frame and applied to a copy
    of later frames. A LabelEncoder codes each value by its position among the
    sorted distinct values it was fitted on. */
module Binary {
  import opened Frames
  import opened Categories

  /** The default `binary_features` argument of `BinaryEncoder.__init__`. */
  const DefaultBinary: seq<Name> :=
    [Field("Gender"), Field("family_history"), Field("FAVC"), Field("SMOKE"), Field("SCC")]

  /** `self.encoders`: a Python dict, so its keys keep their insertion order.
      Each encoder is represented by its `classes_`. */
  datatype Registry = Registry(keys: seq<Name>, encoders: map<Name, seq<Cell>>)

  ghost predicate RegistryOk(reg: Registry) {
    && Distinct(reg.keys)
    && (forall k :: k in reg.encoders <==> k in reg.keys)
    && (forall k :: k in reg.encoders ==> Increasing(reg.encoders[k]))
  }

  /** `reg[k] = v`: a new key goes last, an existing key keeps its place. */
  function Put(reg: Registry, k: Name, v: seq<Cell>): (r: Registry)
    requires RegistryOk(reg) && Increasing(v)
    ensures RegistryOk(r)
    ensures r.encoders == reg.encoders[k := v]
    ensures r.keys == if k in reg.encoders then reg.keys else reg.keys + [k]
  {
    if k in reg.encoders then Registry(reg.keys, reg.encoders[k := v])
    else
      DistinctAppend(reg.keys, [k]);
      Registry(reg.keys + [k], reg.encoders[k := v])
  }

  /** `LabelEncoder().fit(col).classes_` */
  function LabelFit(col: seq<Cell>, feature: Name): (r: Result<seq<Cell>>)
    ensures r.Ok? <==> Homogeneous(col)
    ensures r.Ok? ==> Increasing(r.value) && forall c :: c in r.value <==> c in col
  {
    if Homogeneous(col) then Ok(Unique(col)) else Err(MixedTypes(feature))
  }

  /** Every value of `col` was seen at fit time. */
  predicate Known(classes: seq<Cell>, col: seq<Cell>) {
    forall c :: c in col ==> c in classes
  }

  /** `encoder.transform(col)` on a column of seen values: each value's code is a
      position at which the fitted classes hold that value, so `classes[code]`
      (LabelEncoder.inverse_transform) gives the value back. */
  function Codes(classes: seq<Cell>, col: seq<Cell>): (r: seq<nat>)
    requires Known(classes, col)
    ensures |r| == |col|
    ensures forall i :: 0 <= i < |col| ==> r[i] < |classes| && classes[r[i]] == col[i]
  {
    seq(|col|, i requires 0 <= i < |col| => IndexIn(classes, col[i]))
  }

  /** With sorted classes a value has one position only, so its code is its rank
      among the distinct values seen at fit time. */
  lemma CodesAreRanks(classes: seq<Cell>, col: seq<Cell>, i: int, j: int)
    requires Increasing(classes) && Known(classes, col)
    requires 0 <= i < |col| && 0 <= j < |classes| && classes[j] == col[i]
    ensures Codes(classes, col)[i] == j
  {
    IncreasingDistinct(classes);
  }

  /** The codes as the integer cells pandas stores. */
  function AsCells(codes: seq<nat>): (r: seq<Cell>)
    ensures |r| == |codes|
  {
    seq(|codes|, i requires 0 <= i < |codes| => Num(codes[i] as real))
  }

  /** The loop of `fit`, from feature `fs[0]` on: a present feature gets a new
      encoder; if fitting one raises, the loop stops with the entries made so far. */
  function FitFrom(t: Table, fs: seq<Name>, reg: Registry): (r: (Registry, Result<()>))
    requires WellFormed(t) && RegistryOk(reg)
    ensures RegistryOk(r.0)
    decreases |fs|
  {
    if fs == [] then (reg, Ok(()))
    else if fs[0] !in t.columns then FitFrom(t, fs[1..], reg)
    else match LabelFit(t.cells[fs[0]], fs[0])
      case Err(e) => (reg, Err(e))
      case Ok(classes) => FitFrom(t, fs[1..], Put(reg, fs[0], classes))
  }

  /** A completed fit has an encoder for each configured feature present in the
      frame, fitted on that column, and leaves every other entry as it was; it
      fails exactly when a present configured column mixes strings and numbers. */
  lemma {:induction false} FitFromSpec(t: Table, fs: seq<Name>, reg: Registry)
    requires WellFormed(t) && RegistryOk(reg)
    ensures FitFrom(t, fs, reg).1.Ok? <==> forall f :: f in fs && f in t.cells ==> Homogeneous(t.cells[f])
    ensures FitFrom(t, fs, reg).1.Ok? ==>
      var enc := FitFrom(t, fs, reg).0.encoders;
      && (forall f :: f in fs && f in t.cells ==> f in enc && enc[f] == Unique(t.cells[f]))
      && (forall f :: !(f in fs && f in t.cells) ==> (f in enc <==> f in reg.encoders))
      && (forall f :: !(f in fs && f in t.cells) && f in reg.encoders ==> enc[f] == reg.encoders[f])
    decreases |fs|
  {
    if fs != [] {
      var f := fs[0];
      if f !in t.columns {
        FitFromSpec(t, fs[1..], reg);
      } else if Homogeneous(t.cells[f]) {
        var reg' := Put(reg, f, Unique(t.cells[f]));
        FitFromSpec(t, fs[1..], reg');
        var enc := FitFrom(t, fs, reg).0.encoders;
        if FitFrom(t, fs, reg).1.Ok? {
          forall g | g in fs && g in t.cells
            ensures g in enc && enc[g] == Unique(t.cells[g])
          {
            if g !in fs[1..] {
              assert g == f;
            }
          }
        }
      }
    }
  }

  /** A fit of a new BinaryEncoder (no encoders yet) creates encoders for exactly
      the configured features present in the frame. */
  lemma FreshFitKeys(t: Table, fs: seq<Name>)
    requires WellFormed(t)
    requires FitFrom(t, fs, Registry([], map[])).1.Ok?
    ensures forall f :: f in FitFrom(t, fs, Registry([], map[])).0.encoders <==> f in fs && f in t.cells
  {
    FitFromSpec(t, fs, Registry([], map[]));
  }

  /** Transforming the very frame a new encoder was fitted on never meets an
      unseen value. */
  lemma FitThenTransformSucceeds(t: Table, fs: seq<Name>)
    requires WellFormed(t)
    requires FitFrom(t, fs, Registry([], map[])).1.Ok?
    ensures var reg := FitFrom(t, fs, Registry([], map[])).0;
      Encodable(t, reg.keys, reg.encoders)
  {
    FitFromSpec(t, fs, Registry([], map[]));
  }

  /** The loop of `transform`, from key `keys[0]` on, over the working copy `acc`:
      a present column is replaced by its codes; an unseen value raises. */
  function EncodeFrom(keys: seq<Name>, encoders: map<Name, seq<Cell>>, acc: Table): (r: Result<Table>)
    requires WellFormed(acc)
    requires forall k :: k in keys ==> k in encoders
    ensures r.Ok? ==> WellFormed(r.value)
    ensures r.Err? ==> r.error.UnseenLabel? && r.error.column in keys
    decreases |keys|
  {
    if keys == [] then Ok(acc)
    else if keys[0] !in acc.columns then EncodeFrom(keys[1..], encoders, acc)
    else if !Known(encoders[keys[0]], acc.cells[keys[0]]) then Err(UnseenLabel(keys[0]))
    else EncodeFrom(keys[1..], encoders, Assigned(acc, keys[0], AsCells(Codes(encoders[keys[0]], acc.cells[keys[0]]))))
  }

  /** Every encoded column present in `t` holds only values seen at fit time. */
  ghost predicate Encodable(t: Table, keys: seq<Name>, encoders: map<Name, seq<Cell>>)
    requires forall k :: k in keys ==> k in encoders
  {
    forall k :: k in keys && k in t.cells ==> Known(encoders[k], t.cells[k])
  }

  /** The table every key's column replaced at once: the reference result. */
  function Encoded(t: Table, keys: seq<Name>, encoders: map<Name, seq<Cell>>): (r: Table)
    requires WellFormed(t)
    requires forall k :: k in keys ==> k in encoders
    requires Encodable(t, keys, encoders)
    ensures WellFormed(r) && r.columns == t.columns && r.index == t.index
    ensures forall c :: c in t.cells && c !in keys ==> r.cells[c] == t.cells[c]
  {
    Table(t.columns,
          map c | c in t.cells :: if c in keys then AsCells(Codes(encoders[c], t.cells[c])) else t.cells[c],
          t.index)
  }

  /** An encoded cell holds the rank of its value among the sorted classes the
      column's encoder was fitted on. */
  lemma EncodedCellIsRank(t: Table, keys: seq<Name>, encoders: map<Name, seq<Cell>>, c: Name, i: int)
    requires WellFormed(t)
    requires forall k :: k in keys ==> k in encoders
    requires Encodable(t, keys, encoders)
    requires c in keys && c in t.cells && 0 <= i < |t.index| && Increasing(encoders[c])
    ensures t.cells[c][i] in encoders[c]
    ensures forall j :: 0 <= j < |encoders[c]| && encoders[c][j] == t.cells[c][i] ==>
      Encoded(t, keys, encoders).cells[c][i] == Num(j as real)
  {
    forall j | 0 <= j < |encoders[c]| && encoders[c][j] == t.cells[c][i]
      ensures Encoded(t, keys, encoders).cells[c][i] == Num(j as real)
    {
      CodesAreRanks(encoders[c], t.cells[c], i, j);
    }
  }

  /** The column-by-column loop succeeds exactly when every encoded column holds
      only seen values, and then equals replacing all encoded columns at once:
      the columns, their order and the index are kept, and every column without
      an encoder is left as it was. */
  lemma {:induction false} EncodeFromIsEncoded(keys: seq<Name>, encoders: map<Name, seq<Cell>>, t: Table)
    requires WellFormed(t) && Distinct(keys)
    requires forall k :: k in keys ==> k in encoders
    ensures EncodeFrom(keys, encoders, t).Ok? <==> Encodable(t, keys, encoders)
    ensures Encodable(t, keys, encoders) ==> EncodeFrom(keys, encoders, t) == Ok(Encoded(t, keys, encoders))
    decreases |keys|
  {
    if keys != [] {
      var k, rest := keys[0], keys[1..];
      assert Distinct(rest) by {
        forall i, j | 0 <= i < j < |rest| ensures rest[i] != rest[j] {
          assert rest[i] == keys[i + 1] && rest[j] == keys[j + 1];
        }
      }
      if k !in t.columns {
        EncodeFromIsEncoded(rest, encoders, t);
        SkipAbsentKey(keys, encoders, t);
      } else if Known(encoders[k], t.cells[k]) {
        var t' := Assigned(t, k, AsCells(Codes(encoders[k], t.cells[k])));
        EncodeFromIsEncoded(rest, encoders, t');
        EncodePresentKey(keys, encoders, t);
      }
    } else {
      assert Encoded(t, keys, encoders).cells == t.cells;
    }
  }

  lemma SkipAbsentKey(keys: seq<Name>, encoders: map<Name, seq<Cell>>, t: Table)
    requires WellFormed(t) && keys != [] && keys[0] !in t.columns
    requires forall k :: k in keys ==> k in encoders
    ensures Encodable(t, keys[1..], encoders) <==> Encodable(t, keys, encoders)
    ensures Encodable(t, keys, encoders) ==> Encoded(t, keys[1..], encoders) == Encoded(t, keys, encoders)
  {
    assert forall c :: c in t.cells ==> (c in keys[1..] <==> c in keys);
  }

  lemma EncodePresentKey(keys: seq<Name>, encoders: map<Name, seq<Cell>>, t: Table)
    requires WellFormed(t) && Distinct(keys) && keys != [] && keys[0] in t.columns
    requires forall k :: k in keys ==> k in encoders
    requires Known(encoders[keys[0]], t.cells[keys[0]])
    ensures var t' := Assigned(t, keys[0], AsCells(Codes(encoders[keys[0]], t.cells[keys[0]])));
      && (Encodable(t', keys[1..], encoders) <==> Encodable(t, keys, encoders))
      && (Encodable(t, keys, encoders) ==> Encoded(t', keys[1..], encoders) == Encoded(t, keys, encoders))
  {
    var k, rest := keys[0], keys[1..];
    var t' := Assigned(t, k, AsCells(Codes(encoders[k], t.cells[k])));
    assert k !in rest;
    assert t'.cells.Keys == t.cells.Keys && t'.columns == t.columns;
    if Encodable(t, keys, encoders) {
      forall c | c in rest && c in t'.cells
        ensures Known(encoders[c], t'.cells[c])
      {
        assert t'.cells[c] == t.cells[c];
      }
      var a, b := Encoded(t', rest, encoders), Encoded(t, keys, encoders);
      forall c | c in a.cells
        ensures a.cells[c] == b.cells[c]
      {
        if c == k {
          assert c !in rest;
        } else {
          assert t'.cells[c] == t.cells[c];
          assert c in rest <==> c in keys;
        }
      }
      assert a.cells == b.cells;
    } else {
      var c :| c in keys && c in t.cells && !Known(encoders[c], t.cells[c]);
      assert c != k;
      assert t'.cells[c] == t.cells[c];
    }
  }

  /** The transformer object: `binaryFeatures` is fixed at construction and
      `registry` grows with every `Fit` (it is never cleared). */
  class BinaryEncoder {
    const binaryFeatures: seq<Name>
    var registry: Registry

    ghost predicate Valid()
      reads this
    {
      RegistryOk(registry)
    }

    constructor (binaryFeatures: seq<Name> := DefaultBinary)
      ensures Valid() && this.binaryFeatures == binaryFeatures && registry == Registry([], map[])
    {
      this.binaryFeatures := binaryFeatures;
      registry := Registry([], map[]);
    }

    /** `fit(X)` */
    method Fit(X: DataFrame) returns (outcome: Result<()>)
      requires Valid() && X.Valid()
      modifies this
      ensures Valid() && unchanged(X)
      ensures (registry, outcome) == FitFrom(X.View(), binaryFeatures, old(registry))
    {
      var i := 0;
      while i < |binaryFeatures|
        invariant 0 <= i <= |binaryFeatures|
        invariant RegistryOk(registry)
        invariant FitFrom(X.View(), binaryFeatures[i..], registry) == FitFrom(X.View(), binaryFeatures, old(registry))
      {
        var feature := binaryFeatures[i];
        assert binaryFeatures[i..][1..] == binaryFeatures[i + 1..];
        if feature in X.columns {
          var fitted := LabelFit(X.cells[feature], feature);
          if fitted.Err? {
            return Err(fitted.error);
          }
          registry := Put(registry, feature, fitted.value);
        }
        i := i + 1;
      }
      return Ok(());
    }

    /** `transform(X)`: a fresh copy of X in which every column that has an encoder
        is replaced by its codes. */
    method Transform(X: DataFrame) returns (r: Result<DataFrame>)
      requires Valid() && X.Valid()
      ensures unchanged(X)
      ensures r.Ok? <==> Encodable(X.View(), registry.keys, registry.encoders)
      ensures r.Ok? ==> fresh(r.value) && r.value.Valid()
      ensures r.Ok? ==> r.value.View() == Encoded(X.View(), registry.keys, registry.encoders)
      ensures r.Err? ==> EncodeFrom(registry.keys, registry.encoders, X.View()) == Err(r.error)
      ensures r.Err? ==> r.error.UnseenLabel? && r.error.column in registry.keys
    {
      var copy := X.Copy();
      ghost var t0 := X.View();
      EncodeFromIsEncoded(registry.keys, registry.encoders, t0);
      var keys, encoders := registry.keys, registry.encoders;
      var i := 0;
      while i < |keys|
        invariant 0 <= i <= |keys|
        invariant fresh(copy) && copy.Valid()
        invariant EncodeFrom(keys[i..], encoders, copy.View()) == EncodeFrom(keys, encoders, t0)
      {
        var feature := keys[i];
        assert keys[i..][1..] == keys[i + 1..];
        if feature in copy.columns {
          if !Known(encoders[feature], copy.cells[feature]) {
            return Err(UnseenLabel(feature));
          }
          copy.Assign(feature, AsCells(Codes(encoders[feature], copy.cells[feature])));
        }
        i := i + 1;
      }
      return Ok(copy);
    }
  }
}
