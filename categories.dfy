/** The category lists scikit-learn's LabelEncoder and OneHotEncoder learn at fit
    time: the distinct values of a column in ascending order (numpy's `unique`).
    Strings are ordered as Python orders them, code point by code point; numbers
    numerically. A column that mixes strings and numbers cannot be sorted. */
module Categories {
  import opened Frames

  /** Python's `a < b` on strings. */
  predicate StrBelow(a: string, b: string)
    decreases |a|
  {
    if a == [] then b != []
    else if b == [] then false
    else if a[0] == b[0] then StrBelow(a[1..], b[1..])
    else a[0] < b[0]
  }

  lemma {:induction false} StrBelowIrreflexive(a: string)
    ensures !StrBelow(a, a)
    decreases |a|
  {
    if a != [] {
      StrBelowIrreflexive(a[1..]);
    }
  }

  lemma {:induction false} StrBelowTransitive(a: string, b: string, c: string)
    requires StrBelow(a, b) && StrBelow(b, c)
    ensures StrBelow(a, c)
    decreases |a|
  {
    if a != [] && a[0] == b[0] && b[0] == c[0] {
      StrBelowTransitive(a[1..], b[1..], c[1..]);
    }
  }

  lemma {:induction false} StrBelowTotal(a: string, b: string)
    requires a != b
    ensures StrBelow(a, b) || StrBelow(b, a)
    decreases |a|
  {
    if a != [] && b != [] && a[0] == b[0] {
      assert a == [a[0]] + a[1..] && b == [b[0]] + b[1..];
      StrBelowTotal(a[1..], b[1..]);
    }
  }

  /** The order used to sort a column. Strings are never compared with numbers
      in a column that is sorted (see `Homogeneous`); the cross-kind case only
      makes the order total. */
  predicate Below(a: Cell, b: Cell) {
    match (a, b)
    case (Num(x), Num(y)) => x < y
    case (Text(s), Text(t)) => StrBelow(s, t)
    case (Num(_), Text(_)) => true
    case (Text(_), Num(_)) => false
  }

  lemma BelowIrreflexive(a: Cell)
    ensures !Below(a, a)
  {
    if a.Text? {
      StrBelowIrreflexive(a.s);
    }
  }

  lemma BelowTransitive(a: Cell, b: Cell, c: Cell)
    requires Below(a, b) && Below(b, c)
    ensures Below(a, c)
  {
    if a.Text? && b.Text? && c.Text? {
      StrBelowTransitive(a.s, b.s, c.s);
    }
  }

  lemma BelowTotal(a: Cell, b: Cell)
    requires a != b
    ensures Below(a, b) || Below(b, a)
  {
    if a.Text? && b.Text? {
      StrBelowTotal(a.s, b.s);
    }
  }

  /** Strictly ascending, hence free of repeats. */
  ghost predicate Increasing(s: seq<Cell>) {
    forall i, j :: 0 <= i < j < |s| ==> Below(s[i], s[j])
  }

  /** All strings or all numbers: the columns numpy can sort. */
  predicate Homogeneous(col: seq<Cell>) {
    (forall c :: c in col ==> c.Text?) || (forall c :: c in col ==> c.Num?)
  }

  lemma IncreasingCons(h: Cell, s: seq<Cell>)
    requires Increasing(s)
    requires forall y :: y in s ==> Below(h, y)
    ensures Increasing([h] + s)
  {
    var r := [h] + s;
    forall i, j | 0 <= i < j < |r|
      ensures Below(r[i], r[j])
    {
      if i == 0 {
        assert r[j] == s[j - 1];
      } else {
        assert r[i] == s[i - 1] && r[j] == s[j - 1];
      }
    }
  }

  /** Inserts `x` at its place in the ascending list `s`, unless it is there already. */
  function Insert(x: Cell, s: seq<Cell>): (r: seq<Cell>)
    requires Increasing(s)
    ensures Increasing(r)
    ensures forall y :: y in r <==> y == x || y in s
  {
    if s == [] then [x]
    else if x == s[0] then s
    else if Below(x, s[0]) then
      (forall y | y in s ensures Below(x, y) {
         if y != s[0] {
           var j :| 0 <= j < |s| && s[j] == y;
           BelowTransitive(x, s[0], y);
         }
       }
       IncreasingCons(x, s);
       [x] + s)
    else
      BelowTotal(x, s[0]);
      var rest := Insert(x, s[1..]);
      (forall y | y in rest ensures Below(s[0], y) {
         if y != x {
           var j :| 0 <= j < |s[1..]| && s[1..][j] == y;
           assert s[j + 1] == y;
         }
       }
       assert s == [s[0]] + s[1..];
       IncreasingCons(s[0], rest);
       [s[0]] + rest)
  }

  /** numpy's `unique`: the distinct values of `col`, ascending. */
  function Unique(col: seq<Cell>): (r: seq<Cell>)
    ensures Increasing(r)
    ensures forall y :: y in r <==> y in col
  {
    if col == [] then []
    else
      var init := col[..|col| - 1];
      assert col == init + [col[|col| - 1]];
      Insert(col[|col| - 1], Unique(init))
  }

  lemma IncreasingDistinct(s: seq<Cell>)
    requires Increasing(s)
    ensures Distinct(s)
  {
    forall i, j | 0 <= i < j < |s|
      ensures s[i] != s[j]
    {
      if s[i] == s[j] {
        BelowIrreflexive(s[i]);
      }
    }
  }

  /** The position of `v` in `s`: the code LabelEncoder gives `v`. */
  function IndexIn(s: seq<Cell>, v: Cell): (i: nat)
    requires v in s
    ensures i < |s| && s[i] == v
  {
    if s[0] == v then 0 else 1 + IndexIn(s[1..], v)
  }

  /** In an ascending list a value sits at one position only. */
  lemma IndexInUnique(s: seq<Cell>, j: nat)
    requires Increasing(s) && j < |s|
    ensures IndexIn(s, s[j]) == j
  {
    IncreasingDistinct(s);
  }

  /** There are as many categories as distinct values in the column. */
  lemma {:induction false} UniqueCount(col: seq<Cell>)
    ensures |Unique(col)| == |set c | c in col|
  {
    var r := Unique(col);
    IncreasingDistinct(r);
    DistinctCard(r);
    assert (set c | c in r) == (set c | c in col);
  }

  lemma {:induction false} DistinctCard(s: seq<Cell>)
    requires Distinct(s)
    ensures |set c | c in s| == |s|
  {
    if s != [] {
      var t := s[1..];
      assert Distinct(t) by {
        forall i, j | 0 <= i < j < |t| ensures t[i] != t[j] {
          assert t[i] == s[i + 1] && t[j] == s[j + 1];
        }
      }
      DistinctCard(t);
      assert s[0] !in t;
      assert (set c | c in s) == {s[0]} + (set c | c in t) by {
        assert s == [s[0]] + t;
      }
    }
  }

  /** A column holding exactly two values gets the categories [lesser, greater],
      so the lesser value is coded 0 and the greater 1. */
  lemma TwoValues(col: seq<Cell>, a: Cell, b: Cell)
    requires Below(a, b)
    requires forall c :: c in col <==> c == a || c == b
    ensures Unique(col) == [a, b]
  {
    var r := Unique(col);
    IncreasingDistinct(r);
    BelowIrreflexive(a);
    assert a != b;
    assert a in r && b in r;
    var i :| 0 <= i < |r| && r[i] == a;
    var j :| 0 <= j < |r| && r[j] == b;
    assert |r| == 2 by {
      DistinctCard(r);
      assert (set c | c in r) == {a, b};
    }
    if i > j {
      BelowTransitive(a, b, a);
      BelowIrreflexive(a);
    }
  }
}
