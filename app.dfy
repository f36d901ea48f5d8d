/** The decision logic of the obesity-risk form (app.py): the answers are translated
    through the form's dictionaries into a one-row record of the 16 survey fields,
    the BMI column is appended, and the positive-class probability the classifier
    returns is sorted into one of three risk tiers. */
module ObesityApp {
  import opened Frames
  import opened Categories

  /** A Python dict literal: its (key, value) pairs in insertion order. */
  type Dict<T> = seq<(string, T)>

  /** `list(d.keys())`: the options a widget offers. */
  function Keys<T>(d: Dict<T>): (r: seq<string>)
    ensures |r| == |d|
    ensures forall i :: 0 <= i < |d| ==> r[i] == d[i].0
  {
    if d == [] then [] else [d[0].0] + Keys(d[1..])
  }

  /** `d[key]`: None stands for the KeyError of a key the dict does not have. */
  function Lookup<T>(d: Dict<T>, key: string): (r: Option<T>)
    ensures r.Some? <==> key in Keys(d)
    ensures r.Some? ==> (key, r.value) in d
  {
    if d == [] then None
    else if d[0].0 == key then Some(d[0].1)
    else
      assert Keys(d) == [d[0].0] + Keys(d[1..]);
      Lookup(d[1..], key)
  }

  const GenderMap: Dict<string> := [("Feminino", "Female"), ("Masculino", "Male")]
  const YesNoMap: Dict<string> := [("Sim", "yes"), ("Não", "no")]
  const FcvcMap: Dict<int> := [("Raramente", 1), ("Às vezes", 2), ("Sempre", 3)]
  const NcpMap: Dict<int> :=
    [("1 refeição", 1), ("2 refeições", 2), ("3 refeições", 3), ("4 ou mais refeições", 4)]
  const CaecMap: Dict<string> :=
    [("Não", "no"), ("Às vezes", "Sometimes"), ("Frequentemente", "Frequently"), ("Sempre", "Always")]
  const Ch2oMap: Dict<int> := [("Menos de 1L/dia", 1), ("1-2L/dia", 2), ("Mais de 2L/dia", 3)]
  const CalcMap: Dict<string> :=
    [("Não bebo", "no"), ("Às vezes", "Sometimes"), ("Frequentemente", "Frequently"), ("Sempre", "Always")]
  const FafMap: Dict<int> :=
    [("Nenhuma", 0), ("1-2 vezes/semana", 1), ("3-4 vezes/semana", 2), ("5 ou mais vezes/semana", 3)]
  const TueMap: Dict<int> := [("0-2 horas/dia", 0), ("3-5 horas/dia", 1), ("Mais de 5 horas/dia", 2)]
  const MtransMap: Dict<string> :=
    [("Automóvel", "Automobile"), ("Motocicleta", "Motorbike"), ("Bicicleta", "Bike"),
     ("Transporte público", "Public_Transportation"), ("A pé", "Walking")]

  /** What the form's widgets return: the chosen option of each select box or
      radio button, the age slider's integer and the two number inputs. */
  datatype Answers = Answers(
    gender: string, age: int, height: real, weight: real,
    familyHistory: string, favc: string, fcvc: string, ncp: string,
    caec: string, ch2o: string, smoke: string, scc: string,
    alcohol: string, faf: string, tue: string, mtrans: string)

  /** What the widgets can produce: each choice is one of the options the widget
      lists (the keys of its dictionary), and each number lies within the widget's
      minimum and maximum. */
  predicate WidgetAnswers(a: Answers) {
    && a.gender in Keys(GenderMap)
    && 14 <= a.age <= 100
    && 1.40 <= a.height <= 2.00
    && 30.0 <= a.weight <= 200.0
    && a.familyHistory in Keys(YesNoMap)
    && a.favc in Keys(YesNoMap)
    && a.fcvc in Keys(FcvcMap)
    && a.ncp in Keys(NcpMap)
    && a.caec in Keys(CaecMap)
    && a.ch2o in Keys(Ch2oMap)
    && a.smoke in Keys(YesNoMap)
    && a.scc in Keys(YesNoMap)
    && a.alcohol in Keys(CalcMap)
    && a.faf in Keys(FafMap)
    && a.tue in Keys(TueMap)
    && a.mtrans in Keys(MtransMap)
  }

  /** Every one of the thirteen dictionary lookups finds its key. */
  predicate Translatable(a: Answers) {
    && Lookup(GenderMap, a.gender).Some?
    && Lookup(YesNoMap, a.familyHistory).Some?
    && Lookup(YesNoMap, a.favc).Some?
    && Lookup(FcvcMap, a.fcvc).Some?
    && Lookup(NcpMap, a.ncp).Some?
    && Lookup(CaecMap, a.caec).Some?
    && Lookup(YesNoMap, a.smoke).Some?
    && Lookup(Ch2oMap, a.ch2o).Some?
    && Lookup(YesNoMap, a.scc).Some?
    && Lookup(CalcMap, a.alcohol).Some?
    && Lookup(FafMap, a.faf).Some?
    && Lookup(TueMap, a.tue).Some?
    && Lookup(MtransMap, a.mtrans).Some?
  }

  /** Whatever the widgets return, none of the lookups raises KeyError. */
  lemma WidgetAnswersTranslate(a: Answers)
    requires WidgetAnswers(a)
    ensures Translatable(a)
  {
  }

  /** The values the translation produces (the `*_modelo` variables) together
      with the three numeric inputs. */
  datatype ModelValues = ModelValues(
    gender: string, age: int, height: real, weight: real,
    familyHistory: string, favc: string, fcvc: int, ncp: int,
    caec: string, smoke: string, ch2o: int, scc: string,
    faf: int, tue: int, alcohol: string, mtrans: string)

  /** Each value is the one its dictionary pairs with the chosen option; the
      numeric inputs are carried over as they are. */
  ghost predicate Translates(a: Answers, v: ModelValues) {
    && (a.gender, v.gender) in GenderMap
    && v.age == a.age && v.height == a.height && v.weight == a.weight
    && (a.familyHistory, v.familyHistory) in YesNoMap
    && (a.favc, v.favc) in YesNoMap
    && (a.fcvc, v.fcvc) in FcvcMap
    && (a.ncp, v.ncp) in NcpMap
    && (a.caec, v.caec) in CaecMap
    && (a.smoke, v.smoke) in YesNoMap
    && (a.ch2o, v.ch2o) in Ch2oMap
    && (a.scc, v.scc) in YesNoMap
    && (a.alcohol, v.alcohol) in CalcMap
    && (a.faf, v.faf) in FafMap
    && (a.tue, v.tue) in TueMap
    && (a.mtrans, v.mtrans) in MtransMap
  }

  /** The thirteen lookups; None stands for the KeyError of one that fails. */
  function Translate(a: Answers): (r: Option<ModelValues>)
    ensures r.Some? <==> Translatable(a)
    ensures r.Some? ==> Translates(a, r.value)
  {
    if !Translatable(a) then None
    else Some(ModelValues(
      Lookup(GenderMap, a.gender).value, a.age, a.height, a.weight,
      Lookup(YesNoMap, a.familyHistory).value, Lookup(YesNoMap, a.favc).value,
      Lookup(FcvcMap, a.fcvc).value, Lookup(NcpMap, a.ncp).value,
      Lookup(CaecMap, a.caec).value, Lookup(YesNoMap, a.smoke).value,
      Lookup(Ch2oMap, a.ch2o).value, Lookup(YesNoMap, a.scc).value,
      Lookup(FafMap, a.faf).value, Lookup(TueMap, a.tue).value,
      Lookup(CalcMap, a.alcohol).value, Lookup(MtransMap, a.mtrans).value))
  }

  /** No key occurs twice in the dict literal. */
  predicate DistinctKeys<T>(d: Dict<T>) {
    forall i, j :: 0 <= i < j < |d| ==> d[i].0 != d[j].0
  }

  /** A dict literal whose keys are all different pairs each key with one value. */
  lemma DictFunctional<T>(d: Dict<T>, key: string, x: T, y: T)
    requires DistinctKeys(d) && (key, x) in d && (key, y) in d
    ensures x == y
  {
    var i :| 0 <= i < |d| && d[i] == (key, x);
    var j :| 0 <= j < |d| && d[j] == (key, y);
  }

  lemma DictsDistinct()
    ensures DistinctKeys(GenderMap) && DistinctKeys(YesNoMap) && DistinctKeys(FcvcMap)
    ensures DistinctKeys(NcpMap) && DistinctKeys(CaecMap) && DistinctKeys(Ch2oMap)
    ensures DistinctKeys(CalcMap) && DistinctKeys(FafMap) && DistinctKeys(TueMap)
    ensures DistinctKeys(MtransMap)
  {
  }

  /** The answers determine the model values: no dictionary has a repeated key. */
  lemma TranslatesUnique(a: Answers, v: ModelValues, w: ModelValues)
    requires Translates(a, v) && Translates(a, w)
    ensures v == w
  {
    DictsDistinct();
    DictFunctional(GenderMap, a.gender, v.gender, w.gender);
    DictFunctional(YesNoMap, a.familyHistory, v.familyHistory, w.familyHistory);
    DictFunctional(YesNoMap, a.favc, v.favc, w.favc);
    DictFunctional(FcvcMap, a.fcvc, v.fcvc, w.fcvc);
    DictFunctional(NcpMap, a.ncp, v.ncp, w.ncp);
    DictFunctional(CaecMap, a.caec, v.caec, w.caec);
    DictFunctional(YesNoMap, a.smoke, v.smoke, w.smoke);
    DictFunctional(Ch2oMap, a.ch2o, v.ch2o, w.ch2o);
    DictFunctional(YesNoMap, a.scc, v.scc, w.scc);
    DictFunctional(CalcMap, a.alcohol, v.alcohol, w.alcohol);
    DictFunctional(FafMap, a.faf, v.faf, w.faf);
    DictFunctional(TueMap, a.tue, v.tue, w.tue);
    DictFunctional(MtransMap, a.mtrans, v.mtrans, w.mtrans);
  }

  /** The record's columns, in the order of the dict passed to `pd.DataFrame`. */
  const SurveyColumns: seq<Name> := [
    Field("Gender"), Field("Age"), Field("Height"), Field("Weight"),
    Field("family_history"), Field("FAVC"), Field("FCVC"), Field("NCP"),
    Field("CAEC"), Field("SMOKE"), Field("CH2O"), Field("SCC"),
    Field("FAF"), Field("TUE"), Field("CALC"), Field("MTRANS")]

  const Bmi: Name := Field("BMI")

  lemma SurveyColumnsDistinct()
    ensures Distinct(SurveyColumns)
  {
  }

  lemma BmiIsNew()
    ensures Bmi !in SurveyColumns
  {
  }

  /** The one-row table `pd.DataFrame({cols[0]: [row[0]], ...})`, row label 0. */
  function FromRow(cols: seq<Name>, row: seq<Cell>): (r: Table)
    requires Distinct(cols) && |row| == |cols|
    ensures WellFormed(r) && r.columns == cols && r.index == [0]
    ensures forall k :: 0 <= k < |cols| ==> r.cells[cols[k]] == [row[k]]
  {
    Table(cols, map k | 0 <= k < |cols| :: cols[k] := [row[k]], [0])
  }

  /** The record's single row, in column order; the integers become floats. */
  function RecordRow(v: ModelValues): (r: seq<Cell>)
    ensures |r| == |SurveyColumns|
  {
    [ Text(v.gender), Num(v.age as real), Num(v.height), Num(v.weight),
      Text(v.familyHistory), Text(v.favc), Num(v.fcvc as real), Num(v.ncp as real),
      Text(v.caec), Text(v.smoke), Num(v.ch2o as real), Text(v.scc),
      Num(v.faf as real), Num(v.tue as real), Text(v.alcohol), Text(v.mtrans) ]
  }

  /** `dados_usuario = pd.DataFrame({...})`. */
  function Record(v: ModelValues): (r: Table)
    ensures WellFormed(r) && r.columns == SurveyColumns && r.index == [0]
    ensures Field("Height") in r.cells && r.cells[Field("Height")] == [Num(v.height)]
    ensures Field("Weight") in r.cells && r.cells[Field("Weight")] == [Num(v.weight)]
  {
    SurveyColumnsDistinct();
    assert SurveyColumns[2] == Field("Height") && SurveyColumns[3] == Field("Weight");
    FromRow(SurveyColumns, RecordRow(v))
  }

  /** Column k of the record holds, as its only cell, the k-th translated value. */
  lemma RecordColumn(v: ModelValues, k: int)
    requires 0 <= k < |SurveyColumns|
    ensures Record(v).cells[SurveyColumns[k]] == [RecordRow(v)[k]]
  {
    SurveyColumnsDistinct();
  }

  lemma SquarePositive(h: real)
    requires h > 0.0
    ensures h * h > 0.0
  {
  }

  /** Weight / Height ** 2: the only value whose product with the squared height
      is the weight. */
  function BmiOf(weight: real, height: real): (bmi: real)
    requires height > 0.0
    ensures bmi * (height * height) == weight
  {
    SquarePositive(height);
    weight / (height * height)
  }

  /** `Weight / Height ** 2`, row by row. */
  function BmiColumn(weight: seq<Cell>, height: seq<Cell>): (r: seq<Cell>)
    requires |weight| == |height|
    requires forall i :: 0 <= i < |height| ==> weight[i].Num? && height[i].Num? && height[i].x > 0.0
    ensures |r| == |weight|
    ensures forall i :: 0 <= i < |r| ==> r[i].Num? && r[i].x * (height[i].x * height[i].x) == weight[i].x
  {
    seq(|weight|, i requires 0 <= i < |weight| => Num(BmiOf(weight[i].x, height[i].x)))
  }

  /** The record with the BMI column added: `dados_usuario['BMI'] = ...`. */
  function WithBmi(t: Table): (r: Table)
    requires WellFormed(t) && Field("Weight") in t.cells && Field("Height") in t.cells
    requires forall i :: 0 <= i < |t.index| ==>
      t.cells[Field("Weight")][i].Num? && t.cells[Field("Height")][i].Num? && t.cells[Field("Height")][i].x > 0.0
    ensures WellFormed(r) && Bmi in r.columns && r.index == t.index
    ensures forall n :: n in t.cells && n != Bmi ==> n in r.cells && r.cells[n] == t.cells[n]
  {
    Assigned(t, Bmi, BmiColumn(t.cells[Field("Weight")], t.cells[Field("Height")]))
  }

  /** Builds the user's frame from the translated values and adds the BMI column
      in place. The height widget's bounds keep the division defined. */
  method BuildUserFrame(v: ModelValues) returns (df: DataFrame)
    requires 1.40 <= v.height <= 2.00
    ensures fresh(df) && df.Valid() && df.View() == WithBmi(Record(v))
  {
    df := new DataFrame(Record(v));
    df.Assign(Bmi, BmiColumn(df.cells[Field("Weight")], df.cells[Field("Height")]));
  }

  /** The user's frame has the 16 survey columns followed by BMI as the 17th, and
      the one row labelled 0. */
  lemma UserFrameColumns(v: ModelValues)
    requires 1.40 <= v.height <= 2.00
    ensures WithBmi(Record(v)).columns == SurveyColumns + [Bmi]
    ensures |WithBmi(Record(v)).columns| == 17 && WithBmi(Record(v)).columns[16] == Bmi
    ensures WithBmi(Record(v)).index == [0]
  {
    BmiIsNew();
  }

  /** Adding BMI leaves the survey cells as they were; the new cell is the BMI of
      the record's weight and height. */
  lemma UserFrameCells(v: ModelValues)
    requires 1.40 <= v.height <= 2.00
    ensures forall n :: n in SurveyColumns ==> WithBmi(Record(v)).cells[n] == Record(v).cells[n]
    ensures WithBmi(Record(v)).cells[Bmi] == [Num(BmiOf(v.weight, v.height))]
  {
    BmiIsNew();
  }

  /** For answers within the widgets' bounds the BMI lies between 30 / 2.00² = 7.5
      and 200 / 1.40² (about 102.04). */
  lemma BmiBounds(w: real, h: real)
    requires 30.0 <= w <= 200.0 && 1.40 <= h <= 2.00
    ensures 7.5 <= BmiOf(w, h) <= 200.0 / 1.96
  {
    var d := h * h;
    assert 1.96 <= d <= 4.0 by {
      assert 1.40 * 1.40 <= h * 1.40 <= h * h;
      assert h * h <= 2.00 * h <= 2.00 * 2.00;
    }
    var b := BmiOf(w, h);
    assert b * d == w;
  }

  /** The form's default answers, 70 kg and 1.70 m, give a BMI that two-decimal
      rounding shows as 24.22. */
  lemma DefaultBmi()
    ensures 24.215 <= BmiOf(70.0, 1.70) < 24.225
  {
    var b := BmiOf(70.0, 1.70);
    assert b * 2.89 == 70.0;
  }

  /** A binary feature whose training column held exactly the two values the form
      produces gets the classes [lesser, greater]: "no" is coded 0 and "yes" 1,
      "Female" 0 and "Male" 1. */
  lemma FormBinaryClasses(col: seq<Cell>)
    ensures (forall c :: c in col <==> c == Text("no") || c == Text("yes")) ==>
      Unique(col) == [Text("no"), Text("yes")]
    ensures (forall c :: c in col <==> c == Text("Female") || c == Text("Male")) ==>
      Unique(col) == [Text("Female"), Text("Male")]
  {
    if forall c :: c in col <==> c == Text("no") || c == Text("yes") {
      TwoValues(col, Text("no"), Text("yes"));
    }
    if forall c :: c in col <==> c == Text("Female") || c == Text("Male") {
      TwoValues(col, Text("Female"), Text("Male"));
    }
  }

  /** The three risk tiers of the result panel. */
  datatype Tier = Low | Medium | High

  function Rank(t: Tier): nat {
    match t
    case Low => 0
    case Medium => 1
    case High => 2
  }

  /** The if/elif/else on `prob_obesidade`. */
  function TierOf(pct: real): (t: Tier)
    ensures t == High <==> 70.0 <= pct
    ensures t == Medium <==> 30.0 <= pct < 70.0
    ensures t == Low <==> pct < 30.0
  {
    if pct >= 70.0 then High
    else if pct >= 30.0 then Medium
    else Low
  }

  /** `probabilidade[0][1] * 100`: the positive class's probability for the single
      row, as a percentage. */
  function ObesityPercent(proba: seq<seq<real>>): (pct: real)
    requires |proba| >= 1 && |proba[0]| >= 2
    ensures 0.0 <= proba[0][1] <= 1.0 ==> 0.0 <= pct <= 100.0
    ensures pct >= 70.0 <==> proba[0][1] >= 0.7
  {
    proba[0][1] * 100.0
  }

  /** The tier shown for a `predict_proba` output, stated on the raw probability:
      high from 0.7 up, medium from 0.3 up to 0.7, low below 0.3. */
  lemma AssessThresholds(proba: seq<seq<real>>)
    requires |proba| >= 1 && |proba[0]| >= 2
    ensures TierOf(ObesityPercent(proba)) == High <==> proba[0][1] >= 0.7
    ensures TierOf(ObesityPercent(proba)) == Medium <==> 0.3 <= proba[0][1] < 0.7
    ensures TierOf(ObesityPercent(proba)) == Low <==> proba[0][1] < 0.3
  {
  }

  /** The boundary values fall on the upper tier. */
  lemma TierBoundaries()
    ensures TierOf(70.0) == High && TierOf(69.99) == Medium
    ensures TierOf(30.0) == Medium && TierOf(29.99) == Low
    ensures TierOf(100.0) == High && TierOf(0.0) == Low
  {
  }

  /** A higher probability never gives a lower tier. */
  lemma TierMonotone(p: real, q: real)
    requires p <= q
    ensures Rank(TierOf(p)) <= Rank(TierOf(q))
  {
  }
}
