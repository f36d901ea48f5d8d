# Obesity-risk preprocessing and form logic in Dafny

This project models the two pieces of logic in the obesity-risk predictor that
can be stated precisely:

- the three preprocessing transformers of `utils.py`, each with a `fit` and a `transform`:
  - `MinMaxTransformer` rescales the numeric columns Age, Height, Weight and BMI relative to the range fitted on the training data (values inside that range land in [0, 1]; values outside it are not clipped);
  - `BinaryEncoder` codes the two-valued columns with one LabelEncoder each;
  - `OneHotEncodingTransformer` replaces CAEC, CALC and MTRANS by 0/1 dummy columns;
- the decision logic of the form in `app.py`:
  - the answers are translated through the `*_MAP` dictionaries;
  - the one-row record of 16 survey fields is built and gets a BMI column;
  - the positive-class probability is sorted into the low, medium or high risk tier.

A pandas frame is a `Frames.Table`: an ordered list of column labels, a map from each label
to its column of cells, and the row index. A `Frames.DataFrame` object holds such a table and
is updated in place. Each transformer is a class:
- its fitted state is a field that `Fit` sets;
- `Transform` returns either the input object itself or a fresh frame.

Each method is proved against a function on tables (`MinMaxTransform`, `Encoded`,
`OneHotTransform`). The lemmas state what the code promises about those functions. The
scikit-learn estimators are modelled by their documented behaviour:
- LabelEncoder and OneHotEncoder learn the sorted distinct values (`Categories.Unique`);
- MinMaxScaler uses `(v - min) / (max - min)` over the reals.

Modules: `Frames` (frames.dfy), `Categories` (categories.dfy), `MinMax` (minmax.dfy),
`Binary` (binary.dfy), `OneHot` (onehot.dfy), `ObesityApp` (app.dfy).

## Model

| member | source | states |
|---|---|---|
| Frames.Has | utils.py:19 | the guard holds iff the configured labels, as a set, are a subset of the frame's labels |
| Frames.DataFrame.constructor | utils.py:68 | `pd.DataFrame(...)` makes a frame whose labels, cells and index are exactly the given table's |
| Frames.DataFrame.Copy | utils.py:20 | `X.copy()` is a new object with the same labels, cells and index |
| Frames.DataFrame.Assign | app.py:176 | `X[name] = col` overwrites an existing column in place or appends a new one last; the frame stays well formed |
| Frames.DataFrame.Overwrite | utils.py:21 | `X[features] = values` changes only the named columns; labels, order and index are kept |
| Frames.DataFrame.Drop | utils.py:71 | `drop(names, axis=1)` returns a new frame without those labels, the rest in their original order |
| Frames.ConcatColumns | utils.py:74 | `pd.concat([a, b], axis=1)` on one index puts a's columns then b's, with no label repeated |
| Frames.Assigned | app.py:176 | assigning a column gives it exactly the new cells, keeps every other column and the index, and adds the label only if it is new |
| Frames.Overwritten | utils.py:21 | overwriting named columns keeps labels, order and index; the named columns get the new cells and the others are untouched |
| Frames.Dropped | utils.py:71 | the dropped frame has exactly the columns not dropped, with their cells and the index unchanged |
| Frames.Concat | utils.py:74 | the joined frame has the columns of both sides, each with its own cells, on the shared index |
| Frames.Without | utils.py:71 | the label filter of a drop never lengthens the label list |
| Frames.WithoutMembers | utils.py:71 | the labels kept by a drop are exactly those not dropped |
| Frames.WithoutDistinct | utils.py:71 | the kept labels stay free of repeats |
| Frames.KeptPosition | utils.py:71 | each kept label comes from a position of the original column list holding that label |
| Frames.WithoutKeepsOrder | utils.py:71 | of two kept labels, the earlier one comes from the earlier original position: drop keeps the relative order |
| Categories.Unique | utils.py:37 | the fitted classes are strictly ascending and hold exactly the values of the fit column |
| Categories.UniqueCount | utils.py:37 | there are as many classes as distinct values in the fit column |
| Categories.IndexIn | utils.py:45 | the code of a value is a position in the class list that holds that value |
| Categories.IndexInUnique | utils.py:45 | in a sorted class list each value has one position, its code |
| Categories.TwoValues | utils.py:37 | a column holding exactly two values a < b gets the classes [a, b] |
| MinMax.FitBounds | utils.py:13-15 | fitting succeeds iff every configured column is present, there is a row, at least one feature is configured, and all cells are numbers; each feature's bounds are its column's minimum and maximum |
| MinMax.Scale | utils.py:21 | the rescaled value times the fitted width equals the value's distance above the fitted minimum |
| MinMax.MinMaxTransform | utils.py:18-25 | X itself when a configured column is missing; otherwise the not-fitted, string-cell and no-row errors, or a well-formed rescaled copy |
| MinMax.MinMaxTransformShape | utils.py:18-22 | on a fitted scaler the transform succeeds iff the frame has a row; it then keeps the column order, the index and every unconfigured column; the fitted minimum maps to 0, the fitted maximum to 1, and order is kept |
| MinMax.ScaleMonotone | utils.py:21 | the rescaling never reverses the order of two values |
| MinMax.ScaleInUnitRange | utils.py:21 | a value between the fitted bounds lands in [0, 1] |
| MinMax.ScaleTop | utils.py:21 | the fitted maximum rescales to exactly 1 |
| MinMax.FitThenTransformInUnitRange | utils.py:13-22 | transforming the fit frame puts every configured cell in [0, 1] and every configured column reaches both 0 and 1 |
| MinMax.MinMaxTransformer.constructor | utils.py:9-11 | the features are stored and there is no scaler yet |
| MinMax.MinMaxTransformer.Fit | utils.py:13-16 | the scaler holds the fitted bounds, or stays unfitted and the error is returned |
| MinMax.MinMaxTransformer.Transform | utils.py:18-25 | with a configured column missing, X itself comes back; otherwise a fresh copy rescaled as `MinMaxTransform` says, or exactly the error `MinMaxTransform` gives; X is never changed |
| Binary.Put | utils.py:38 | storing an encoder maps the key to it and keeps the dict's insertion order: a new key goes last, an existing key keeps its place |
| Binary.LabelFit | utils.py:36-37 | LabelEncoder fit succeeds iff the column is all strings or all numbers, and then gives the sorted distinct values |
| Binary.Codes | utils.py:45 | each code indexes the fitted classes at the value it replaces, so decoding gives the column back |
| Binary.CodesAreRanks | utils.py:45 | each code is the value's unique position among the sorted classes |
| Binary.FitFrom | utils.py:33-39 | the fit loop keeps the encoder dict consistent: keys without repeats, each with an encoder |
| Binary.FitFromSpec | utils.py:33-39 | fit ends without error iff every present configured column can be sorted; present features get an encoder fitted on their column, other entries are untouched |
| Binary.FreshFitKeys | utils.py:34-38 | a new encoder gets entries for exactly the configured features present in the frame |
| Binary.FitThenTransformSucceeds | utils.py:33-46 | transforming the frame the encoder was fitted on never meets an unseen value |
| Binary.EncodeFrom | utils.py:43-45 | the transform loop yields a well-formed frame, or an `UnseenLabel` error naming one of its keys |
| Binary.Encoded | utils.py:41-46 | encoding keeps the columns, their order and the index, and leaves every column without an encoder as it was |
| Binary.EncodedCellIsRank | utils.py:45 | every value of an encoded column was seen at fit, and its cell becomes the value's position among the sorted classes |
| Binary.EncodeFromIsEncoded | utils.py:41-46 | the column-by-column loop raises iff some encoded present column holds an unseen value, else equals replacing all encoded columns at once, everything else kept |
| Binary.BinaryEncoder.constructor | utils.py:29-31 | the features are stored and the encoder dict is empty |
| Binary.BinaryEncoder.Fit | utils.py:33-39 | the fit loop adds encoders one feature at a time, with exactly the outcome `FitFrom` gives |
| Binary.BinaryEncoder.Transform | utils.py:41-46 | a fresh copy of X equal to `Encoded`, or, exactly when X is not encodable, the loop's `UnseenLabel` error naming an encoded column; X is never changed |
| OneHot.CategoriesOf | utils.py:58 | for a frame with at least one row, fit succeeds iff every configured column can be sorted; each feature's categories are ascending and are exactly its column's values |
| OneHot.DummyNames | utils.py:59 | every output feature name is a dummy label of one of the configured features |
| OneHot.DummyNamesShape | utils.py:59 | the dummy labels have no repeats and are exactly the (feature, category) pairs learned at fit |
| OneHot.DummyNameOf | utils.py:59 | (feature k, c) is a dummy label iff c is one of feature k's categories |
| OneHot.Encoded | utils.py:67-68 | the dummy frame has exactly the dummy labels, in fit order, on X's index |
| OneHot.OneHotTransform | utils.py:62-78 | X itself when a configured column is missing; otherwise the not-fitted or no-row error, or a well-formed frame |
| OneHot.OneHotLayout | utils.py:68-74 | on a fitted encoder the transform succeeds iff the frame has a row; output columns are the input columns minus the one-hot features in their order, then the dummy labels in fit order; index and kept columns unchanged |
| OneHot.OneHotCell | utils.py:67-68 | the dummy cell of (feature, c) in row i is 1 iff that row's value is c, else 0 |
| OneHot.BlockRowOnes | utils.py:57 | one feature's block holds exactly one 1 for a value seen at fit and none for an unseen one |
| OneHot.OneHotRowBlock | utils.py:67-68 | row i of a feature's block in the output is that block row, with one 1 or, for an unseen value, none |
| OneHot.TransformTwicePassesThrough | utils.py:63-78 | feeding a successful output back in takes the pass-through branch: the one-hot columns are gone |
| OneHot.CategoryCount | utils.py:58-59 | each feature gets one dummy column per distinct value in its fit column |
| OneHot.OneHotEncodingTransformer.constructor | utils.py:50-53 | the features are stored; no encoder and no feature names yet |
| OneHot.OneHotEncodingTransformer.Fit | utils.py:55-60 | a no-op unless all configured columns are present; then the categories and dummy labels are stored, or the encoder stays unfitted with the error |
| OneHot.OneHotEncodingTransformer.Transform | utils.py:62-78 | X itself when a configured column is missing, else a fresh frame equal to `OneHotTransform`, or exactly the error `OneHotTransform` gives; X is never changed |
| ObesityApp.Keys | app.py:52 | a widget's options are the dictionary's keys in order |
| ObesityApp.Lookup | app.py:141-153 | `d[key]` succeeds iff key is one of d's keys, and yields a value paired with it |
| ObesityApp.WidgetAnswersTranslate | app.py:52-153 | every answer the widgets can produce passes all thirteen lookups |
| ObesityApp.Translate | app.py:141-153 | translation succeeds iff every lookup finds its key, and then each value is the one its dictionary pairs with the answer |
| ObesityApp.DictFunctional | app.py:33-43 | a dict literal with distinct keys pairs each key with one value |
| ObesityApp.DictsDistinct | app.py:33-43 | none of the ten dictionaries repeats a key |
| ObesityApp.TranslatesUnique | app.py:141-153 | the answers determine the translated values |
| ObesityApp.SurveyColumnsDistinct | app.py:156-173 | the 16 record labels are all different |
| ObesityApp.BmiIsNew | app.py:176 | BMI is not one of the survey labels, so assigning it appends a column |
| ObesityApp.FromRow | app.py:156-173 | a one-row frame with the given labels, row label 0, each column holding its value |
| ObesityApp.Record | app.py:156-173 | the record has the 16 survey columns in source order and one row labelled 0, with the height and weight inputs in their columns |
| ObesityApp.RecordColumn | app.py:156-173 | column k of the record holds the k-th translated value |
| ObesityApp.BmiOf | app.py:176 | the BMI times the squared height equals the weight |
| ObesityApp.BmiColumn | app.py:176 | row by row, each BMI cell times the squared height equals the weight |
| ObesityApp.WithBmi | app.py:176 | adding BMI keeps the index and every other column, and BMI becomes one of the columns |
| ObesityApp.BuildUserFrame | app.py:156-176 | a fresh frame equal to the record with BMI added |
| ObesityApp.UserFrameColumns | app.py:156-176 | the user frame has the 16 survey columns, then BMI as the 17th, and the row index [0] |
| ObesityApp.UserFrameCells | app.py:176 | adding BMI leaves every survey cell as it was; the BMI cell is the weight over the squared height |
| ObesityApp.BmiBounds | app.py:58-61 | within the widget bounds the BMI lies between 7.5 and 200 / 1.96 |
| ObesityApp.DefaultBmi | app.py:194 | the default answers, 70 kg and 1.70 m, give a BMI in [24.215, 24.225), which two-decimal rounding shows as 24.22 |
| ObesityApp.FormBinaryClasses | app.py:33-34 | the yes/no and Female/Male columns are coded no = 0, yes = 1, Female = 0, Male = 1 |
| ObesityApp.TierOf | app.py:205-247 | high iff the percentage is at least 70, medium iff in [30, 70), low iff below 30 |
| ObesityApp.ObesityPercent | app.py:203 | a probability in [0, 1] gives a percentage in [0, 100], and the percentage reaches 70 iff the probability reaches 0.7 |
| ObesityApp.AssessThresholds | app.py:203-247 | on the raw positive-class probability, the cut-offs are 0.7 and 0.3 |
| ObesityApp.TierBoundaries | app.py:205-247 | 70 is high, 69.99 medium, 30 medium and 29.99 low |
| ObesityApp.TierMonotone | app.py:205-247 | a higher probability never gives a lower tier |

## Left out

- Streamlit rendering, page layout, widget styling and the advice texts: user interface only.
- `joblib.load` and `st.cache_resource`: file input and process-level caching.
- `model.predict` and `model.predict_proba`: an opaque serialized classifier. Its probability output is a parameter of `ObesityApp.AssessThresholds`.
- The order in which the serialized pipeline composes the three transformers. It is stored only in `modelo/pipeline.joblib`, so the transformers are modelled separately and not composed.
- IEEE-754 floating point: the scaler, the BMI and the `* 100` are computed over the reals, so rounding (for example whether `0.7 * 100` is exactly 70) is not modelled.
- The `print` warnings of the pass-through branches. Only the returned frame is modelled.
- pandas dtypes, and numpy's coercion of numeric strings. A cell is a string or a real number.
- MinMax.MinMaxTransformer.Transform: requires every fitted range to have non-zero width. The code leaves a zero range to scikit-learn, and no policy for it is written in this repository, so none is assumed.
- OneHot.OneHotEncodingTransformer.Transform: requires that no existing label equals a dummy label. pandas would then hold a duplicated label, which a label-to-column map cannot represent.
- OneHot.OneHotEncodingTransformer.Fit: does not model scikit-learn rejecting a frame with no rows. The categories are then empty.
- OneHot.CategoriesOf: does not model OneHotEncoder rejecting a frame with no rows. It returns empty categories instead.
- OneHot.OneHotEncodingTransformer.constructor: requires a feature list without repeats. Python accepts a repeated feature, and fit and transform then produce repeated dummy labels, which a label-to-column map cannot represent.
- Dummy labels are kept as the pair (feature, category) instead of the string `<feature>_<category>`. The string rendering, and any clash it could cause, is not modelled.
- Row-index labels are carried along but never looked up, and the record's single row is labelled 0.
- The mutable default arguments of the constructors. The defaults are constants here, and no transformer changes its feature list.
- ObesityApp.BuildUserFrame: requires the height to lie in the widget's range [1.40, 2.00]. pandas would turn a zero height into an infinite BMI instead of raising.
- ObesityApp.ObesityPercent: requires the classifier's output to have a first row with at least two entries. `predict_proba` of a binary classifier always has that shape.
