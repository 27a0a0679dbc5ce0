# Crop recommendation engine — a Dafny model

This project models the recommendation engine of the Smart Crop Recommendation
Streamlit app: the logic behind its "Recommend Crops" button. Given a state, a
season and an area, the engine does five things:

1. It normalises both labels the way Python's `strip().title()` does.
2. It checks the state, then the season, against the vocabularies of the
   fitted label encoders, and encodes them only when both are known.
3. It asks the classifier about the encoded pair.
4. It ranks the answer into at most three crops, each with a confidence in
   percent:
   - a probability vector gives its three largest weights, largest first, and
     each confidence is weight × 100;
   - a classifier without `predict_proba` gives its single predicted crop, at
     100 %.
5. It attaches fertilizer and pesticide advice and a yield estimate to each
   crop, taken from the five-entry `crop_details` catalog. A crop outside the
   catalog gets the general advice and 18 quintals per acre.

The code is pure, so everything is functions and lemmas:

| file | module | models |
|---|---|---|
| `results.dfy` | `Results` | `Option` and `Result` wrappers |
| `labels.dfy` | `Labels` | `strip()`, `title()` and their composition, on ASCII |
| `encoders.dfy` | `Encoders` | a fitted `LabelEncoder`: its `classes_`, `transform`, `inverse_transform` |
| `ranking.dfy` | `Ranking` | `np.argsort(probs)[-3:][::-1]` and what a correct top-3 selection is |
| `catalog.dfy` | `Catalog` | the `crop_details` table and the lookup with general advice |
| `engine.dfy` | `Engine` | validation, ranking with both classifier answers, assembly, the whole request |
| `examples.dfy` | `Examples` | worked requests |

The classifier is a value `Classifier(classes, answer)`:
- `classes` is its `classes_`.
- `answer` maps each feature pair to either `Distribution(weights)` (the model
  has `predict_proba`) or `SingleLabel(code)` (it does not, and `predict` is
  used).

This turns the source's `try`/`except AttributeError` into a case split on a
datatype. A request that fails is an `Err` value whose `Failure` says why:
- `UnknownCategory` stands for the validation message: the handler reports
  an unknown state or season with `st.error` and stops there (lines 68-71).
- `ClassIndexOutOfRange` stands for numpy's `IndexError`, raised when a
  ranked position lies past the end of `classes_` (line 81). The source lets
  it propagate.
- `UnseenCropCode` stands for scikit-learn's `ValueError`, raised when the
  crop encoder cannot decode a code (lines 83 and 86). The source lets it
  propagate.

Points of the source's behaviour that the model keeps as they are:
- The general advice reads "Urea or DAP (General Purpose)" and "Neem Oil or
  Bio-Pesticide (General Use)".
- The yield estimate is not rounded. It is rounded to one decimal only in
  the display format (`:.1f`).
- Equal weights get no tie-break rule. Ties are left open by the predicate
  `Ranking.IsTopK`. `TopIndices` makes one valid choice (a stable ascending
  order, reversed). `Ranking.TopKWeightsUnique` shows that the choice never
  changes the confidences, only which of the tied crops is named.
- An empty probability vector gives an empty ranking.
- The confidences are the weights × 100, not renormalised. When the weights
  are non-negative and total at most 1, the selected confidences total at
  most 100 (`Engine.ConfidencesTotalAtMostHundred`).

Two consequences of the source's behaviour are stated as lemmas:
- A label listed in its vocabulary passes when it is already in normal form
  (`Engine.ListedNormalLabelsPass`).
- A listed label with a word starting in lower case can be rejected even
  when chosen exactly as listed. `title()` turns "Jammu and Kashmir" into
  "Jammu And Kashmir". Unless the vocabulary also lists that title-cased
  form, the label is reported as unknown
  (`Engine.ListedLowerCaseWordRejected`).

## Model

| member | source | states |
|---|---|---|
| `Labels.IsSpace` | crop_recommendation_app.py:65-66 | The characters `strip()` removes are exactly the ASCII codes 9-13 (tab to carriage return), 28-31 (the information separators) and 32 (space). |
| `Labels.TrimStart` | crop_recommendation_app.py:65-66 | The result is a suffix of the input, everything removed is whitespace, and it does not start with whitespace. |
| `Labels.TrimEnd` | crop_recommendation_app.py:65-66 | The result is a prefix of the input, everything removed is whitespace, and it does not end with whitespace. |
| `Labels.Strip` | crop_recommendation_app.py:65-66 | `strip()` gives a segment of the input with no whitespace at either end, and only whitespace lies outside that segment. |
| `Labels.TitleFrom` | crop_recommendation_app.py:65-66 | `title()` keeps the length and writes each character in upper case when the previous character is uncased and in lower case otherwise. |
| `Labels.Title` | crop_recommendation_app.py:65-66 | Each output character is the input character, upper-cased at a word start and lower-cased inside a word. |
| `Labels.TitleIsTitled` | crop_recommendation_app.py:65-66 | In the output of `title()`, a cased character is upper case exactly when it starts a word. |
| `Labels.TitleIgnoresCase` | crop_recommendation_app.py:65-66 | Two inputs that differ only in letter case title-case to the same string. |
| `Labels.Normalize` | crop_recommendation_app.py:65-66 | `strip().title()` gives a title-cased label with no whitespace at its ends and with the letters of the stripped input. |
| `Labels.NormalizeIdempotent` | crop_recommendation_app.py:65-66 | Normalising twice gives the same label as normalising once. |
| `Labels.NormalFormCharacterised` | crop_recommendation_app.py:65-66 | A label is a fixed point of normalisation if and only if it has no whitespace at its ends and is title-cased. |
| `Labels.LowerCaseWordIsChanged` | crop_recommendation_app.py:65-66 | Any label with a word starting in lower case is changed by normalisation, whether or not it has whitespace at its ends. |
| `Encoders.IsKnown` | crop_recommendation_app.py:68-70 | A label is in `classes_.tolist()` exactly when some position of the vocabulary holds it. |
| `Encoders.Transform` | crop_recommendation_app.py:73-74 | `transform` succeeds exactly on known labels, and the code it gives indexes that label in `classes_`. |
| `Encoders.InverseTransform` | crop_recommendation_app.py:83 | `inverse_transform` succeeds exactly when every code is within `classes_`, and decodes each code, in order, to the label at that position. |
| `Encoders.DecodeEncode` | crop_recommendation_app.py:73-74 | Decoding the code of a known label gives back the label. |
| `Encoders.EncodeDecode` | crop_recommendation_app.py:83 | In a fitted encoder (no label listed twice), encoding the label of a code gives back the code. |
| `Ranking.Insert` | crop_recommendation_app.py:80 | Inserting a new position into an ascending order keeps it ascending and duplicate-free, and adds exactly that position. |
| `Ranking.Argsort` | crop_recommendation_app.py:80 | `argsort` lists every position of the vector exactly once, by ascending weight. |
| `Ranking.Reversed` | crop_recommendation_app.py:80 | `[::-1]` keeps the length and exactly the same positions. Its order is stated in `Ranking.ReversedCons`. |
| `Ranking.ReversedCons` | crop_recommendation_app.py:80 | `[::-1]` moves the first element to the end and reverses the rest. With the length clause of `Ranking.Reversed`, this determines reversal. |
| `Ranking.ReversedTwice` | crop_recommendation_app.py:80 | Reversing twice gives the sequence back. |
| `Ranking.TopIndices` | crop_recommendation_app.py:80 | `argsort(probs)[-3:][::-1]` is a correct top-3 selection: min(3, n) distinct, in-bounds positions in non-increasing weight, with no unselected position heavier than a selected one. |
| `Ranking.TopKWeightsUnique` | crop_recommendation_app.py:80-82 | Any two correct top-k selections have the same weight at every rank, so tie-breaking never changes a confidence. |
| `Catalog.CropDetails` | crop_recommendation_app.py:41-47 | The catalog lists Maize, Soyabean, Jowar, Wheat and Rice with their fertilizer and pesticide texts and rates of 25, 10, 18, 22 and 30 quintals per acre. |
| `Catalog.Lookup` | crop_recommendation_app.py:94-109 | A listed crop gets its own fertilizer, pesticide and rate × area, tagged as catalog advice. Any other crop gets the general texts and 18 × area, tagged as general advice. A positive area gives a positive yield. |
| `Catalog.CatalogRatesPositive` | crop_recommendation_app.py:41-47 | Every yield rate of the five catalog entries is positive. |
| `Catalog.LookupScalesWithArea` | crop_recommendation_app.py:96-103 | The advice does not depend on the area. The yield divided by the area is the crop's rate, and yields add over areas. |
| `Catalog.BarleyOnTwoAcres` | crop_recommendation_app.py:102-109 | A crop outside the catalog on 2 acres gets the general advice and 36 quintals. |
| `Catalog.MaizeOnFiveAcres` | crop_recommendation_app.py:94-101 | Maize on 5 acres gets its catalog advice and 125 quintals. |
| `Engine.Validate` | crop_recommendation_app.py:65-74 | An unknown state is reported first, whatever the season. A known state with an unknown season reports the season. Only when both are known are they encoded, to codes that decode to the normalised labels. |
| `Engine.Gather` | crop_recommendation_app.py:81 | Indexing `classes_` by positions succeeds exactly when all positions are in bounds, and gives the class at each position in order. |
| `Engine.Rank` | crop_recommendation_app.py:77-87 | A successful ranking has between one and three candidates, or none for an empty distribution. |
| `Engine.DistributionPath` | crop_recommendation_app.py:78-83 | See below the table. |
| `Engine.ConfidencesArePercentages` | crop_recommendation_app.py:82 | When all weights lie in [0, 1], every confidence lies in [0, 100]. |
| `Engine.ConfidencesTotalAtMostHundred` | crop_recommendation_app.py:78-82 | With non-negative weights totalling at most 1, a successful ranking has confidences totalling at most 100. |
| `Engine.SingleLabelPath` | crop_recommendation_app.py:84-87 | Without a distribution, ranking succeeds exactly when the predicted code decodes. It then gives one candidate, the decoded crop, at confidence 100. |
| `Engine.Assemble` | crop_recommendation_app.py:91-109 | There is one entry per candidate, in rank order. Each carries its candidate's crop and confidence and the lookup for that crop and the area, and nothing else. |
| `Engine.Recommend` | crop_recommendation_app.py:64-109 | A recommendation carries the normalised labels and the area. It has at most three entries, each with a positive yield estimate. |
| `Engine.UnknownLabelsRejected` | crop_recommendation_app.py:68-71 | An unknown state fails the request with the normalised state. A known state with an unknown season fails with the normalised season. |
| `Engine.ValidationFailureSkipsClassifier` | crop_recommendation_app.py:68-78 | A validation failure is the request's outcome, and replacing the classifier does not change it: the classifier is not reached. |
| `Engine.ClassifierSeesEncodedPair` | crop_recommendation_app.py:72-78 | With both labels known, the classifier matters only through its classes and its answer for the encoded pair. |
| `Engine.KnownLabelsReachClassifier` | crop_recommendation_app.py:72-109 | With both labels known, the outcome is the ranking of the classifier's answer for the encoded pair. A ranking error propagates. Otherwise each candidate is completed by its advice. |
| `Engine.ListedNormalLabelsPass` | crop_recommendation_app.py:58-74 | Listed labels already in normal form pass validation and encode to their own positions. |
| `Engine.ListedLowerCaseWordRejected` | crop_recommendation_app.py:58-71 | A listed state with a word starting in lower case, whose title-cased form is not listed, is changed by normalisation. Choosing it exactly as listed fails with that title-cased form. |
| `Examples.MaharashtraKharifExample` | crop_recommendation_app.py:65-109 | Maharashtra, Kharif, 5 acres, with weights Maize 0.6, Soyabean 0.3 and Wheat 0.1, gives Maize 60 % (125 q), Soyabean 30 % (50 q) and Wheat 10 % (110 q), all from the catalog. |
| `Examples.UnknownStateExample` | crop_recommendation_app.py:65-69 | The state "unknownstate" fails as the unknown state "Unknownstate". |

`Engine.DistributionPath` states five things about the distribution path:
- Ranking succeeds exactly when every selected position has a class and every
  such class decodes.
- The candidates are then the decoded crops at the min(3, n) selected
  positions.
- Each confidence is weight × 100, and the confidences do not increase.
- No confidence is below 100 × the weight of an unselected position.
- The confidences equal 100 × the weights of every correct top-3 selection.

## Left out

- Page setup, widgets, the selection boxes and all rendering. These are UI.
- The area bounds of the number input (1 to 10000). They appear only as the
  precondition `area > 0`.
- Loading the pickled artifacts, the file-existence checks and the surrounding
  `try`/`except`, which are file I/O and caching. The artifacts are a
  parameter.
- The weather helper. It is an HTTP call, and its text is never used in
  ranking.
- The internals of the classifier and of scikit-learn's `LabelEncoder`. These
  are foreign libraries:
  - the classifier is its `classes_` and an answer function;
  - an encoder is its list of classes;
  - the model does not require `classes_` to be sorted, as scikit-learn keeps
    it.
- Floating-point arithmetic, NaN weights and the one-decimal display
  formatting. All arithmetic is on exact reals.
- An `AttributeError` raised by something other than a missing
  `predict_proba`. Only the two answer kinds are modelled.
- Character handling outside ASCII. Only ASCII whitespace is stripped, only
  ASCII letters are cased, and every other character is kept as it is.
- Ranking.TopIndices: does not reproduce numpy's unstable quicksort order
  among equal weights. It makes one valid choice and is proved correct
  against the tie-agnostic `IsTopK`.
