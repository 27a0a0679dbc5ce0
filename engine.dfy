/** The recommendation engine behind the "Recommend Crops" button: normalise
    and validate the state and season, encode them, ask the classifier, rank
    its answer into at most three candidates and attach agronomy advice and a
    yield estimate to each. */
module Engine {
  import opened Results
  import Labels
  import Encoders
  import Ranking
  import Catalog

  /** The classifier's input: the codes of the state and of the season. */
  datatype FeaturePair = FeaturePair(state: nat, season: nat)

  /** What the classifier answers: a probability per position of its
      `classes_` when it offers `predict_proba`, or else the single crop code
      `predict` gives. */
  datatype Prediction = Distribution(weights: seq<real>) | SingleLabel(code: int)

  /** The fitted classifier: its `classes_` (crop codes of the crop encoder)
      and its answer to each feature pair. */
  datatype Classifier = Classifier(classes: seq<int>, answer: FeaturePair -> Prediction)

  /** The loaded artifacts: the classifier and the three fitted encoders. */
  datatype Artifacts = Artifacts(
    model: Classifier,
    stateEncoder: Encoders.LabelEncoder,
    seasonEncoder: Encoders.LabelEncoder,
    cropEncoder: Encoders.LabelEncoder)

  datatype Field = StateField | SeasonField

  /** Why a request gives no recommendation: a label outside its vocabulary
      (reported with the normalised label), a ranked position past the end
      of `classes_` (numpy's `IndexError`), or a crop code the crop encoder
      cannot decode (scikit-learn's `ValueError`). */
  datatype Failure =
    | UnknownCategory(field: Field, value: string)
    | ClassIndexOutOfRange
    | UnseenCropCode

  /** A ranked crop with its confidence in percent. */
  datatype Candidate = Candidate(crop: string, confidence: real)

  /** One line of the result: a candidate and the advice resolved for it. */
  datatype Entry = Entry(crop: string, confidence: real, detail: Catalog.AgronomyDetail)

  /** The result of one request: the normalised labels, the area and the
      entries in rank order. */
  datatype Recommendation = Recommendation(state: string, season: string, area: real, entries: seq<Entry>)

  //// Validation

  /** Normalises both labels, checks the state first and the season second,
      and encodes them only when both are known. The codes found decode to the
      normalised labels. */
  function Validate(a: Artifacts, stateName: string, seasonName: string): (r: Result<FeaturePair, Failure>)
    ensures !Encoders.IsKnown(a.stateEncoder, Labels.Normalize(stateName)) ==>
      r == Err(UnknownCategory(StateField, Labels.Normalize(stateName)))
    ensures (Encoders.IsKnown(a.stateEncoder, Labels.Normalize(stateName))
             && !Encoders.IsKnown(a.seasonEncoder, Labels.Normalize(seasonName))) ==>
      r == Err(UnknownCategory(SeasonField, Labels.Normalize(seasonName)))
    ensures (Encoders.IsKnown(a.stateEncoder, Labels.Normalize(stateName))
             && Encoders.IsKnown(a.seasonEncoder, Labels.Normalize(seasonName))) ==>
      && r.Ok?
      && r.value.state < |a.stateEncoder.classes|
      && a.stateEncoder.classes[r.value.state] == Labels.Normalize(stateName)
      && r.value.season < |a.seasonEncoder.classes|
      && a.seasonEncoder.classes[r.value.season] == Labels.Normalize(seasonName)
  {
    var st := Labels.Normalize(stateName);
    var se := Labels.Normalize(seasonName);
    if !Encoders.IsKnown(a.stateEncoder, st) then
      Err(UnknownCategory(StateField, st))
    else if !Encoders.IsKnown(a.seasonEncoder, se) then
      Err(UnknownCategory(SeasonField, se))
    else
      Ok(FeaturePair(Encoders.Transform(a.stateEncoder, st).value, Encoders.Transform(a.seasonEncoder, se).value))
  }

  //// Ranking

  /** `xs[positions]`, numpy's indexing by an array of positions; `None`
      stands for the `IndexError` raised on a position past the end. */
  function Gather(xs: seq<int>, positions: seq<nat>): (r: Option<seq<int>>)
    ensures r.Some? <==> forall i :: 0 <= i < |positions| ==> positions[i] < |xs|
    ensures r.Some? ==> |r.value| == |positions|
    ensures r.Some? ==> forall i :: 0 <= i < |positions| ==> positions[i] < |xs| && r.value[i] == xs[positions[i]]
  {
    if positions == [] then Some([])
    else if positions[0] >= |xs| then None
    else match Gather(xs, positions[1..])
      case None => None
      case Some(rest) => Some([xs[positions[0]]] + rest)
  }

  /** Turns the classifier's answer into ranked candidates, given the
      classifier's `classes_`. A distribution
      gives the crops at its three largest weights, largest first, each with
      confidence weight × 100; a single code gives that one crop with
      confidence 100. */
  function Rank(classes: seq<int>, crops: Encoders.LabelEncoder, p: Prediction): (r: Result<seq<Candidate>, Failure>)
    ensures r.Ok? ==> 1 <= |r.value| <= Ranking.TopCount || (p.Distribution? && p.weights == [] && r.value == [])
  {
    match p
    case Distribution(w) =>
      var top := Ranking.TopIndices(w);
      (match Gather(classes, top)
       case None => Err(ClassIndexOutOfRange)
       case Some(codes) =>
         (match Encoders.InverseTransform(crops, codes)
          case None => Err(UnseenCropCode)
          case Some(names) =>
            Ok(seq(|top|, i requires 0 <= i < |top| => Candidate(names[i], w[top[i]] * 100.0)))))
    case SingleLabel(code) =>
      match Encoders.InverseTransform(crops, [code])
      case None => Err(UnseenCropCode)
      case Some(names) => Ok([Candidate(names[0], 100.0)])
  }

  /** The distribution path. Ranking succeeds exactly when every selected
      position has a class and every such class is a crop code. The candidates
      are then the decoded crops at the top-3 positions, min(3, n) of them,
      with confidences 100 × their weights, in non-increasing order, none
      below 100 × a weight left out. Their confidences are those of EVERY
      correct top-3 selection, so however ties are broken, only the crops
      named can differ, never the confidences. */
  lemma DistributionPath(classes: seq<int>, crops: Encoders.LabelEncoder, w: seq<real>)
    ensures var top := Ranking.TopIndices(w);
      Rank(classes, crops, Distribution(w)).Ok? <==>
        forall i :: 0 <= i < |top| ==> top[i] < |classes| && Encoders.IsCode(crops, classes[top[i]])
    ensures var top := Ranking.TopIndices(w); var r := Rank(classes, crops, Distribution(w));
      r.Ok? ==>
        && |r.value| == |top| == Ranking.Min(Ranking.TopCount, |w|)
        && (forall i :: 0 <= i < |top| ==>
              && top[i] < |classes| && Encoders.IsCode(crops, classes[top[i]])
              && r.value[i].crop == crops.classes[classes[top[i]]]
              && r.value[i].confidence == w[top[i]] * 100.0)
        && (forall i, j :: 0 <= i < j < |top| ==> r.value[i].confidence >= r.value[j].confidence)
        && (forall i, q :: 0 <= i < |top| && 0 <= q < |w| && q !in top ==> w[q] * 100.0 <= r.value[i].confidence)
    ensures var r := Rank(classes, crops, Distribution(w));
      r.Ok? ==> forall sel :: Ranking.IsTopK(w, Ranking.TopCount, sel) ==>
        forall i :: 0 <= i < |r.value| ==> sel[i] < |w| && r.value[i].confidence == w[sel[i]] * 100.0
  {
    DistributionCandidates(classes, crops, w);
    var top := Ranking.TopIndices(w);
    var r := Rank(classes, crops, Distribution(w));
    if r.Ok? {
      var cs := r.value;
      forall i, j | 0 <= i < j < |top|
        ensures cs[i].confidence >= cs[j].confidence
      {
        assert w[top[i]] >= w[top[j]];
      }
      forall i, q | 0 <= i < |top| && 0 <= q < |w| && q !in top
        ensures w[q] * 100.0 <= cs[i].confidence
      {
        assert w[q] <= w[top[i]];
      }
      forall sel | Ranking.IsTopK(w, Ranking.TopCount, sel)
        ensures forall i :: 0 <= i < |cs| ==> sel[i] < |w| && cs[i].confidence == w[sel[i]] * 100.0
      {
        Ranking.TopKWeightsUnique(w, Ranking.TopCount, top, sel);
      }
    }
  }

  /** Proof step of `DistributionPath`, which restates these two clauses: when
      the distribution path succeeds, and what it then gives at each rank. */
  lemma DistributionCandidates(classes: seq<int>, crops: Encoders.LabelEncoder, w: seq<real>)
    ensures var top := Ranking.TopIndices(w);
      Rank(classes, crops, Distribution(w)).Ok? <==>
        forall i :: 0 <= i < |top| ==> top[i] < |classes| && Encoders.IsCode(crops, classes[top[i]])
    ensures var top := Ranking.TopIndices(w); var r := Rank(classes, crops, Distribution(w));
      r.Ok? ==>
        && |r.value| == |top|
        && forall i :: 0 <= i < |top| ==>
             && top[i] < |classes| && Encoders.IsCode(crops, classes[top[i]])
             && r.value[i].crop == crops.classes[classes[top[i]]]
             && r.value[i].confidence == w[top[i]] * 100.0
  {
    var top := Ranking.TopIndices(w);
    var g := Gather(classes, top);
    if g.Some? {
      var names := Encoders.InverseTransform(crops, g.value);
      assert names.Some? <==> forall i :: 0 <= i < |top| ==> Encoders.IsCode(crops, classes[top[i]]) by {
        assert forall i :: 0 <= i < |top| ==> g.value[i] == classes[top[i]];
      }
    }
  }

  /** When every weight is a probability, every confidence is a percentage. */
  lemma ConfidencesArePercentages(classes: seq<int>, crops: Encoders.LabelEncoder, w: seq<real>)
    requires forall i :: 0 <= i < |w| ==> 0.0 <= w[i] <= 1.0
    requires Rank(classes, crops, Distribution(w)).Ok?
    ensures forall c :: c in Rank(classes, crops, Distribution(w)).value ==> 0.0 <= c.confidence <= 100.0
  {
    DistributionPath(classes, crops, w);
  }

  /** The total of the candidates' confidences. */
  function TotalConfidence(cs: seq<Candidate>): real {
    if cs == [] then 0.0 else cs[0].confidence + TotalConfidence(cs[1..])
  }

  lemma {:induction false} TotalOfScaled(cs: seq<Candidate>, w: seq<real>, top: seq<nat>)
    requires |cs| == |top| && Ranking.InBounds(w, top)
    requires forall i :: 0 <= i < |top| ==> cs[i].confidence == w[top[i]] * 100.0
    ensures TotalConfidence(cs) == Ranking.SumAt(w, top) * 100.0
  {
    if cs != [] {
      TotalOfScaled(cs[1..], w, top[1..]);
    }
  }

  /** The confidences are not renormalised: when the weights are non-negative
      and total at most 1, the three confidences total at most 100. */
  lemma {:induction false} ConfidencesTotalAtMostHundred(classes: seq<int>, crops: Encoders.LabelEncoder, w: seq<real>)
    requires forall i :: 0 <= i < |w| ==> 0.0 <= w[i]
    requires Ranking.Sum(w) <= 1.0
    ensures Rank(classes, crops, Distribution(w)).Ok? ==>
      TotalConfidence(Rank(classes, crops, Distribution(w)).value) <= 100.0
  {
    var r := Rank(classes, crops, Distribution(w));
    if r.Ok? {
      var top := Ranking.TopIndices(w);
      DistributionCandidates(classes, crops, w);
      ScaledTotalBounded(r.value, w, top);
    }
  }

  lemma {:induction false} ScaledTotalBounded(cs: seq<Candidate>, w: seq<real>, top: seq<nat>)
    requires |cs| == |top| && Ranking.InBounds(w, top) && Ranking.Distinct(top)
    requires forall i :: 0 <= i < |top| ==> cs[i].confidence == w[top[i]] * 100.0
    requires forall i :: 0 <= i < |w| ==> 0.0 <= w[i]
    requires Ranking.Sum(w) <= 1.0
    ensures TotalConfidence(cs) <= 100.0
  {
    TotalOfScaled(cs, w, top);
    Ranking.SumAtBounded(w, top);
  }

  /** The single-label path: exactly one candidate, the decoded code, with
      confidence 100, whenever the crop encoder knows the code. */
  lemma SingleLabelPath(classes: seq<int>, crops: Encoders.LabelEncoder, code: int)
    ensures Rank(classes, crops, SingleLabel(code)).Ok? <==> Encoders.IsCode(crops, code)
    ensures Encoders.IsCode(crops, code) ==>
      Rank(classes, crops, SingleLabel(code)).value == [Candidate(crops.classes[code], 100.0)]
  {
    if Encoders.IsCode(crops, code) {
      var names := Encoders.InverseTransform(crops, [code]).value;
      assert names[0] == crops.classes[code];
    }
  }

  //// Assembly

  /** The loop over the ranked candidates: one entry per candidate, in rank
      order, each with the advice looked up for its own crop and the area. */
  function Assemble(cands: seq<Candidate>, area: real): (entries: seq<Entry>)
    ensures |entries| == |cands|
    ensures forall i :: 0 <= i < |cands| ==>
      entries[i] == Entry(cands[i].crop, cands[i].confidence, Catalog.Lookup(cands[i].crop, area))
  {
    if cands == [] then []
    else [Entry(cands[0].crop, cands[0].confidence, Catalog.Lookup(cands[0].crop, area))] + Assemble(cands[1..], area)
  }

  //// The request

  /** One press of the button for `stateName`, `seasonName` and a positive
      `area`. A recommendation carries the normalised labels and the area, at
      most three entries, and a positive yield estimate in every entry. */
  function Recommend(a: Artifacts, stateName: string, seasonName: string, area: real): (r: Result<Recommendation, Failure>)
    requires area > 0.0
    ensures r.Ok? ==> r.value.state == Labels.Normalize(stateName) && r.value.season == Labels.Normalize(seasonName)
    ensures r.Ok? ==> r.value.area == area && |r.value.entries| <= Ranking.TopCount
    ensures r.Ok? ==> forall i :: 0 <= i < |r.value.entries| ==> r.value.entries[i].detail.estYield > 0.0
  {
    match Validate(a, stateName, seasonName)
    case Err(e) => Err(e)
    case Ok(features) =>
      (match Rank(a.model.classes, a.cropEncoder, a.model.answer(features))
       case Err(e) => Err(e)
       case Ok(cands) =>
         Ok(Recommendation(Labels.Normalize(stateName), Labels.Normalize(seasonName), area, Assemble(cands, area))))
  }

  /** An unknown state is reported whatever the season, and a known state
      with an unknown season reports the season. */
  lemma UnknownLabelsRejected(a: Artifacts, stateName: string, seasonName: string, area: real)
    requires area > 0.0
    ensures !Encoders.IsKnown(a.stateEncoder, Labels.Normalize(stateName)) ==>
      Recommend(a, stateName, seasonName, area) == Err(UnknownCategory(StateField, Labels.Normalize(stateName)))
    ensures (Encoders.IsKnown(a.stateEncoder, Labels.Normalize(stateName))
             && !Encoders.IsKnown(a.seasonEncoder, Labels.Normalize(seasonName))) ==>
      Recommend(a, stateName, seasonName, area) == Err(UnknownCategory(SeasonField, Labels.Normalize(seasonName)))
  {
  }

  /** A validation failure is reported before the classifier is reached: any
      other classifier gives the same outcome. */
  lemma ValidationFailureSkipsClassifier(a: Artifacts, other: Classifier, stateName: string, seasonName: string, area: real)
    requires area > 0.0
    requires Validate(a, stateName, seasonName).Err?
    ensures Recommend(a, stateName, seasonName, area) == Err(Validate(a, stateName, seasonName).error)
    ensures Recommend(a.(model := other), stateName, seasonName, area) == Recommend(a, stateName, seasonName, area)
  {
  }

  /** Once both labels are known, the classifier is consulted on the encoded
      pair alone: a classifier with the same classes and the same answer for
      that pair gives the same outcome. */
  lemma ClassifierSeesEncodedPair(a: Artifacts, other: Classifier, stateName: string, seasonName: string, area: real)
    requires area > 0.0
    requires Validate(a, stateName, seasonName).Ok?
    requires other.classes == a.model.classes
    requires other.answer(Validate(a, stateName, seasonName).value) == a.model.answer(Validate(a, stateName, seasonName).value)
    ensures Recommend(a.(model := other), stateName, seasonName, area) == Recommend(a, stateName, seasonName, area)
  {
  }

  /** With both labels known, the outcome is the ranking of the classifier's
      answer for the encoded pair, each candidate completed by its advice. */
  lemma KnownLabelsReachClassifier(a: Artifacts, stateName: string, seasonName: string, area: real)
    requires area > 0.0
    requires Encoders.IsKnown(a.stateEncoder, Labels.Normalize(stateName))
    requires Encoders.IsKnown(a.seasonEncoder, Labels.Normalize(seasonName))
    ensures Validate(a, stateName, seasonName).Ok?
    ensures var ranked := Rank(a.model.classes, a.cropEncoder, a.model.answer(Validate(a, stateName, seasonName).value));
      && (ranked.Err? ==> Recommend(a, stateName, seasonName, area) == Err(ranked.error))
      && (ranked.Ok? ==>
            Recommend(a, stateName, seasonName, area) ==
            Ok(Recommendation(Labels.Normalize(stateName), Labels.Normalize(seasonName), area, Assemble(ranked.value, area))))
  {
  }

  /** A label listed in its vocabulary passes validation whenever it is in
      normal form, and then encodes to its own position. */
  lemma ListedNormalLabelsPass(a: Artifacts, stateName: string, seasonName: string)
    requires Encoders.IsKnown(a.stateEncoder, stateName) && Encoders.IsKnown(a.seasonEncoder, seasonName)
    requires Labels.Unpadded(stateName) && Labels.IsTitled(stateName)
    requires Labels.Unpadded(seasonName) && Labels.IsTitled(seasonName)
    ensures Validate(a, stateName, seasonName).Ok?
    ensures a.stateEncoder.classes[Validate(a, stateName, seasonName).value.state] == stateName
    ensures a.seasonEncoder.classes[Validate(a, stateName, seasonName).value.season] == seasonName
  {
    Labels.NormalFormCharacterised(stateName);
    Labels.NormalFormCharacterised(seasonName);
  }

  /** Normalisation can reject a label chosen exactly as the vocabulary lists
      it: a listed state with a word starting in lower case is reported as
      unknown, in its title-cased form, unless that form is listed too. */
  lemma ListedLowerCaseWordRejected(a: Artifacts, stateName: string, seasonName: string, area: real, k: nat)
    requires area > 0.0
    requires Encoders.IsKnown(a.stateEncoder, stateName)
    requires !Encoders.IsKnown(a.stateEncoder, Labels.Title(stateName))
    requires Labels.Unpadded(stateName) && k < |stateName|
    requires Labels.StartsWord(stateName, k) && Labels.IsLower(stateName[k])
    ensures Labels.Normalize(stateName) != stateName
    ensures Recommend(a, stateName, seasonName, area) == Err(UnknownCategory(StateField, Labels.Normalize(stateName)))
  {
    Labels.LowerCaseWordIsChanged(stateName, k);
    Labels.NormalizeUnpadded(stateName);
    UnknownLabelsRejected(a, stateName, seasonName, area);
  }
}
