/** Worked requests, stated on literal inputs. Each is proved through a chain
    of step lemmas whose inputs are parameters fixed by their requires clauses,
    so that every step reasons about one stage of the request. */
module Examples {
  import opened Results
  import Labels
  import Encoders
  import Ranking
  import Catalog
  import opened Engine

  /** Two states, two seasons, three crops, and a classifier whose `classes_`
      list the crop codes in the order Wheat, Maize, Soyabean and which answers
      `weights` for every feature pair. */
  function ExampleArtifacts(weights: seq<real>): Artifacts {
    Artifacts(
      Classifier([2, 0, 1], (features: FeaturePair) => Distribution(weights)),
      Encoders.LabelEncoder(["Karnataka", "Maharashtra"]),
      Encoders.LabelEncoder(["Kharif", "Rabi"]),
      Encoders.LabelEncoder(["Maize", "Soyabean", "Wheat"]))
  }

  //// Steps of the Maharashtra request

  lemma ExampleLabels(stateName: string, seasonName: string, weights: seq<real>)
    requires stateName == "Maharashtra" && seasonName == "Kharif"
    ensures Labels.Normalize(stateName) == "Maharashtra" && Labels.Normalize(seasonName) == "Kharif"
    ensures Validate(ExampleArtifacts(weights), stateName, seasonName).Ok?
  {
    Labels.CapitalisedWordIsNormal(stateName);
    Labels.CapitalisedWordIsNormal(seasonName);
    ExampleLabelsKnown(stateName, seasonName, weights);
  }

  lemma ExampleLabelsKnown(stateName: string, seasonName: string, weights: seq<real>)
    requires stateName == "Maharashtra" && seasonName == "Kharif"
    ensures Encoders.IsKnown(ExampleArtifacts(weights).stateEncoder, stateName)
    ensures Encoders.IsKnown(ExampleArtifacts(weights).seasonEncoder, seasonName)
  {
    assert ExampleArtifacts(weights).stateEncoder.classes[1] == stateName;
    assert ExampleArtifacts(weights).seasonEncoder.classes[0] == seasonName;
  }

  lemma ExamplePositions(w: seq<real>, top: seq<nat>)
    requires w == [0.1, 0.6, 0.3]
    requires Ranking.IsTopK(w, Ranking.TopCount, top)
    requires forall i :: 0 <= i < |top| ==> w[top[i]] == w[[1, 2, 0][i]]
    ensures top == [1, 2, 0]
  {
    assert top[0] == 1 && top[1] == 2 && top[2] == 0;
  }

  /** The weights 0.1, 0.6, 0.3 rank as positions 1, 2, 0. */
  lemma ExampleSelection(w: seq<real>)
    requires w == [0.1, 0.6, 0.3]
    ensures Ranking.TopIndices(w) == [1, 2, 0]
  {
    var top := Ranking.TopIndices(w);
    ExampleOrderIsTop(w, [1, 2, 0]);
    Ranking.TopKWeightsUnique(w, Ranking.TopCount, top, [1, 2, 0]);
    ExamplePositions(w, top);
  }

  lemma ExampleOrderIsTop(w: seq<real>, sel: seq<nat>)
    requires w == [0.1, 0.6, 0.3] && sel == [1, 2, 0]
    ensures Ranking.IsTopK(w, Ranking.TopCount, sel)
  {
    assert forall j :: 0 <= j < |w| ==> j in sel;
  }

  lemma ExampleRanking(classes: seq<int>, crops: Encoders.LabelEncoder, w: seq<real>)
    requires classes == [2, 0, 1] && crops == Encoders.LabelEncoder(["Maize", "Soyabean", "Wheat"])
    requires w == [0.1, 0.6, 0.3]
    ensures Rank(classes, crops, Distribution(w)) ==
      Ok([Candidate("Maize", 60.0), Candidate("Soyabean", 30.0), Candidate("Wheat", 10.0)])
  {
    ExampleSelection(w);
    DistributionPath(classes, crops, w);
    var top := Ranking.TopIndices(w);
    assert forall i :: 0 <= i < |top| ==> top[i] < |classes| && Encoders.IsCode(crops, classes[top[i]]);
    var cs := Rank(classes, crops, Distribution(w)).value;
    assert cs[0] == Candidate("Maize", 60.0);
    assert cs[1] == Candidate("Soyabean", 30.0);
    assert cs[2] == Candidate("Wheat", 10.0);
    assert cs == [Candidate("Maize", 60.0), Candidate("Soyabean", 30.0), Candidate("Wheat", 10.0)];
  }

  lemma ExampleAssembly(cs: seq<Candidate>, area: real)
    requires cs == [Candidate("Maize", 60.0), Candidate("Soyabean", 30.0), Candidate("Wheat", 10.0)]
    requires area == 5.0
    ensures Assemble(cs, area) ==
      [ Entry("Maize", 60.0, Catalog.AgronomyDetail(
          "DAP, Urea, Potash", "Chlorpyrifos, Cypermethrin", 125.0, Catalog.FromCatalog)),
        Entry("Soyabean", 30.0, Catalog.AgronomyDetail(
          "SSP, Potash, Ammonium Sulphate", "Imidacloprid, Lambda-cyhalothrin", 50.0, Catalog.FromCatalog)),
        Entry("Wheat", 10.0, Catalog.AgronomyDetail(
          "Urea, DAP, MOP", "Chlorpyrifos, Malathion", 110.0, Catalog.FromCatalog)) ]
  {
    var e := Assemble(cs, area);
    assert e[0].detail == Catalog.Lookup("Maize", area);
    assert e[1].detail == Catalog.Lookup("Soyabean", area);
    assert e[2].detail == Catalog.Lookup("Wheat", area);
  }

  lemma UnknownStateLabel(stateName: string)
    requires stateName == "unknownstate"
    ensures Labels.Normalize(stateName) == "Unknownstate"
  {
    var word := "Unknownstate";
    assert stateName == ['u'] + word[1..];
    assert forall k :: 0 < k < |word| ==> Labels.IsLower(word[k]);
    Labels.WordNormalizesToCapitalised(stateName, word);
  }

  lemma UnknownStateNotKnown(name: string, weights: seq<real>)
    requires name == "Unknownstate"
    ensures !Encoders.IsKnown(ExampleArtifacts(weights).stateEncoder, name)
  {
    var states := ExampleArtifacts(weights).stateEncoder.classes;
    assert states == ["Karnataka", "Maharashtra"];
    assert |name| == 12 && |states[0]| == 9 && |states[1]| == 11;
  }

  lemma ExampleRequest(stateName: string, seasonName: string, area: real, weights: seq<real>, cs: seq<Candidate>)
    requires stateName == "Maharashtra" && seasonName == "Kharif" && area == 5.0
    requires weights == [0.1, 0.6, 0.3]
    requires cs == [Candidate("Maize", 60.0), Candidate("Soyabean", 30.0), Candidate("Wheat", 10.0)]
    ensures Recommend(ExampleArtifacts(weights), stateName, seasonName, area) ==
      Ok(Recommendation("Maharashtra", "Kharif", area, Assemble(cs, area)))
  {
    var a := ExampleArtifacts(weights);
    ExampleLabels(stateName, seasonName, weights);
    KnownLabelsReachClassifier(a, stateName, seasonName, area);
    ExampleRanking(a.model.classes, a.cropEncoder, weights);
  }

  lemma MaharashtraKharifSteps(stateName: string, seasonName: string, area: real, weights: seq<real>)
    requires stateName == "Maharashtra" && seasonName == "Kharif" && area == 5.0
    requires weights == [0.1, 0.6, 0.3]
    ensures Recommend(ExampleArtifacts(weights), stateName, seasonName, area) == Ok(Recommendation(
      "Maharashtra", "Kharif", 5.0,
      [ Entry("Maize", 60.0, Catalog.AgronomyDetail(
          "DAP, Urea, Potash", "Chlorpyrifos, Cypermethrin", 125.0, Catalog.FromCatalog)),
        Entry("Soyabean", 30.0, Catalog.AgronomyDetail(
          "SSP, Potash, Ammonium Sulphate", "Imidacloprid, Lambda-cyhalothrin", 50.0, Catalog.FromCatalog)),
        Entry("Wheat", 10.0, Catalog.AgronomyDetail(
          "Urea, DAP, MOP", "Chlorpyrifos, Malathion", 110.0, Catalog.FromCatalog)) ]))
  {
    var cs := [Candidate("Maize", 60.0), Candidate("Soyabean", 30.0), Candidate("Wheat", 10.0)];
    ExampleRequest(stateName, seasonName, area, weights, cs);
    ExampleAssembly(cs, area);
  }

  lemma UnknownStateSteps(stateName: string, seasonName: string, area: real, weights: seq<real>)
    requires stateName == "unknownstate" && seasonName == "Kharif" && area == 5.0
    ensures Recommend(ExampleArtifacts(weights), stateName, seasonName, area)
      == Err(UnknownCategory(StateField, "Unknownstate"))
  {
    UnknownStateLabel(stateName);
    UnknownStateNotKnown(Labels.Normalize(stateName), weights);
    UnknownLabelsRejected(ExampleArtifacts(weights), stateName, seasonName, area);
  }

  //// The requests

  /** Maharashtra in the Kharif season on five acres, with weights 0.6 for
      Maize, 0.3 for Soyabean and 0.1 for Wheat: Maize at 60 %, Soyabean at
      30 % and Wheat at 10 %, each with its catalog advice and yields of 125,
      50 and 110 quintals. */
  lemma MaharashtraKharifExample()
    ensures Recommend(ExampleArtifacts([0.1, 0.6, 0.3]), "Maharashtra", "Kharif", 5.0) == Ok(Recommendation(
      "Maharashtra", "Kharif", 5.0,
      [ Entry("Maize", 60.0, Catalog.AgronomyDetail(
          "DAP, Urea, Potash", "Chlorpyrifos, Cypermethrin", 125.0, Catalog.FromCatalog)),
        Entry("Soyabean", 30.0, Catalog.AgronomyDetail(
          "SSP, Potash, Ammonium Sulphate", "Imidacloprid, Lambda-cyhalothrin", 50.0, Catalog.FromCatalog)),
        Entry("Wheat", 10.0, Catalog.AgronomyDetail(
          "Urea, DAP, MOP", "Chlorpyrifos, Malathion", 110.0, Catalog.FromCatalog)) ]))
  {
    MaharashtraKharifSteps("Maharashtra", "Kharif", 5.0, [0.1, 0.6, 0.3]);
  }

  /** A lower-case unknown state is reported in its normalised form, before
      the season is looked at. */
  lemma UnknownStateExample()
    ensures Recommend(ExampleArtifacts([0.1, 0.6, 0.3]), "unknownstate", "Kharif", 5.0)
      == Err(UnknownCategory(StateField, "Unknownstate"))
  {
    UnknownStateSteps("unknownstate", "Kharif", 5.0, [0.1, 0.6, 0.3]);
  }
}
