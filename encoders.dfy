/** A fitted scikit-learn `LabelEncoder`, reduced to what the recommendation
    engine uses of it: its vocabulary `classes_`, `transform` (label to code)
    and `inverse_transform` (codes to labels). Code `c` stands for `classes[c]`. */
module Encoders {
  import opened Results

  datatype LabelEncoder = LabelEncoder(classes: seq<string>)

  /** A fitted encoder never lists a label twice. */
  predicate Fitted(e: LabelEncoder) {
    forall i, j :: 0 <= i < j < |e.classes| ==> e.classes[i] != e.classes[j]
  }

  /** The membership test `label in encoder.classes_.tolist()`. */
  predicate IsKnown(e: LabelEncoder, name: string): (b: bool)
    ensures b <==> exists i :: 0 <= i < |e.classes| && e.classes[i] == name
  {
    name in e.classes
  }

  /** The first position of `x` in `xs`. */
  function IndexOf(xs: seq<string>, x: string): (i: nat)
    requires x in xs
    ensures i < |xs| && xs[i] == x
    ensures forall j :: 0 <= j < i ==> xs[j] != x
  {
    if xs[0] == x then 0 else 1 + IndexOf(xs[1..], x)
  }

  /** `encoder.transform([name])[0]`: the code of a known label; `None` stands
      for the `ValueError` scikit-learn raises on a label outside the vocabulary. */
  function Transform(e: LabelEncoder, name: string): (r: Option<nat>)
    ensures r.Some? <==> IsKnown(e, name)
    ensures r.Some? ==> r.value < |e.classes| && e.classes[r.value] == name
  {
    if name in e.classes then Some(IndexOf(e.classes, name)) else None
  }

  /** A code this encoder can decode. */
  predicate IsCode(e: LabelEncoder, code: int) {
    0 <= code < |e.classes|
  }

  /** `encoder.inverse_transform(codes)`: the label of every code, in order;
      `None` stands for the `ValueError` scikit-learn raises when any code lies
      outside `0 .. len(classes_) - 1`. */
  function InverseTransform(e: LabelEncoder, codes: seq<int>): (r: Option<seq<string>>)
    ensures r.Some? <==> forall i :: 0 <= i < |codes| ==> IsCode(e, codes[i])
    ensures r.Some? ==> |r.value| == |codes|
    ensures r.Some? ==> forall i :: 0 <= i < |codes| ==> IsCode(e, codes[i]) && r.value[i] == e.classes[codes[i]]
  {
    if codes == [] then Some([])
    else if !IsCode(e, codes[0]) then None
    else match InverseTransform(e, codes[1..])
      case None => None
      case Some(rest) => Some([e.classes[codes[0]]] + rest)
  }

  /** Decoding the code of a known label gives the label back. */
  lemma DecodeEncode(e: LabelEncoder, name: string)
    requires IsKnown(e, name)
    ensures Transform(e, name).Some?
    ensures InverseTransform(e, [Transform(e, name).value]) == Some([name])
  {
    var r := InverseTransform(e, [Transform(e, name).value]);
    assert |r.value| == 1 && r.value[0] == name;
    assert r.value == [name];
  }

  /** In a fitted encoder, encoding the label of a code gives the code back. */
  lemma EncodeDecode(e: LabelEncoder, code: int)
    requires Fitted(e) && IsCode(e, code)
    ensures InverseTransform(e, [code]).Some?
    ensures Transform(e, InverseTransform(e, [code]).value[0]) == Some(code)
  {
  }
}
