/** The fitted label encoder that turns a carrier code into the integer
    the classifier was trained on. As fitted, its classes are the distinct
    labels seen in training, and a label's code is its position among
    them. */
module LabelEncoding {
  import opened Wrappers
  import opened Values

  datatype LabelEncoder = LabelEncoder(classes: seq<string>)

  /** What fitting guarantees: no label is listed twice. */
  predicate Fitted(enc: LabelEncoder)
  {
    forall i, j :: 0 <= i < j < |enc.classes| ==> enc.classes[i] != enc.classes[j]
  }

  /** The first position of `x` in `s`, if any. */
  function IndexOf(s: seq<string>, x: string): (r: Option<nat>)
    ensures r.Some? <==> x in s
    ensures r.Some? ==> r.value < |s| && s[r.value] == x && x !in s[..r.value]
  {
    if |s| == 0 then None
    else if s[0] == x then Some(0)
    else
      match IndexOf(s[1..], x)
      case None => None
      case Some(i) =>
        assert s[..i + 1] == [s[0]] + s[1..][..i];
        Some(i + 1)
  }

  /** The label is in the vocabulary the encoder was fitted on. */
  predicate InVocabulary(enc: LabelEncoder, category: Value)
  {
    category.Str? && category.s in enc.classes
  }

  /** `encoder.transform([label])[0]`: the label's position among the
      classes, or a ValueError for a label never seen in training. */
  function Transform(enc: LabelEncoder, category: Value): (r: Result<int, Error>)
    ensures r.Success? <==> InVocabulary(enc, category)
    ensures r.Success? ==> 0 <= r.value < |enc.classes| && enc.classes[r.value] == category.s
    ensures r.Failure? ==> r.error == ValueError
  {
    if category.Str? then
      match IndexOf(enc.classes, category.s)
      case Some(i) => Success(i)
      case None => Failure(ValueError)
    else Failure(ValueError)
  }

  /** The decoding that `Transform` is checked against, as scikit-learn's
      `inverse_transform` computes it: the label at that position, a
      ValueError for a code outside the classes. */
  function InverseTransform(enc: LabelEncoder, code: int): (r: Result<string, Error>)
    ensures r.Success? <==> 0 <= code < |enc.classes|
    ensures r.Success? ==> r.value == enc.classes[code]
    ensures r.Failure? ==> r.error == ValueError
  {
    if 0 <= code < |enc.classes| then Success(enc.classes[code]) else Failure(ValueError)
  }

  /** Different carriers in the vocabulary get different codes. */
  lemma TransformInjective(enc: LabelEncoder, a: Value, b: Value)
    requires InVocabulary(enc, a) && InVocabulary(enc, b) && a != b
    ensures Transform(enc, a).value != Transform(enc, b).value
  {
  }

  /** Decoding a carrier's code gives the carrier back. */
  lemma DecodeEncode(enc: LabelEncoder, category: Value)
    requires InVocabulary(enc, category)
    ensures InverseTransform(enc, Transform(enc, category).value) == Success(category.s)
  {
  }

  /** On a fitted encoder, encoding the label at a position gives that
      position back. */
  lemma EncodeDecode(enc: LabelEncoder, code: int)
    requires Fitted(enc) && 0 <= code < |enc.classes|
    ensures Transform(enc, Str(InverseTransform(enc, code).value)) == Success(code)
  {
    var i := Transform(enc, Str(enc.classes[code])).value;
    assert enc.classes[i] == enc.classes[code];
    if i < code {
      assert false;
    } else if i > code {
      assert false;
    }
  }
}
