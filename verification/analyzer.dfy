/** `analyze_posture` (posture_analyzer.py:32-73): the result record built
    around feature extraction, the verdict and the suggestions. The decoder
    and OpenCV are not modelled; what they produce is the `Observation`
    the analysis starts from. */
module Analyzer {
  import opened Features
  import Classifier
  import Suggestions

  /** What reading the uploaded file gave: `imread` returned nothing, an
      OpenCV stage raised (with its message), or the image decoded and the
      stages reported their outputs. */
  datatype Observation = Unreadable | Raised(reason: string) | Decoded(image: Image)

  /** The returned dictionary: `status = 'error'` carries only a message;
      `status = 'success'` carries the verdict, the features, the suggestions and a message. */
  datatype AnalysisResult =
    | Failure(message: string)
    | Success(isCorrect: bool, analysis: Features, suggestions: seq<Suggestions.Suggestion>, message: string)

  const UnreadableMessage := "Nie można wczytać obrazu"
  const ErrorPrefix := "Błąd podczas analizy: "
  const CorrectMessage := "Postawa prawidłowa"
  const IncorrectMessage := "Wykryto problemy z postawą"

  /** `analyze_posture`. */
  function Analyze(obs: Observation): (r: AnalysisResult)
    requires obs.Decoded? ==> WellFormed(obs.image)
    ensures r.Failure? <==> !obs.Decoded?
    ensures obs.Unreadable? ==> r.message == UnreadableMessage
    ensures obs.Raised? ==> r.message == ErrorPrefix + obs.reason
    ensures r.Success? ==> (r.message == CorrectMessage <==> r.isCorrect)
    ensures r.Success? ==> (r.message == IncorrectMessage <==> !r.isCorrect)
    ensures r.Success? ==> Consistent(r.analysis) && r.analysis.lineCount == |obs.image.segments|
  {
    match obs
    case Unreadable => Failure(UnreadableMessage)
    case Raised(reason) => Failure(ErrorPrefix + reason)
    case Decoded(img) =>
      var f := Extract(img);
      var ok := Classifier.Evaluate(f);
      Success(ok, f, Suggestions.Generate(f, ok), if ok then CorrectMessage else IncorrectMessage)
  }

  /** With fewer than five segments the verdict is always "incorrect". */
  lemma FewLinesIncorrect(img: Image)
    requires WellFormed(img) && |img.segments| < 5
    ensures Analyze(Decoded(img)).Success? && !Analyze(Decoded(img)).isCorrect
  {
  }

  /** A detected C-shape rules "incorrect" and puts the high-priority
      C-shape warning first in the suggestions. */
  lemma CShapeReported(img: Image)
    requires WellFormed(img)
    requires exists i :: 0 <= i < |img.contours| && CShape(img.contours[i], PixelCount(img) as real)
    ensures var r := Analyze(Decoded(img));
      && r.Success? && !r.isCorrect && r.message == IncorrectMessage
      && |r.suggestions| > 0 && r.suggestions[0] == Suggestions.CShapeWarning
      && r.suggestions[0].priority == Suggestions.High
  {
    var f := Extract(img);
    assert f.cShapeDetected;
    DecodedResult(img);
    Suggestions.CShapeLeads(f);
  }

  /** The result for a decoded image: the classifier's verdict on the extracted features, with their suggestions. */
  lemma DecodedResult(img: Image)
    requires WellFormed(img)
    ensures var f := Extract(img);
      var ok := Classifier.Evaluate(f);
      Analyze(Decoded(img)) == Success(ok, f, Suggestions.Generate(f, ok), if ok then CorrectMessage else IncorrectMessage)
  {
  }

  /** Too few vertical segments rule "incorrect" and list the high-priority
      "back leaning" entry citing the vertical share. */
  lemma LowVerticalReported(img: Image)
    requires WellFormed(img)
    requires Extract(img).verticalRatio < 0.15
    ensures var r := Analyze(Decoded(img));
      && r.Success? && !r.isCorrect
      && Suggestions.BackLeaning(r.analysis) in r.suggestions
      && Suggestions.BackLeaning(r.analysis).priority == Suggestions.High
  {
    var f := Extract(img);
    assert !Classifier.Evaluate(f);
    DecodedResult(img);
    Suggestions.BackLeaningListed(f);
  }

  /** A "correct" verdict comes with exactly the three fixed entries:
      congratulations, the breaks reminder and the stretching reminder, none of them citing a measurement. */
  lemma CorrectVerdictSuggestions(img: Image)
    requires WellFormed(img)
    ensures var r := Analyze(Decoded(img));
      r.isCorrect ==>
        && r.suggestions == [Suggestions.Congratulations, Suggestions.BreaksReminder, Suggestions.StretchReminder]
        && forall i :: 0 <= i < 3 ==> r.suggestions[i].detail.None?
  {
  }

  /** An "incorrect" verdict ends with the five generic tips, followed by the
      lighting advisory exactly when the image is darker than 80. */
  lemma IncorrectVerdictSuggestions(img: Image)
    requires WellFormed(img)
    ensures var r := Analyze(Decoded(img));
      !r.isCorrect ==>
        && 5 <= |r.suggestions| <= 13
        && (img.brightness < 80.0 <==> r.suggestions[|r.suggestions| - 1] == Suggestions.Lighting(r.analysis))
  {
    var f := Extract(img);
    DecodedResult(img);
    if !Classifier.Evaluate(f) {
      Suggestions.LightingLast(f);
    }
  }
}
