/** The suggestion generator of posture_analyzer.py:326-479 and the fixed
    ergonomic guide of posture_analyzer.py:481-539. Entries are identified
    by category, title and priority; the free-text descriptions are not
    modelled, and the `detected_issue` text is reduced to the value it cites. */
module Suggestions {
  import opened Common
  import opened Features

  datatype Priority = Low | Medium | High

  /** The measurement an issue entry cites in its `detected_issue` text
      (ratios are cited as percentages, before `:.1f` rounding). */
  datatype Detail =
    | CShapeSeen
    | VerticalShare(percent: real)
    | ForwardShare(percent: real)
    | DiagonalShare(percent: real)
    | MiddleDiagonalShare(percent: real)
    | RightAngles(count: nat)
    | LinesFound(count: nat)
    | BrightnessLevel(level: real)

  datatype Suggestion = Suggestion(category: string, title: string, priority: Priority, detail: Option<Detail>)

  // Entries for a posture judged correct (posture_analyzer.py:341-360).
  const Congratulations := Suggestion("Postawa", "Gratulacje!", Low, None)
  const BreaksReminder := Suggestion("Ogólne", "Pamiętaj o przerwach", Medium, None)
  const StretchReminder := Suggestion("Ogólne", "Ćwiczenia rozciągające", Low, None)

  // The seven issue entries, in check order (posture_analyzer.py:365-433).
  const CShapeWarning := Suggestion("Postawa", "Pochylone plecy (kształt C)", High, Some(CShapeSeen))

  function BackLeaning(f: Features): Suggestion
  {
    Suggestion("Postawa", "Pozycja pleców - pochylone", High, Some(VerticalShare(f.verticalRatio * 100.0)))
  }

  function LeaningForward(f: Features): Suggestion
  {
    Suggestion("Postawa", "Pochylenie do przodu", High, Some(ForwardShare(f.diagonalForwardRatio * 100.0)))
  }

  function SlouchedBack(f: Features): Suggestion
  {
    Suggestion("Postawa", "Pochylone plecy", High, Some(DiagonalShare(f.diagonalRatio * 100.0)))
  }

  function SlouchedMiddle(f: Features): Suggestion
  {
    Suggestion("Postawa", "Pochylone plecy w środkowej części", High, Some(MiddleDiagonalShare(f.middleDiagonalRatio * 100.0)))
  }

  function BodyAngles(f: Features): Suggestion
  {
    Suggestion("Postawa", "Kąty ciała", High, Some(RightAngles(f.anglesNear90)))
  }

  function ImageQuality(f: Features): Suggestion
  {
    Suggestion("Zdjęcie", "Jakość zdjęcia", Medium, Some(LinesFound(f.lineCount)))
  }

  /** The five generic tips every "incorrect" verdict receives (posture_analyzer.py:436-467). */
  const GenericTips: seq<Suggestion> := [
    Suggestion("Krzesło", "Wysokość siedziska", High, None),
    Suggestion("Krzesło", "Podparcie lędźwiowe", High, None),
    Suggestion("Postawa", "Pozycja głowy i szyi", Medium, None),
    Suggestion("Krzesło", "Głębokość siedziska", Medium, None),
    Suggestion("Pozycja", "Pozycja ramion", Medium, None)]

  /** The lighting advisory (posture_analyzer.py:470-477). */
  function Lighting(f: Features): Suggestion
  {
    Suggestion("Oświetlenie", "Oświetlenie stanowiska", Medium, Some(BrightnessLevel(f.brightness)))
  }

  /** Position of an entry in the fixed order of the issue checks, read off
      the measurement it cites; 7 for the generic entries and the lighting advisory. */
  function CheckIndex(s: Suggestion): nat
  {
    match s.detail
    case None => 7
    case Some(d) =>
      match d
      case CShapeSeen => 0
      case VerticalShare(_) => 1
      case ForwardShare(_) => 2
      case DiagonalShare(_) => 3
      case MiddleDiagonalShare(_) => 4
      case RightAngles(_) => 5
      case LinesFound(_) => 6
      case BrightnessLevel(_) => 7
  }

  /** Entries whose check numbers strictly increase and all come from the issue checks. */
  predicate InCheckOrder(r: seq<Suggestion>)
  {
    && (forall i :: 0 <= i < |r| ==> CheckIndex(r[i]) < 7 && r[i].detail.Some?)
    && (forall i, j :: 0 <= i < j < |r| ==> CheckIndex(r[i]) < CheckIndex(r[j]))
  }

  function When(c: bool, s: Suggestion): seq<Suggestion>
  {
    if c then [s] else []
  }

  /** Issue check `k` of posture_analyzer.py:365-433: whether it fires on `f` and the entry it adds. */
  function Check(f: Features, k: nat): (c: (bool, Suggestion))
    requires k < 7
    ensures CheckIndex(c.1) == k && c.1.detail.Some?
  {
    match k
    case 0 => (f.cShapeDetected, CShapeWarning)
    case 1 => (f.verticalRatio < 0.15, BackLeaning(f))
    case 2 => (f.diagonalForwardRatio > 0.3, LeaningForward(f))
    case 3 => (f.diagonalRatio > 0.4, SlouchedBack(f))
    case 4 => (f.middleDiagonalRatio > 0.4, SlouchedMiddle(f))
    case 5 => (f.anglesNear90 < 2, BodyAngles(f))
    case _ => (f.lineCount < 10, ImageQuality(f))
  }

  /** `s` is the entry of an issue check that fires on `f`. */
  predicate Fired(f: Features, s: Suggestion)
  {
    CheckIndex(s) < 7 && Check(f, CheckIndex(s)).0 && s == Check(f, CheckIndex(s)).1
  }

  /** The entries of the issue checks `k`..6 that fire, appended in check order. */
  function IssuesFrom(f: Features, k: nat): (r: seq<Suggestion>)
    requires k <= 7
    decreases 7 - k
    ensures |r| <= 7 - k
    ensures InCheckOrder(r)
    ensures forall i :: 0 <= i < |r| ==> CheckIndex(r[i]) >= k
    ensures forall i :: 0 <= i < |r| ==> Fired(f, r[i])
  {
    if k == 7 then []
    else
      var (fires, entry) := Check(f, k);
      var rest := IssuesFrom(f, k + 1);
      When(fires, entry) + rest
  }

  /** The entries of the seven issue checks that fire, in check order. */
  function IssueEntries(f: Features): seq<Suggestion>
  {
    IssuesFrom(f, 0)
  }

  /** An issue entry is listed exactly when its check fires. */
  lemma {:induction false} IssueListedIffFires(f: Features, k: nat, j: nat)
    requires k <= j < 7
    decreases j - k
    ensures Check(f, j).1 in IssuesFrom(f, k) <==> Check(f, j).0
  {
    var rest := IssuesFrom(f, k + 1);
    if j == k {
      assert Check(f, j).1 !in rest;
    } else {
      IssueListedIffFires(f, k + 1, j);
      assert Check(f, j).1 != Check(f, k).1 by {
        assert CheckIndex(Check(f, j).1) != CheckIndex(Check(f, k).1);
      }
    }
  }

  /** `_generate_suggestions(analysis, is_correct)`. */
  function Generate(f: Features, isCorrect: bool): (r: seq<Suggestion>)
    ensures isCorrect ==> r == [Congratulations, BreaksReminder, StretchReminder]
    ensures isCorrect ==> forall i :: 0 <= i < |r| ==> r[i].detail.None?
    ensures !isCorrect ==> 5 <= |r| <= 13
    ensures !isCorrect ==> |r| == |IssueEntries(f)| + 5 + (if f.brightness < 80.0 then 1 else 0)
    ensures !isCorrect ==>
      var k := |IssueEntries(f)|;
      && r[..k] == IssueEntries(f)
      && r[k..k + 5] == GenericTips
      && (f.brightness < 80.0 ==> r[k + 5] == Lighting(f))
  {
    if isCorrect then
      [Congratulations, BreaksReminder, StretchReminder]
    else
      var issues := IssueEntries(f);
      var r := issues + GenericTips + When(f.brightness < 80.0, Lighting(f));
      assert r[..|issues|] == issues;
      assert r[|issues|..|issues| + 5] == GenericTips;
      r
  }

  /** A detected C-shape puts its warning first. */
  lemma CShapeLeads(f: Features)
    requires f.cShapeDetected
    ensures |Generate(f, false)| > 0 && Generate(f, false)[0] == CShapeWarning
  {
    var issues := IssueEntries(f);
    assert issues == [CShapeWarning] + IssuesFrom(f, 1);
    assert Generate(f, false)[..|issues|] == issues;
  }

  /** Too few vertical segments list the "back leaning" entry. */
  lemma BackLeaningListed(f: Features)
    requires f.verticalRatio < 0.15
    ensures BackLeaning(f) in Generate(f, false)
  {
    IssueListedIffFires(f, 0, 1);
    var r := Generate(f, false);
    var k := |IssueEntries(f)|;
    assert r[..k] == IssueEntries(f);
    assert Check(f, 1).1 in r[..k];
  }

  /** For an "incorrect" verdict the list ends with the lighting advisory exactly when the image is darker than 80. */
  lemma LightingLast(f: Features)
    ensures var r := Generate(f, false);
      |r| >= 5 && (f.brightness < 80.0 <==> r[|r| - 1] == Lighting(f))
  {
    var r := Generate(f, false);
    var k := |IssueEntries(f)|;
    if f.brightness >= 80.0 {
      assert r[|r| - 1] == r[k..k + 5][4] == GenericTips[4];
    }
  }

  /** On an "incorrect" verdict every firing issue entry is listed, citing its measurement. */
  lemma IssuesListed(f: Features)
    ensures forall s :: s in IssueEntries(f) ==> s in Generate(f, false) && s.detail.Some?
  {
    var r, issues := Generate(f, false), IssueEntries(f);
    forall s | s in issues
      ensures s in r
    {
      var i :| 0 <= i < |issues| && issues[i] == s;
      assert r[..|issues|][i] == s;
    }
  }

  /** On an "incorrect" verdict an image darker than 80 lists the lighting advisory. */
  lemma DarkLightingListed(f: Features)
    requires f.brightness < 80.0
    ensures Lighting(f) in Generate(f, false)
  {
    var r := Generate(f, false);
    assert r[|r| - 1] == Lighting(f);
  }

  /** Every entry that cites a measurement is an issue entry or the lighting advisory, and on an
      "incorrect" verdict every firing issue entry and the sub-80 lighting advisory are listed with one. */
  lemma DetailsOnlyOnFindings(f: Features, isCorrect: bool)
    ensures forall s :: s in Generate(f, isCorrect) && s.detail.Some? ==>
      s in IssueEntries(f) || (s == Lighting(f) && f.brightness < 80.0)
    ensures !isCorrect ==> forall s :: s in IssueEntries(f) ==> s in Generate(f, isCorrect) && s.detail.Some?
    ensures !isCorrect && f.brightness < 80.0 ==> Lighting(f) in Generate(f, isCorrect) && Lighting(f).detail.Some?
  {
    var r := Generate(f, isCorrect);
    if !isCorrect {
      var issues := IssueEntries(f);
      var light := When(f.brightness < 80.0, Lighting(f));
      assert r == issues + GenericTips + light;
      forall s | s in r && s.detail.Some?
        ensures s in issues || (s == Lighting(f) && f.brightness < 80.0)
      {
        assert s in issues || s in GenericTips || s in light;
      }
      IssuesListed(f);
      if f.brightness < 80.0 {
        DarkLightingListed(f);
      }
    }
  }

  /** One section of the general ergonomic guide (its bullet points are not modelled). */
  datatype GuideSection = GuideSection(category: string, title: string)

  /** `_load_ergonomic_suggestions`: the image-independent guide. */
  const ErgonomicGuide: seq<GuideSection> := [
    GuideSection("Krzesło", "Prawidłowe ustawienie krzesła"),
    GuideSection("Monitor", "Ustawienie monitora"),
    GuideSection("Klawiatura i mysz", "Pozycja klawiatury i myszy"),
    GuideSection("Ogólne", "Dobre praktyki")]

  /** `get_ergonomic_suggestions`: four guide sections, one per area of the
      workstation, so no category repeats. */
  function ErgonomicSuggestions(): (g: seq<GuideSection>)
    ensures |g| == 4
    ensures forall i, j :: 0 <= i < j < |g| ==> g[i].category != g[j].category
  {
    ErgonomicGuide
  }
}
