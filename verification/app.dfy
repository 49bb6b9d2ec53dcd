/** The request-independent logic of app.py: the file-extension whitelist,
    the integer `HH:MM:SS` formatter and the order of the checks in the
    posture upload endpoint, as a pure decision over what the request
    carried. Routing, templates, JSON encoding and saving the file are not
    modelled. */
module App {
  import opened Text
  import Analyzer
  import WorkMonitor
  import Features

  // ---------------------------------------------------------- whitelist

  const AllowedExtensions: set<string> := {"png", "jpg", "jpeg", "gif"}

  /** `allowed_file`: a '.' is present and the lower-cased text after the last one is whitelisted. */
  predicate AllowedFile(name: string)
  {
    '.' in name && Lower(AfterLast(name, '.')) in AllowedExtensions
  }

  /** A name is allowed exactly when it has a last '.' whose suffix, lower-cased, is whitelisted. */
  lemma AllowedFileCharacterised(name: string)
    ensures AllowedFile(name) <==>
      exists k :: 0 <= k < |name| && name[k] == '.' && '.' !in name[k + 1..]
        && Lower(name[k + 1..]) in AllowedExtensions
  {
    if AllowedFile(name) {
      var r := AfterLast(name, '.');
      var k := |name| - |r| - 1;
      assert |r| < |name|;
      assert name[k] == '.' && name[k + 1..] == r;
    }
    if exists k :: 0 <= k < |name| && name[k] == '.' && '.' !in name[k + 1..]
        && Lower(name[k + 1..]) in AllowedExtensions {
      var k :| 0 <= k < |name| && name[k] == '.' && '.' !in name[k + 1..]
        && Lower(name[k + 1..]) in AllowedExtensions;
      AfterLastAt(name, '.', k);
    }
  }

  /** Upper-case extensions pass, as does a bare extension; a second extension
      after the image one, or no '.' at all, is refused. */
  lemma AllowedFileExamples()
    ensures AllowedFile("a.JPG")
    ensures AllowedFile(".png")
    ensures !AllowedFile("a.jpg.exe")
    ensures !AllowedFile("noext")
  {
    UpperCaseAccepted();
    BareExtensionAccepted();
    SecondExtensionRefused();
    assert "noext"[1] == 'o';
  }

  /** An upper-case extension is lower-cased before the lookup. */
  lemma UpperCaseAccepted()
    ensures AllowedFile("a.JPG")
  {
    AfterLastAt("a.JPG", '.', 1);
    assert Lower("JPG") == "jpg";
  }

  /** A name that is only an extension passes. */
  lemma BareExtensionAccepted()
    ensures AllowedFile(".png")
  {
    AfterLastAt(".png", '.', 0);
    assert Lower("png") == "png";
  }

  /** Only the last extension counts. */
  lemma SecondExtensionRefused()
    ensures !AllowedFile("a.jpg.exe")
  {
    AfterLastAt("a.jpg.exe", '.', 5);
    assert Lower("exe") == "exe";
  }

  // ---------------------------------------------------------- formatter

  /** app.py's `format_time(seconds)` on an integer, with Python's floor `//` and `%`. */
  function FormatTime(seconds: int): string
  {
    Clock3(seconds / 3600, (seconds % 3600) / 60, seconds % 60)
  }

  /** For a non-negative count of seconds the display reads back as fields
      below 60 that add up to the count. */
  lemma FormatTimeReadsBack(seconds: int)
    requires seconds >= 0
    ensures var c := ReadClock3(FormatTime(seconds));
      && c.Some?
      && c.value.1 < 60 && c.value.2 < 60
      && c.value.0 * 3600 + c.value.1 * 60 + c.value.2 == seconds
  {
    HmsReadsBack(seconds);
  }

  /** The monitor's float formatter shows what this one shows for the whole seconds. */
  lemma FormattersAgree(x: real)
    ensures WorkMonitor.FormatTime(x) == FormatTime(x.Floor)
  {
    WorkMonitor.FormatTimeFields(x);
  }

  // ------------------------------------------------------------- upload

  /** What the multipart request carried under the `image` key. */
  datatype Upload = NoImagePart | ImagePart(filename: string)

  /** The endpoint's answer: a 400 with an error text, or a success record
      naming the stored file and holding the analysis result. */
  datatype UploadResponse =
    | Rejected(code: int, error: string)
    | Accepted(filename: string, analysis: Analyzer.AnalysisResult)

  const MissingPart := "Brak pliku obrazu"
  const EmptyName := "Nie wybrano pliku"
  const BadFormat := "Nieprawidłowy format pliku"

  /** The name the upload is stored under: `stamp` is the `%Y%m%d_%H%M%S` rendering of the clock. */
  function StoredName(stamp: string): string
  {
    "posture_" + stamp + ".jpg"
  }

  /** `upload_posture_image`: the checks run in a fixed order and only an
      allowed file is analysed; `obs` is what analysing the saved file observes. */
  function HandleUpload(u: Upload, stamp: string, obs: Analyzer.Observation): (r: UploadResponse)
    requires obs.Decoded? ==> Features.WellFormed(obs.image)
    ensures u.NoImagePart? ==> r == Rejected(400, MissingPart)
    ensures u.ImagePart? && u.filename == [] ==> r == Rejected(400, EmptyName)
    ensures u.ImagePart? && u.filename != [] && !AllowedFile(u.filename) ==> r == Rejected(400, BadFormat)
    ensures r.Accepted? <==> u.ImagePart? && AllowedFile(u.filename)
    ensures r.Rejected? ==> r.code == 400
  {
    match u
    case NoImagePart => Rejected(400, MissingPart)
    case ImagePart(name) =>
      if name == [] then Rejected(400, EmptyName)
      else if AllowedFile(name) then Accepted(StoredName(stamp), Analyzer.Analyze(obs))
      else Rejected(400, BadFormat)
  }

  /** An accepted upload is stored as `posture_<stamp>.jpg` whatever its own
      extension, carries the analysis of the saved image, and is a success
      even when that analysis failed. */
  lemma AcceptedUpload(name: string, stamp: string, obs: Analyzer.Observation)
    requires obs.Decoded? ==> Features.WellFormed(obs.image)
    requires AllowedFile(name)
    ensures var r := HandleUpload(ImagePart(name), stamp, obs);
      && r.Accepted?
      && r.filename == StoredName(stamp)
      && r.analysis == Analyzer.Analyze(obs)
      && (obs.Unreadable? ==> r.analysis.Failure? && r.analysis.message == Analyzer.UnreadableMessage)
  {
  }

  /** The stored name always passes the whitelist itself, with extension `jpg`. */
  lemma StoredNameAllowed(stamp: string)
    ensures AllowedFile(StoredName(stamp))
    ensures AfterLast(StoredName(stamp), '.') == "jpg"
  {
    var n := StoredName(stamp);
    var k := |n| - 4;
    assert n[k] == '.' && n[k + 1..] == "jpg";
    AfterLastAt(n, '.', k);
    assert Lower("jpg") == "jpg";
  }
}
