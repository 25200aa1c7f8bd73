/**
 * The upload page: which files it accepts, which extractor a file name
 * selects, the state of the chosen file and the active tab, when the
 * generate button is enabled, the checks each tab runs before asking the
 * server for a reviewer, and the reviewer data it stores afterwards. The
 * text extractors (PDF, OCR, plain text) and the camera are inputs.
 */
module UploadPage {
  import opened TextUtil
  import opened Json

  /** The part of a `File` the page looks at. */
  datatype File = File(name: string, mimeType: string, size: nat)

  const ValidTypes: seq<string> := ["application/pdf", "image/jpeg", "image/jpg", "image/png", "text/plain"]
  const ValidExtensions: seq<string> := [".pdf", ".jpg", ".jpeg", ".png", ".txt"]
  const MaxFileSize: nat := 10 * 1024 * 1024

  const WrongTypeMessage := "Please upload PDF, Image (JPG/PNG), or Text file only"
  const TooLargeMessage := "File must be less than 10MB"

  /** `'.' + name.split('.').pop().toLowerCase()`: the piece after the last dot, or the whole name when there is none. */
  function Extension(name: string): string
  {
    "." + Lower(LastOf(SplitChar(name, '.')))
  }

  /** `p` follows a `c` at the end of `s` when `s` has one, and is all of `s` otherwise. */
  predicate AfterLastSeparator(s: string, c: char, p: string)
  {
    if c in s then |p| < |s| && s[|s| - |p| - 1..] == [c] + p else p == s
  }

  function LastOf(pieces: seq<string>): string
    requires pieces != []
  {
    pieces[|pieces| - 1]
  }

  /** The last piece of a split is what follows the last separator, which it does not contain. */
  lemma LastPiece(s: string, c: char)
    ensures AfterLastSeparator(s, c, LastOf(SplitChar(s, c)))
    ensures c !in LastOf(SplitChar(s, c))
  {
    LastPieceAfter(s, c);
    SplitPiecesFree(s, c);
  }

  lemma {:induction false} LastPieceAfter(s: string, c: char)
    ensures AfterLastSeparator(s, c, LastOf(SplitChar(s, c)))
    decreases |s|
  {
    var i := IndexOfChar(s, c);
    if i >= 0 {
      var rest := s[i + 1..];
      LastPieceAfter(rest, c);
      SplitAtFirst(s, c, i);
      assert LastOf(SplitChar(s, c)) == LastOf(SplitChar(rest, c));
      if c in rest {
        LastPieceLater(s, c, i, LastOf(SplitChar(rest, c)));
      } else {
        SplitNone(rest, c);
        LastPieceFirst(s, c, i);
      }
    } else {
      SplitNone(s, c);
    }
  }

  /** With a later separator, what follows the last one in the rest follows the last one in `s`. */
  lemma LastPieceLater(s: string, c: char, i: nat, p: string)
    requires i < |s| && s[i] == c && c in s[i + 1..]
    requires AfterLastSeparator(s[i + 1..], c, p)
    ensures AfterLastSeparator(s, c, p)
  {
    var rest := s[i + 1..];
    assert rest[|rest| - |p| - 1..] == s[|s| - |p| - 1..];
  }

  /** Without a later separator, the text after the only separator follows the last one. */
  lemma LastPieceFirst(s: string, c: char, i: nat)
    requires i < |s| && s[i] == c && c !in s[i + 1..]
    ensures AfterLastSeparator(s, c, s[i + 1..])
  {
    var rest := s[i + 1..];
    assert s[|s| - |rest| - 1..] == [c] + rest;
  }

  /** Why `handleFile` turned a file down, if it did. */
  datatype FileVerdict = FileAccepted | WrongType | TooLarge

  /** `handleFile`'s two checks: a listed MIME type or extension first, then the size limit. */
  function CheckFile(file: File): (v: FileVerdict)
    ensures v == FileAccepted <==>
      (file.mimeType in ValidTypes || Extension(file.name) in ValidExtensions) && file.size <= MaxFileSize
    ensures v == TooLarge ==> file.size > MaxFileSize
  {
    if file.mimeType !in ValidTypes && Extension(file.name) !in ValidExtensions then WrongType
    else if file.size > MaxFileSize then TooLarge
    else FileAccepted
  }

  /** The alert `handleFile` shows for a refused file. */
  function VerdictMessage(v: FileVerdict): Option<string>
  {
    match v
    case FileAccepted => None
    case WrongType => Some(WrongTypeMessage)
    case TooLarge => Some(TooLargeMessage)
  }

  /** The extractor `extractText` runs. */
  datatype Extractor = PdfExtractor | ImageExtractor | TextExtractor

  /** `/\.(jpg|jpeg|png)$/` on the lowercased name. */
  predicate ImageName(lname: string)
  {
    EndsWith(lname, ".jpg") || EndsWith(lname, ".jpeg") || EndsWith(lname, ".png")
  }

  /** `extractText`'s dispatch on the lowercased file name. */
  function Dispatch(name: string): (r: Result<Extractor>)
    ensures r.Err? ==> r.error == "Unsupported file type"
    ensures r == Ok(PdfExtractor) <==> EndsWith(Lower(name), ".pdf")
    ensures r == Ok(ImageExtractor) <==> !EndsWith(Lower(name), ".pdf") && ImageName(Lower(name))
    ensures r == Ok(TextExtractor) <==>
      (!EndsWith(Lower(name), ".pdf") && !ImageName(Lower(name)) && EndsWith(Lower(name), ".txt"))
    ensures r.Err? <==> (!EndsWith(Lower(name), ".pdf") && !ImageName(Lower(name)) && !EndsWith(Lower(name), ".txt"))
  {
    var lname := Lower(name);
    if EndsWith(lname, ".pdf") then Ok(PdfExtractor)
    else if ImageName(lname) then Ok(ImageExtractor)
    else if EndsWith(lname, ".txt") then Ok(TextExtractor)
    else Err("Unsupported file type")
  }

  lemma LowerSuffix(name: string, r: nat)
    requires r < |name| && name[r] == '.'
    ensures Lower(name)[r..] == "." + Lower(name[r + 1..])
  {
    var l := Lower(name);
    var tail := "." + Lower(name[r + 1..]);
    assert |l[r..]| == |tail|;
    forall k | 0 <= k < |tail| ensures l[r..][k] == tail[k] {
      if k > 0 {
        assert name[r + 1..][k - 1] == name[r + k];
      }
    }
  }

  /** For a name with a dot, the lowercased name ends with the extension. */
  lemma ExtensionIsSuffix(name: string)
    requires '.' in name
    ensures EndsWith(Lower(name), Extension(name))
  {
    LastPiece(name, '.');
    LowerEndsWith(name, LastOf(SplitChar(name, '.')));
  }

  /** A name ending in a dot and `p` ends, lowercased, in a dot and `p` lowercased. */
  lemma LowerEndsWith(name: string, p: string)
    requires '.' in name && AfterLastSeparator(name, '.', p)
    ensures EndsWith(Lower(name), "." + Lower(p))
  {
    var r := |name| - |p| - 1;
    assert name[r..] == "." + p;
    assert name[r] == '.' && name[r + 1..] == p;
    LowerSuffix(name, r);
  }

  /**
   * A file accepted for the extension of a name that has a dot can be
   * extracted: its lowercased name ends with that extension.
   */
  lemma ListedExtensionDispatches(name: string)
    requires '.' in name && Extension(name) in ValidExtensions
    ensures Dispatch(name).Ok?
  {
    ExtensionIsSuffix(name);
  }

  /** A file accepted for its MIME type alone, or one named after its extension, has no extractor. */
  lemma AcceptedButUnsupported()
    ensures CheckFile(File("notes", "application/pdf", 1024)) == FileAccepted
    ensures Dispatch("notes").Err?
    ensures Extension("pdf") == ".pdf" && CheckFile(File("pdf", "", 1024)) == FileAccepted
    ensures Dispatch("pdf").Err?
  {
    assert ValidTypes[0] == "application/pdf";
    var p := "pdf";
    SplitNone(p, '.');
    assert Lower(p) == p;
    assert Extension(p) == ".pdf";
    assert ValidExtensions[0] == ".pdf";
    assert Extension(p) in ValidExtensions;
    assert 1024 <= MaxFileSize;
    var n := "notes";
    assert Lower(n) == n;
    NoDotNoExtractor(n);
    NoDotNoExtractor(p);
  }

  /** A name without a dot selects no extractor. */
  lemma NoDotNoExtractor(name: string)
    requires '.' !in Lower(name)
    ensures Dispatch(name).Err?
  {
    var l := Lower(name);
    forall e | 0 < |e| <= |l| && e[0] == '.' ensures l[|l| - |e|..] != e {
      assert l[|l| - |e|..][0] != e[0];
    }
    assert ".pdf"[0] == '.' && ".txt"[0] == '.' && ".png"[0] == '.' && ".jpg"[0] == '.' && ".jpeg"[0] == '.';
  }

  /** The three input tabs. */
  datatype Tab = UploadTab | PasteTab | ScanTab

  /**
   * `cameraScanner.capturedImage`: the `CameraScanner` constructor never sets
   * it, so it is `undefined` until the first capture; a retake sets it to
   * `null`; a capture stores the data URL.
   */
  datatype CapturedImage = Unset | NullImage | DataUrl(url: string)

  /** `!capturedImage` is false: only a non-empty data URL is truthy. */
  predicate ImageTruthy(image: CapturedImage)
  {
    image.DataUrl? && image.url != []
  }

  /** The part of the scanner the page's capture and retake buttons update. */
  class Scanner {
    var capturedImage: CapturedImage

    /** Only a truthy data URL is ever stored. */
    predicate Valid()
      reads this
    {
      capturedImage.DataUrl? ==> capturedImage.url != []
    }

    /** `new CameraScanner()`: `capturedImage` is left unset. */
    constructor()
      ensures Valid() && capturedImage == Unset
    {
      capturedImage := Unset;
    }

    /** The capture button: `captureImage()` gives a data URL, or `null` when the camera is not ready; only a truthy one is stored. */
    method Capture(imageDataUrl: Option<string>)
      requires Valid()
      modifies this
      ensures Valid()
      ensures capturedImage ==
        if imageDataUrl.Some? && imageDataUrl.value != [] then DataUrl(imageDataUrl.value) else old(capturedImage)
    {
      if imageDataUrl.Some? && imageDataUrl.value != [] {
        capturedImage := DataUrl(imageDataUrl.value);
      }
    }

    /** The retake button clears the image to `null`. */
    method Retake()
      modifies this
      ensures Valid() && capturedImage == NullImage
    {
      capturedImage := NullImage;
    }
  }

  /** What the page shows in its inputs when the button state is computed. */
  datatype Inputs = Inputs(uploadTitle: string, pasteTitle: string, pasteContent: string, scanTitle: string, image: CapturedImage)

  /** The page state that the event handlers update: `uploadedFile` and `currentTab`. */
  class UploadForm {
    var uploadedFile: Option<File>
    var currentTab: Tab

    constructor()
      ensures uploadedFile == None && currentTab == UploadTab
    {
      uploadedFile := None;
      currentTab := UploadTab;
    }

    /** `handleFile`: the file is kept only when it passes both checks. */
    method HandleFile(file: File) returns (alert: Option<string>)
      modifies this
      ensures alert == VerdictMessage(CheckFile(file))
      ensures uploadedFile == if CheckFile(file) == FileAccepted then Some(file) else old(uploadedFile)
      ensures currentTab == old(currentTab)
    {
      var v := CheckFile(file);
      alert := VerdictMessage(v);
      if v == FileAccepted {
        uploadedFile := Some(file);
      }
    }

    /** `removeFile`. */
    method RemoveFile()
      modifies this
      ensures uploadedFile == None && currentTab == old(currentTab)
    {
      uploadedFile := None;
    }

    /** A tab button's click handler: an unknown tab name leaves the tab as it is. */
    method SelectTab(name: string)
      modifies this
      ensures currentTab == (if name == "upload" then UploadTab else if name == "paste" then PasteTab
                             else if name == "scan" then ScanTab else old(currentTab))
      ensures uploadedFile == old(uploadedFile)
    {
      if name == "upload" {
        currentTab := UploadTab;
      } else if name == "paste" {
        currentTab := PasteTab;
      } else if name == "scan" {
        currentTab := ScanTab;
      }
    }

    /** `updateGenerateButton`: whether the button is enabled. */
    predicate GenerateEnabled(inputs: Inputs)
      reads this
    {
      match currentTab
      case UploadTab => uploadedFile.Some? && Trim(inputs.uploadTitle) != []
      case PasteTab => Trim(inputs.pasteTitle) != [] && Trim(inputs.pasteContent) != []
      case ScanTab => Trim(inputs.scanTitle) != [] && inputs.image != NullImage
    }

    /**
     * On the upload and paste tabs the button is enabled exactly when the
     * handler gets past its first check (a paste handler may still refuse
     * short content). On the scan tab that holds once an image was captured
     * or retaken; whenever the handler gets past its checks the button is
     * enabled.
     */
    lemma ButtonMatchesHandler(inputs: Inputs, extract: Extractor -> Result<string>, ocr: Result<string>)
      ensures currentTab == UploadTab ==>
        (GenerateEnabled(inputs) <==> UploadGeneration(uploadedFile, inputs.uploadTitle, extract) != Alert(MissingFileOrTitle))
      ensures currentTab == PasteTab ==>
        (GenerateEnabled(inputs) <==> PasteGeneration(inputs.pasteTitle, inputs.pasteContent) != Alert(MissingTitleOrContent))
      ensures currentTab == ScanTab && ScanGeneration(inputs.scanTitle, inputs.image, ocr) !in {Alert(MissingScanTitle), Alert(MissingImage)}
        ==> GenerateEnabled(inputs)
      ensures currentTab == ScanTab && inputs.image != Unset && (inputs.image.DataUrl? ==> inputs.image.url != []) ==>
        (GenerateEnabled(inputs) <==> ScanGeneration(inputs.scanTitle, inputs.image, ocr) !in {Alert(MissingScanTitle), Alert(MissingImage)})
    {
    }

    /**
     * Before the first capture the image is `undefined`: the button's
     * `!== null` test enables it while the handler's truthiness test
     * refuses with the capture alert.
     */
    lemma EnabledBeforeFirstCapture(inputs: Inputs, ocr: Result<string>)
      requires currentTab == ScanTab && Trim(inputs.scanTitle) != [] && inputs.image == Unset
      ensures GenerateEnabled(inputs)
      ensures ScanGeneration(inputs.scanTitle, inputs.image, ocr) == Alert(MissingImage)
    {
    }
  }

  /** What a generate handler does: show an alert, or ask the server for a reviewer of the text under the title. */
  datatype Outcome = Alert(message: string) | Generate(text: string, title: string)

  const MinTextLength: nat := 50
  const MissingFileOrTitle := "Please upload a file and enter a title"
  const TooLittleFileText := "Could not extract enough text from the file. Please try a different file."
  const MissingTitleOrContent := "Please enter both title and content"
  const TooLittleContent := "Please enter more content (at least 50 characters)"
  const MissingScanTitle := "Please enter a title " + "for your scanned document"
  const MissingImage := "Please capture an image first"
  const TooLittleImageText := "Could not extract enough text from the image. Please try:\n• Better lighting\n• Clearer focus\n• Darker text on lighter background"

  /** A message with a prefix differs from one that starts differently. */
  lemma PrefixDiffers(prefix: string, rest: string, other: string)
    requires prefix != [] && other != [] && prefix[0] != other[0]
    ensures prefix + rest != other
  {
    assert (prefix + rest)[0] == prefix[0];
  }

  lemma ScanErrorDiffers(rest: string)
    ensures "Error processing scanned image:\n\n" + rest != MissingScanTitle
    ensures "Error processing scanned image:\n\n" + rest != MissingImage
  {
    var m := "Error processing scanned image:\n\n" + rest;
    assert m[0] == 'E';
    var t := MissingScanTitle;
    var i := MissingImage;
    assert t[0] == 'P';
    assert i[0] == 'P';
  }

  /**
   * `handleUploadGeneration`: the title is trimmed, the file's extractor is
   * chosen by its name, and `extract` stands for what that extractor
   * yields or throws.
   */
  function UploadGeneration(file: Option<File>, titleInput: string, extract: Extractor -> Result<string>): (o: Outcome)
    ensures o.Generate? ==> file.Some? && o.title == Trim(titleInput) && o.title != [] && |o.text| >= MinTextLength
    ensures o.Generate? ==> Dispatch(file.value.name).Ok? && extract(Dispatch(file.value.name).value) == Ok(o.text)
    ensures o == Alert(MissingFileOrTitle) <==> file.None? || Trim(titleInput) == []
  {
    var title := Trim(titleInput);
    if file.None? || title == [] then Alert(MissingFileOrTitle)
    else
      var d := Dispatch(file.value.name);
      if d.Err? then PrefixDiffers("Error: ", d.error, MissingFileOrTitle); Alert("Error: " + d.error)
      else
        var text := extract(d.value);
        if text.Err? then PrefixDiffers("Error: ", text.error, MissingFileOrTitle); Alert("Error: " + text.error)
        else if |text.value| < MinTextLength then Alert(TooLittleFileText)
        else Generate(text.value, title)
  }

  /** `handlePasteGeneration`: both inputs are trimmed and the content must have at least 50 characters. */
  function PasteGeneration(titleInput: string, contentInput: string): (o: Outcome)
    ensures o.Generate? <==> Trim(titleInput) != [] && |Trim(contentInput)| >= MinTextLength
    ensures o.Generate? ==> o == Generate(Trim(contentInput), Trim(titleInput))
    ensures o == Alert(MissingTitleOrContent) <==> Trim(titleInput) == [] || Trim(contentInput) == []
  {
    var title := Trim(titleInput);
    var content := Trim(contentInput);
    if title == [] || content == [] then Alert(MissingTitleOrContent)
    else if |content| < MinTextLength then Alert(TooLittleContent)
    else Generate(content, title)
  }

  /** `handleScanGeneration`: `ocr` stands for what the scanner's text recognition yields or throws. */
  function ScanGeneration(titleInput: string, image: CapturedImage, ocr: Result<string>): (o: Outcome)
    ensures o.Generate? ==> (ImageTruthy(image) && o.title == Trim(titleInput) && o.title != [] && ocr == Ok(o.text)
      && |o.text| >= MinTextLength)
    ensures o == Alert(MissingScanTitle) <==> Trim(titleInput) == []
    ensures o == Alert(MissingImage) <==> Trim(titleInput) != [] && !ImageTruthy(image)
  {
    var title := Trim(titleInput);
    if title == [] then Alert(MissingScanTitle)
    else if !ImageTruthy(image) then Alert(MissingImage)
    else if ocr.Err? then
      ScanErrorDiffers(ocr.error);
      Alert("Error processing scanned image:\n\n" + ocr.error)
    else if |ocr.value| < MinTextLength then Alert(TooLittleImageText)
    else Generate(ocr.value, title)
  }

  /**
   * The object stored as `reviewerData`: the server's fields, with `title`
   * replaced by the page's title and a `timestamp` added.
   */
  function CompleteData(server: map<string, JsonValue>, title: string, now: int): (r: map<string, JsonValue>)
    ensures "title" in r && r["title"] == JStr(title)
    ensures "timestamp" in r && r["timestamp"] == JNum(now as real)
    ensures forall k :: k != "title" && k != "timestamp" ==>
      (k in r <==> k in server) && (k in server ==> r[k] == server[k])
  {
    server["title" := JStr(title)]["timestamp" := JNum(now as real)]
  }
}
