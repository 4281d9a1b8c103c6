/**
  Candidate extraction: the nested loops of `analyze_picture` (the upload
  handler) and `webcam_picture` (the camera handler) that walk the
  recognition result line by line and word by word, and keep the first word
  that passes the plate filter, with its spaces removed.

  The two handlers differ only in how they treat a missing result or a
  missing line: the camera handler tests `if ocr_result:` and `if line:`
  and skips them; the upload handler iterates them directly, so a `None`
  in either place raises a `TypeError` that no handler catches.
*/
module OcrScan {
  import opened Wrappers
  import opened PlateGrammar

  /**
    One recognised region: `word[1]` is a `(text, confidence)` pair, or it is
    something else, in which case the handlers skip the word.
  */
  datatype Word = Recognized(text: string, confidence: real) | Malformed

  /** One entry of the result: `None`, or a list of words. */
  datatype Line = NoLine | Words(words: seq<Word>)

  /** The whole recognition result: `None`, or a list of lines. */
  datatype OcrResult = NoResult | Lines(lines: seq<Line>)

  /** Which handler runs the loops. */
  datatype Variant = Upload | Webcam

  /** What the loops leave behind: a plate, no plate, or an uncaught `TypeError`. */
  datatype Extraction = Found(plate: string) | NoCandidate | Crashed

  predicate Accepted(w: Word) {
    w.Recognized? && IsAccepted(w.text, w.confidence)
  }

  /** The word at line `l`, position `w` exists and passes the filter. */
  predicate AcceptedAt(ls: seq<Line>, l: int, w: int) {
    0 <= l < |ls| && ls[l].Words? && 0 <= w < |ls[l].words| && Accepted(ls[l].words[w])
  }

  /** Line-then-word order of positions. */
  predicate Precedes(l1: int, w1: int, l2: int, w2: int) {
    l1 < l2 || (l1 == l2 && w1 < w2)
  }

  predicate NoneAccepted(line: Line) {
    line.Words? ==> forall m :: 0 <= m < |line.words| ==> !Accepted(line.words[m])
  }

  /** Some word of the line passes the filter (as found by the inner loop). */
  predicate LineHasPlate(line: Line) {
    line.Words? && FirstAcceptedFrom(line.words, 0).Some?
  }

  /** The index of the first accepted word at or after `j`. */
  function FirstAcceptedFrom(ws: seq<Word>, j: nat): (k: Option<nat>)
    requires j <= |ws|
    decreases |ws| - j
    ensures k.Some? ==> j <= k.value < |ws| && Accepted(ws[k.value])
    ensures k.Some? ==> forall m :: j <= m < k.value ==> !Accepted(ws[m])
    ensures k.None? ==> forall m :: j <= m < |ws| ==> !Accepted(ws[m])
  {
    if j == |ws| then None
    else if Accepted(ws[j]) then Some(j)
    else FirstAcceptedFrom(ws, j + 1)
  }

  /** Where the scan of the lines from `i` on stops. */
  datatype Scan = Hit(line: nat, word: nat) | Miss | Crash

  /**
    The scan of lines `i`, `i + 1`, ...: the first accepted word is a hit; a
    `None` line before it is skipped by the camera handler and raises in the
    upload handler.
  */
  function ScanFrom(ls: seq<Line>, i: nat, v: Variant): (r: Scan)
    requires i <= |ls|
    decreases |ls| - i
    ensures r.Hit? ==> i <= r.line < |ls| && ls[r.line].Words?
    ensures r.Hit? ==> FirstAcceptedFrom(ls[r.line].words, 0) == Some(r.word)
    ensures r.Hit? || r.Miss? ==>
              forall l :: i <= l < |ls| && (r.Hit? ==> l < r.line) ==>
                !LineHasPlate(ls[l]) && (ls[l].NoLine? ==> v.Webcam?)
    ensures r.Crash? ==> v.Upload?
  {
    if i == |ls| then Miss
    else match ls[i]
      case NoLine =>
        if v.Webcam? then ScanFrom(ls, i + 1, v) else Crash
      case Words(ws) =>
        match FirstAcceptedFrom(ws, 0)
        case Some(k) => Hit(i, k)
        case None => ScanFrom(ls, i + 1, v)
  }

  /** The value of `plate_number` after the loops, and whether they raised. */
  function Candidate(ocr: OcrResult, v: Variant): Extraction {
    match ocr
    case NoResult => if v == Webcam then NoCandidate else Crashed
    case Lines(ls) =>
      match ScanFrom(ls, 0, v)
      case Hit(l, w) => Found(StripSpaces(ls[l].words[w].text))
      case Miss => NoCandidate
      case Crash => Crashed
  }

  /** The inner `for word in line` loop with its `break`, shared by both handlers. */
  method ScanWords(ws: seq<Word>) returns (plate: Option<string>, ghost k: nat)
    ensures plate.Some? <==> FirstAcceptedFrom(ws, 0).Some?
    ensures plate.Some? ==> k == FirstAcceptedFrom(ws, 0).value && plate.value == StripSpaces(ws[k].text)
    ensures plate.Some? ==> |plate.value| > 0
  {
    plate := None;
    k := 0;
    var j := 0;
    while j < |ws|
      invariant 0 <= j <= |ws|
      invariant plate == None
      invariant FirstAcceptedFrom(ws, 0) == FirstAcceptedFrom(ws, j)
      decreases |ws| - j
    {
      if ws[j].Recognized? {
        var text, confidence := ws[j].text, ws[j].confidence;
        if IsAccepted(text, confidence) {
          StrippedPlateLength(text);
          plate := Some(StripSpaces(text));
          k := j;
          break;
        }
      }
      j := j + 1;
    }
  }

  /** `analyze_picture` (server.py, lines 56-71): the loops over a result that may raise. */
  method ExtractUpload(ocr: OcrResult) returns (r: Extraction)
    ensures r == Candidate(ocr, Upload)
  {
    if ocr.NoResult? {
      // `for line in None` raises TypeError
      return Crashed;
    }
    var ls := ocr.lines;
    var plate: Option<string> := None;
    ghost var hit := 0;
    ghost var at := 0;
    var i := 0;
    while i < |ls|
      invariant 0 <= i <= |ls|
      invariant plate == None
      invariant ScanFrom(ls, 0, Upload) == ScanFrom(ls, i, Upload)
    {
      if ls[i].NoLine? {
        // `for word in None` raises TypeError
        return Crashed;
      }
      ghost var k;
      plate, k := ScanWords(ls[i].words);
      if plate.Some? && plate.value != "" {
        hit, at := i, k;
        break;
      }
      i := i + 1;
    }
    if plate.Some? && plate.value != "" {
      assert ScanFrom(ls, 0, Upload) == Hit(hit, at);
      r := Found(plate.value);
    } else {
      r := NoCandidate;
    }
  }

  /** `webcam_picture` (server.py, lines 275-294): the loops guarded by `if ocr_result:` and `if line:`. */
  method ExtractWebcam(ocr: OcrResult) returns (r: Extraction)
    ensures r == Candidate(ocr, Webcam)
  {
    var plate: Option<string> := None;
    if ocr.Lines? && |ocr.lines| > 0 {
      var ls := ocr.lines;
      ghost var hit := 0;
      ghost var at := 0;
      var i := 0;
      while i < |ls|
        invariant 0 <= i <= |ls|
        invariant plate == None
        invariant ScanFrom(ls, 0, Webcam) == ScanFrom(ls, i, Webcam)
      {
        if ls[i].Words? && |ls[i].words| > 0 {
          ghost var k;
          plate, k := ScanWords(ls[i].words);
          if plate.Some? && plate.value != "" {
            hit, at := i, k;
            break;
          }
        }
        i := i + 1;
      }
      if plate.Some? && plate.value != "" {
        assert ScanFrom(ls, 0, Webcam) == Hit(hit, at);
      }
    }
    if plate.Some? && plate.value != "" {
      r := Found(plate.value);
    } else {
      r := NoCandidate;
    }
  }

  /**
    The chosen word is the first accepted one in line-then-word order: no
    accepted word precedes it, whatever its confidence.
  */
  lemma FirstMatchWins(ls: seq<Line>, v: Variant, l: nat, w: nat)
    requires ScanFrom(ls, 0, v) == Hit(l, w)
    ensures AcceptedAt(ls, l, w)
    ensures forall l', w' :: Precedes(l', w', l, w) ==> !AcceptedAt(ls, l', w')
  {
    forall l', w' | Precedes(l', w', l, w)
      ensures !AcceptedAt(ls, l', w')
    {
      if l' < l && 0 <= l' {
        assert NoneAccepted(ls[l']);
      }
    }
  }

  /**
    A plate is found only in a list of lines, and it is the stripped text of
    an accepted word that no accepted word precedes.
  */
  lemma FoundIsFirstAccepted(ocr: OcrResult, v: Variant)
    requires Candidate(ocr, v).Found?
    ensures ocr.Lines?
    ensures exists l, w ::
              && AcceptedAt(ocr.lines, l, w)
              && Candidate(ocr, v).plate == StripSpaces(ocr.lines[l].words[w].text)
              && (forall l', w' :: Precedes(l', w', l, w) ==> !AcceptedAt(ocr.lines, l', w'))
  {
    var h := ScanFrom(ocr.lines, 0, v);
    FirstMatchWins(ocr.lines, v, h.line, h.word);
    assert AcceptedAt(ocr.lines, h.line, h.word);
  }

  /** A scan that hits stops at an accepted word. */
  lemma HitIsAccepted(ls: seq<Line>, v: Variant)
    ensures var h := ScanFrom(ls, 0, v); h.Hit? ==> AcceptedAt(ls, h.line, h.word)
  {
  }

  /**
    The camera handler finds a plate whenever some word is accepted, and the
    one it finds is that word or an earlier one.
  */
  lemma WebcamFindsAnyMatch(ls: seq<Line>, l: nat, w: nat)
    requires AcceptedAt(ls, l, w)
    ensures ScanFrom(ls, 0, Webcam).Hit?
    ensures var h := ScanFrom(ls, 0, Webcam); h == Hit(l, w) || Precedes(h.line, h.word, l, w)
  {
  }

  /** With no accepted word, an empty result or only empty and missing lines, the camera handler finds nothing. */
  lemma WebcamNoMatch(ocr: OcrResult)
    requires ocr.Lines? ==> forall l, w :: !AcceptedAt(ocr.lines, l, w)
    ensures Candidate(ocr, Webcam) == NoCandidate
  {
    if ocr.Lines? {
      HitIsAccepted(ocr.lines, Webcam);
    }
  }

  /** Line `l` is `None` and every line from `i` up to it holds words, none accepted. */
  predicate CrashesAt(ls: seq<Line>, i: int, l: int) {
    0 <= i <= l < |ls| && ls[l].NoLine? &&
    forall l' :: i <= l' < l ==> NoneAccepted(ls[l']) && ls[l'].Words?
  }

  /** The upload scan from line `i` raises exactly when a `None` line comes before every accepted word. */
  lemma {:induction false} UploadCrashesFrom(ls: seq<Line>, i: nat)
    requires i <= |ls|
    decreases |ls| - i
    ensures ScanFrom(ls, i, Upload) == Crash <==> exists l :: CrashesAt(ls, i, l)
  {
    if i < |ls| {
      UploadCrashesFrom(ls, i + 1);
      if ls[i].NoLine? {
        assert CrashesAt(ls, i, i);
      } else if FirstAcceptedFrom(ls[i].words, 0).None? {
        var next := i + 1;
        if exists l :: CrashesAt(ls, i, l) {
          var l :| CrashesAt(ls, i, l);
          assert CrashesAt(ls, next, l);
        }
        if exists l :: CrashesAt(ls, next, l) {
          var l :| CrashesAt(ls, next, l);
          assert CrashesAt(ls, i, l);
        }
      }
    }
  }

  /**
    The upload handler raises exactly when the result is `None`, or when a
    `None` line comes before every accepted word.
  */
  lemma UploadCrashes(ocr: OcrResult)
    ensures Candidate(ocr, Upload) == Crashed <==> ocr.NoResult? || exists l :: CrashesAt(ocr.lines, 0, l)
  {
    if ocr.Lines? {
      UploadCrashesFrom(ocr.lines, 0);
    }
  }

  /** On lines that all hold words, the two handlers scan alike. */
  lemma {:induction false} VariantsAgreeFrom(ls: seq<Line>, i: nat)
    requires i <= |ls|
    requires forall l :: i <= l < |ls| ==> ls[l].Words?
    decreases |ls| - i
    ensures ScanFrom(ls, i, Upload) == ScanFrom(ls, i, Webcam)
  {
    if i < |ls| {
      VariantsAgreeFrom(ls, i + 1);
      assert ls[i].Words?;
    }
  }

  /** The two handlers pick the same plate from every result that holds no `None`. */
  lemma VariantsAgree(ls: seq<Line>)
    requires forall l :: 0 <= l < |ls| ==> ls[l].Words?
    ensures Candidate(Lines(ls), Upload) == Candidate(Lines(ls), Webcam)
  {
    VariantsAgreeFrom(ls, 0);
  }

  /** Where the upload scan hits, the camera scan hits the same word: no `None` line came first. */
  lemma {:induction false} UploadHitWebcamAgreesFrom(ls: seq<Line>, i: nat)
    requires i <= |ls|
    requires ScanFrom(ls, i, Upload).Hit?
    decreases |ls| - i
    ensures ScanFrom(ls, i, Webcam) == ScanFrom(ls, i, Upload)
  {
    if ls[i].Words? && FirstAcceptedFrom(ls[i].words, 0).None? {
      UploadHitWebcamAgreesFrom(ls, i + 1);
    }
  }

  /** A plate the upload handler finds is the plate the camera handler finds. */
  lemma UploadFoundWebcamAgrees(ocr: OcrResult)
    ensures Candidate(ocr, Upload).Found? ==> Candidate(ocr, Webcam) == Candidate(ocr, Upload)
  {
    if ocr.Lines? && ScanFrom(ocr.lines, 0, Upload).Hit? {
      UploadHitWebcamAgreesFrom(ocr.lines, 0);
    }
  }

  /** Two plates in one line: the first is chosen although the second is surer. */
  lemma ExampleFirstNotSurest()
    ensures Candidate(Lines([Words([Malformed, Recognized("ABC123", 0.6), Recognized("XYZ999", 0.99)])]), Webcam)
            == Found("ABC123")
  {
    var first := PlateParts("ABC", None, "123", None);
    assert Render(first) == "ABC123";
    RenderedIsMatched(first, "ABC123");
    var ws := [Malformed, Recognized("ABC123", 0.6), Recognized("XYZ999", 0.99)];
    assert Accepted(ws[1]);
    assert FirstAcceptedFrom(ws, 0) == FirstAcceptedFrom(ws, 1) == Some(1);
    assert ScanFrom([Words(ws)], 0, Webcam) == Hit(0, 1);
    assert ' ' !in "ABC123";
    StripSpacesFacts("ABC123");
  }

  /** A result holding one word: that word's plate when it passes the filter, nothing otherwise. */
  lemma SingleWordCandidate(text: string, confidence: real, v: Variant)
    ensures IsAccepted(text, confidence) ==>
              Candidate(Lines([Words([Recognized(text, confidence)])]), v) == Found(StripSpaces(text))
    ensures !IsAccepted(text, confidence) ==>
              Candidate(Lines([Words([Recognized(text, confidence)])]), v) == NoCandidate
  {
    var ws := [Recognized(text, confidence)];
    var ls := [Words(ws)];
    assert Accepted(ws[0]) == IsAccepted(text, confidence);
    assert FirstAcceptedFrom(ws, 1) == None;
    assert ScanFrom(ls, 1, v) == Miss;
    if IsAccepted(text, confidence) {
      assert ScanFrom(ls, 0, v) == Hit(0, 0);
    } else {
      assert FirstAcceptedFrom(ws, 0) == None;
      assert ScanFrom(ls, 0, v) == Miss;
    }
  }
}
