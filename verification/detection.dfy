/**
 * The success path of `detectFacesAndEmotions`: every detected face, in the
 * detector's order, is classified and stored under its 1-based number; then the
 * photo is annotated with the same numbering and the report text is built.
 *
 * Two collaborators stay abstract:
 *  - `scaled(face)`: the pixels `getPixels` reads from the face cropped out of
 *    the photo (`cropFaceFromBitmap`) and scaled to 224 x 224;
 *  - `infer(input)`: the model run on the packed input followed by `softmax`,
 *    giving one probability per class.
 */
module Detection {
  import opened Packing
  import opened Selection
  import opened Emotions
  import opened Faces
  import opened LinkedHashMap
  import opened Report
  import opened Annotation

  /** The model's output row (`FloatArray(7)`), after `softmax`. */
  type ScoreVector = s: seq<real> | |s| == NumClasses witness [0.0, 0.0, 0.0, 0.0, 0.0, 0.0, 0.0]

  /**
   * What `runEmotionInference` returns for a face with scaled pixels `pixels`:
   * the table label of the first most probable class. Seven scores always give
   * an index in `0..6`, so the label is never `Unknown`.
   */
  function FaceEmotion(pixels: ScaledPixels, infer: seq<real> -> ScoreVector): (emotion: string)
    ensures exists k :: IsFirstMax(infer(Packed(pixels)), k) && emotion == EmotionLabels[k]
    ensures emotion in EmotionLabels && emotion != Unknown
  {
    var scores := infer(Packed(pixels));
    var k := ArgMax(scores);
    GetEmotionExact(k, k);
    assert IsFirstMax(scores, k) && GetEmotion(k) == EmotionLabels[k];
    GetEmotion(k)
  }

  /**
   * `runEmotionInference`: pack the pixels, run the model, pick the first most
   * probable class and name it.
   */
  method RunEmotionInference(faceBitmap: ScaledPixels, infer: seq<real> -> ScoreVector) returns (emotion: string)
    ensures emotion == FaceEmotion(faceBitmap, infer)
    ensures emotion in EmotionLabels
  {
    var inputBuffer := ProcessImageForInference(faceBitmap);
    var probabilities := infer(inputBuffer.Written());
    var maxIndex := ArgMax(probabilities);
    emotion := GetEmotion(maxIndex);
  }

  /** The entries of the face-emotion map: face `k` (from 1) with the emotion of `faces[k-1]`. */
  function FaceEmotions(faces: seq<Face>, scaled: Face -> ScaledPixels, infer: seq<real> -> ScoreVector): (entries: seq<(int, string)>)
    ensures |entries| == |faces|
  {
    seq(|faces|, i requires 0 <= i < |faces| => (i + 1, FaceEmotion(scaled(faces[i]), infer)))
  }

  /** Adding the next face to a prefix of the faces appends its entry. */
  lemma FaceEmotionsSnoc(faces: seq<Face>, scaled: Face -> ScaledPixels, infer: seq<real> -> ScoreVector, i: int)
    requires 0 <= i < |faces|
    ensures FaceEmotions(faces[..i + 1], scaled, infer) ==
      FaceEmotions(faces[..i], scaled, infer) + [(i + 1, FaceEmotion(scaled(faces[i]), infer))]
  {
    var front := faces[..i + 1];
    assert front[..i] == faces[..i];
    assert front[i] == faces[i];
  }

  /**
   * The map's key set is exactly `{1, ..., n}` for `n` faces, and key `k` holds
   * the emotion of the `k`-th face in detection order.
   */
  lemma FaceEmotionsMap(faces: seq<Face>, scaled: Face -> ScaledPixels, infer: seq<real> -> ScoreVector)
    ensures forall k :: k in Keys(FaceEmotions(faces, scaled, infer)) <==> 1 <= k <= |faces|
    ensures DistinctKeys(FaceEmotions(faces, scaled, infer))
    ensures forall k :: 1 <= k <= |faces| ==>
      Get(FaceEmotions(faces, scaled, infer), k) == Some(FaceEmotion(scaled(faces[k - 1]), infer))
  {
    var entries := FaceEmotions(faces, scaled, infer);
    forall k | 1 <= k <= |faces|
      ensures k in Keys(entries)
    {
      assert entries[k - 1].0 == k;
    }
    forall k | 1 <= k <= |faces|
      ensures Get(entries, k) == Some(FaceEmotion(scaled(faces[k - 1]), infer))
    {
      GetAt(entries, k - 1);
    }
  }

  /**
   * The face loop: face after face, in detection order, the emotion is stored
   * under the running face count, which starts at 1.
   */
  method CollectFaceEmotions(faces: seq<Face>, scaled: Face -> ScaledPixels, infer: seq<real> -> ScoreVector)
    returns (faceEmotionMap: LinkedMap<int, string>)
    ensures fresh(faceEmotionMap) && faceEmotionMap.Valid()
    ensures faceEmotionMap.entries == FaceEmotions(faces, scaled, infer)
  {
    faceEmotionMap := new LinkedMap();
    var faceCount := 1;

    for i := 0 to |faces|
      invariant fresh(faceEmotionMap) && faceEmotionMap.Valid()
      invariant faceCount == i + 1
      invariant faceEmotionMap.entries == FaceEmotions(faces[..i], scaled, infer)
    {
      var faceBitmap := scaled(faces[i]);
      var emotion := RunEmotionInference(faceBitmap, infer);
      FaceEmotionsMap(faces[..i], scaled, infer);
      faceEmotionMap.Put(faceCount, emotion);
      faceCount := faceCount + 1;
      FaceEmotionsSnoc(faces, scaled, infer, i);
    }
    assert faces[..|faces|] == faces;
  }

  /**
   * The success listener: the map built by the face loop, the annotated copy,
   * and the report text. The photo itself is not changed.
   */
  method DetectFacesAndEmotions(
    bitmap: Bitmap, faces: seq<Face>, scaled: Face -> ScaledPixels, infer: seq<real> -> ScoreVector)
    returns (faceEmotionMap: LinkedMap<int, string>, bitmapWithFaces: Bitmap, report: string)
    ensures fresh(faceEmotionMap) && faceEmotionMap.Valid()
    ensures faceEmotionMap.entries == FaceEmotions(faces, scaled, infer)
    ensures fresh(bitmapWithFaces)
    ensures bitmapWithFaces.pixels == bitmap.pixels
    ensures bitmapWithFaces.drawn == bitmap.drawn + Annotations(faces)
    ensures unchanged(bitmap)
    ensures report == DisplayFaceEmotionMap(FaceEmotions(faces, scaled, infer))
  {
    faceEmotionMap := CollectFaceEmotions(faces, scaled, infer);
    bitmapWithFaces := DrawFaceContoursAndLabels(bitmap, faces);
    report := DisplayFaceEmotionMap(faceEmotionMap.entries);
  }

  /**
   * The map and the drawing number faces alike: the `i`-th face (0-based) is
   * stored under key `i + 1`, its label on the photo is `"Face i+1"`, and its
   * report line starts with that same label.
   */
  lemma NumberingAgrees(faces: seq<Face>, scaled: Face -> ScaledPixels, infer: seq<real> -> ScoreVector, i: int)
    requires 0 <= i < |faces|
    ensures var key := FaceEmotions(faces, scaled, infer)[i].0;
      && key == i + 1
      && Annotations(faces)[2 * i + 1] ==
           DrawText(FaceTitle(key), faces[i].boundingBox.left as real,
                    faces[i].boundingBox.top as real - LabelLift, LabelPaint)
      && ReportLines(FaceEmotions(faces, scaled, infer))[i] ==
           FaceTitle(key) + ": " + FaceEmotion(scaled(faces[i]), infer)
  {
    var entries := FaceEmotions(faces, scaled, infer);
    assert entries[i] == (i + 1, FaceEmotion(scaled(faces[i]), infer));
    AnnotationsAt(faces, i);
    assert ReportLines(entries)[i] == FaceLine(i + 1, entries[i].1);
  }

  /** No label of the face-emotion map contains a newline. */
  lemma FaceLabelsAreLines(faces: seq<Face>, scaled: Face -> ScaledPixels, infer: seq<real> -> ScoreVector)
    ensures NoNewlineInLabels(FaceEmotions(faces, scaled, infer))
  {
    var entries := FaceEmotions(faces, scaled, infer);
    forall j | 0 <= j < |entries|
      ensures IsLine(entries[j].1)
    {
      var emotion := FaceEmotion(scaled(faces[j]), infer);
      assert emotion in EmotionLabels;
    }
  }

  /**
   * The report for `n > 0` detected faces has `n` lines, line `i` reading
   * `"Face i+1: <label of face i>"`.
   */
  lemma ReportOfDetection(faces: seq<Face>, scaled: Face -> ScaledPixels, infer: seq<real> -> ScoreVector)
    requires |faces| > 0
    ensures var lines := Split(DisplayFaceEmotionMap(FaceEmotions(faces, scaled, infer)), Newline);
      && |lines| == |faces|
      && forall i :: 0 <= i < |faces| ==> lines[i] == FaceLine(i + 1, FaceEmotion(scaled(faces[i]), infer))
  {
    var entries := FaceEmotions(faces, scaled, infer);
    FaceLabelsAreLines(faces, scaled, infer);
    var lines := ReportLines(entries);
    assert Split(DisplayFaceEmotionMap(entries), Newline) == lines;
    forall i | 0 <= i < |faces|
      ensures lines[i] == FaceLine(i + 1, FaceEmotion(scaled(faces[i]), infer))
    {
      assert entries[i] == (i + 1, FaceEmotion(scaled(faces[i]), infer));
    }
  }

  /** The report is the fixed message exactly when no face was detected. */
  lemma ReportEmptyExactly(faces: seq<Face>, scaled: Face -> ScaledPixels, infer: seq<real> -> ScoreVector)
    ensures DisplayFaceEmotionMap(FaceEmotions(faces, scaled, infer)) == EmptyMessage <==> |faces| == 0
  {
    var entries := FaceEmotions(faces, scaled, infer);
    if |faces| > 0 {
      var text := DisplayFaceEmotionMap(entries);
      var lines := ReportLines(entries);
      assert text == JoinToString(lines, "\n");
      assert lines[0] == FaceLine(1, entries[0].1);
      assert text[0] == 'F' && EmptyMessage[0] == 'P';
    }
  }
}
