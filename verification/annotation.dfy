/**
 * The annotated copy of the photo (`drawFaceContoursAndLabels`): a red outline
 * around every face and the white text `"Face k"` 10 pixels above its top-left
 * corner, with `k` counting faces from 1 in detection order.
 *
 * Rasterisation belongs to the graphics library, so a bitmap records the
 * drawing calls made on it, in order, next to its pixels.
 */
module Annotation {
  import opened Packing
  import opened Faces
  import opened Decimal

  /** `Paint.Style.STROKE` with a stroke width, or `Paint.Style.FILL` with a text size. */
  datatype Paint =
    | StrokePaint(color: Int32, strokeWidth: real)
    | FillPaint(color: Int32, textSize: real)

  /** `Color.RED` and `Color.WHITE`, fully opaque. */
  const ColorRed: Int32 := PackArgb(255, 255, 0, 0)
  const ColorWhite: Int32 := PackArgb(255, 255, 255, 255)

  /** `Color.RED` is `0xFFFF0000` and `Color.WHITE` is `0xFFFFFFFF`, read as signed `Int`s. */
  lemma AndroidColors()
    ensures ColorRed as int == -0x1_0000 && ColorWhite as int == -1
    ensures Alpha(ColorRed) == 255 && Red(ColorRed) == 255 && Green(ColorRed) == 0 && Blue(ColorRed) == 0
    ensures Alpha(ColorWhite) == 255 && Red(ColorWhite) == 255 && Green(ColorWhite) == 255 && Blue(ColorWhite) == 255
  {
    ChannelsOfPackArgb(255, 255, 0, 0);
    ChannelsOfPackArgb(255, 255, 255, 255);
  }

  /** The outline paint: red, stroke width 4. */
  const ContourPaint: Paint := StrokePaint(ColorRed, 4.0)

  /** The label paint: white, filled, text size 50. */
  const LabelPaint: Paint := FillPaint(ColorWhite, 50.0)

  /** How far above the box's top edge the label's baseline sits. */
  const LabelLift: real := 10.0

  /** One drawing call on a canvas. */
  datatype DrawOp =
    | DrawRect(bounds: Rect, paint: Paint)
    | DrawText(text: string, x: real, y: real, paint: Paint)

  /** A bitmap: its pixels and the drawing calls made on it so far. */
  class Bitmap {
    var pixels: seq<Int32>
    var drawn: seq<DrawOp>

    constructor (pixels: seq<Int32>)
      ensures this.pixels == pixels && drawn == []
    {
      this.pixels := pixels;
      drawn := [];
    }

    /** `copy(Bitmap.Config.ARGB_8888, true)`: a new, mutable bitmap with the same content. */
    method Copy() returns (copy: Bitmap)
      ensures fresh(copy)
      ensures copy.pixels == pixels && copy.drawn == drawn
    {
      copy := new Bitmap(pixels);
      copy.drawn := drawn;
    }
  }

  /** `Canvas(bitmap)`: draws onto one bitmap. */
  class Canvas {
    const target: Bitmap

    constructor (target: Bitmap)
      ensures this.target == target
    {
      this.target := target;
    }

    method DrawRectangle(bounds: Rect, paint: Paint)
      modifies target
      ensures target.pixels == old(target.pixels)
      ensures target.drawn == old(target.drawn) + [DrawRect(bounds, paint)]
    {
      target.drawn := target.drawn + [DrawRect(bounds, paint)];
    }

    method DrawTextAt(text: string, x: real, y: real, paint: Paint)
      modifies target
      ensures target.pixels == old(target.pixels)
      ensures target.drawn == old(target.drawn) + [DrawText(text, x, y, paint)]
    {
      target.drawn := target.drawn + [DrawText(text, x, y, paint)];
    }
  }

  /** The label text of face number `faceNumber`: `"Face $faceNumber"`. */
  function FaceTitle(faceNumber: int): string {
    "Face " + IntToString(faceNumber)
  }

  /**
   * A caption is the word `Face`, a space, and a numeral from which the face
   * number reads back.
   */
  lemma FaceTitleNumber(faceNumber: int)
    ensures |FaceTitle(faceNumber)| > 5 && FaceTitle(faceNumber)[..5] == "Face "
    ensures ParseInt(FaceTitle(faceNumber)[5..]) == faceNumber
  {
    assert FaceTitle(faceNumber)[5..] == IntToString(faceNumber);
    IntToStringRoundTrip(faceNumber);
  }

  /** All drawing calls for `faces`, numbered from 1 in list order. */
  function Annotations(faces: seq<Face>): (ops: seq<DrawOp>)
    ensures |ops| == 2 * |faces|
  {
    if faces == [] then []
    else
      var bounds := faces[|faces| - 1].boundingBox;
      Annotations(faces[..|faces| - 1]) +
        [ DrawRect(bounds, ContourPaint),
          DrawText(FaceTitle(|faces|), bounds.left as real, bounds.top as real - LabelLift, LabelPaint) ]
  }

  /** One more face appends its outline and its caption. */
  lemma AnnotationsSnoc(faces: seq<Face>, i: int)
    requires 0 <= i < |faces|
    ensures Annotations(faces[..i + 1]) == Annotations(faces[..i]) +
      [ DrawRect(faces[i].boundingBox, ContourPaint),
        DrawText(FaceTitle(i + 1), faces[i].boundingBox.left as real,
                 faces[i].boundingBox.top as real - LabelLift, LabelPaint) ]
  {
    assert faces[..i + 1][..i] == faces[..i];
  }

  /**
   * Face `i` (0-based) gets its outline at position `2i` and, at `2i + 1`, the
   * text `"Face i+1"` anchored at `(left, top - 10)` of its box.
   */
  lemma {:induction false} AnnotationsAt(faces: seq<Face>, i: int)
    requires 0 <= i < |faces|
    ensures Annotations(faces)[2 * i] == DrawRect(faces[i].boundingBox, ContourPaint)
    ensures Annotations(faces)[2 * i + 1] ==
      DrawText(FaceTitle(i + 1), faces[i].boundingBox.left as real,
               faces[i].boundingBox.top as real - LabelLift, LabelPaint)
  {
    var n := |faces|;
    if i < n - 1 {
      var front := faces[..n - 1];
      assert front[i] == faces[i];
      AnnotationsAt(front, i);
    }
  }

  /** Different faces carry different numbers in their labels. */
  lemma AnnotationTitlesDistinct(faces: seq<Face>, i: int, j: int)
    requires 0 <= i < |faces| && 0 <= j < |faces| && i != j
    ensures var a, b := Annotations(faces)[2 * i + 1], Annotations(faces)[2 * j + 1];
      a.DrawText? && b.DrawText? && a.text != b.text
  {
    AnnotationsAt(faces, i);
    AnnotationsAt(faces, j);
    FaceTitleNumber(i + 1);
    FaceTitleNumber(j + 1);
  }

  /**
   * `drawFaceContoursAndLabels`: draws on a fresh copy, so the source bitmap is
   * left as it was; the copy keeps the source's pixels and gains, after what the
   * source already had, exactly the marks of every face in order.
   */
  method DrawFaceContoursAndLabels(bitmap: Bitmap, faces: seq<Face>) returns (mutableBitmap: Bitmap)
    ensures fresh(mutableBitmap)
    ensures unchanged(bitmap)
    ensures mutableBitmap.pixels == bitmap.pixels
    ensures mutableBitmap.drawn == bitmap.drawn + Annotations(faces)
  {
    mutableBitmap := bitmap.Copy();
    var canvas := new Canvas(mutableBitmap);
    var paint := ContourPaint;
    var textPaint := LabelPaint;

    var faceNumber := 1;
    for i := 0 to |faces|
      invariant faceNumber == i + 1
      invariant mutableBitmap.pixels == bitmap.pixels
      invariant mutableBitmap.drawn == bitmap.drawn + Annotations(faces[..i])
    {
      var bounds := faces[i].boundingBox;
      canvas.DrawRectangle(bounds, paint);
      canvas.DrawTextAt(FaceTitle(faceNumber), bounds.left as real, bounds.top as real - LabelLift, textPaint);
      faceNumber := faceNumber + 1;
      AnnotationsSnoc(faces, i);
    }
    assert faces[..|faces|] == faces;
  }
}
