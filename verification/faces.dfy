/**
 * The face detector's output, reduced to what the activity reads from it.
 */
module Faces {

  /** `android.graphics.Rect`: integer edges in bitmap coordinates. */
  datatype Rect = Rect(left: int, top: int, right: int, bottom: int)

  /** An ML Kit `Face`; only its bounding box is used. */
  datatype Face = Face(boundingBox: Rect)
}
