/**
 * The emotion vocabulary of the classifier: class index to label (`getEmotion`).
 */
module Emotions {

  /** Number of classes the model outputs (`FloatArray(7)`). */
  const NumClasses: nat := 7

  /** The labels in class-index order, as the model was trained. */
  const EmotionLabels: seq<string> := ["Angry", "Disgust", "Fear", "Happy", "Sad", "Surprise", "Neutral"]

  /** The label given to an index outside the table. */
  const Unknown: string := "Unknown"

  /** `getEmotion`: a `when` over the class index with an `else` branch. */
  function GetEmotion(index: int): (emotion: string)
    ensures 0 <= index < NumClasses ==> emotion == EmotionLabels[index]
    ensures !(0 <= index < NumClasses) ==> emotion == Unknown
  {
    match index
    case 0 => "Angry"
    case 1 => "Disgust"
    case 2 => "Fear"
    case 3 => "Happy"
    case 4 => "Sad"
    case 5 => "Surprise"
    case 6 => "Neutral"
    case _ => "Unknown"
  }

  /**
   * The label is `Unknown` exactly for indices outside `0..6`, and distinct
   * valid indices get distinct labels, so a label determines its class.
   */
  lemma GetEmotionExact(i: int, j: int)
    ensures GetEmotion(i) == Unknown <==> !(0 <= i < NumClasses)
    ensures 0 <= i < NumClasses && 0 <= j < NumClasses ==> (GetEmotion(i) == GetEmotion(j) <==> i == j)
  {
  }
}
