# Emotion detection core of Ml_Mini_Project, in Dafny

The Android app picks or captures a photo and passes it to a face detector.
Each detected face is cut out, scaled to 224 x 224 pixels and packed into a
float tensor, and a seven-class emotion model is run on that tensor. The app
then shows three results. It stores the winning label under the face's
1-based number. It draws every face box with a `"Face k"` caption on a copy of
the photo. It prints a `"Face k: label"` report. All of this logic lives in
`EmotionDetectionActivity.kt`. This project models it, one module per piece:

- `Decimal` (`decimal.dfy`): Kotlin's `Int.toString()`, used by the `"Face $n"`
  templates. A reader of decimal numerals is its inverse.
- `Emotions` (`emotions.dfy`): `getEmotion`, the class-index-to-label table.
- `Selection` (`selection.dfy`): `indices.maxByOrNull { probabilities[it] } ?: -1`.
- `Packing` (`packing.dfy`): `processImageForInference`. Channels are taken out
  of packed ARGB `Int` pixels with `shr`/`and` and normalised. They go into a
  direct `ByteBuffer`, modelled by the class `FloatBuffer` whose byte position
  advances by 4 per float.
- `LinkedHashMap` (`linked_map.dfy`): the `mutableMapOf<Int, String>()` the
  face loop fills. It is a class whose entries keep insertion order.
- `Report` (`report.dfy`): `displayFaceEmotionMap` and `joinToString`. Splitting
  on newlines is the inverse of joining.
- `Faces` (`faces.dfy`): a face is its bounding `Rect`.
- `Annotation` (`annotation.dfy`): `drawFaceContoursAndLabels`. It uses a
  `Bitmap` and a `Canvas` class, and a bitmap records the drawing calls made
  on it.
- `Detection` (`detection.dfy`): `runEmotionInference`, the face loop of
  `detectFacesAndEmotions`, and lemmas that tie the map, the drawing and the
  report together.

The face detector, the cropping and scaling, and the model stay outside the
model. They come in as parameters:

- `faces: seq<Face>` is the detector's result, in its order.
- `scaled: Face -> ScaledPixels` gives the 224 x 224 pixels read from a face
  after it is cropped and scaled.
- `infer: seq<real> -> ScoreVector` is the model run on the packed input
  followed by `softmax`. It returns seven probabilities.

Floats are modelled as exact reals.

Three facts about the code are worth stating plainly:

- No face is skipped. For a box that reaches outside the photo,
  `Bitmap.createBitmap` (line 153) throws inside the success listener. The
  model does not capture that exception: it classifies such a face like any
  other (see "## Left out").
- The result kept per face is only its label, with no scores.
- `"Unknown"` is in the label table, but with the model's seven outputs it is
  never chosen (`Detection.FaceEmotion`).

## Model

| member | source | states |
|---|---|---|
| `Decimal.IntToString` | app/src/main/java/com/starkindustries/ml_mini_project/Activity/EmotionDetectionActivity.kt:212 | the rendering of a number is non-empty, uses only digits and `-`, and starts with `-` exactly when the number is negative |
| `Decimal.IntToStringRoundTrip` | app/src/main/java/com/starkindustries/ml_mini_project/Activity/EmotionDetectionActivity.kt:212 | reading back the decimal text of any `Int` gives the same number |
| `Decimal.IntToStringInjective` | app/src/main/java/com/starkindustries/ml_mini_project/Activity/EmotionDetectionActivity.kt:238 | two numbers have the same decimal text only if they are equal |
| `Emotions.GetEmotion` | app/src/main/java/com/starkindustries/ml_mini_project/Activity/EmotionDetectionActivity.kt:188-199 | indices 0..6 give Angry, Disgust, Fear, Happy, Sad, Surprise, Neutral from the label table; every other index, -1 included, gives `"Unknown"` |
| `Emotions.GetEmotionExact` | app/src/main/java/com/starkindustries/ml_mini_project/Activity/EmotionDetectionActivity.kt:188-199 | the label is `"Unknown"` if and only if the index is outside 0..6; two valid indices share a label if and only if they are equal |
| `Selection.MaxByFrom` | app/src/main/java/com/starkindustries/ml_mini_project/Activity/EmotionDetectionActivity.kt:173 | the `maxByOrNull` scan, which replaces the best only on a strictly greater score, ends on the first index holding the maximum |
| `Selection.ArgMax` | app/src/main/java/com/starkindustries/ml_mini_project/Activity/EmotionDetectionActivity.kt:173 | the result is -1 if and only if the vector is empty; otherwise it holds a maximal score and every earlier index holds a smaller one |
| `Selection.FirstMaxUnique` | app/src/main/java/com/starkindustries/ml_mini_project/Activity/EmotionDetectionActivity.kt:173 | any index that holds a maximum with only smaller scores before it is the arg-max |
| `Packing.Shr` | app/src/main/java/com/starkindustries/ml_mini_project/Activity/EmotionDetectionActivity.kt:254-255 | `x shr bits` is the quotient rounded towards minus infinity: `2^bits * q <= x < 2^bits * (q + 1)`, negative `x` included |
| `Packing.LowByte` | app/src/main/java/com/starkindustries/ml_mini_project/Activity/EmotionDetectionActivity.kt:254-256 | `x and 0xFF` lies in 0..255 and differs from `x` by a multiple of 256, i.e. it is the low 8 bits of the two's-complement value |
| `Packing.Red` | app/src/main/java/com/starkindustries/ml_mini_project/Activity/EmotionDetectionActivity.kt:254 | `pixel shr 16 and 0xFF` lies in 0..255 |
| `Packing.Green` | app/src/main/java/com/starkindustries/ml_mini_project/Activity/EmotionDetectionActivity.kt:255 | `pixel shr 8 and 0xFF` lies in 0..255 |
| `Packing.Blue` | app/src/main/java/com/starkindustries/ml_mini_project/Activity/EmotionDetectionActivity.kt:256 | `pixel and 0xFF` lies in 0..255 |
| `Packing.Normalize` | app/src/main/java/com/starkindustries/ml_mini_project/Activity/EmotionDetectionActivity.kt:254-256 | a channel divided by 255 lies in [0, 1], and multiplying by 255 gives the channel back |
| `Packing.PackArgb` | app/src/main/java/com/starkindustries/ml_mini_project/Activity/EmotionDetectionActivity.kt:222-232 | a colour `Int` agrees modulo 2^32 with alpha, red, green, blue in the ARGB_8888 bit positions, and is negative exactly when alpha has its top bit set |
| `Packing.ChannelsOfPackArgb` | app/src/main/java/com/starkindustries/ml_mini_project/Activity/EmotionDetectionActivity.kt:254-256 | on a colour `Int` built from alpha, red, green and blue, the shifts and masks return exactly those channels, for negative `Int`s too |
| `Packing.PackArgbOfChannels` | app/src/main/java/com/starkindustries/ml_mini_project/Activity/EmotionDetectionActivity.kt:254-256 | every 32-bit `Int` is rebuilt from its four extracted channels, so extraction loses nothing |
| `Packing.Packed` | app/src/main/java/com/starkindustries/ml_mini_project/Activity/EmotionDetectionActivity.kt:253-261 | n pixels produce exactly 3n floats |
| `Packing.PackedAt` | app/src/main/java/com/starkindustries/ml_mini_project/Activity/EmotionDetectionActivity.kt:253-261 | entry 3i is the normalised red of pixel i, 3i+1 its green and 3i+2 its blue |
| `Packing.PackedInUnitRange` | app/src/main/java/com/starkindustries/ml_mini_project/Activity/EmotionDetectionActivity.kt:253-261 | every packed value lies in [0, 1] |
| `Packing.FloatBuffer.AllocateDirect` | app/src/main/java/com/starkindustries/ml_mini_project/Activity/EmotionDetectionActivity.kt:247 | a new buffer of the given byte capacity, at position 0, holding no floats |
| `Packing.FloatBuffer.PutFloat` | app/src/main/java/com/starkindustries/ml_mini_project/Activity/EmotionDetectionActivity.kt:258-260 | with 4 bytes left the float is appended and the position advances by 4; otherwise it reports overflow and nothing changes |
| `Packing.FloatBuffer.Written` | app/src/main/java/com/starkindustries/ml_mini_project/Activity/EmotionDetectionActivity.kt:258-260 | the floats written so far take exactly the bytes up to the position |
| `Packing.ProcessImageForInference` | app/src/main/java/com/starkindustries/ml_mini_project/Activity/EmotionDetectionActivity.kt:245-264 | the 224*224 pixels fill the `4*224*224*3`-byte buffer exactly, without overflow, and the buffer holds `Packed(pixels)` |
| `LinkedHashMap.Get` | app/src/main/java/com/starkindustries/ml_mini_project/Activity/EmotionDetectionActivity.kt:124 | a lookup finds a value exactly when the key is in the map |
| `LinkedHashMap.GetAt` | app/src/main/java/com/starkindustries/ml_mini_project/Activity/EmotionDetectionActivity.kt:124 | with distinct keys, looking up the key of entry i gives the value of entry i |
| `LinkedHashMap.PutEntry` | app/src/main/java/com/starkindustries/ml_mini_project/Activity/EmotionDetectionActivity.kt:124 | a put adds the key to the key set; a new key is appended at the end; a present key keeps the number of entries |
| `LinkedHashMap.PutEntryInPlace` | app/src/main/java/com/starkindustries/ml_mini_project/Activity/EmotionDetectionActivity.kt:124 | putting a key already present replaces the value of its first entry in place; every other entry and the order are unchanged |
| `LinkedHashMap.PutEntryGet` | app/src/main/java/com/starkindustries/ml_mini_project/Activity/EmotionDetectionActivity.kt:124 | after a put the key maps to the new value and every other key keeps its value |
| `LinkedHashMap.PutEntryDistinct` | app/src/main/java/com/starkindustries/ml_mini_project/Activity/EmotionDetectionActivity.kt:124 | a put keeps the keys distinct |
| `LinkedHashMap.LinkedMap.constructor` | app/src/main/java/com/starkindustries/ml_mini_project/Activity/EmotionDetectionActivity.kt:113 | `mutableMapOf()` starts empty |
| `LinkedHashMap.LinkedMap.Put` | app/src/main/java/com/starkindustries/ml_mini_project/Activity/EmotionDetectionActivity.kt:124 | `map[key] = value` turns the entries into `PutEntry` of the old entries |
| `Report.SplitLine` | app/src/main/java/com/starkindustries/ml_mini_project/Activity/EmotionDetectionActivity.kt:211-213 | a piece without a newline splits to itself, and a newline after it starts the next piece |
| `Report.SplitJoin` | app/src/main/java/com/starkindustries/ml_mini_project/Activity/EmotionDetectionActivity.kt:211-213 | splitting newline-joined lines with no newline inside them gives back exactly those lines |
| `Report.JoinToString` | app/src/main/java/com/starkindustries/ml_mini_project/Activity/EmotionDetectionActivity.kt:211 | `joinToString(separator = "\n")`: no pieces give the empty text; otherwise the text starts with the first piece (its inverse is `Split`, see `Report.SplitJoin`) |
| `Report.FaceLine` | app/src/main/java/com/starkindustries/ml_mini_project/Activity/EmotionDetectionActivity.kt:212 | a report line has no newline when its label has none |
| `Report.ReportLines` | app/src/main/java/com/starkindustries/ml_mini_project/Activity/EmotionDetectionActivity.kt:211-213 | one report line per map entry |
| `Report.DisplayFaceEmotionMap` | app/src/main/java/com/starkindustries/ml_mini_project/Activity/EmotionDetectionActivity.kt:202-216 | an empty map gives exactly the fixed message; otherwise, when no label contains a newline, the text splits on newlines into one `"Face k: label"` line per entry in insertion order, with no trailing separator |
| `Annotation.Bitmap.constructor` | app/src/main/java/com/starkindustries/ml_mini_project/Activity/EmotionDetectionActivity.kt:220 | a bitmap of the given pixels with nothing drawn on it |
| `Annotation.Bitmap.Copy` | app/src/main/java/com/starkindustries/ml_mini_project/Activity/EmotionDetectionActivity.kt:220 | the copy is a new object with the same pixels and drawing |
| `Annotation.Canvas.constructor` | app/src/main/java/com/starkindustries/ml_mini_project/Activity/EmotionDetectionActivity.kt:221 | the canvas draws on the given bitmap |
| `Annotation.Canvas.DrawRectangle` | app/src/main/java/com/starkindustries/ml_mini_project/Activity/EmotionDetectionActivity.kt:237 | appends one outline to the target's drawing and keeps its pixels |
| `Annotation.Canvas.DrawTextAt` | app/src/main/java/com/starkindustries/ml_mini_project/Activity/EmotionDetectionActivity.kt:238 | appends one text to the target's drawing and keeps its pixels |
| `Annotation.AndroidColors` | app/src/main/java/com/starkindustries/ml_mini_project/Activity/EmotionDetectionActivity.kt:222-232 | `Color.RED` is `0xFFFF0000` (opaque, red 255, green and blue 0) and `Color.WHITE` is `0xFFFFFFFF` (all channels 255), as signed `Int`s |
| `Annotation.FaceTitleNumber` | app/src/main/java/com/starkindustries/ml_mini_project/Activity/EmotionDetectionActivity.kt:238 | the caption `"Face $faceNumber"` is `"Face "` followed by a numeral that reads back as the face number |
| `Annotation.Annotations` | app/src/main/java/com/starkindustries/ml_mini_project/Activity/EmotionDetectionActivity.kt:234-240 | n faces produce exactly 2n drawing calls |
| `Annotation.AnnotationsSnoc` | app/src/main/java/com/starkindustries/ml_mini_project/Activity/EmotionDetectionActivity.kt:234-240 | one more loop pass appends the next face's outline and its caption `"Face i+1"` |
| `Annotation.AnnotationsAt` | app/src/main/java/com/starkindustries/ml_mini_project/Activity/EmotionDetectionActivity.kt:234-240 | face i gets a red outline of its box and then the text `"Face i+1"` at (left, top - 10) in white, size 50 |
| `Annotation.AnnotationTitlesDistinct` | app/src/main/java/com/starkindustries/ml_mini_project/Activity/EmotionDetectionActivity.kt:238 | two different faces carry different caption texts |
| `Annotation.DrawFaceContoursAndLabels` | app/src/main/java/com/starkindustries/ml_mini_project/Activity/EmotionDetectionActivity.kt:219-242 | draws on a fresh copy and leaves the source bitmap unchanged; the copy has the source's pixels and its drawing plus the marks of every face in list order |
| `Detection.FaceEmotion` | app/src/main/java/com/starkindustries/ml_mini_project/Activity/EmotionDetectionActivity.kt:157-177 | the label `runEmotionInference` returns is the table label of a first most probable class of the model's scores on the packed face; it is always in the table, never `"Unknown"` |
| `Detection.RunEmotionInference` | app/src/main/java/com/starkindustries/ml_mini_project/Activity/EmotionDetectionActivity.kt:157-177 | the label is the table label of the first most probable class of the packed face |
| `Detection.FaceEmotions` | app/src/main/java/com/starkindustries/ml_mini_project/Activity/EmotionDetectionActivity.kt:113-128 | one map entry per face |
| `Detection.FaceEmotionsSnoc` | app/src/main/java/com/starkindustries/ml_mini_project/Activity/EmotionDetectionActivity.kt:116-128 | one more loop pass appends the next face's entry under the next number |
| `Detection.FaceEmotionsMap` | app/src/main/java/com/starkindustries/ml_mini_project/Activity/EmotionDetectionActivity.kt:113-128 | the key set is exactly {1..n} for n faces, keys are distinct, and key k holds the label of the k-th face in detection order |
| `Detection.CollectFaceEmotions` | app/src/main/java/com/starkindustries/ml_mini_project/Activity/EmotionDetectionActivity.kt:113-128 | the face loop leaves the map holding exactly `FaceEmotions(faces)`, in detection order |
| `Detection.DetectFacesAndEmotions` | app/src/main/java/com/starkindustries/ml_mini_project/Activity/EmotionDetectionActivity.kt:112-140 | the success listener produces that map, the annotated copy and the report of that map; the photo is unchanged |
| `Detection.NumberingAgrees` | app/src/main/java/com/starkindustries/ml_mini_project/Activity/EmotionDetectionActivity.kt:234-240 | face i is stored under key i+1; its caption on the photo is `"Face " + key`; its report line starts with that same caption |
| `Detection.FaceLabelsAreLines` | app/src/main/java/com/starkindustries/ml_mini_project/Activity/EmotionDetectionActivity.kt:188-199 | no label stored for a face contains a newline |
| `Detection.ReportOfDetection` | app/src/main/java/com/starkindustries/ml_mini_project/Activity/EmotionDetectionActivity.kt:202-216 | for n > 0 faces the report splits into n lines, and line i reads `"Face i+1: <label of face i>"` |
| `Detection.ReportEmptyExactly` | app/src/main/java/com/starkindustries/ml_mini_project/Activity/EmotionDetectionActivity.kt:204-205 | the report is the fixed message if and only if no face was found |

## Left out

- `softmax` (lines 180-185) uses floating-point `exp` and division. It is folded into the abstract `infer`, which stands for `tflite.run` followed by `softmax`.
- Packing.Normalize: the 32-bit float rounding of `/ 255.0f` is not modelled. Values are exact reals.
- Packing.FloatBuffer: the byte encoding of each float and `order(ByteOrder.nativeOrder())` are not modelled. A float occupies one 4-byte slot.
- `Bitmap.createScaledBitmap`, `getPixels` and `cropFaceFromBitmap` (`Bitmap.createBitmap`) are library calls. They are the abstract `scaled`. The exception that `createBitmap` throws for a box reaching outside the photo is not modelled.
- ML Kit face detection, with its asynchronous success and failure listeners (lines 104-111, 141-143), is a foreign API. Its result is the input `faces`, and the failure listener only logs.
- `loadModelFile` and the `Interpreter` set-up in `onCreate` (lines 46-51, 93-100) are file I/O and a foreign runtime. A model that failed to load is not modelled.
- Activity lifecycle, button listeners, intents, `onActivityResult`, `getBitmapFromUri`, view binding, typeface and gravity settings, `showToast` and `Log` calls are UI and I/O.
- Canvas rasterisation is not modelled. A bitmap records the drawing calls made on it instead of changed pixels.
- Selection.ArgMax: scores are reals, so the NaN ordering of Kotlin's `Float.compareTo` is not modelled.
- Annotation.AnnotationsAt: the caption anchor is exact. The rounding of `toFloat()` for coordinates beyond 2^24 is not modelled.
- Detection.CollectFaceEmotions: `faceCount` is an unbounded integer. The 32-bit wrap-around after 2^31 - 1 faces is not modelled, and neither is `faceNumber` in `drawFaceContoursAndLabels`.
- `MainActivity.kt` is a splash-screen delay and an unused background task, with no logic to state.
