/**
 * The report text shown under the image (`displayFaceEmotionMap`): a fixed
 * message for an empty map, otherwise one `"Face k: label"` line per entry in
 * the map's iteration order, joined with `"\n"`.
 *
 * The partner of joining is splitting on the newline character: when no piece
 * contains a newline, splitting the joined text gives back exactly the pieces,
 * which pins down the line count, each line, and the absence of a trailing
 * separator.
 */
module Report {
  import opened Decimal

  /**
   * The text shown when no face was detected. It is written as two literals
   * because the verifier does not look inside a single literal this long.
   */
  const EmptyMessage: string := "Please select an image " + "with minimum 1 face in it."

  const Newline: char := '\n'

  /**
   * Kotlin's `joinToString(separator)`: the pieces with `separator` between
   * neighbours; no pieces give the empty text, otherwise it starts with the
   * first piece.
   */
  function JoinToString(pieces: seq<string>, separator: string): (joined: string)
    ensures |pieces| == 0 ==> joined == ""
    ensures |pieces| >= 1 ==> pieces[0] <= joined
  {
    if |pieces| == 0 then ""
    else if |pieces| == 1 then pieces[0]
    else pieces[0] + separator + JoinToString(pieces[1..], separator)
  }

  /** The pieces of `s` between occurrences of `sep`; always at least one piece. */
  function Split(s: string, sep: char): (pieces: seq<string>)
    ensures |pieces| >= 1
  {
    if s == [] then [""]
    else
      var rest := Split(s[1..], sep);
      if s[0] == sep then [""] + rest else [[s[0]] + rest[0]] + rest[1..]
  }

  /** The text of one line contains no newline. */
  predicate IsLine(s: string) {
    Newline !in s
  }

  lemma {:induction false} SplitLine(line: string, rest: string)
    requires IsLine(line)
    ensures Split(line, Newline) == [line]
    ensures Split(line + [Newline] + rest, Newline) == [line] + Split(rest, Newline)
  {
    if line != [] {
      SplitLine(line[1..], rest);
      assert (line + [Newline] + rest)[1..] == line[1..] + [Newline] + rest;
      assert [line[0]] + line[1..] == line;
    }
  }

  /** Splitting joined lines gives the lines back. */
  lemma {:induction false} SplitJoin(lines: seq<string>)
    requires |lines| >= 1
    requires forall i :: 0 <= i < |lines| ==> IsLine(lines[i])
    ensures Split(JoinToString(lines, "\n"), Newline) == lines
  {
    if |lines| == 1 {
      SplitLine(lines[0], "");
    } else {
      SplitJoin(lines[1..]);
      SplitLine(lines[0], JoinToString(lines[1..], "\n"));
    }
  }

  /** The line of one map entry: `"Face $faceNo: $emotion"`. */
  function FaceLine(faceNo: int, emotion: string): (line: string)
    ensures IsLine(emotion) ==> IsLine(line)
  {
    "Face " + IntToString(faceNo) + ": " + emotion
  }

  /** The report lines of a map, one per entry in iteration order. */
  function ReportLines(faceEmotionMap: seq<(int, string)>): (lines: seq<string>)
    ensures |lines| == |faceEmotionMap|
  {
    seq(|faceEmotionMap|, j requires 0 <= j < |faceEmotionMap| => FaceLine(faceEmotionMap[j].0, faceEmotionMap[j].1))
  }

  ghost predicate NoNewlineInLabels(faceEmotionMap: seq<(int, string)>) {
    forall j :: 0 <= j < |faceEmotionMap| ==> IsLine(faceEmotionMap[j].1)
  }

  /**
   * `displayFaceEmotionMap`: the fixed message for an empty map; otherwise, when
   * no label contains a newline, the text has exactly one line per entry, line
   * `j` being `"Face k: label"` for the `j`-th entry, with no trailing newline.
   */
  function DisplayFaceEmotionMap(faceEmotionMap: seq<(int, string)>): (text: string)
    ensures |faceEmotionMap| == 0 ==> text == EmptyMessage
    ensures |faceEmotionMap| > 0 && NoNewlineInLabels(faceEmotionMap) ==>
      Split(text, Newline) == ReportLines(faceEmotionMap)
  {
    if |faceEmotionMap| == 0 then EmptyMessage
    else
      var lines := ReportLines(faceEmotionMap);
      assert NoNewlineInLabels(faceEmotionMap) ==> Split(JoinToString(lines, "\n"), Newline) == lines by {
        if NoNewlineInLabels(faceEmotionMap) {
          SplitJoin(lines);
        }
      }
      JoinToString(lines, "\n")
  }
}
