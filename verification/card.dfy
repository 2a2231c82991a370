/** The pure helpers of the test card: the status appearance, `truncate`,
    and the parent path that the copy button puts on the clipboard. */
module Card {
  import opened Strings
  import opened Types

  datatype Color = Green | Red | Gray | Yellow
  datatype Icon = CheckCircle | XCircle | Timer | SkipForward | AlertTriangle
  datatype Appearance = Appearance(color: Color, icon: Icon)

  function StatusAppearance(status: TestStatus): (r: Appearance)
    ensures r.color == Red <==> IsFailure(status)
  {
    match status
    case Passed => Appearance(Green, CheckCircle)
    case Failed => Appearance(Red, XCircle)
    case TimedOut => Appearance(Red, Timer)
    case Skipped => Appearance(Gray, SkipForward)
    case Interrupted => Appearance(Yellow, AlertTriangle)
  }

  /** Red marks exactly the failures, green exactly a pass, gray exactly a
      skip, yellow exactly an interruption; no two statuses look alike. */
  lemma StatusColors(s: TestStatus, t: TestStatus)
    ensures StatusAppearance(s).color == Red <==> IsFailure(s)
    ensures StatusAppearance(s).color == Green <==> s == Passed
    ensures StatusAppearance(s).color == Gray <==> s == Skipped
    ensures StatusAppearance(s).color == Yellow <==> s == Interrupted
    ensures StatusAppearance(s) == StatusAppearance(t) ==> s == t
  {
  }

  function Clamp(x: int, hi: nat): (r: nat)
    ensures r <= hi
  {
    if x < 0 then 0 else if x > hi then hi else x
  }

  /** `text.substring(start, end)`: both ends clamped to the text, and
      swapped when out of order. */
  function Substring(text: string, start: int, end: int): string {
    var a := Clamp(start, |text|);
    var b := Clamp(end, |text|);
    if a <= b then text[a..b] else text[b..a]
  }

  /** Shortens a text longer than `maxLength` to a prefix, five dots and a
      suffix. */
  function Truncate(text: string, maxLength: int, prefixLength: int, suffixLength: int): (r: string)
    ensures |text| <= maxLength ==> r == text
    ensures |text| > maxLength ==> |r| == Clamp(prefixLength, |text|) + 5 + Clamp(suffixLength, |text|)
  {
    if |text| <= maxLength then text
    else Substring(text, 0, prefixLength) + "....." + Substring(text, |text| - suffixLength, |text|)
  }

  /** A short text is returned unchanged; a long one becomes its first
      `prefixLength` characters, five dots and its last `suffixLength`
      characters, each count clamped to the text's length. */
  lemma TruncateSpec(text: string, maxLength: int, prefixLength: int, suffixLength: int)
    ensures |text| <= maxLength ==> Truncate(text, maxLength, prefixLength, suffixLength) == text
    ensures |text| > maxLength ==>
      var p := Clamp(prefixLength, |text|);
      var s := Clamp(suffixLength, |text|);
      var r := Truncate(text, maxLength, prefixLength, suffixLength);
      && r == text[..p] + "....." + text[|text| - s..]
      && |r| == p + 5 + s
  {
  }

  /** With the prefix and suffix lengths within the text, a long text keeps
      exactly `prefixLength + 5 + suffixLength` characters. */
  lemma TruncateWithinText(text: string, maxLength: int, prefixLength: nat, suffixLength: nat)
    requires |text| > maxLength && prefixLength <= |text| && suffixLength <= |text|
    ensures var r := Truncate(text, maxLength, prefixLength, suffixLength);
      && r == text[..prefixLength] + "....." + text[|text| - suffixLength..]
      && |r| == prefixLength + 5 + suffixLength
      && r[..prefixLength] == text[..prefixLength]
      && r[|r| - suffixLength..] == text[|text| - suffixLength..]
  {
    TruncateSpec(text, maxLength, prefixLength, suffixLength);
  }

  /** `path.split('/').slice(0, -1).join('/')`. */
  function ParentPath(path: string): (r: string)
    ensures '/' !in path ==> r == ""
  {
    var parts := Split(path, '/');
    SplitSingle(path, '/');
    Join(parts[..|parts| - 1], "/")
  }

  /** The segment after the last '/'. */
  function LastSegment(path: string): string {
    var parts := Split(path, '/');
    parts[|parts| - 1]
  }

  /** The parent path, a '/', and the last segment rebuild the path; a path
      without '/' has the empty parent. */
  lemma ParentPathSpec(path: string)
    ensures '/' !in LastSegment(path)
    ensures '/' !in path ==> ParentPath(path) == "" && LastSegment(path) == path
    ensures '/' in path ==> ParentPath(path) + "/" + LastSegment(path) == path
  {
    var parts := Split(path, '/');
    assert parts[|parts| - 1] in parts;
    SplitSingle(path, '/');
    JoinSplitRoundTrip(path, '/');
    if |parts| >= 2 {
      JoinSnoc(parts, "/");
    } else {
      assert parts[..0] == [];
    }
  }

  /** The toast text after a copy: the parent path shortened to at most 50
      characters shown as 20, five dots and 30. */
  function CopiedPathPreview(sourcePath: string): string {
    Truncate(ParentPath(sourcePath), 50, 20, 30)
  }

  /** The preview is the parent path itself when it has at most 50
      characters, and otherwise exactly 55 characters: its first 20, five
      dots and its last 30. */
  lemma CopiedPathPreviewSpec(sourcePath: string)
    ensures var p := ParentPath(sourcePath);
      var r := CopiedPathPreview(sourcePath);
      && (|p| <= 50 ==> r == p)
      && (|p| > 50 ==> r == p[..20] + "....." + p[|p| - 30..] && |r| == 55)
      && |r| <= 55
  {
    TruncateSpec(ParentPath(sourcePath), 50, 20, 30);
  }
}
