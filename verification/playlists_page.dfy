/** PlaylistsPage.js: the label and the background colour of a saved playlist's emotion point. */
module PlaylistsPage {
  import opened Strings
  import Ui

  datatype Label = Joy | Calmness | Anger | Sadness | Neutral

  /** The label text shown (Korean word, English in parentheses). */
  function LabelText(l: Label): string {
    match l
    case Joy => "기쁨 (Joy)"
    case Calmness => "평온 (Calmness)"
    case Anger => "분노 (Anger)"
    case Sadness => "우울 (Sadness)"
    case Neutral => "중립 (Neutral)"
  }

  /** `getEmotionLabel(x, y)`: strict signs on both axes; any point on an axis is neutral. */
  function EmotionLabel(x: real, y: real): (l: Label)
    ensures l == Joy <==> x > 0.0 && y > 0.0
    ensures l == Calmness <==> x > 0.0 && y < 0.0
    ensures l == Anger <==> x < 0.0 && y > 0.0
    ensures l == Sadness <==> x < 0.0 && y < 0.0
    ensures l == Neutral <==> x == 0.0 || y == 0.0
  {
    if x > 0.0 && y > 0.0 then Joy
    else if x > 0.0 && y < 0.0 then Calmness
    else if x < 0.0 && y > 0.0 then Anger
    else if x < 0.0 && y < 0.0 then Sadness
    else Neutral
  }

  datatype PageColor = BgYellow | BgRed | BgBlue | BgGreen | BgGray

  function ColorClass(c: PageColor): string {
    match c
    case BgYellow => "bg-yellow-200"
    case BgRed => "bg-red-200"
    case BgBlue => "bg-blue-200"
    case BgGreen => "bg-green-200"
    case BgGray => "bg-gray-200"
  }

  /**
   * `getEmotionColor(x, y)`: zero counts as non-negative on both axes, so the
   * four branches cover the plane and the gray fallback is never returned.
   */
  function EmotionColor(x: real, y: real): (c: PageColor)
    ensures c == BgYellow <==> x >= 0.0 && y >= 0.0
    ensures c == BgRed <==> x < 0.0 && y >= 0.0
    ensures c == BgBlue <==> x < 0.0 && y < 0.0
    ensures c == BgGreen <==> x >= 0.0 && y < 0.0
    ensures c != BgGray
  {
    if x >= 0.0 && y >= 0.0 then BgYellow
    else if x < 0.0 && y >= 0.0 then BgRed
    else if x < 0.0 && y < 0.0 then BgBlue
    else if x >= 0.0 && y < 0.0 then BgGreen
    else BgGray
  }

  /**
   * A click stores the playlist's name, passes the background class of its
   * point (not the label) as the emotion, plays it, and then moves to `/player`.
   * The class is one of the four quadrant classes, never the gray fallback.
   */
  function OnPlaylistClick(p: Ui.Playlist): (effects: seq<Ui.UiEffect>)
    ensures |effects| == 4 && effects[1].SetEmotion?
    ensures effects[0] == Ui.SetPliName(p.name) && effects[2] == Ui.PlayPlaylist(p.id)
    ensures effects[3] == Ui.Navigate("/player")
    ensures effects[1].emotion == "bg-yellow-200" <==> p.x >= 0.0 && p.y >= 0.0
    ensures effects[1].emotion == "bg-red-200" <==> p.x < 0.0 && p.y >= 0.0
    ensures effects[1].emotion == "bg-blue-200" <==> p.x < 0.0 && p.y < 0.0
    ensures effects[1].emotion == "bg-green-200" <==> p.x >= 0.0 && p.y < 0.0
    ensures effects[1].emotion != "bg-gray-200"
    ensures StartsWith(effects[1].emotion, "bg-")
    ensures forall l: Label :: effects[1].emotion != LabelText(l)
  {
    var c := EmotionColor(p.x, p.y);
    assert ColorClass(c)[..3] == "bg-";
    Ui.PlaylistClick(p.id, p.name, ColorClass(c))
  }
}
