/** MenuSlide.js: the slide-out list's colour for an emotion point, and its click handler. */
module MenuSlide {
  import Ui

  datatype MenuColor = Yellow | Red | Blue | Green | Gray

  /** The colour name the menu hands on. */
  function ColorName(c: MenuColor): string {
    match c
    case Yellow => "yellow"
    case Red => "red"
    case Blue => "blue"
    case Green => "green"
    case Gray => "gray"
  }

  /**
   * `getEmotionColor(x, y)`: yellow takes the non-negative y half of the right
   * side, blue the non-positive y half of the left side; the y axis itself is gray.
   */
  function EmotionColor(x: real, y: real): (c: MenuColor)
    ensures c == Yellow <==> x > 0.0 && y >= 0.0
    ensures c == Red <==> x < 0.0 && y > 0.0
    ensures c == Blue <==> x < 0.0 && y <= 0.0
    ensures c == Green <==> x > 0.0 && y < 0.0
    ensures c == Gray <==> x == 0.0
  {
    if x > 0.0 && y >= 0.0 then Yellow
    else if x < 0.0 && y > 0.0 then Red
    else if x < 0.0 && y <= 0.0 then Blue
    else if x > 0.0 && y < 0.0 then Green
    else Gray
  }

  /**
   * A click on a listed playlist stores its name, passes the plain colour name
   * of its point as the emotion, plays it, and then moves to `/player`.
   */
  function OnPlaylistClick(p: Ui.Playlist): (effects: seq<Ui.UiEffect>)
    ensures |effects| == 4 && effects[1].SetEmotion?
    ensures effects[0] == Ui.SetPliName(p.name) && effects[2] == Ui.PlayPlaylist(p.id)
    ensures effects[3] == Ui.Navigate("/player")
    ensures effects[1].emotion == "yellow" <==> p.x > 0.0 && p.y >= 0.0
    ensures effects[1].emotion == "red" <==> p.x < 0.0 && p.y > 0.0
    ensures effects[1].emotion == "blue" <==> p.x < 0.0 && p.y <= 0.0
    ensures effects[1].emotion == "green" <==> p.x > 0.0 && p.y < 0.0
    ensures effects[1].emotion == "gray" <==> p.x == 0.0
  {
    Ui.PlaylistClick(p.id, p.name, ColorName(EmotionColor(p.x, p.y)))
  }
}
