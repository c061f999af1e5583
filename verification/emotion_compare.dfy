/**
 * The four hand-written classifications of an emotion point compared: the
 * menu colour (MenuSlide.js), the list label and the list colour
 * (PlaylistsPage.js), and the backend quadrant (be/model_lib.py). Each maps
 * onto one of four moods or onto "none" (gray, neutral); off the axes they all
 * agree, and on the axes each pair disagrees on an exactly known set of points.
 */
module EmotionCompare {
  import opened Wrappers
  import MenuSlide
  import PlaylistsPage
  import ModelLib

  /** The moods of the four open quadrants, named after the list labels. */
  datatype Mood = Joy | Anger | Sadness | Calmness

  /** The reference: the mood of a point off both axes, none on an axis. */
  function OpenQuadrant(x: real, y: real): Option<Mood> {
    if x > 0.0 && y > 0.0 then Some(Joy)
    else if x < 0.0 && y > 0.0 then Some(Anger)
    else if x < 0.0 && y < 0.0 then Some(Sadness)
    else if x > 0.0 && y < 0.0 then Some(Calmness)
    else None
  }

  function MenuMood(c: MenuSlide.MenuColor): Option<Mood> {
    match c
    case Yellow => Some(Joy)
    case Red => Some(Anger)
    case Blue => Some(Sadness)
    case Green => Some(Calmness)
    case Gray => None
  }

  function LabelMood(l: PlaylistsPage.Label): Option<Mood> {
    match l
    case Joy => Some(Joy)
    case Anger => Some(Anger)
    case Sadness => Some(Sadness)
    case Calmness => Some(Calmness)
    case Neutral => None
  }

  function PageMood(c: PlaylistsPage.PageColor): Option<Mood> {
    match c
    case BgYellow => Some(Joy)
    case BgRed => Some(Anger)
    case BgBlue => Some(Sadness)
    case BgGreen => Some(Calmness)
    case BgGray => None
  }

  function QuadrantMood(q: int): Option<Mood> {
    if q == 1 then Some(Joy)
    else if q == 2 then Some(Anger)
    else if q == 3 then Some(Sadness)
    else if q == 4 then Some(Calmness)
    else None
  }

  function Menu(x: real, y: real): Option<Mood> { MenuMood(MenuSlide.EmotionColor(x, y)) }
  function Label(x: real, y: real): Option<Mood> { LabelMood(PlaylistsPage.EmotionLabel(x, y)) }
  function Page(x: real, y: real): Option<Mood> { PageMood(PlaylistsPage.EmotionColor(x, y)) }
  function Backend(x: real, y: real): Option<Mood> { QuadrantMood(ModelLib.Quadrant(x, y)) }

  /** Off the axes all four variants give the point's open-quadrant mood. */
  lemma AgreeOffAxes(x: real, y: real)
    requires x != 0.0 && y != 0.0
    ensures OpenQuadrant(x, y).Some?
    ensures Menu(x, y) == OpenQuadrant(x, y) && Label(x, y) == OpenQuadrant(x, y)
    ensures Page(x, y) == OpenQuadrant(x, y) && Backend(x, y) == OpenQuadrant(x, y)
  {
  }

  /** The label is exactly the reference: neutral on the axes, the open-quadrant mood elsewhere. */
  lemma LabelIsReference(x: real, y: real)
    ensures Label(x, y) == OpenQuadrant(x, y)
  {
  }

  /** The list colour and the backend quadrant give some mood for every point; the menu only off the y axis. */
  lemma Coverage(x: real, y: real)
    ensures Page(x, y).Some? && Backend(x, y).Some?
    ensures Menu(x, y).None? <==> x == 0.0
  {
  }

  /** List label and list colour agree exactly off the axes; e.g. (0, 5) is neutral but yellow. */
  lemma LabelVsPage(x: real, y: real)
    ensures Label(x, y) == Page(x, y) <==> x != 0.0 && y != 0.0
    ensures PlaylistsPage.EmotionLabel(0.0, 5.0) == PlaylistsPage.Neutral
    ensures PlaylistsPage.EmotionColor(0.0, 5.0) == PlaylistsPage.BgYellow
  {
  }

  /** List colour and menu colour agree on the right half plane and off the x axis on the left; (-1, 0) is red in the list, blue in the menu. */
  lemma PageVsMenu(x: real, y: real)
    ensures Page(x, y) == Menu(x, y) <==> x > 0.0 || (x < 0.0 && y != 0.0)
    ensures PlaylistsPage.EmotionColor(-1.0, 0.0) == PlaylistsPage.BgRed
    ensures MenuSlide.EmotionColor(-1.0, 0.0) == MenuSlide.Blue
  {
  }

  /** Menu colour and label agree on the y axis (gray and neutral) and off the x axis; on the x axis away from 0 they differ. */
  lemma MenuVsLabel(x: real, y: real)
    ensures Menu(x, y) == Label(x, y) <==> x == 0.0 || y != 0.0
  {
  }

  /** Backend quadrant and list colour differ only on the negative x half axis (quadrant 3, red). */
  lemma BackendVsPage(x: real, y: real)
    ensures Backend(x, y) == Page(x, y) <==> !(x < 0.0 && y == 0.0)
  {
  }

  /** Backend quadrant and menu colour differ exactly on the y axis, where the menu is gray. */
  lemma BackendVsMenu(x: real, y: real)
    ensures Backend(x, y) == Menu(x, y) <==> x != 0.0
  {
  }

  /** Backend quadrant and list label differ exactly on the axes. */
  lemma BackendVsLabel(x: real, y: real)
    ensures Backend(x, y) == Label(x, y) <==> x != 0.0 && y != 0.0
  {
  }
}
