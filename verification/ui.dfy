/**
 * What the two playlist lists (MenuSlide.js and PlaylistsPage.js) share: the
 * playlist record the backend returns, the click handler's effects, and the
 * guard on fetching a user's playlists.
 */
module Ui {
  import opened Wrappers
  import opened Strings

  /** A saved playlist as listed: id, name, diary text and the normalised emotion point. */
  datatype Playlist = Playlist(id: string, name: string, diary: string, x: real, y: real)

  /** The observable effects of a click, in the order they happen. */
  datatype UiEffect = SetPliName(name: string) | SetEmotion(emotion: string) | PlayPlaylist(id: string) | Navigate(path: string)

  /**
   * `handlePlaylistClick(id, name, emo)`: the playlist name and the emotion are
   * stored, the playlist is played, and only then does the view move to `/player`.
   */
  function PlaylistClick(id: string, name: string, emotion: string): (effects: seq<UiEffect>)
    ensures |effects| == 4
    ensures effects[0] == SetPliName(name) && effects[1] == SetEmotion(emotion)
    ensures effects[2] == PlayPlaylist(id) && effects[3] == Navigate("/player")
  {
    [SetPliName(name), SetEmotion(emotion), PlayPlaylist(id), Navigate("/player")]
  }

  /** The signed-in user's profile; only its id is read. */
  datatype UserInfo = UserInfo(id: string)

  const BackendUsers := "http://localhost:8000/users/"
  const PlaylistsSuffix := "/playlists/"

  /** The URL fetched for the user's playlists; no request without a user. */
  function PlaylistsUrl(user: Option<UserInfo>): (url: Option<string>)
    ensures url.None? <==> user.None?
    ensures url.Some? ==> StartsWith(url.value, BackendUsers)
    ensures url.Some? ==> |url.value| == |BackendUsers| + |user.value.id| + |PlaylistsSuffix|
    ensures url.Some? ==> url.value[|BackendUsers|..|BackendUsers| + |user.value.id|] == user.value.id
    ensures url.Some? ==> url.value[|BackendUsers| + |user.value.id|..] == PlaylistsSuffix
  {
    match user
    case None => None
    case Some(u) =>
      var url := BackendUsers + u.id + PlaylistsSuffix;
      assert url[..|BackendUsers|] == BackendUsers;
      assert url[|BackendUsers|..|BackendUsers| + |u.id|] == u.id;
      assert url[|BackendUsers| + |u.id|..] == PlaylistsSuffix;
      Some(url)
  }
}
