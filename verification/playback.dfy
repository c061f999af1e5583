/**
 * The playback state App.js keeps for the player view and the handlers that
 * change it: the SDK's `player_state_changed` notification, the transport
 * controls (play/pause toggle, skip, volume), `seekTo`, and the guard of
 * `playPlaylist`. SDK calls are returned as a list of requests instead of
 * being performed.
 */
module Playback {
  import opened Wrappers
  import opened Strings

  /** What the view shows of the current track: artist names joined, cover URLs listed. */
  datatype Track = Track(name: string, artists: string, album: seq<string>)

  /** `{isPlaying, currentTime, duration, track}`; times in seconds. */
  datatype PlayerState = PlayerState(isPlaying: bool, currentTime: real, duration: real, track: Option<Track>)

  /** The `useState` initial values. */
  const Initial := PlayerState(false, 0.0, 0.0, None)

  /** The fields of the SDK's state object the handler reads; times in milliseconds. */
  datatype Artist = Artist(name: string)
  datatype Image = Image(url: string)
  datatype SdkTrack = SdkTrack(name: string, artists: seq<Artist>, images: seq<Image>)
  datatype SdkState = SdkState(paused: bool, position: nat, duration: nat, current: SdkTrack)

  /** Requests made to the playback SDK. */
  datatype SdkCall = GetCurrentState | Resume | Pause | NextTrack | PreviousTrack | Volume(level: real) | Seek(ms: real)

  function ArtistNames(artists: seq<Artist>): (names: seq<string>)
    ensures |names| == |artists|
    ensures forall i :: 0 <= i < |artists| ==> names[i] == artists[i].name
  {
    seq(|artists|, i requires 0 <= i < |artists| => artists[i].name)
  }

  function ImageUrls(images: seq<Image>): (urls: seq<string>)
    ensures |urls| == |images|
    ensures forall i :: 0 <= i < |images| ==> urls[i] == images[i].url
  {
    seq(|images|, i requires 0 <= i < |images| => images[i].url)
  }

  /**
   * The `player_state_changed` listener. A null notification changes nothing;
   * otherwise playing is "not paused", times are converted from ms to s, and
   * the track is rebuilt from the SDK's current track.
   */
  function OnStateChanged(s: PlayerState, n: Option<SdkState>): (r: PlayerState)
    ensures n.None? ==> r == s
    ensures n.Some? ==> r.isPlaying == !n.value.paused
    ensures n.Some? ==> r.currentTime * 1000.0 == n.value.position as real
    ensures n.Some? ==> r.duration * 1000.0 == n.value.duration as real
    ensures n.Some? ==> r.track.Some? && r.track.value.name == n.value.current.name
    ensures n.Some? ==> |r.track.value.album| == |n.value.current.images|
    ensures n.Some? ==> forall i :: 0 <= i < |n.value.current.images| ==> r.track.value.album[i] == n.value.current.images[i].url
  {
    match n
    case None => s
    case Some(st) =>
      PlayerState(
        !st.paused,
        st.position as real / 1000.0,
        st.duration as real / 1000.0,
        Some(Track(st.current.name, Join(ArtistNames(st.current.artists), ", "), ImageUrls(st.current.images))))
  }

  /** `", "`-joined names, read back by splitting on `,`: the first name, then each later one behind a space. */
  lemma {:induction false} CommaJoinSplits(names: seq<string>)
    requires |names| >= 1
    requires forall i :: 0 <= i < |names| ==> ',' !in names[i]
    ensures Split(Join(names, ", "), ',') == [names[0]] + seq(|names| - 1, i requires 0 <= i < |names| - 1 => " " + names[i + 1])
  {
    var spaced := [names[0]] + seq(|names| - 1, i requires 0 <= i < |names| - 1 => " " + names[i + 1]);
    CommaJoinIsSpacedJoin(names);
    forall i | 0 <= i < |spaced| ensures ',' !in spaced[i] {
      if i > 0 {
        assert spaced[i] == " " + names[i];
        assert ',' !in names[i];
      }
    }
    SplitJoin(spaced, ',');
  }

  lemma {:induction false} CommaJoinIsSpacedJoin(names: seq<string>)
    requires |names| >= 1
    ensures Join(names, ", ") == Join([names[0]] + seq(|names| - 1, i requires 0 <= i < |names| - 1 => " " + names[i + 1]), ",")
    decreases |names|
  {
    var spaced := [names[0]] + seq(|names| - 1, i requires 0 <= i < |names| - 1 => " " + names[i + 1]);
    if |names| > 1 {
      var rest := names[1..];
      CommaJoinIsSpacedJoin(rest);
      var spacedRest := [rest[0]] + seq(|rest| - 1, i requires 0 <= i < |rest| - 1 => " " + rest[i + 1]);
      assert spaced[1..] == [" " + rest[0]] + spacedRest[1..];
      SpacePrefixJoin(rest[0], spacedRest);
      assert Join(spaced, ",") == names[0] + "," + Join(spaced[1..], ",");
      assert Join(spaced[1..], ",") == " " + Join(spacedRest, ",");
      assert Join(names, ", ") == names[0] + ", " + Join(rest, ", ");
    }
  }

  /** Prefixing the first piece with a space prefixes the join with a space. */
  lemma SpacePrefixJoin(first: string, pieces: seq<string>)
    requires |pieces| >= 1 && pieces[0] == first
    ensures Join([" " + first] + pieces[1..], ",") == " " + Join(pieces, ",")
  {
  }

  /** With comma-free artist names, the `artists` text the handler builds splits back into the names. */
  lemma ArtistsReadBack(s: PlayerState, st: SdkState)
    requires |st.current.artists| >= 1
    requires forall i :: 0 <= i < |st.current.artists| ==> ',' !in st.current.artists[i].name
    ensures var names := ArtistNames(st.current.artists);
      Split(OnStateChanged(s, Some(st)).track.value.artists, ',')
        == [names[0]] + seq(|names| - 1, i requires 0 <= i < |names| - 1 => " " + names[i + 1])
  {
    CommaJoinSplits(ArtistNames(st.current.artists));
  }

  /** The SDK's answer to `getCurrentState()`: the promise rejects, resolves to null, or reports the paused flag. */
  datatype StateReply = Rejected | NoState | Reported(paused: bool)

  datatype Outcome = Outcome(state: PlayerState, calls: seq<SdkCall>)

  /**
   * `togglePlayPause`: without a player nothing happens; otherwise the current
   * state is asked for and, if there is one, a paused player is resumed and a
   * playing one paused. `isPlaying` follows only after the SDK call succeeded
   * (`commandOk`); failures are caught and logged.
   */
  function TogglePlayPause(s: PlayerState, hasPlayer: bool, reply: StateReply, commandOk: bool): (r: Outcome)
    ensures r.state == s.(isPlaying := r.state.isPlaying)
    ensures !hasPlayer ==> r.calls == [] && r.state == s
    ensures hasPlayer && !reply.Reported? ==> r.calls == [GetCurrentState] && r.state == s
    ensures hasPlayer && reply.Reported? ==>
      r.calls == [GetCurrentState, if reply.paused then Resume else Pause]
    ensures r.state.isPlaying != s.isPlaying ==> hasPlayer && reply.Reported? && commandOk
    ensures hasPlayer && reply.Reported? && commandOk ==> r.state.isPlaying == reply.paused
  {
    if !hasPlayer then Outcome(s, [])
    else match reply
      case Rejected => Outcome(s, [GetCurrentState])
      case NoState => Outcome(s, [GetCurrentState])
      case Reported(paused) =>
        var command := if paused then Resume else Pause;
        if commandOk then Outcome(s.(isPlaying := paused), [GetCurrentState, command])
        else Outcome(s, [GetCurrentState, command])
  }

  /** When the SDK agrees with the view, two successful toggles come back to the starting state. */
  lemma ToggleTwiceRestores(s: PlayerState)
    ensures var once := TogglePlayPause(s, true, Reported(!s.isPlaying), true).state;
      once.isPlaying == !s.isPlaying
      && TogglePlayPause(once, true, Reported(!once.isPlaying), true).state == s
  {
  }

  /** `skipToNext` / `skipToPrevious` / `setVolume`: no-ops without a player; the volume is passed on unclamped. */
  function SkipToNext(hasPlayer: bool): (calls: seq<SdkCall>)
    ensures calls == [] <==> !hasPlayer
    ensures hasPlayer ==> calls == [NextTrack]
  {
    if hasPlayer then [NextTrack] else []
  }

  function SkipToPrevious(hasPlayer: bool): (calls: seq<SdkCall>)
    ensures calls == [] <==> !hasPlayer
    ensures hasPlayer ==> calls == [PreviousTrack]
  {
    if hasPlayer then [PreviousTrack] else []
  }

  function SetVolume(hasPlayer: bool, volume: real): (calls: seq<SdkCall>)
    ensures calls == [] <==> !hasPlayer
    ensures hasPlayer ==> calls == [Volume(volume)]
  {
    if hasPlayer then [Volume(volume)] else []
  }

  /** A seek either throws (no player: `player.seek` on null) or updates the view and asks the SDK. */
  datatype SeekResult = SeekThrew | Sought(state: PlayerState, call: SdkCall)

  /**
   * `seekTo(p)`: the SDK is asked to seek to `p * 1000` ms and `currentTime`
   * becomes exactly `p`, without clamping to `[0, duration]`. The SDK call comes
   * first, so a missing player throws before the state is touched.
   */
  function SeekTo(s: PlayerState, hasPlayer: bool, p: real): (r: SeekResult)
    ensures r.SeekThrew? <==> !hasPlayer
    ensures r.Sought? ==> r.state == s.(currentTime := p)
    ensures r.Sought? ==> r.call.Seek? && r.call.ms / 1000.0 == p
  {
    if hasPlayer then Sought(s.(currentTime := p), Seek(p * 1000.0)) else SeekThrew
  }

  const PlaylistUriPrefix := "spotify:playlist:"

  datatype PlayRequest = PlayRequest(contextUri: string, deviceId: string)

  /** The id a `spotify:playlist:` context URI names, if it is one. */
  function PlaylistIdOf(uri: string): Option<string>
  {
    if StartsWith(uri, PlaylistUriPrefix) then Some(uri[|PlaylistUriPrefix|..]) else None
  }

  /**
   * `playPlaylist(id)`: with no device id (null or empty) the user is alerted
   * and no request is sent; otherwise playback of `spotify:playlist:<id>` is
   * requested on that device.
   */
  function PlayPlaylist(deviceId: Option<string>, playlistId: string): (r: Option<PlayRequest>)
    ensures r.None? <==> deviceId.None? || deviceId.value == ""
    ensures r.Some? ==> r.value.deviceId == deviceId.value
    ensures r.Some? ==> PlaylistIdOf(r.value.contextUri) == Some(playlistId)
  {
    if deviceId.None? || deviceId.value == "" then None
    else
      var uri := PlaylistUriPrefix + playlistId;
      assert uri[..|PlaylistUriPrefix|] == PlaylistUriPrefix;
      assert uri[|PlaylistUriPrefix|..] == playlistId;
      Some(PlayRequest(uri, deviceId.value))
  }
}
