/**
 * The earlier, unrouted copy of the app (fe/app_backup.js): the same token
 * parse, here in one effect that also hooks the playback SDK, and the request
 * guards of its playlist buttons.
 */
module Backup {
  import opened Wrappers
  import opened Strings
  import opened Auth
  import Playback

  /** The mount effect's outcome: it throws, or it leaves a token, the storage key, the fragment, and whether the SDK-ready hook was installed. */
  datatype Mount = MountThrew | Mounted(token: TokenValue, stored: Option<string>, hash: string, sdkHooked: bool)

  /**
   * The backup's token effect (it runs on mount and whenever `token`
   * changes): a stored truthy token wins, otherwise the fragment is parsed,
   * cleared and persisted; then the SDK-ready hook is installed only when the
   * resulting token is truthy.
   */
  function MountEffect(stored: Option<string>, hash: string): (r: Mount)
    ensures r.MountThrew? <==> TokenEffect(stored, hash).Threw?
    ensures r.Mounted? ==> TokenEffect(stored, hash) == Ran(r.token, r.stored, r.hash)
    ensures r.Mounted? ==> (r.sdkHooked <==> StartsPlayerSdk(r.token))
  {
    var token := StoredToken(stored);
    if !Truthy(token) && |hash| > 0 then
      match ParseFragment(hash)
      case None => MountThrew
      case Some(t) => Mounted(t, Some(StorageString(t)), "", Truthy(t))
    else Mounted(token, stored, hash, Truthy(token))
  }

  /** A redirect whose token segment is `access_token=` with nothing after it stores `""` and hooks nothing. */
  lemma EmptyTokenHooksNothing(hash: string)
    requires hash == "#" + AccessTokenKey + "="
    ensures MountEffect(None, hash) == Mounted(Text(""), Some(""), "", false)
  {
    var seg := AccessTokenKey + "=" + "" + "";
    assert Join([seg], "&") == seg;
    assert hash == "#" + Join([seg], "&");
    assert '&' !in seg;
    ExtractsValue([seg], 0, "", "");
  }

  /**
   * `logout` changes `token`, and the effect depends on `token`, so it runs
   * again: with the storage key removed and no fragment the token is `null`
   * and no hook is installed.
   */
  lemma LogoutThenMount(s: Session)
    ensures MountEffect(Logout(s).stored, "") == Mounted(Null, None, "", false)
  {
  }

  /** What a click on "create playlist" sends once the name prompt is answered. */
  datatype CreateRequest = CreateRequest(name: string, description: string, isPublic: bool)

  /** `createPlaylist`: a cancelled (`null`) or empty name returns before any request; otherwise a private playlist is requested under that name. */
  function CreatePlaylist(promptAnswer: Option<string>): (r: Option<CreateRequest>)
    ensures r.None? <==> promptAnswer.None? || promptAnswer.value == ""
    ensures r.Some? ==> r.value.name == promptAnswer.value && r.value.name != "" && !r.value.isPublic
  {
    if promptAnswer.None? || promptAnswer.value == "" then None
    else Some(CreateRequest(promptAnswer.value, "Generated by React App", false))
  }

  const TrackUriPrefix := "spotify:track:"

  /** `ids.map(i => "spotify:track:" + i)`. */
  function TrackUris(ids: seq<string>): (uris: seq<string>)
    ensures |uris| == |ids|
    ensures forall i :: 0 <= i < |ids| ==> StartsWith(uris[i], TrackUriPrefix) && uris[i][|TrackUriPrefix|..] == ids[i]
  {
    seq(|ids|, i requires 0 <= i < |ids| =>
      assert (TrackUriPrefix + ids[i])[..|TrackUriPrefix|] == TrackUriPrefix;
      assert (TrackUriPrefix + ids[i])[|TrackUriPrefix|..] == ids[i];
      TrackUriPrefix + ids[i])
  }

  /** The inverse reading: the id after `spotify:track:` of each URI, or the whole URI when it lacks the prefix. */
  function TrackIds(uris: seq<string>): (ids: seq<string>)
    ensures |ids| == |uris|
  {
    seq(|uris|, i requires 0 <= i < |uris| =>
      if StartsWith(uris[i], TrackUriPrefix) then uris[i][|TrackUriPrefix|..] else uris[i])
  }

  /** Reading the ids back out of the URIs gives the ids, in order. */
  lemma TrackIdsOfUris(ids: seq<string>)
    ensures TrackIds(TrackUris(ids)) == ids
  {
  }

  /** Different id lists give different URI lists. */
  lemma TrackUrisInjective(a: seq<string>, b: seq<string>)
    requires TrackUris(a) == TrackUris(b)
    ensures a == b
  {
  }

  /** The two hard-coded tracks the edit button adds. */
  const FixedTrackIds: seq<string> := ["2rOA9vEsnpNB6L5XgmibKn", "3PGK6qlEztoGlpJoW603YA"]

  datatype Edit = AlertCreateFirst | AddTracks(playlistId: string, uris: seq<string>, position: nat)

  /** `editPlaylist`: without a playlist key it alerts and sends nothing; otherwise it inserts the fixed tracks at the top of that playlist. */
  function EditPlaylist(pliKey: string): (r: Edit)
    ensures r.AlertCreateFirst? <==> pliKey == ""
    ensures r.AddTracks? ==> r.playlistId == pliKey && r.position == 0
    ensures r.AddTracks? ==> TrackIds(r.uris) == FixedTrackIds
    ensures r.AddTracks? ==> |r.uris| == 2 && forall i :: 0 <= i < 2 ==> r.uris[i] == TrackUriPrefix + FixedTrackIds[i]
  {
    if pliKey == "" then AlertCreateFirst
    else
      TrackIdsOfUris(FixedTrackIds);
      AddTracks(pliKey, TrackUris(FixedTrackIds), 0)
  }

  /**
   * The playlist key after the create button: the created playlist's id
   * (`createdId`, the awaited response) when a request was sent and answered,
   * otherwise unchanged, a failed request included.
   */
  function KeyAfterCreate(pliKey: string, promptAnswer: Option<string>, createdId: Option<string>): string {
    if CreatePlaylist(promptAnswer).Some? && createdId.Some? then createdId.value else pliKey
  }

  /**
   * From the initial empty key: a named create that the API answers with an id
   * makes the edit button insert the fixed tracks into that playlist; a
   * cancelled or empty name sends nothing and leaves the edit button alerting.
   */
  lemma CreateThenEdit(promptAnswer: Option<string>, createdId: Option<string>)
    ensures promptAnswer.Some? && promptAnswer.value != "" && createdId.Some? && createdId.value != "" ==>
      EditPlaylist(KeyAfterCreate("", promptAnswer, createdId))
        == AddTracks(createdId.value, TrackUris(FixedTrackIds), 0)
    ensures promptAnswer.None? || promptAnswer.value == "" ==>
      CreatePlaylist(promptAnswer).None? && EditPlaylist(KeyAfterCreate("", promptAnswer, createdId)).AlertCreateFirst?
  {
  }

  /** Example: the key starts empty, so an edit before any create alerts. */
  lemma EditBeforeCreateAlerts()
    ensures EditPlaylist("").AlertCreateFirst?
  {
  }

  /** The backup's `playPlaylist(uri)`: no request without a device id; the context URI is forwarded as given. */
  function PlayPlaylist(deviceId: Option<string>, contextUri: string): (r: Option<Playback.PlayRequest>)
    ensures r.None? <==> deviceId.None? || deviceId.value == ""
    ensures r.Some? ==> r.value.contextUri == contextUri && r.value.deviceId == deviceId.value
  {
    if deviceId.None? || deviceId.value == "" then None
    else Some(Playback.PlayRequest(contextUri, deviceId.value))
  }

  /** The play button prefixes `spotify:playlist:`, which makes it send exactly the request of the routed app's `playPlaylist`. */
  lemma PlayButtonMatchesApp(deviceId: Option<string>, pliKey: string)
    ensures PlayPlaylist(deviceId, Playback.PlaylistUriPrefix + pliKey) == Playback.PlayPlaylist(deviceId, pliKey)
  {
  }

  /** Example: the device id starts as `null`, so a play click before the SDK reports ready sends nothing. */
  lemma PlayBeforeReadySendsNothing(pliKey: string)
    ensures PlayPlaylist(None, Playback.PlaylistUriPrefix + pliKey).None?
  {
  }
}
