/**
 * The playback state of App.js and the progress counter of Player.js as one
 * event-driven machine. An App state change re-renders App, which builds
 * fresh `skipToNext`/`skipToPrevious` callbacks; those are dependencies of the
 * Player's progress effect, so every App re-render resynchronises the counter.
 * A null notification sets no state and so re-renders nothing; setting a state
 * to the value it already has is skipped by React and re-renders nothing either.
 */
module Session {
  import opened Wrappers
  import opened Playback
  import Player

  datatype Session = Session(app: PlayerState, hasPlayer: bool, progress: Player.Progress, mounted: bool)

  datatype Event =
    | Notify(n: Option<SdkState>)
    | Tick
    | Connected
    | Toggle(reply: StateReply, commandOk: bool)
    | SeekTo(p: real)
    | SkipNext
    | SkipPrevious
    | ChangeVolume(level: real)
    | Unmount

  /** The player view mounted over the App's initial state, after its effect's first run. */
  const Start := Session(Initial, false, Player.Rerun(Player.Unstarted, false, 0.0), true)

  /** An App re-render: the mounted player view reruns its progress effect. */
  function Rerender(s: Session): Session {
    if s.mounted then s.(progress := Player.Rerun(s.progress, s.app.isPlaying, s.app.currentTime)) else s
  }

  /** The App state becomes `app`; React re-renders only if it differs. */
  function SetApp(s: Session, app: PlayerState): Session {
    if app == s.app then s else Rerender(s.(app := app))
  }

  /**
   * One event. Only `Connected` installs the player, and it stays; only `Unmount`
   * unmounts, for good; only a notification, a toggle or a seek changes the App
   * state; and apart from a tick or the unmount cleanup, the counter only ever
   * changes by resyncing to the App's time, ticking exactly when playing.
   */
  function Step(s: Session, e: Event): (r: Session)
    ensures r.hasPlayer <==> s.hasPlayer || e.Connected?
    ensures r.mounted <==> s.mounted && !e.Unmount?
    ensures r.app != s.app ==> e.Notify? || e.Toggle? || e.SeekTo?
    ensures r.progress != s.progress && !e.Tick? && !e.Unmount? ==>
      r.progress == Player.Progress(r.app.currentTime, r.app.isPlaying)
  {
    match e
    case Notify(n) =>
      // a non-null notification always stores a fresh track object, so App re-renders
      if n.None? then s else Rerender(s.(app := OnStateChanged(s.app, n)))
    case Tick => s.(progress := Player.Tick(s.progress))
    case Connected => if s.hasPlayer then s else Rerender(s.(hasPlayer := true))
    case Toggle(reply, ok) => SetApp(s, TogglePlayPause(s.app, s.hasPlayer, reply, ok).state)
    case SeekTo(p) =>
      (match Playback.SeekTo(s.app, s.hasPlayer, p)
       case SeekThrew => s
       case Sought(app, _) => SetApp(s, app))
    case SkipNext => s
    case SkipPrevious => s
    case ChangeVolume(_) => s
    case Unmount => s.(progress := Player.Cleanup(s.progress), mounted := false)
  }

  /** The SDK requests an event makes. */
  function Requests(s: Session, e: Event): (calls: seq<SdkCall>)
    ensures !s.hasPlayer ==> calls == []
  {
    match e
    case Toggle(reply, ok) => TogglePlayPause(s.app, s.hasPlayer, reply, ok).calls
    case SeekTo(p) =>
      (match Playback.SeekTo(s.app, s.hasPlayer, p)
       case SeekThrew => []
       case Sought(_, call) => [call])
    case SkipNext => SkipToNext(s.hasPlayer)
    case SkipPrevious => SkipToPrevious(s.hasPlayer)
    case ChangeVolume(level) => SetVolume(s.hasPlayer, level)
    case _ => []
  }

  /** A sequence of events: the player, once connected, stays; the view stays mounted until an `Unmount`. */
  function Run(s: Session, events: seq<Event>): (r: Session)
    ensures r.hasPlayer <==> s.hasPlayer || exists i :: 0 <= i < |events| && events[i].Connected?
    ensures r.mounted <==> s.mounted && forall i :: 0 <= i < |events| ==> !events[i].Unmount?
    decreases |events|
  {
    if |events| == 0 then s
    else
      var rest := events[1..];
      assert forall i :: 0 <= i < |rest| ==> rest[i] == events[i + 1];
      assert (exists i :: 0 <= i < |events| && events[i].Connected?)
        <==> events[0].Connected? || exists i :: 0 <= i < |rest| && rest[i].Connected?;
      Run(Step(s, events[0]), rest)
  }

  /** `k` interval firings. */
  function TickEvents(k: nat): (events: seq<Event>)
    ensures |events| == k && forall i :: 0 <= i < k ==> events[i] == Tick
  {
    seq(k, i => Tick)
  }

  /** `v` is `t` plus a whole number of ticks. */
  predicate WholeTicksAbove(v: real, t: real) {
    v >= t && (v - t).Floor as real == v - t
  }

  /**
   * The dead-reckoning invariant: while the view is mounted an interval runs
   * exactly when playing; paused, the counter shows `currentTime`; playing, it
   * is `currentTime` plus the ticks since the last resync. Once unmounted, no
   * interval runs.
   */
  ghost predicate Synced(s: Session) {
    if s.mounted then
      s.progress.ticking == s.app.isPlaying
      && (if s.app.isPlaying then WholeTicksAbove(s.progress.value, s.app.currentTime)
          else s.progress.value == s.app.currentTime)
    else !s.progress.ticking
  }

  lemma StepKeepsSynced(s: Session, e: Event)
    requires Synced(s)
    ensures Synced(Step(s, e))
  {
    if e.Tick? && s.progress.ticking {
      var v := s.progress.value;
      var t := s.app.currentTime;
      assert (v + 1.0 - t).Floor == (v - t).Floor + 1;
    }
  }

  /** The invariant holds from mounting on, whatever events arrive. */
  lemma {:induction false} RunKeepsSynced(s: Session, events: seq<Event>)
    requires Synced(s)
    ensures Synced(Run(s, events))
    decreases |events|
  {
    if |events| > 0 {
      StepKeepsSynced(s, events[0]);
      RunKeepsSynced(Step(s, events[0]), events[1..]);
    }
  }

  lemma StartIsSynced()
    ensures Synced(Start)
  {
  }

  /** Ticks move only the counter. */
  lemma {:induction false} RunTicks(s: Session, k: nat)
    ensures Run(s, TickEvents(k)) == s.(progress := Player.Ticks(s.progress, k))
    decreases k
  {
    if k > 0 {
      var events := TickEvents(k);
      assert events[1..] == TickEvents(k - 1);
      RunTicks(Step(s, Tick), k - 1);
      TicksCommute(s.progress, k - 1);
    }
  }

  lemma {:induction false} TicksCommute(p: Player.Progress, k: nat)
    ensures Player.Ticks(Player.Tick(p), k) == Player.Tick(Player.Ticks(p, k))
    decreases k
  {
    if k > 0 {
      TicksCommute(p, k - 1);
    }
  }

  /**
   * An authoritative notification takes precedence over dead reckoning: the
   * counter resyncs to the reported position, however many ticks came before.
   */
  lemma NotifyResyncs(s: Session, st: SdkState)
    requires s.mounted
    ensures var r := Step(s, Notify(Some(st)));
      r.progress.value * 1000.0 == st.position as real && r.progress.ticking == !st.paused
  {
  }

  /** A null notification changes nothing, the counter included. */
  lemma NullNotifyIsIgnored(s: Session)
    ensures Step(s, Notify(None)) == s
  {
  }

  /**
   * Seeking while playing: the counter jumps to the requested second and then
   * counts up one per tick from there (nothing clamps it to the duration).
   */
  lemma TicksAfterSeek(s: Session, p: real, k: nat)
    requires s.mounted && s.hasPlayer && s.app.isPlaying && p != s.app.currentTime
    ensures Run(Step(s, SeekTo(p)), TickEvents(k)).progress.value == p + k as real
    ensures Requests(s, SeekTo(p)) == [Seek(p * 1000.0)]
  {
    var r := Step(s, SeekTo(p));
    assert r.progress == Player.Rerun(s.progress, true, p);
    RunTicks(r, k);
    Player.ResyncThenTicks(s.progress, p, k);
  }

  /** Seeking to the time already shown sets no new state, so the drift of the counter survives. */
  lemma SeekToSameTimeKeepsDrift(s: Session)
    requires s.hasPlayer
    ensures Step(s, SeekTo(s.app.currentTime)) == s
  {
  }

  /** Without a player the transport controls do nothing and ask nothing of the SDK. */
  lemma NoPlayerNoEffect(s: Session, e: Event)
    requires !s.hasPlayer && (e.Toggle? || e.SeekTo? || e.SkipNext? || e.SkipPrevious? || e.ChangeVolume?)
    ensures Step(s, e) == s && Requests(s, e) == []
  {
  }

  /**
   * With a player, skip and volume each make exactly one SDK request and set no
   * App state, so nothing re-renders and the counter keeps its drift.
   */
  lemma TransportWithPlayer(s: Session, level: real)
    requires s.hasPlayer
    ensures Step(s, SkipNext) == s && Requests(s, SkipNext) == [NextTrack]
    ensures Step(s, SkipPrevious) == s && Requests(s, SkipPrevious) == [PreviousTrack]
    ensures Step(s, ChangeVolume(level)) == s && Requests(s, ChangeVolume(level)) == [Volume(level)]
  {
  }

  /** After the view unmounts, ticks never move the counter again. */
  lemma NoTicksAfterUnmount(s: Session, k: nat)
    ensures var u := Step(s, Unmount);
      Run(u, TickEvents(k)).progress == u.progress
  {
    var u := Step(s, Unmount);
    RunTicks(u, k);
    Player.NoTicksAfterCleanup(s.progress, k);
  }
}
