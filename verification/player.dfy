/**
 * The player view's own logic in Player.js: the dead-reckoning progress
 * counter (resynchronised by its effect, advanced by a one-second interval),
 * `formatTime`, and the slide-menu toggle with its delayed class settling.
 * Interval ticks and timeouts are explicit events.
 */
module Player {
  import opened Strings
  import opened Digits
  import opened Wrappers

  /** The `progress` state and whether the effect's one-second interval is live. */
  datatype Progress = Progress(value: real, ticking: bool)

  /** Before the first effect run: `useState(0)`, no interval. */
  const Unstarted := Progress(0.0, false)

  /**
   * One run of the progress effect: the previous run's cleanup clears its
   * interval, `progress` is set to `currentTime`, and a new interval is started
   * only while playing.
   */
  function Rerun(p: Progress, isPlaying: bool, currentTime: real): (r: Progress)
    ensures r.value == currentTime && r.ticking == isPlaying
  {
    Progress(currentTime, isPlaying)
  }

  /** One firing of the interval: `prev + 1`, only if an interval is live. */
  function Tick(p: Progress): (r: Progress)
    ensures r.ticking == p.ticking
    ensures p.ticking ==> r.value == p.value + 1.0
    ensures !p.ticking ==> r == p
  {
    if p.ticking then p.(value := p.value + 1.0) else p
  }

  /** The cleanup run on unmount: the interval is cleared, the value kept. */
  function Cleanup(p: Progress): (r: Progress)
    ensures !r.ticking && r.value == p.value
  {
    p.(ticking := false)
  }

  /** `k` interval firings in a row. */
  function Ticks(p: Progress, k: nat): Progress
    decreases k
  {
    if k == 0 then p else Tick(Ticks(p, k - 1))
  }

  /**
   * Dead reckoning: `k` ticks after a resync while playing, the counter is
   * `currentTime + k`, with no clamp at the track's duration.
   */
  lemma {:induction false} ResyncThenTicks(p: Progress, currentTime: real, k: nat)
    ensures Ticks(Rerun(p, true, currentTime), k) == Progress(currentTime + k as real, true)
    decreases k
  {
    if k > 0 {
      ResyncThenTicks(p, currentTime, k - 1);
    }
  }

  /** While paused no interval runs, so any number of ticks leaves the resynced value alone. */
  lemma {:induction false} PausedHoldsValue(p: Progress, currentTime: real, k: nat)
    ensures Ticks(Rerun(p, false, currentTime), k) == Progress(currentTime, false)
    decreases k
  {
    if k > 0 {
      PausedHoldsValue(p, currentTime, k - 1);
    }
  }

  /** After cleanup, ticks change nothing. */
  lemma {:induction false} NoTicksAfterCleanup(p: Progress, k: nat)
    ensures Ticks(Cleanup(p), k) == Cleanup(p)
    decreases k
  {
    if k > 0 {
      NoTicksAfterCleanup(p, k - 1);
    }
  }

  /** Nothing keeps the counter below the duration: one tick at the end of a track overshoots it. */
  lemma OvershootsDuration(duration: real)
    ensures Ticks(Rerun(Unstarted, true, duration), 1).value > duration
  {
  }

  // ---- formatTime ----

  /** `Math.trunc`: rounding toward zero. */
  function Trunc(q: real): int {
    if q >= 0.0 then q.Floor else -((-q).Floor)
  }

  /** JavaScript `a % b`: the remainder of truncating division, with the sign of `a`. */
  function JsRem(a: real, b: real): real
    requires b != 0.0
  {
    a - b * Trunc(a / b) as real
  }

  /**
   * `formatTime(seconds)`: `${floor(s / 60)}:${secs < 10 ? "0" : ""}${floor(s % 60)}`.
   * A minus sign appears exactly for a negative time.
   */
  function FormatTime(seconds: real): (r: string)
    ensures '-' in r <==> seconds < 0.0
  {
    var minutes := (seconds / 60.0).Floor;
    var secs := JsRem(seconds, 60.0).Floor;
    var mText := IntToString(minutes);
    var sText := (if secs < 10 then "0" else "") + IntToString(secs);
    if seconds >= 0.0 then
      ClockFields(seconds);
      NoSign(NatToString(minutes));
      NoSign(NatToString(secs));
      assert '-' !in sText;
      mText + ":" + sText
    else
      assert minutes < 0;
      assert (mText + ":" + sText)[0] == '-';
      mText + ":" + sText
  }

  /** A string of digits holds no minus sign. */
  lemma NoSign(d: string)
    requires AllDigits(d)
    ensures '-' !in d
  {
  }

  /** Reads an `m:ss` clock back as `m * 60 + ss`; `None` for anything else. */
  function ParseClock(t: string): Option<int> {
    var parts := Split(t, ':');
    if |parts| == 2 && |parts[0]| >= 1 && AllDigits(parts[0]) && |parts[1]| == 2 && AllDigits(parts[1])
    then Some(ParseNat(parts[0]) * 60 + ParseNat(parts[1]))
    else None
  }

  /** For a non-negative time the two fields are `⌊s / 60⌋` and a seconds count below 60 that adds up to `⌊s⌋`. */
  lemma ClockFields(s: real)
    requires s >= 0.0
    ensures var m := (s / 60.0).Floor; var secs := JsRem(s, 60.0).Floor;
      m >= 0 && 0 <= secs < 60 && m * 60 + secs == s.Floor
  {
  }

  /**
   * The displayed clock of a non-negative time has a digits-only minutes field
   * holding `⌊s⌋ / 60` and a two-digit seconds field holding `⌊s⌋ mod 60`, so it
   * reads back as the whole number of seconds `⌊s⌋`.
   */
  lemma FormatTimeRoundTrip(s: real)
    requires s >= 0.0
    ensures var parts := Split(FormatTime(s), ':');
      |parts| == 2 && |parts[1]| == 2 && AllDigits(parts[0]) && AllDigits(parts[1])
      && ParseNat(parts[0]) == s.Floor / 60 && ParseNat(parts[1]) == s.Floor % 60
    ensures ParseClock(FormatTime(s)) == Some(s.Floor)
  {
    ClockFields(s);
    var m := (s / 60.0).Floor;
    var secs := JsRem(s, 60.0).Floor;
    DivModUnique(s.Floor, m, secs);
    var mText := NatToString(m);
    var sText := (if secs < 10 then "0" else "") + NatToString(secs);
    assert FormatTime(s) == Join([mText, sText], [':']);
    assert ':' !in mText by { assert AllDigits(mText); }
    assert AllDigits(sText);
    assert ':' !in sText by { assert AllDigits(sText); }
    SplitJoin([mText, sText], ':');
    assert Split(FormatTime(s), ':') == [mText, sText];
    ParseNatToString(m);
    ParseNatToString(secs);
    assert ParseNat(mText) == m;
    if secs < 10 {
      LeadingZero(NatToString(secs));
    }
    assert ParseNat(sText) == secs;
  }

  /** Euclidean division is unique: `n = m·60 + r` with `0 ≤ r < 60` fixes `m` and `r`. */
  lemma DivModUnique(n: int, m: int, r: int)
    requires 0 <= r < 60 && n == m * 60 + r
    ensures m == n / 60 && r == n % 60
  {
  }

  /** Example: a negative time, which the view never passes, renders with a sign in both fields. */
  lemma NegativeTime()
    ensures FormatTime(-5.0) == "-1:0-5"
  {
  }

  // ---- slide menu ----

  const MenuOpen := "w-[300px] transition-all duration-200 ease-in"
  const MenuClosing := "w-0 transition-all duration-200 ease-in"
  const MenuHidden := "hidden"

  /**
   * The menu flag, its current class, and the classes still to be applied by
   * pending 200 ms timeouts, oldest first. Timeouts are never cancelled.
   */
  datatype SlideMenu = SlideMenu(toggled: bool, setting: string, pending: seq<string>)

  /** The class the menu ends on for a flag. */
  function Settled(toggled: bool): string {
    if toggled then MenuOpen else MenuHidden
  }

  /** The effect on `slideMenuToggled`: an immediate class and a delayed one. */
  function MenuEffect(m: SlideMenu): (r: SlideMenu)
    ensures r.toggled == m.toggled
    ensures r.pending == m.pending + [Settled(m.toggled)]
  {
    if m.toggled then m.(setting := "w-0", pending := m.pending + [MenuOpen])
    else m.(setting := MenuClosing, pending := m.pending + [MenuHidden])
  }

  /** Mounting: the initial `'hidden w-0'` class, then the effect's first run. */
  function MountMenu(): (r: SlideMenu)
    ensures !r.toggled && r.setting == MenuClosing && r.pending == [MenuHidden]
  {
    MenuEffect(SlideMenu(false, "hidden w-0", []))
  }

  /** `toggleSlideMenu`: the flag is negated and the effect runs. */
  function ToggleMenu(m: SlideMenu): (r: SlideMenu)
    ensures r.toggled == !m.toggled
    ensures |r.pending| >= 1 && r.pending[|r.pending| - 1] == Settled(r.toggled)
  {
    MenuEffect(m.(toggled := !m.toggled))
  }

  /** The oldest pending timeout fires. */
  function TimeoutFires(m: SlideMenu): SlideMenu {
    if |m.pending| == 0 then m else m.(setting := m.pending[0], pending := m.pending[1..])
  }

  /** Once the latest timeout has fired, the menu shows the class its flag settles on. */
  ghost predicate MenuConsistent(m: SlideMenu) {
    if |m.pending| == 0 then m.setting == Settled(m.toggled)
    else m.pending[|m.pending| - 1] == Settled(m.toggled)
  }

  function FireAll(m: SlideMenu): SlideMenu
    decreases |m.pending|
  {
    if |m.pending| == 0 then m else FireAll(TimeoutFires(m))
  }

  lemma MenuStepsKeepConsistent(m: SlideMenu)
    ensures MenuConsistent(MountMenu())
    ensures MenuConsistent(ToggleMenu(m))
    ensures MenuConsistent(m) ==> MenuConsistent(TimeoutFires(m))
  {
  }

  /**
   * However fast the menu is toggled, once every pending timeout has fired the
   * open menu shows `w-[300px] ...` and the closed one `hidden`.
   */
  lemma {:induction false} MenuSettles(m: SlideMenu)
    requires MenuConsistent(m)
    ensures FireAll(m).toggled == m.toggled && FireAll(m).setting == Settled(m.toggled)
    decreases |m.pending|
  {
    if |m.pending| > 0 {
      MenuStepsKeepConsistent(m);
      MenuSettles(TimeoutFires(m));
    }
  }
}
