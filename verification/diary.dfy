/**
 * The diary form (fe/src/components/Diary.js): the text is cleaned of line
 * feeds before it is sent, and while the request is outstanding a spinner
 * cycles through five gradient colours once per timer tick.
 */
module Diary {
  import opened Wrappers
  import Strings

  /** `diary.replace(/\n/g, " ")`: every line feed becomes a space, nothing else changes. */
  function Clean(s: string): (r: string)
    ensures |r| == |s|
    ensures forall i :: 0 <= i < |s| && s[i] != '\n' ==> r[i] == s[i]
    ensures forall i :: 0 <= i < |s| && s[i] == '\n' ==> r[i] == ' '
    ensures '\n' !in r
    decreases |s|
  {
    if |s| == 0 then ""
    else [if s[0] == '\n' then ' ' else s[0]] + Clean(s[1..])
  }

  /** Cleaning is splitting at line feeds and joining the lines with a space. */
  lemma {:induction false} CleanIsSplitJoin(s: string)
    ensures Clean(s) == Strings.Join(Strings.Split(s, '\n'), " ")
    decreases |s|
  {
    if |s| > 0 {
      var rest := Strings.Split(s[1..], '\n');
      CleanIsSplitJoin(s[1..]);
      if s[0] == '\n' {
        assert Strings.Split(s, '\n') == [""] + rest;
        assert ([""] + rest)[1..] == rest;
      } else {
        var parts := [[s[0]] + rest[0]] + rest[1..];
        assert Strings.Split(s, '\n') == parts;
        if |rest| > 1 {
          assert parts[1..] == rest[1..];
          assert Strings.Join(rest, " ") == rest[0] + " " + Strings.Join(rest[1..], " ");
        }
      }
    }
  }

  /** Text without line feeds is left alone, so cleaning twice is cleaning once. */
  lemma {:induction false} CleanFixesCleanText(s: string)
    requires '\n' !in s
    ensures Clean(s) == s
    decreases |s|
  {
  }

  lemma CleanIdempotent(s: string)
    ensures Clean(Clean(s)) == Clean(s)
  {
  }

  /** The five gradients of the spinner, in cycle order (yellow, red, blue, green, gray). */
  const Colors: seq<string> := [
    "bg-gradient-to-r from-yellow-200 via-white to-yellow-300",
    "bg-gradient-to-r from-red-200 via-white to-red-300",
    "bg-gradient-to-r from-blue-200 via-white to-blue-300",
    "bg-gradient-to-r from-green-200 via-white to-green-300",
    "bg-gradient-to-r from-gray-200 via-white to-gray-300"
  ]

  /** `colors.indexOf(c)`: the first position holding `c`, or -1. */
  function IndexOf(colors: seq<string>, c: string): (i: int)
    ensures -1 <= i < |colors|
    ensures i >= 0 ==> colors[i] == c
    ensures i >= 0 ==> forall j :: 0 <= j < i ==> colors[j] != c
    ensures i == -1 <==> c !in colors
    decreases |colors|
  {
    if |colors| == 0 then -1
    else if colors[0] == c then 0
    else
      var k := IndexOf(colors[1..], c);
      if k == -1 then -1 else k + 1
  }

  /** Pairwise distinct entries. */
  predicate Distinct(colors: seq<string>) {
    forall i, j :: 0 <= i < j < |colors| ==> colors[i] != colors[j]
  }

  /** `colors[(colors.indexOf(prev) + 1) % colors.length]`, for any non-empty list. */
  function NextIn(colors: seq<string>, prev: string): string
    requires |colors| > 0
  {
    colors[(IndexOf(colors, prev) + 1) % |colors|]
  }

  /**
   * The successor the interval callback computes on the five gradients: always
   * one of them, and the first for a colour outside the list.
   */
  function NextColor(prev: string): (r: string)
    ensures r in Colors
    ensures prev !in Colors ==> r == Colors[0]
  {
    NextIn(Colors, prev)
  }

  /** `k` ticks of the timer on any list. */
  function CycleIn(colors: seq<string>, c: string, k: nat): string
    requires |colors| > 0
    decreases k
  {
    if k == 0 then c else NextIn(colors, CycleIn(colors, c, k - 1))
  }

  /** The position after `p` in a cycle of five. */
  function Succ(p: nat): nat
    requires p < 5
  {
    if p == 4 then 0 else p + 1
  }

  /** The position reached from `i` after `k` steps. */
  function Pos(i: nat, k: nat): (p: nat)
    requires i < 5
    ensures p < 5
    decreases k
  {
    if k == 0 then i else Succ(Pos(i, k - 1))
  }

  /** Stepping k times around five positions is adding k modulo 5. */
  lemma {:induction false} PosIsMod(i: nat, k: nat)
    requires i < 5
    ensures Pos(i, k) == (i + k) % 5
    decreases k
  {
    if k > 0 {
      PosIsMod(i, k - 1);
    }
  }

  /** In a list of distinct entries, the successor is the next entry, wrapping from the last to the first. */
  lemma NextInListed(colors: seq<string>, i: nat)
    requires Distinct(colors) && |colors| == 5 && i < 5
    ensures NextIn(colors, colors[i]) == colors[Succ(i)]
  {
  }

  /** From the i-th of five distinct entries, k ticks land on entry (i + k) mod 5. */
  lemma {:induction false} CycleInListed(colors: seq<string>, i: nat, k: nat)
    requires Distinct(colors) && |colors| == 5 && i < 5
    ensures CycleIn(colors, colors[i], k) == colors[Pos(i, k)]
    decreases k
  {
    if k > 0 {
      CycleInListed(colors, i, k - 1);
      var p := Pos(i, k - 1);
      NextInListed(colors, p);
      assert CycleIn(colors, colors[i], k) == NextIn(colors, colors[p]);
    }
  }

  /** k + 1 ticks from `c` are k ticks from its successor. */
  lemma {:induction false} CycleShift(colors: seq<string>, c: string, k: nat)
    requires |colors| > 0
    ensures CycleIn(colors, c, k + 1) == CycleIn(colors, NextIn(colors, c), k)
    decreases k
  {
    if k > 0 {
      CycleShift(colors, c, k - 1);
    }
  }

  /** From an entry outside a list of five, the first tick enters the cycle at its start. */
  lemma CycleInUnlisted(colors: seq<string>, c: string, k: nat)
    requires Distinct(colors) && |colors| == 5 && c !in colors
    ensures CycleIn(colors, c, k + 1) == colors[Pos(0, k)]
  {
    assert IndexOf(colors, c) + 1 == 0;
    assert NextIn(colors, c) == colors[0];
    CycleShift(colors, c, k);
    CycleInListed(colors, 0, k);
  }

  /** Five steps come back to the start, fewer never do. */
  lemma PosPeriod(i: nat, k: nat)
    requires i < 5
    ensures Pos(i, 5) == i
    ensures 0 < k < 5 ==> Pos(i, k) != i
  {
  }

  /** The colour strings differ pairwise (at the colour word after "from-"). */
  lemma ColorsDistinct()
    ensures |Colors| == 5 && Distinct(Colors)
  {
  }

  /** Inside the list the successor is the next gradient, gray wrapping to yellow. */
  lemma NextOfListed(i: nat)
    requires i < 5
    ensures NextColor(Colors[i]) == Colors[(i + 1) % 5]
  {
    ColorsDistinct();
    NextInListed(Colors, i);
    PosIsMod(i, 1);
  }

  /** A colour outside the list (index -1) is followed by the first, yellow. */
  lemma NextOfUnlisted(c: string)
    requires c !in Colors
    ensures NextColor(c) == Colors[0]
  {
  }

  /** `k` ticks of the colour timer. */
  function Cycle(c: string, k: nat): string {
    CycleIn(Colors, c, k)
  }

  /** Starting from the i-th gradient, k ticks land on gradient Pos(i, k), that is (i + k) mod 5. */
  lemma CycleFromListed(i: nat, k: nat)
    requires i < 5
    ensures Cycle(Colors[i], k) == Colors[Pos(i, k)]
  {
    ColorsDistinct();
    CycleInListed(Colors, i, k);
  }

  /** The cycle has period exactly 5: five ticks come back, fewer never do. */
  lemma CyclePeriod(i: nat, k: nat)
    requires i < 5
    ensures Cycle(Colors[i], 5) == Colors[i]
    ensures 0 < k < 5 ==> Cycle(Colors[i], k) != Colors[i]
  {
    ColorsDistinct();
    CycleInListed(Colors, i, 5);
    CycleInListed(Colors, i, k);
    PosPeriod(i, k);
  }

  /** From a colour outside the list, tick k + 1 shows gradient Pos(0, k), that is k mod 5. */
  lemma CycleFromUnlisted(c: string, k: nat)
    requires c !in Colors
    ensures Cycle(c, k + 1) == Colors[Pos(0, k)]
  {
    ColorsDistinct();
    CycleInUnlisted(Colors, c, k);
  }

  /** The form's state: the two inputs, the loading flag, the spinner colour and whether the colour timer runs. */
  datatype Form = Form(diary: string, title: string, isLoading: bool, bgColor: string, timerRunning: bool)

  /** A freshly mounted form: not loading, yellow, no timer. */
  function Mount(): (f: Form)
    ensures !f.isLoading && !f.timerRunning && f.diary == "" && f.title == ""
    ensures NextColor(f.bgColor) == Colors[1]
  {
    NextOfListed(0);
    Form("", "", false, Colors[0], false)
  }

  /** The request the submit handler hands to `onCreatePlaylist`. */
  datatype Request = CreatePlaylist(diary: string, title: string)

  datatype Submission = Submission(form: Form, request: Request)

  /**
   * A click on the submit button. The button is disabled while loading, so
   * a click then does nothing; otherwise loading starts, the colour timer
   * starts, and the cleaned diary is sent with the title.
   */
  function Submit(f: Form): (r: Option<Submission>)
    ensures r.None? <==> f.isLoading
    ensures r.Some? ==> r.value.form.isLoading && r.value.form.timerRunning
    ensures r.Some? ==> r.value.form.bgColor == f.bgColor
    ensures r.Some? ==> r.value.form.diary == f.diary && r.value.form.title == f.title
    ensures r.Some? ==> r.value.request.title == f.title && '\n' !in r.value.request.diary
    ensures r.Some? ==> r.value.request.diary == Strings.Join(Strings.Split(f.diary, '\n'), " ")
  {
    if f.isLoading then None
    else
      CleanIsSplitJoin(f.diary);
      Some(Submission(f.(isLoading := true, timerRunning := true), CreatePlaylist(Clean(f.diary), f.title)))
  }

  /** How the awaited `onCreatePlaylist` call ends. */
  datatype Outcome = Resolved | Rejected

  datatype Settled = Settled(form: Form, navigateTo: Option<string>)

  /**
   * The end of the submit handler: on success it navigates to the loading
   * page and leaves the timer running; on a rejection it clears the loading
   * flag and the timer and stays.
   */
  function Settle(f: Form, outcome: Outcome): (r: Settled)
    ensures r.navigateTo.Some? <==> outcome == Resolved
    ensures r.navigateTo.Some? ==> r.navigateTo.value == "/loading" && r.form == f
    ensures outcome == Rejected ==> !r.form.isLoading && !r.form.timerRunning
    ensures r.form.bgColor == f.bgColor && r.form.diary == f.diary && r.form.title == f.title
  {
    match outcome
    case Resolved => Settled(f, Some("/loading"))
    case Rejected => Settled(f.(isLoading := false, timerRunning := false), None)
  }

  /** One second passes: a running timer advances the colour. */
  function Tick(f: Form): (r: Form)
    ensures r.bgColor == (if f.timerRunning then NextColor(f.bgColor) else f.bgColor)
    ensures r.(bgColor := f.bgColor) == f
  {
    if f.timerRunning then f.(bgColor := NextColor(f.bgColor)) else f
  }

  function Ticks(f: Form, k: nat): Form
    decreases k
  {
    if k == 0 then f else Tick(Ticks(f, k - 1))
  }

  /** While the timer runs, k ticks advance the colour as k steps of the cycle and change nothing else. */
  lemma {:induction false} TicksCycle(f: Form, k: nat)
    ensures Ticks(f, k).(bgColor := f.bgColor) == f
    ensures f.timerRunning ==> Ticks(f, k).bgColor == Cycle(f.bgColor, k)
    ensures !f.timerRunning ==> Ticks(f, k) == f
    decreases k
  {
    if k > 0 {
      TicksCycle(f, k - 1);
    }
  }

  /**
   * While `onCreatePlaylist` is awaited, the spinner of a fresh form cycles:
   * after k seconds it shows gradient Pos(0, k), that is k mod 5.
   */
  lemma SpinnerWhileWaiting(k: nat)
    ensures Submit(Mount()).Some?
    ensures Ticks(Submit(Mount()).value.form, k).bgColor == Colors[Pos(0, k)]
  {
    TicksCycle(Submit(Mount()).value.form, k);
    CycleFromListed(0, k);
  }

  /**
   * A submission rejected after any wait leaves a form that is editable again
   * and whose colour stays where the spinner was.
   */
  lemma RejectedSubmitStops(f: Form, wait: nat, k: nat)
    requires !f.isLoading
    ensures Submit(f).Some?
    ensures var waiting := Ticks(Submit(f).value.form, wait);
      var settled := Settle(waiting, Rejected);
      settled.navigateTo.None? && !settled.form.isLoading && !settled.form.timerRunning
      && Ticks(settled.form, k).bgColor == waiting.bgColor
  {
    var waiting := Ticks(Submit(f).value.form, wait);
    TicksCycle(Submit(f).value.form, wait);
    TicksCycle(Settle(waiting, Rejected).form, k);
  }

  /**
   * A submission that succeeds navigates to `/loading` without clearing the
   * colour interval: it is never cleared, although the route change unmounts
   * the form.
   */
  lemma ResolvedSubmitLeaksTimer(f: Form, wait: nat)
    requires !f.isLoading
    ensures Submit(f).Some?
    ensures var settled := Settle(Ticks(Submit(f).value.form, wait), Resolved);
      settled.navigateTo == Some("/loading") && settled.form.timerRunning
  {
    TicksCycle(Submit(f).value.form, wait);
  }
}
