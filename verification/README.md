# InsideOutDJ: the deterministic core, in Dafny

InsideOutDJ turns a diary entry into a music playlist. The backend scores each
sentence of the diary for valence and arousal. It averages the scores into an
emotion point, classifies that point into a quadrant and an intensity band, and
picks the 20 tracks most similar to the diary's keywords. The React front end
signs in with the vendor's implicit grant and plays the playlist through the
vendor's playback SDK. It shows a progress counter, a seek bar and colour-coded
lists of saved playlists.

This project models the decision functions and state-step rules of that system:

- `Auth`: the access-token extraction from the redirect fragment, as in section 4.2.2 of RFC 6749, and logout.
- `Playback`: the playback-state record and its SDK notification and transport handlers.
- `Player`: the progress counter's effect, `formatTime`, and the slide-menu classes.
- `Session`: the App and Player views as one event-driven machine. Ticks, notifications, seeks and transport actions are explicit events.
- `SeekSlider`: bar-width snapping, the proportional width, and the colour tables. It also covers the seek input's forwarding, which is the one finding.
- `MenuSlide`, `PlaylistsPage`, `Ui`: the emotion colour and label variants, and the playlist click handler.
- `EmotionCompare`: the exact agreement and disagreement regions of the four emotion classifiers.
- `Diary`: newline cleaning, the five-colour spinner cycle, and the loading and error states of a submission.
- `ModelLib`: the backend's score mapping and paragraph mean. Also the quadrant, intensity bands, row filters, comment table and top-20 cut.
- `Backup`: the older, unrouted copy of the app. It has the same token parse, and its own playlist-button guards.
- `Strings`, `Digits`, `Wrappers`: JavaScript `split`/`join`/`startsWith`, decimal rendering, and `Option`.

JavaScript and Python semantics are spelled out wherever they decide a result:

- `undefined` and `null` are distinct values, and truthiness is modelled.
- `find` can give `undefined`, and calling `.split` on it throws. The model returns `None` for that case.
- Values are stringified when stored in `localStorage`.
- `%` keeps the sign of its left operand, unlike Dafny's Euclidean `%`.
- `+` concatenates when one side is a string.
- React skips a state update to an equal value.
- A Python dict lookup raises KeyError, and `.iloc[0]` on no rows raises IndexError.

Two things a reader might expect are not in the code:

- The progress counter is not clamped to the duration (`Player.OvershootsDuration`).
- Nothing resets the counter to 0 on a track or playlist change. It only resyncs to `currentTime` whenever App re-renders (`Session.Step`), and the playlist name changes on the diary route, where the player view is not mounted.

## Model

| member | source | states |
|---|---|---|
| `Auth.ValueOf` | fe/src/App.js:41 | `split("=")[1]` is never `null`; a string result holds no `=`, so the value stops at the next `=` |
| `Auth.ParseFragment` | fe/src/App.js:37-41 | The parse throws exactly when no `&`-segment after the first character starts with `access_token`. Otherwise the token comes from the first such segment and is never `null` |
| `Auth.TokenEffect` | fe/src/App.js:32-46 | A stored non-empty token wins and nothing is touched. An empty fragment is never parsed. The effect throws exactly when the stored token is falsy, the fragment is non-empty and no segment matches. When a segment matches, the parsed token is set, persisted as its string form, and the fragment is cleared |
| `Auth.RerunIsNoOp` | fe/src/App.js:34-45 | A second run after a successful first run neither parses nor throws and changes nothing. The one exception: a persisted `undefined` reads back as the string "undefined" |
| `Auth.ExtractsValue` | fe/src/App.js:37-41 | Take a fragment `#s1&…&sn` whose first `access_token` segment is `access_token=V`, optionally followed by `=…`. The token is exactly V, with no percent-decoding, whatever the other segments hold |
| `Auth.SegmentValue` | fe/src/App.js:41 | The value of `access_token=V` followed by nothing or by `=…` is V |
| `Auth.Logout` | fe/src/App.js:154-157 | After logout the token is falsy and the storage key is gone |
| `Auth.LogoutThenReload` | fe/src/App.js:32-50 | After logout, a reload with no fragment finds no token, so the player-SDK effect returns early |
| `Auth.StartsPlayerSdk` | fe/src/App.js:32-50 | The SDK effect proceeds only for a truthy token: never for `null` or `undefined`, and a token that starts it is persisted so that every reload, whatever the fragment, restores it unchanged |
| `Auth.FreshLoginStartsSdk` | fe/src/App.js:32-50 | With no usable stored token, a fragment whose first `access_token` segment holds a non-empty V stores V, clears the fragment and starts the SDK |
| `Auth.BareKeyParses` | fe/src/App.js:37-41 | Example: a segment that is exactly `access_token`, with no `=`, parses to `undefined` instead of throwing |
| `Auth.BareKeyPersistsUndefined` | fe/src/App.js:36-45 | That `undefined` is persisted as the string "undefined". On reload it is a truthy token that starts the SDK |
| `Playback.OnStateChanged` | fe/src/App.js:83-99 | A null notification changes nothing. Otherwise: `isPlaying` is `!paused`; `currentTime` and `duration` are the milliseconds divided by 1000; the track name is copied; the album is the image URLs in order, one per image |
| `Playback.ArtistsReadBack` | fe/src/App.js:96 | With comma-free names, the `", "`-joined artists text splits on `,` back into the artist names in order: the first one, then each later one behind one space |
| `Playback.TogglePlayPause` | fe/src/App.js:164-190 | Only `isPlaying` ever changes. With no player there are no SDK calls. With no state or a rejected query, only the state query is made. A paused state resumes, a playing state pauses. `isPlaying` changes only when that command succeeds, and it becomes the old `paused` |
| `Playback.ToggleTwiceRestores` | fe/src/App.js:178-186 | When the SDK agrees with the view, two successful toggles return to the starting state |
| `Playback.SeekTo` | fe/src/App.js:313-319 | It throws exactly when there is no player. Otherwise `currentTime` becomes exactly `p`, unclamped, nothing else changes, and the SDK is asked to seek to p·1000 ms |
| `Playback.PlayPlaylist` | fe/src/App.js:210-239 | No request is sent exactly when the device id is null or empty. Otherwise the request goes to that device with a context URI of `spotify:playlist:` followed by the id, and the id reads back from it |
| `Player.ResyncThenTicks` | fe/src/components/Player.js:70-82 | Each effect run resets the counter to `currentTime`; k ticks later while playing it reads `currentTime + k` |
| `Player.PausedHoldsValue` | fe/src/components/Player.js:72-80 | While paused, ticks leave the counter at the resynced value |
| `Player.NoTicksAfterCleanup` | fe/src/components/Player.js:81 | After the cleanup clears the interval, ticks change nothing, the value included |
| `Player.OvershootsDuration` | fe/src/components/Player.js:74-77 | Nothing clamps the counter: one tick after a resync at the end of the track, the counter passes the duration |
| `Player.ClockFields` | fe/src/components/Player.js:84-88 | For s ≥ 0: minutes are ⌊s/60⌋; seconds are ⌊s mod 60⌋, below 60; minutes·60 + seconds = ⌊s⌋ |
| `Player.FormatTime` | fe/src/components/Player.js:84-88 | A minus sign appears in the clock text exactly when the time is negative |
| `Player.FormatTimeRoundTrip` | fe/src/components/Player.js:84-88 | For s ≥ 0 the text splits at `:` into a digits-only field reading ⌊s⌋ div 60 and a two-digit field reading ⌊s⌋ mod 60, so `m·60 + ss` gives back ⌊s⌋ |
| `Player.NegativeTime` | fe/src/components/Player.js:84-88 | Example: a negative time renders with a sign in both fields: −5 s is "-1:0-5" |
| `Player.MenuEffect` | fe/src/components/Player.js:100-114 | The effect keeps the flag and queues the class that the flag settles on: the open width, or `hidden` |
| `Player.MountMenu` | fe/src/components/Player.js:92-114 | On mount the menu is closed, shows the closing class, and has a pending `hidden` |
| `Player.ToggleMenu` | fe/src/components/Player.js:96-98 | A toggle negates the flag, and the last pending class is the one the new flag settles on |
| `Player.MenuStepsKeepConsistent` | fe/src/components/Player.js:100-114 | Mount, toggle and a firing timeout all keep this rule: with nothing pending, the menu shows the class its flag settles on |
| `Player.MenuSettles` | fe/src/components/Player.js:100-114 | After any toggles, once every timeout has fired, an open menu shows the 300 px class and a closed one shows `hidden` |
| `Session.Requests` | fe/src/App.js:164-208 | Without a player no event makes an SDK request |
| `Session.Step` | fe/src/components/Player.js:70-82 | Only `Connected` installs the player, and it stays; only `Unmount` unmounts, for good; only a notification, a toggle or a seek changes the App state; apart from a tick or the unmount cleanup, the counter only changes by resyncing to the App time, with an interval exactly when playing |
| `Session.Run` | fe/src/components/Player.js:70-82 | After any events the player is present exactly if it was or a `Connected` came, and the view is mounted exactly if it was and no `Unmount` came |
| `Session.StartIsSynced` | fe/src/components/Player.js:61-82 | The mounted view starts in sync: paused, the counter is at `currentTime`, and no interval runs |
| `Session.StepKeepsSynced` | fe/src/components/Player.js:70-82 | Every event keeps the dead-reckoning rule. Paused, the counter equals `currentTime`. Playing, it is `currentTime` plus whole ticks and an interval runs. Unmounted, no interval runs |
| `Session.RunKeepsSynced` | fe/src/components/Player.js:70-82 | The rule holds after any sequence of events |
| `Session.RunTicks` | fe/src/components/Player.js:75-77 | Ticks move only the counter |
| `Session.NotifyResyncs` | fe/src/App.js:83-99 | A non-null notification resyncs the counter to the reported position, however many ticks came before |
| `Session.NullNotifyIsIgnored` | fe/src/App.js:85-87 | A null notification changes nothing, the counter included |
| `Session.TicksAfterSeek` | fe/src/App.js:313-319 | Seeking to a new time while playing makes the counter read p + k after k ticks. The SDK is asked to seek to p·1000 ms |
| `Session.SeekToSameTimeKeepsDrift` | fe/src/App.js:318 | A seek to the time already stored sets no new state, so the counter keeps its drift |
| `Session.NoPlayerNoEffect` | fe/src/App.js:164-208 | Without a player, toggle, seek, skip and volume change no state and request nothing; the seek throws before any state update |
| `Session.TransportWithPlayer` | fe/src/App.js:191-208 | With a player, skip next, skip previous and a volume change each make exactly one SDK request, the volume unclamped, and set no App state, so the counter keeps its drift |
| `Session.NoTicksAfterUnmount` | fe/src/components/Player.js:81 | After the view unmounts, ticks never move the counter |
| `SeekSlider.BarWidthGap` | fe/src/components/SeekSlider.js:10-15 | The bar is hidden (width 0) or at least 13 px wide, never a sliver in between |
| `SeekSlider.BarWidthMonotone` | fe/src/components/SeekSlider.js:10-15 | A wider slider never gives a narrower bar |
| `SeekSlider.BarWidthIdempotent` | fe/src/components/SeekSlider.js:10-15 | Snapping twice is snapping once |
| `SeekSlider.BarNearThumb` | fe/src/components/SeekSlider.js:10-16 | The bar's end is within 9 px below and 4 px above the thumb, which sits at the unsnapped width |
| `SeekSlider.SliderWidth` | fe/src/components/SeekSlider.js:20 | The width is not finite exactly when the duration is 0. Otherwise width·duration = progress·fullWidth |
| `SeekSlider.SliderWidthBounded` | fe/src/components/SeekSlider.js:20 | For progress within [0, duration] and duration > 0, the width lies in [0, fullWidth] |
| `SeekSlider.SliderEffect` | fe/src/components/SeekSlider.js:18-22 | Before the full-width element is mounted the old width stays. Once measured, the width is non-finite exactly at duration 0, and a progress within [0, duration] keeps it within [0, full width] |
| `SeekSlider.GrayHasNoBar` | fe/src/components/SeekSlider.js:26-52 | The stroke table has exactly one key more than the bar table, `gray`, so looking gray up gives a stroke class but `undefined` for the bar |
| `SeekSlider.SeekArgAsWritten` | fe/src/components/SeekSlider.js:68-70 | The input forwards its value as the decimal string of the chosen step |
| `SeekSlider.SeekStringConcatenates` | fe/src/components/SeekSlider.js:68-70 | As written, one tick after a seek to any step the counter is the step's digits followed by "1", which reads as 10·step + 1 and differs from step + 1 for every step but 0 (42 gives "421") |
| `SeekSlider.SeekArg` | fe/src/components/SeekSlider.js:63-70 | Corrected forwarding: a number within [0, duration] whose floor is the step |
| `SeekSlider.SeekArgThenTicks` | fe/src/components/SeekSlider.js:63-70 | With numeric forwarding, k ticks after a seek to a new step the counter reads step + k |
| `Ui.PlaylistsUrl` | fe/src/components/MenuSlide.js:48-55 | No fetch happens exactly when there is no user. Otherwise the URL is the backend's users path, the user id, then `/playlists/` |
| `MenuSlide.EmotionColor` | fe/src/components/MenuSlide.js:35-46 | Each colour, in both directions: yellow iff x>0 ∧ y≥0; red iff x<0 ∧ y>0; blue iff x<0 ∧ y≤0; green iff x>0 ∧ y<0; gray iff x=0 |
| `MenuSlide.OnPlaylistClick` | fe/src/components/MenuSlide.js:65-70 | A click stores the name, passes the colour name of the point (yellow iff x>0 ∧ y≥0, red iff x<0 ∧ y>0, blue iff x<0 ∧ y≤0, green iff x>0 ∧ y<0, gray iff x=0), plays the id, then navigates to `/player` |
| `PlaylistsPage.EmotionLabel` | fe/src/components/PlaylistsPage.js:74-80 | Strict signs give the four moods, and Neutral holds exactly when x = 0 or y = 0 |
| `PlaylistsPage.EmotionColor` | fe/src/components/PlaylistsPage.js:82-93 | Zero counts as non-negative on both axes, so each colour covers a closed region and the gray fallback is never returned |
| `PlaylistsPage.OnPlaylistClick` | fe/src/components/PlaylistsPage.js:111-120 | A click stores the name, passes the point's quadrant class (yellow iff x≥0 ∧ y≥0, red iff x<0 ∧ y≥0, blue iff x<0 ∧ y<0, green iff x≥0 ∧ y<0), never the gray class nor a label text, plays the id, then navigates to `/player` |
| `EmotionCompare.AgreeOffAxes` | be/model_lib.py:89-97 | Off both axes, all four classifiers give the open-quadrant mood |
| `EmotionCompare.LabelIsReference` | fe/src/components/PlaylistsPage.js:74-80 | The list label is exactly the reference: the quadrant mood off the axes, and none on them |
| `EmotionCompare.Coverage` | fe/src/components/PlaylistsPage.js:82-93 | The list colour and the backend quadrant give a mood everywhere. The menu colour gives none exactly on the y axis |
| `EmotionCompare.LabelVsPage` | fe/src/components/PlaylistsPage.js:74-93 | The list label and list colour agree iff x ≠ 0 ∧ y ≠ 0. For example, (0, 5) is Neutral but yellow |
| `EmotionCompare.PageVsMenu` | fe/src/components/MenuSlide.js:35-46 | The list colour and menu colour agree iff x > 0, or x < 0 ∧ y ≠ 0. For example, (−1, 0) is red in the list and blue in the menu |
| `EmotionCompare.MenuVsLabel` | fe/src/components/MenuSlide.js:35-46 | The menu colour and list label agree iff x = 0 or y ≠ 0 |
| `EmotionCompare.BackendVsPage` | be/model_lib.py:89-97 | The backend quadrant and list colour agree except on the negative x half-axis |
| `EmotionCompare.BackendVsMenu` | be/model_lib.py:89-97 | The backend quadrant and menu colour agree iff x ≠ 0 |
| `EmotionCompare.BackendVsLabel` | be/model_lib.py:89-97 | The backend quadrant and list label agree iff x ≠ 0 ∧ y ≠ 0 |
| `Diary.Clean` | fe/src/components/Diary.js:108 | The length is kept. Every line feed becomes a space and every other character, `\r` included, is unchanged. The result holds no line feed |
| `Diary.CleanIsSplitJoin` | fe/src/components/Diary.js:108 | Cleaning equals splitting at line feeds and joining the lines with a space |
| `Diary.CleanFixesCleanText` | fe/src/components/Diary.js:108 | Text without line feeds is left as it is |
| `Diary.CleanIdempotent` | fe/src/components/Diary.js:108 | Cleaning twice is cleaning once |
| `Diary.IndexOf` | fe/src/components/Diary.js:118 | `indexOf` gives the first position holding the colour, or −1 exactly when the colour is absent |
| `Diary.NextColor` | fe/src/components/Diary.js:110-120 | The interval's successor is always one of the five gradients, and the first one for a colour outside the list |
| `Diary.ColorsDistinct` | fe/src/components/Diary.js:111-117 | The five gradients are pairwise different |
| `Diary.NextOfListed` | fe/src/components/Diary.js:118-120 | The successor of the i-th gradient is gradient (i+1) mod 5 |
| `Diary.NextOfUnlisted` | fe/src/components/Diary.js:118-120 | A colour not in the list, with index −1, is followed by the first gradient |
| `Diary.PosIsMod` | fe/src/components/Diary.js:119 | Stepping k times around five positions is adding k mod 5 |
| `Diary.CycleFromListed` | fe/src/components/Diary.js:109-121 | From gradient i, k ticks land on gradient (i + k) mod 5 |
| `Diary.CyclePeriod` | fe/src/components/Diary.js:109-121 | The cycle has period exactly 5: five ticks return, and one to four never do |
| `Diary.CycleFromUnlisted` | fe/src/components/Diary.js:118-120 | From a colour outside the list, tick k + 1 shows gradient k mod 5 |
| `Diary.Mount` | fe/src/components/Diary.js:98-103 | A fresh form is not loading, runs no timer, and shows the first gradient, so the first tick gives the second |
| `Diary.Submit` | fe/src/components/Diary.js:106-124 | While loading, a click does nothing, because the button is disabled. Otherwise loading starts, the timer starts, and the colour and inputs are kept. The request carries the title and the diary split at line feeds and joined with spaces |
| `Diary.TicksCycle` | fe/src/components/Diary.js:109-122 | With the timer running, k ticks are k steps of the colour cycle and nothing else changes. Without it they change nothing |
| `Diary.RejectedSubmitStops` | fe/src/components/Diary.js:106-130 | A submission rejected after any wait does not navigate, ends loading, clears the timer, and leaves the colour where the spinner was |
| `Diary.SpinnerWhileWaiting` | fe/src/components/Diary.js:106-122 | While the request of a fresh form is awaited, second k shows gradient k mod 5 |
| `Diary.ResolvedSubmitLeaksTimer` | fe/src/components/Diary.js:106-125 | A submission resolved after any wait navigates to `/loading` and never clears the colour interval |
| `ModelLib.ClassScore` | be/model_lib.py:63-64 | Classes 0, 1, 2 map to −1, 0, 1. Any other class is a KeyError |
| `ModelLib.TotalsBounded` | be/model_lib.py:76-79 | Summed over n scored sentences, each total lies in [−n, n] |
| `ModelLib.ParagraphEmotion` | be/model_lib.py:68-87 | A paragraph with no sentences is a ZeroDivisionError. Otherwise each component times the sentence count is that component's total, and both components lie in [−1, 1] |
| `ModelLib.UniformParagraph` | be/model_lib.py:68-87 | If every sentence has the same score, the paragraph's emotion is that score |
| `ModelLib.Quadrant` | be/model_lib.py:89-97 | The quadrant is 1..4, each in both directions: 1 iff x≥0 ∧ y≥0; 2 iff x<0 ∧ y>0; 3 iff x<0 ∧ y≤0; 4 iff x≥0 ∧ y<0 |
| `ModelLib.IntensityBand` | be/model_lib.py:102-110 | The band is neutral up to 0.19, low up to 0.41, medium up to 0.64, and high beyond, each in both directions |
| `ModelLib.BandMonotone` | be/model_lib.py:102-110 | A farther point is never in a weaker band |
| `ModelLib.BandWithoutSqrt` | be/model_lib.py:99-110 | The band of the Euclidean distance equals the band read off the squared distance against the squared thresholds |
| `ModelLib.Filter` | be/model_lib.py:113 | `df[mask]` keeps only rows that satisfy the mask, in table order, and every satisfying row |
| `ModelLib.FilterCounts` | be/model_lib.py:113 | Each row satisfying the mask occurs in the result as often as in the table, and no other row occurs |
| `ModelLib.FilterByIntensity` | be/model_lib.py:102-115 | Both branches filter alike: the result holds, in table order, only and all the rows labelled with the distance's band |
| `ModelLib.FilterTwice` | be/model_lib.py:118-126 | Filtering by band and then by quadrant is one filter by both |
| `ModelLib.SongsFor` | be/model_lib.py:118-126 | The result is rows of the point's band, in order. Beyond 0.19 they are further restricted to the point's quadrant, and every qualifying row is kept |
| `ModelLib.SongsForCounts` | be/model_lib.py:118-126 | A qualifying row occurs in the songs as often as in the table, duplicates included; any other row never occurs |
| `ModelLib.NeutralIgnoresQuadrant` | be/model_lib.py:118-126 | In the neutral band every point gets the same rows, whatever its quadrant |
| `ModelLib.CommentFor` | be/model_lib.py:157-177 | The comment is the neutral comment for "neutral", the table's entry for a known (quadrant, band), and the default otherwise |
| `ModelLib.CommentsDistinct` | be/model_lib.py:158-172 | Different table keys carry different comments, and none of them is the neutral or the default comment |
| `ModelLib.ResponseIntensity` | be/model_lib.py:208 | This is an IndexError exactly when no table row has the point's band label; otherwise the result is that label |
| `ModelLib.ResponseComment` | be/model_lib.py:206-210 | When the table has a row of the point's band, the response's comment is the neutral comment in the neutral band. Otherwise it is the entry for the point's quadrant and band. It is never the default comment |
| `ModelLib.Insert` | be/model_lib.py:202 | Inserting into a list sorted by similarity keeps it sorted and adds exactly that row |
| `ModelLib.SortBySimilarity` | be/model_lib.py:202 | The result is sorted by non-increasing similarity and is a permutation of the rows |
| `ModelLib.TopSongs` | be/model_lib.py:202 | The result has min(20, n) rows, sorted, drawn from the input, and each is at least as similar as every row left out |
| `ModelLib.TopOfSorted` | be/model_lib.py:202 | Any prefix of a sorted permutation is sorted, drawn from the rows, and dominates the rest |
| `ModelLib.PrefixDominates` | be/model_lib.py:202 | In a sorted list every row of a prefix is at least as similar as every later row |
| `Backup.MountEffect` | fe/app_backup.js:39-85 | Throws, and otherwise leaves token, storage and fragment, exactly as the routed app's effect. It installs the SDK hook exactly when the token is truthy |
| `Backup.EmptyTokenHooksNothing` | fe/app_backup.js:43-54 | The fragment `#access_token=` stores the empty string and installs no hook |
| `Backup.LogoutThenMount` | fe/app_backup.js:109-112 | Logout reruns the token effect, which now finds a `null` token and installs no hook |
| `Backup.CreateThenEdit` | fe/app_backup.js:113-168 | From the initial empty key, a named create answered with an id makes edit insert the fixed tracks into that playlist; a cancelled or empty name sends nothing and edit still alerts |
| `Backup.TrackUris` | fe/app_backup.js:156-159 | One URI per id, in order, each `spotify:track:` followed by the id |
| `Backup.TrackIdsOfUris` | fe/app_backup.js:156-159 | Stripping the prefix gives back the ids in order |
| `Backup.TrackUrisInjective` | fe/app_backup.js:156-159 | Different id lists give different URI lists |
| `Backup.EditPlaylist` | fe/app_backup.js:150-168 | With an empty playlist key it alerts and sends nothing. Otherwise it inserts at position 0 of that playlist exactly the two fixed tracks, each as `spotify:track:` followed by its id |
| `Backup.EditBeforeCreateAlerts` | fe/app_backup.js:150-154 | Example: an edit before any playlist is created alerts |
| `Backup.PlayButtonMatchesApp` | fe/app_backup.js:294 | The play button's `spotify:playlist:` prefix makes the backup's request, guard included, equal to the routed app's `playPlaylist` for the same key |
| `Backup.PlayBeforeReadySendsNothing` | fe/app_backup.js:206-209 | Example: before the SDK reports a device, a play click sends nothing |

## Left out

- HTTP traffic is not modelled: the vendor API, the backend, `transferPlaybackToDevice`, and the `onCreatePlaylist` chain in fe/src/App.js:127-147 and 241-310. The chain builds the same track URIs as `Backup.TrackUris` (fe/src/App.js:273-276). The model keeps only the guards that decide whether a request is made. Each awaited call is a parameter: `Diary.Outcome`, `Playback.StateReply`, and the `commandOk` flag.
- SDK script injection, the player constructor, `connect`, and the global SDK-ready hook are not modelled; they are vendor plumbing. `Session` has a `Connected` event, and `Backup.MountEffect` records only whether the hook is installed.
- Timers are not modelled as clocks: `setInterval` and `setTimeout` become explicit tick and timeout-firing steps.
- The backend's learning pipeline is out: the models, tokeniser, sentence splitting, stopwords, keyword embedding, cosine similarity, CSV reading, and be/main.py. These are foreign libraries. Sentence scores and similarities are inputs.
- `ModelLib.ParagraphEmotion`: the rounding to two places (be/model_lib.py:86) is not applied, so the bounds are stated for the exact mean.
- `ModelLib.SongsFor`: the Euclidean distance is supplied by the caller with d ≥ 0 and d² = x² + y², instead of computed with `np.sqrt`.
- `ModelLib.SortBySimilarity`: pandas' default sort is not stable. The contract fixes only the order of similarities and the permutation, not the order of ties.
- Floating point is `real`: NaN and infinities are absent. The one non-finite case, a slider width at duration 0, is `None`.
- `Player.FormatTimeRoundTrip`: JavaScript renders very large numbers with an exponent, and the contract assumes plain decimal rendering.
- `Playback.SetVolume`: the volume slider passes its value as a string (fe/src/components/Player.js:478). The model passes a number, because the SDK's coercion is not visible here.
- Track switching: the counter is never reset to 0. It resyncs whenever App re-renders, because fresh `skipToNext`/`skipToPrevious` callbacks are dependencies of the progress effect (fe/src/components/Player.js:82), and that resync is what `Session.Step` models.
- The backup's toggle, skip and volume handlers (fe/app_backup.js:242-273) have no player guard. They only call into the SDK, so they are not modelled.
- `Diary.ResolvedSubmitLeaksTimer`: `navigate("/loading")` changes the route, and fe/src/routes.js:13-17 then unmounts the diary form. The model keeps the unmounted form only to show that its interval is never cleared; the colour it goes on computing is never displayed.
- `Diary.Settle`: an error from `onCreatePlaylist` is modelled as a parameter. In the routed app that handler catches its own errors (fe/src/App.js:306-309), so the rejected branch is reached only if it is given a throwing handler.
- Presentation-only code is not modelled: Login.js, Loading.js, MarqueeWall.js, routes.js, tailwind.config.js, and the JSX markup. Player.js's colour is fixed to `violet` (fe/src/components/Player.js:118), so the emotion passed by a playlist click never reaches the seek-bar colour tables.

## Findings

| source | as written | input that shows it | evidently intended | confidence | as-written member | corrected member |
|---|---|---|---|---|---|---|
| fe/src/components/SeekSlider.js:68-70 | The range input forwards `e.target.value`, a string. `seekTo` stores it as `currentTime`, the progress effect resyncs to it, and the one-second tick computes `prevValue + 1` as string concatenation | Seek to 42 while playing, with no SDK state notification in the next second: the counter reads "421" instead of 43 | Forward the value as a number, so that ticks count up from the chosen second | low (a state notification usually replaces the string within a second); not executed | `SeekSlider.SeekStringConcatenates` | `SeekSlider.SeekArgThenTicks` |
