/**
 * The deterministic part of the backend's recommender (be/model_lib.py): the
 * class-to-score mapping, the paragraph mean, `get_quadrant`, the intensity
 * bands, the row filters, the comment table and the top-20 cut. The language
 * models, similarity scores and CSV input are inputs here.
 */
module ModelLib {
  import opened Wrappers

  // ---- scores and the paragraph mean ----

  /** `{0: -1, 1: 0, 2: 1}[k]` for a predicted class `k`; `None` is the KeyError for any other key. */
  function ClassScore(k: int): (r: Option<int>)
    ensures r.Some? <==> 0 <= k <= 2
    ensures r.Some? ==> r.value == k - 1 && -1 <= r.value <= 1
  {
    var table := map[0 := -1, 1 := 0, 2 := 1];
    if k in table then Some(table[k]) else None
  }

  /** One sentence's (valence, arousal) pair. */
  datatype Score = Score(valence: int, arousal: int)

  predicate IsScore(s: Score) {
    -1 <= s.valence <= 1 && -1 <= s.arousal <= 1
  }

  /** Running totals, accumulated in sentence order. */
  function TotalValence(scores: seq<Score>): int
    decreases |scores|
  {
    if |scores| == 0 then 0 else TotalValence(scores[..|scores| - 1]) + scores[|scores| - 1].valence
  }

  function TotalArousal(scores: seq<Score>): int
    decreases |scores|
  {
    if |scores| == 0 then 0 else TotalArousal(scores[..|scores| - 1]) + scores[|scores| - 1].arousal
  }

  lemma {:induction false} TotalsBounded(scores: seq<Score>)
    requires forall i :: 0 <= i < |scores| ==> IsScore(scores[i])
    ensures -|scores| <= TotalValence(scores) <= |scores|
    ensures -|scores| <= TotalArousal(scores) <= |scores|
    decreases |scores|
  {
    if |scores| > 0 {
      TotalsBounded(scores[..|scores| - 1]);
    }
  }

  /** The normalised emotion: per-component means of the sentence scores. */
  datatype Point = Point(x: real, y: real)

  /**
   * `calculate_paragraph_emotion` without the final rounding to two places.
   * `None` is the ZeroDivisionError raised for a paragraph with no sentences.
   */
  function ParagraphEmotion(scores: seq<Score>): (r: Option<Point>)
    requires forall i :: 0 <= i < |scores| ==> IsScore(scores[i])
    ensures r.None? <==> |scores| == 0
    ensures r.Some? ==> r.value.x * |scores| as real == TotalValence(scores) as real
    ensures r.Some? ==> r.value.y * |scores| as real == TotalArousal(scores) as real
    ensures r.Some? ==> -1.0 <= r.value.x <= 1.0 && -1.0 <= r.value.y <= 1.0
  {
    if |scores| == 0 then None
    else
      TotalsBounded(scores);
      var n := |scores| as real;
      var p := Point(TotalValence(scores) as real / n, TotalArousal(scores) as real / n);
      MeanBounded(TotalValence(scores) as real, n);
      MeanBounded(TotalArousal(scores) as real, n);
      Some(p)
  }

  lemma MeanBounded(total: real, n: real)
    requires n > 0.0 && -n <= total <= n
    ensures -1.0 <= total / n <= 1.0
  {
  }

  /** A paragraph whose sentences all score alike has that score as its emotion. */
  lemma {:induction false} UniformParagraph(scores: seq<Score>, s: Score)
    requires |scores| > 0 && IsScore(s)
    requires forall i :: 0 <= i < |scores| ==> scores[i] == s
    ensures ParagraphEmotion(scores) == Some(Point(s.valence as real, s.arousal as real))
  {
    UniformTotals(scores, s);
    MeanOfUniform(|scores|, s.valence);
    MeanOfUniform(|scores|, s.arousal);
  }

  /** `count` equal values `v` average to `v`. */
  lemma MeanOfUniform(count: int, v: int)
    requires count > 0
    ensures (count * v) as real / count as real == v as real
  {
    assert (count * v) as real == count as real * v as real;
  }

  lemma {:induction false} UniformTotals(scores: seq<Score>, s: Score)
    requires forall i :: 0 <= i < |scores| ==> scores[i] == s
    ensures TotalValence(scores) == |scores| * s.valence && TotalArousal(scores) == |scores| * s.arousal
    decreases |scores|
  {
    if |scores| > 0 {
      UniformTotals(scores[..|scores| - 1], s);
    }
  }

  // ---- quadrant ----

  /**
   * `get_quadrant(x, y)`: 1 takes the origin and both non-negative half axes,
   * 2 the open upper-left quadrant, 3 the left quadrant with the negative x
   * half axis, 4 the rest (x >= 0, y < 0).
   */
  function Quadrant(x: real, y: real): (q: int)
    ensures 1 <= q <= 4
    ensures q == 1 <==> x >= 0.0 && y >= 0.0
    ensures q == 2 <==> x < 0.0 && y > 0.0
    ensures q == 3 <==> x < 0.0 && y <= 0.0
    ensures q == 4 <==> x >= 0.0 && y < 0.0
  {
    if x >= 0.0 && y >= 0.0 then 1
    else if x < 0.0 && y > 0.0 then 2
    else if x < 0.0 && y <= 0.0 then 3
    else 4
  }

  // ---- intensity bands ----

  datatype Band = NeutralBand | Low | Medium | High

  /** The `intensity` column value of a band. */
  function BandLabel(b: Band): string {
    match b
    case NeutralBand => "neutral"
    case Low => "low"
    case Medium => "medium"
    case High => "high"
  }

  function Rank(b: Band): nat {
    match b
    case NeutralBand => 0
    case Low => 1
    case Medium => 2
    case High => 3
  }

  /** The band of a distance from the origin: neutral up to 0.19, low up to 0.41, medium up to 0.64, high beyond. */
  function IntensityBand(distance: real): (b: Band)
    ensures b == NeutralBand <==> distance <= 0.19
    ensures b == Low <==> 0.19 < distance <= 0.41
    ensures b == Medium <==> 0.41 < distance <= 0.64
    ensures b == High <==> 0.64 < distance
  {
    if distance <= 0.19 then NeutralBand
    else if 0.19 < distance <= 0.41 then Low
    else if 0.41 < distance <= 0.64 then Medium
    else High
  }

  /** A farther point is never in a weaker band. */
  lemma BandMonotone(d1: real, d2: real)
    requires d1 <= d2
    ensures Rank(IntensityBand(d1)) <= Rank(IntensityBand(d2))
  {
  }

  /** The band read off the squared distance, with the thresholds squared: no square root needed. */
  function BandOfSquared(d2: real): Band {
    if d2 <= 0.0361 then NeutralBand
    else if d2 <= 0.1681 then Low
    else if d2 <= 0.4096 then Medium
    else High
  }

  /** For the true distance `d = sqrt(x² + y²)`, both ways of banding agree. */
  lemma BandWithoutSqrt(x: real, y: real, d: real)
    requires d >= 0.0 && d * d == x * x + y * y
    ensures IntensityBand(d) == BandOfSquared(x * x + y * y)
  {
    SquareCompare(d, 0.19);
    SquareCompare(d, 0.41);
    SquareCompare(d, 0.64);
  }

  lemma SquareCompare(d: real, t: real)
    requires d >= 0.0 && t > 0.0
    ensures d <= t <==> d * d <= t * t
  {
  }

  // ---- songs ----

  /** A row of the track table; `similarity` is the cosine score computed for it. */
  datatype Song = Song(trackName: string, artistName: string, uri: string, intensity: string, emotion: int, similarity: real)

  /** `a` is `b` with some rows left out and the rest in the same order. */
  predicate Subsequence(a: seq<Song>, b: seq<Song>)
    decreases |b|
  {
    if |a| == 0 then true
    else if |b| == 0 then false
    else (a[0] == b[0] && Subsequence(a[1..], b[1..])) || Subsequence(a, b[1..])
  }

  /**
   * `df[mask]`: the rows satisfying `keep`, in table order, each kept row as
   * often as the table holds it and every other row not at all.
   */
  function Filter(rows: seq<Song>, keep: Song -> bool): (r: seq<Song>)
    ensures Subsequence(r, rows)
    ensures forall i :: 0 <= i < |r| ==> keep(r[i]) && r[i] in rows
    ensures forall i :: 0 <= i < |rows| && keep(rows[i]) ==> rows[i] in r
    decreases |rows|
  {
    if |rows| == 0 then []
    else
      var rest := Filter(rows[1..], keep);
      if keep(rows[0]) then [rows[0]] + rest else rest
  }

  /** The filter keeps each satisfying row as often as the table holds it, and no other row. */
  lemma {:induction false} FilterCounts(rows: seq<Song>, keep: Song -> bool, s: Song)
    ensures multiset(Filter(rows, keep))[s] == (if keep(s) then multiset(rows)[s] else 0)
    decreases |rows|
  {
    if |rows| > 0 {
      FilterCounts(rows[1..], keep, s);
      assert rows == [rows[0]] + rows[1..];
      assert multiset(rows) == multiset([rows[0]]) + multiset(rows[1..]);
      if keep(rows[0]) {
        assert Filter(rows, keep) == [rows[0]] + Filter(rows[1..], keep);
        assert multiset(Filter(rows, keep)) == multiset([rows[0]]) + multiset(Filter(rows[1..], keep));
      }
    }
  }

  function HasIntensity(intensity: string): Song -> bool {
    (s: Song) => s.intensity == intensity
  }

  function HasEmotion(quadrant: int): Song -> bool {
    (s: Song) => s.emotion == quadrant
  }

  function Both(p: Song -> bool, q: Song -> bool): Song -> bool {
    (s: Song) => p(s) && q(s)
  }

  /** Filtering twice is filtering once by both conditions. */
  lemma {:induction false} FilterTwice(rows: seq<Song>, p: Song -> bool, q: Song -> bool)
    ensures Filter(Filter(rows, p), q) == Filter(rows, Both(p, q))
    decreases |rows|
  {
    if |rows| > 0 {
      FilterTwice(rows[1..], p, q);
      if p(rows[0]) {
        assert Filter(rows, p) == [rows[0]] + Filter(rows[1..], p);
        assert ([rows[0]] + Filter(rows[1..], p))[1..] == Filter(rows[1..], p);
      }
    }
  }

  /**
   * `filter_by_intensity(df, distance)`: both branches of the source filter
   * alike, so the result is exactly the rows labelled with the distance's band,
   * in table order and with their multiplicities.
   */
  function FilterByIntensity(rows: seq<Song>, distance: real): (r: seq<Song>)
    ensures Subsequence(r, rows)
    ensures forall i :: 0 <= i < |r| ==> r[i].intensity == BandLabel(IntensityBand(distance))
    ensures forall i :: 0 <= i < |rows| && rows[i].intensity == BandLabel(IntensityBand(distance)) ==> rows[i] in r
  {
    Filter(rows, HasIntensity(BandLabel(IntensityBand(distance))))
  }

  /**
   * `get_songs_by_emotion_and_intensity`: rows of the point's band, in table
   * order; outside the neutral band only rows of the point's quadrant. The
   * caller supplies the distance `d = sqrt(x² + y²)`.
   */
  function SongsFor(rows: seq<Song>, x: real, y: real, d: real): (r: seq<Song>)
    requires d >= 0.0 && d * d == x * x + y * y
    ensures Subsequence(r, rows)
    ensures forall i :: 0 <= i < |r| ==> r[i].intensity == BandLabel(IntensityBand(d))
    ensures d > 0.19 ==> forall i :: 0 <= i < |r| ==> r[i].emotion == Quadrant(x, y)
    ensures forall i :: (0 <= i < |rows| && rows[i].intensity == BandLabel(IntensityBand(d))
      && (d <= 0.19 || rows[i].emotion == Quadrant(x, y))) ==> rows[i] in r
  {
    var band := BandLabel(IntensityBand(d));
    var byBand := FilterByIntensity(rows, d);
    if d > 0.19 then
      FilterTwice(rows, HasIntensity(band), HasEmotion(Quadrant(x, y)));
      Filter(byBand, HasEmotion(Quadrant(x, y)))
    else byBand
  }

  /** A row is in the songs for a point as often as the table holds it if it qualifies, otherwise never. */
  lemma SongsForCounts(rows: seq<Song>, x: real, y: real, d: real, s: Song)
    requires d >= 0.0 && d * d == x * x + y * y
    ensures multiset(SongsFor(rows, x, y, d))[s] ==
      (if s.intensity == BandLabel(IntensityBand(d)) && (d <= 0.19 || s.emotion == Quadrant(x, y))
       then multiset(rows)[s] else 0)
  {
    var band := BandLabel(IntensityBand(d));
    FilterCounts(rows, HasIntensity(band), s);
    if d > 0.19 {
      FilterCounts(Filter(rows, HasIntensity(band)), HasEmotion(Quadrant(x, y)), s);
    }
  }

  /** In the neutral band the quadrant plays no part: every near-origin point gets the same rows. */
  lemma NeutralIgnoresQuadrant(rows: seq<Song>, x1: real, y1: real, d1: real, x2: real, y2: real, d2: real)
    requires 0.0 <= d1 <= 0.19 && d1 * d1 == x1 * x1 + y1 * y1
    requires 0.0 <= d2 <= 0.19 && d2 * d2 == x2 * x2 + y2 * y2
    ensures SongsFor(rows, x1, y1, d1) == SongsFor(rows, x2, y2, d2)
  {
  }

  // ---- comments ----

  /** Keys of the comment table: the string "neutral" or a (quadrant, intensity) pair. */
  datatype CommentKey = NeutralKey | Entry(quadrant: int, intensity: string)

  const Comments: map<CommentKey, string> := map[
    NeutralKey := "평범한 하루를 보내셨군요.",
    Entry(1, "high") := "많이 행복한 하루를 보내셨군요! 내일도 오늘처럼 행복하세요",
    Entry(1, "medium") := "행복한 기분이 느껴지네요.",
    Entry(1, "low") := "조금 행복한 하루를 보내셨군요. 내일은 더 행복한 하루가 될거에요",
    Entry(2, "high") := "아주 힘든 하루를 보내셨군요. 금방 훌훌 털어버리기를 바랄게요.",
    Entry(2, "medium") := "힘든 하루에 노래를 들으면서 잠시 쉬어보는건 어떨까요.",
    Entry(2, "low") := "조금 힘든 하루를 보내셨군요. 내일은 힘들지 않기를 바랄게요.",
    Entry(3, "high") := "힘든 하루를 보내셨군요. 힘내세요!",
    Entry(3, "medium") := "많이 지치고 힘든 하루였군요.",
    Entry(3, "low") := "조금 힘든 하루였을 것 같아요.",
    Entry(4, "high") := "아주 편안한 하루를 지내셨나봐요.",
    Entry(4, "medium") := "편안함이 느껴지네요. 재충전의 시간을 가져봐요",
    Entry(4, "low") := "평범한 일상에서 벗어나 잠시 휴식을 취해보는건 어떨까요?"]

  const DefaultComment := "기분이 복잡하셨던 것 같아요."

  /** A key the table answers for a non-neutral intensity. */
  predicate IsTableEntry(quadrant: int, intensity: string) {
    1 <= quadrant <= 4 && intensity in {"low", "medium", "high"}
  }

  /**
   * `get_comment_by_emotion_and_intensity`: the neutral comment for the
   * neutral intensity whatever the quadrant; the table's entry for a quadrant
   * 1..4 with low, medium or high; the default for any other key.
   */
  function CommentFor(quadrant: int, intensity: string): (c: string)
    ensures intensity == "neutral" ==> c == Comments[NeutralKey]
    ensures intensity != "neutral" && IsTableEntry(quadrant, intensity) ==> c == Comments[Entry(quadrant, intensity)]
    ensures intensity != "neutral" && !IsTableEntry(quadrant, intensity) ==> c == DefaultComment
  {
    if intensity == "neutral" then Comments[NeutralKey]
    else
      var key := Entry(quadrant, intensity);
      if key in Comments then Comments[key] else DefaultComment
  }

  /** Different table entries carry different comments, so a comment names its (quadrant, band). */
  lemma CommentsDistinct(q1: int, i1: string, q2: int, i2: string)
    requires IsTableEntry(q1, i1) && IsTableEntry(q2, i2)
    ensures CommentFor(q1, i1) != CommentFor(q2, i2) || (q1 == q2 && i1 == i2)
    ensures CommentFor(q1, i1) != Comments[NeutralKey] && CommentFor(q1, i1) != DefaultComment
  {
  }

  /**
   * The intensity `recommend_songs` passes on: the label of the first table
   * row in the point's band; `None` is the IndexError of an empty selection.
   */
  function ResponseIntensity(rows: seq<Song>, distance: real): (r: Option<string>)
    ensures r.None? <==> forall i :: 0 <= i < |rows| ==> rows[i].intensity != BandLabel(IntensityBand(distance))
    ensures r.Some? ==> r.value == BandLabel(IntensityBand(distance))
  {
    var selected := FilterByIntensity(rows, distance);
    if |selected| == 0 then None else Some(selected[0].intensity)
  }

  /**
   * The comment `recommend_songs` returns: whenever the table has a row of
   * the point's band, it is the neutral comment or the entry of the point's
   * quadrant and band, never the default.
   */
  lemma ResponseComment(rows: seq<Song>, x: real, y: real, d: real)
    requires d >= 0.0 && d * d == x * x + y * y
    requires ResponseIntensity(rows, d).Some?
    ensures var c := CommentFor(Quadrant(x, y), ResponseIntensity(rows, d).value);
      && (IntensityBand(d) == NeutralBand ==> c == Comments[NeutralKey])
      && (IntensityBand(d) != NeutralBand ==> c == Comments[Entry(Quadrant(x, y), BandLabel(IntensityBand(d)))])
      && c != DefaultComment
  {
  }

  // ---- the top-20 cut ----

  const TopCount := 20

  predicate SortedBySimilarity(s: seq<Song>) {
    forall i, j :: 0 <= i < j < |s| ==> s[i].similarity >= s[j].similarity
  }

  /** A row at least as similar as the head of a sorted list may go in front of it. */
  lemma ConsSorted(a: Song, s: seq<Song>)
    requires SortedBySimilarity(s)
    requires |s| == 0 || a.similarity >= s[0].similarity
    ensures SortedBySimilarity([a] + s)
  {
  }

  /** Inserts a row into a list sorted by non-increasing similarity, in front of the first row it is at least as similar as. */
  function Insert(x: Song, s: seq<Song>): (r: seq<Song>)
    requires SortedBySimilarity(s)
    ensures SortedBySimilarity(r)
    ensures multiset(r) == multiset(s) + multiset{x}
    ensures |r| == |s| + 1
    ensures r[0] == x || (|s| > 0 && r[0] == s[0])
    decreases |s|
  {
    if |s| == 0 then [x]
    else if x.similarity >= s[0].similarity then
      ConsSorted(x, s);
      [x] + s
    else
      assert SortedBySimilarity(s[1..]);
      var rest := Insert(x, s[1..]);
      assert |s| > 1 ==> s[0].similarity >= s[1].similarity;
      ConsSorted(s[0], rest);
      assert s == [s[0]] + s[1..];
      [s[0]] + rest
  }

  /** `sort_values(by='similarity', ascending=False)` (the source's sort is not stable; ties may come in any order). */
  function SortBySimilarity(s: seq<Song>): (r: seq<Song>)
    ensures SortedBySimilarity(r)
    ensures multiset(r) == multiset(s)
    decreases |s|
  {
    if |s| == 0 then []
    else
      assert s == [s[0]] + s[1..];
      Insert(s[0], SortBySimilarity(s[1..]))
  }

  /**
   * `.head(20)` of the sorted rows: at most 20 rows, by non-increasing
   * similarity, taken from the input, and no row left out scores higher than
   * a row kept.
   */
  function TopSongs(rows: seq<Song>): (r: seq<Song>)
    ensures |r| == if |rows| < TopCount then |rows| else TopCount
    ensures SortedBySimilarity(r)
    ensures multiset(r) <= multiset(rows)
    ensures forall b, i :: b in multiset(rows) - multiset(r) && 0 <= i < |r| ==> r[i].similarity >= b.similarity
  {
    var sorted := SortBySimilarity(rows);
    var k := if |rows| < TopCount then |rows| else TopCount;
    TopOfSorted(rows, sorted, k);
    sorted[..k]
  }

  lemma TopOfSorted(rows: seq<Song>, sorted: seq<Song>, k: nat)
    requires SortedBySimilarity(sorted) && multiset(sorted) == multiset(rows) && k <= |rows|
    ensures |sorted| == |rows|
    ensures SortedBySimilarity(sorted[..k])
    ensures multiset(sorted[..k]) <= multiset(rows)
    ensures forall b, i :: b in multiset(rows) - multiset(sorted[..k]) && 0 <= i < k ==> sorted[..k][i].similarity >= b.similarity
  {
    assert |sorted| == |rows| by {
      assert |multiset(sorted)| == |multiset(rows)|;
    }
    SplitMultiset(sorted, k);
    PrefixDominates(sorted, k);
  }

  lemma SplitMultiset(s: seq<Song>, k: nat)
    requires k <= |s|
    ensures multiset(s) - multiset(s[..k]) == multiset(s[k..])
    ensures multiset(s[..k]) <= multiset(s)
  {
    assert s == s[..k] + s[k..];
  }

  /** In a sorted list every row of a prefix is at least as similar as every row after it. */
  lemma PrefixDominates(s: seq<Song>, k: nat)
    requires SortedBySimilarity(s) && k <= |s|
    ensures forall b, i :: b in multiset(s[k..]) && 0 <= i < k ==> s[i].similarity >= b.similarity
  {
  }
}
