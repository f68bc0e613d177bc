/**
  The circle method behind `generateMatchups` (src/pages/League.js): the team list
  padded with a bye, slot 0 fixed, the other slots rotated one step per round, slot i
  meeting slot len-1-i, then a mirrored return leg.

  The round-`r` arrangement has a closed form. With `m = len - 1` (odd), slot 0 holds
  the first padded entry, and slot `k >= 1` holds padded entry `1 + Wrap(k-1-r)`.
  The facts about one round are proved for any arrangement without duplicates; the
  closed form carries them over to the rounds the generator produces.
*/
module Schedule {
  import opened Common
  import opened Tables

  /** The team ids, padded with one `null` bye when there is an odd number of them. */
  function Padded(teams: seq<int>): (p: seq<Option<int>>)
    ensures |p| % 2 == 0
    ensures |p| == if |teams| % 2 == 0 then |teams| else |teams| + 1
    ensures forall j :: 0 <= j < |teams| ==> p[j] == Some(teams[j])
    ensures forall j :: |teams| <= j < |p| ==> p[j] == None
  {
    var base := seq(|teams|, j requires 0 <= j < |teams| => Some(teams[j]));
    if |teams| % 2 != 0 then base + [None] else base
  }

  /** Brings `x` in `[-m, m)` into `[0, m)`. */
  function Wrap(x: int, m: int): int {
    if x < 0 then x + m else x
  }

  /** The padded index of the team sitting in slot `k` during round `r`. */
  function IndexAt(m: nat, r: int, k: int): (j: int)
    requires 0 <= r <= m && 0 <= k <= m
    ensures 0 <= j <= m
  {
    if k == 0 then 0 else 1 + Wrap(k - 1 - r, m)
  }

  /** The slot of padded index `j` during round `r`: the inverse of IndexAt. */
  function SlotOf(m: nat, r: int, j: int): (k: int)
    requires 0 <= r <= m && 0 <= j <= m
    ensures 0 <= k <= m
  {
    if j == 0 then 0
    else if j - 1 + r >= m then j - m + r
    else j + r
  }

  /** SlotOf and IndexAt are inverse: the slot of an index holds that index... */
  lemma IndexAtSlotOf(m: nat, r: int, j: int)
    requires 0 <= r <= m && 0 <= j <= m
    ensures IndexAt(m, r, SlotOf(m, r, j)) == j
  {
  }

  /** ...and the index in a slot has that slot. */
  lemma SlotOfIndexAt(m: nat, r: int, k: int)
    requires 0 <= r <= m && 0 <= k <= m
    ensures SlotOf(m, r, IndexAt(m, r, k)) == k
  {
  }

  /** A well-formed arrangement: even length, at least two slots. */
  predicate Arrangement<T>(p: seq<T>) {
    |p| >= 2 && |p| % 2 == 0
  }

  /** `splice(1, 0, pop())`: the last slot moves to slot 1, slot 0 stays. */
  function Rotate(rot: seq<Option<int>>): (next: seq<Option<int>>)
    requires |rot| >= 2
    ensures |next| == |rot|
    ensures next[0] == rot[0] && next[1] == rot[|rot| - 1]
    ensures forall k :: 2 <= k < |rot| ==> next[k] == rot[k - 1]
  {
    [rot[0], rot[|rot| - 1]] + rot[1..|rot| - 1]
  }

  /** `roundTeams` during round `r`, in closed form: slot `k` holds padded entry IndexAt(k). */
  function Rotation(p: seq<Option<int>>, r: int): (rot: seq<Option<int>>)
    requires Arrangement(p) && 0 <= r <= |p| - 1
    ensures |rot| == |p|
  {
    seq(|p|, k requires 0 <= k < |p| => p[IndexAt(|p| - 1, r, k)])
  }

  /** A pending matchup with null scores, as `generateMatchups` pushes it. */
  function PendingMatchup(league: int, week: int, team1: int, team2: int): NewMatchup {
    NewMatchup(league, week, team1, team2, None, None, Pending)
  }

  /** The matchup pushed for slot pair `s` of arrangement `rot`: none when either side is the bye. */
  function SlotMatch(rot: seq<Option<int>>, league: int, week: int, s: int): seq<NewMatchup>
    requires Arrangement(rot) && 0 <= s < |rot| / 2
  {
    var team1 := rot[s];
    var team2 := rot[|rot| - 1 - s];
    if team1.Some? && team2.Some? then [PendingMatchup(league, week, team1.value, team2.value)] else []
  }

  /** The matchups pushed for slot pairs `0 .. i-1` of arrangement `rot`. */
  function RoundMatches(rot: seq<Option<int>>, league: int, week: int, i: int): seq<NewMatchup>
    requires Arrangement(rot) && 0 <= i <= |rot| / 2
  {
    if i == 0 then [] else RoundMatches(rot, league, week, i - 1) + SlotMatch(rot, league, week, i - 1)
  }

  /** The matchups of rounds `0 .. r-1`, one entry per round; round `k` is played in week `k + 1`. */
  function Rounds(p: seq<Option<int>>, league: int, r: int): (rs: seq<seq<NewMatchup>>)
    requires Arrangement(p) && 0 <= r <= |p| - 1
    ensures |rs| == r
  {
    seq(r, k requires 0 <= k < r => RoundMatches(Rotation(p, k), league, k + 1, |p| / 2))
  }

  /** The rounds one after the other, as `schedule.push` lays them down. */
  function Flatten(rs: seq<seq<NewMatchup>>): seq<NewMatchup> {
    if rs == [] then [] else Flatten(rs[..|rs| - 1]) + rs[|rs| - 1]
  }

  /** The single round robin: rounds `0 .. r-1`. */
  function FirstLeg(p: seq<Option<int>>, league: int, r: int): seq<NewMatchup>
    requires Arrangement(p) && 0 <= r <= |p| - 1
  {
    Flatten(Rounds(p, league, r))
  }

  /**
    The return leg as written: every first-leg matchup mirrored (team1 and team2
    swapped), and `week++` once per matchup, so the k-th copy gets week `start + k`.
  */
  function ReturnLeg(first: seq<NewMatchup>, start: int): (more: seq<NewMatchup>)
    ensures |more| == |first|
  {
    seq(|first|, k requires 0 <= k < |first| =>
      first[k].(week := start + k, team1Id := first[k].team2Id, team2Id := first[k].team1Id))
  }

  /** The whole season as `generateMatchups` inserts it. */
  function Season(teams: seq<int>, league: int): seq<NewMatchup>
    requires |teams| >= 2
  {
    var p := Padded(teams);
    var first := FirstLeg(p, league, |p| - 1);
    first + ReturnLeg(first, |p|)
  }

  // ---------------------------------------------------------------------------
  // Counting

  /** How many matchups pit `a` and `b` against each other, either way round. */
  function PairCount(ms: seq<NewMatchup>, a: int, b: int): nat {
    if ms == [] then 0
    else
      var x := ms[|ms| - 1];
      PairCount(ms[..|ms| - 1], a, b)
        + (if (x.team1Id == a && x.team2Id == b) || (x.team1Id == b && x.team2Id == a) then 1 else 0)
  }

  /** How many matchups have `a` as team1 and `b` as team2. */
  function HomeCount(ms: seq<NewMatchup>, a: int, b: int): nat {
    if ms == [] then 0
    else
      var x := ms[|ms| - 1];
      HomeCount(ms[..|ms| - 1], a, b) + (if x.team1Id == a && x.team2Id == b then 1 else 0)
  }

  /** How many matchups team `t` takes part in. */
  function Appearances(ms: seq<NewMatchup>, t: int): nat {
    if ms == [] then 0
    else
      var x := ms[|ms| - 1];
      Appearances(ms[..|ms| - 1], t) + (if x.team1Id == t || x.team2Id == t then 1 else 0)
  }

  /** The matchups scheduled in week `w`, in order. */
  function InWeek(ms: seq<NewMatchup>, w: int): seq<NewMatchup> {
    if ms == [] then []
    else InWeek(ms[..|ms| - 1], w) + (if ms[|ms| - 1].week == w then [ms[|ms| - 1]] else [])
  }

  lemma {:induction false} PairCountAppend(xs: seq<NewMatchup>, ys: seq<NewMatchup>, a: int, b: int)
    ensures PairCount(xs + ys, a, b) == PairCount(xs, a, b) + PairCount(ys, a, b)
  {
    if ys != [] {
      assert (xs + ys)[..|xs + ys| - 1] == xs + ys[..|ys| - 1];
      PairCountAppend(xs, ys[..|ys| - 1], a, b);
    } else {
      assert xs + ys == xs;
    }
  }

  lemma {:induction false} HomeCountAppend(xs: seq<NewMatchup>, ys: seq<NewMatchup>, a: int, b: int)
    ensures HomeCount(xs + ys, a, b) == HomeCount(xs, a, b) + HomeCount(ys, a, b)
  {
    if ys != [] {
      assert (xs + ys)[..|xs + ys| - 1] == xs + ys[..|ys| - 1];
      HomeCountAppend(xs, ys[..|ys| - 1], a, b);
    } else {
      assert xs + ys == xs;
    }
  }

  lemma {:induction false} InWeekAppend(xs: seq<NewMatchup>, ys: seq<NewMatchup>, w: int)
    ensures InWeek(xs + ys, w) == InWeek(xs, w) + InWeek(ys, w)
  {
    if ys != [] {
      assert (xs + ys)[..|xs + ys| - 1] == xs + ys[..|ys| - 1];
      InWeekAppend(xs, ys[..|ys| - 1], w);
    } else {
      assert xs + ys == xs;
    }
  }

  /** A pair counted either way round splits into its two home/away orders. */
  lemma {:induction false} PairCountSplits(ms: seq<NewMatchup>, a: int, b: int)
    requires a != b
    ensures PairCount(ms, a, b) == HomeCount(ms, a, b) + HomeCount(ms, b, a)
  {
    if ms != [] {
      PairCountSplits(ms[..|ms| - 1], a, b);
    }
  }

  /**
    The round in which the teams at padded indices `ja != jb` are mirror images.
    For `ja, jb >= 1` their offsets `x, y` sit in mirrored slots when
    `x + y + 2r` is congruent to `m - 2` modulo the odd `m`.
  */
  function MeetRound(m: nat, ja: int, jb: int): int
    requires 0 <= ja <= m && 0 <= jb <= m
  {
    if ja == 0 then m - jb
    else if jb == 0 then m - ja
    else
      var t := m - 2 - (ja - 1) - (jb - 1);
      var u := if t >= 0 then t else t + m;
      if u % 2 == 0 then u / 2 else (u + m) / 2
  }
}
