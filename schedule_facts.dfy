/**
  What `generateMatchups` guarantees: no team plays twice in a week, over the first
  leg every two teams meet exactly once, each leg holds `n(n-1)/2` games, over the
  whole season each team hosts each other team exactly once, and every inserted row
  starts pending with `null` scores.
*/
module ScheduleFacts {
  import opened Common
  import opened Tables
  import opened Schedule

  // ---------------------------------------------------------------------------
  // One round

  /** No other slot holds the team in slot `q`. */
  predicate UniqueAt(rot: seq<Option<int>>, q: int)
    requires 0 <= q < |rot|
  {
    forall k :: 0 <= k < |rot| && k != q ==> rot[k] != rot[q]
  }

  /** Every slot is unique: no team sits in two slots. */
  predicate Distinct(rot: seq<Option<int>>) {
    forall q :: 0 <= q < |rot| ==> UniqueAt(rot, q)
  }

  lemma {:induction false} AppearancesAppend(xs: seq<NewMatchup>, ys: seq<NewMatchup>, t: int)
    ensures Appearances(xs + ys, t) == Appearances(xs, t) + Appearances(ys, t)
  {
    if ys != [] {
      assert (xs + ys)[..|xs + ys| - 1] == xs + ys[..|ys| - 1];
      AppearancesAppend(xs, ys[..|ys| - 1], t);
    } else {
      assert xs + ys == xs;
    }
  }

  /** The team in slot `q` can only play in the slot pair it sits in. */
  lemma SlotAppearances(rot: seq<Option<int>>, league: int, week: int, s: int, q: int)
    requires Arrangement(rot) && 0 <= s < |rot| / 2 && 0 <= q < |rot| && rot[q].Some? && UniqueAt(rot, q)
    ensures Appearances(SlotMatch(rot, league, week, s), rot[q].value) <= if q == s || |rot| - 1 - q == s then 1 else 0
  {
    var ms := SlotMatch(rot, league, week, s);
    if ms != [] {
      assert ms[..0] == [];
    }
  }

  /**
    The team in slot `q` appears in the first `i` slot pairs at most once, and
    never before its own slot pair, the one it shares with mirror slot `o`, is reached.
  */
  lemma {:induction false} RoundAppearances(rot: seq<Option<int>>, league: int, week: int, i: int, q: int, o: int)
    requires Arrangement(rot) && 0 <= i <= |rot| / 2 && 0 <= q < |rot| && rot[q].Some? && UniqueAt(rot, q)
    requires o == |rot| - 1 - q
    ensures Appearances(RoundMatches(rot, league, week, i), rot[q].value) <= if q < i || o < i then 1 else 0
  {
    if i > 0 {
      RoundAppearances(rot, league, week, i - 1, q, o);
      AppearancesAppend(RoundMatches(rot, league, week, i - 1), SlotMatch(rot, league, week, i - 1), rot[q].value);
      SlotAppearances(rot, league, week, i - 1, q);
    }
  }

  /** A team that is not in the arrangement never appears. */
  lemma {:induction false} RoundAbsent(rot: seq<Option<int>>, league: int, week: int, i: int, t: int)
    requires Arrangement(rot) && 0 <= i <= |rot| / 2
    requires Some(t) !in rot
    ensures Appearances(RoundMatches(rot, league, week, i), t) == 0
  {
    if i > 0 {
      RoundAbsent(rot, league, week, i - 1, t);
      var last := SlotMatch(rot, league, week, i - 1);
      AppearancesAppend(RoundMatches(rot, league, week, i - 1), last, t);
      if last != [] {
        assert last[..0] == [];
      }
    }
  }

  /** The teams in slots `qa != qb` meet in slot pair `s` exactly when they fill its two slots. */
  lemma SlotPairCount(rot: seq<Option<int>>, league: int, week: int, s: int, qa: int, qb: int)
    requires Arrangement(rot) && 0 <= s < |rot| / 2
    requires 0 <= qa < |rot| && 0 <= qb < |rot| && qa != qb && rot[qa].Some? && rot[qb].Some?
    requires UniqueAt(rot, qa) && UniqueAt(rot, qb)
    ensures PairCount(SlotMatch(rot, league, week, s), rot[qa].value, rot[qb].value)
      == if qa + qb == |rot| - 1 && (qa == s || qb == s) then 1 else 0
  {
    var ms := SlotMatch(rot, league, week, s);
    if ms != [] {
      assert ms[..0] == [];
    }
  }

  /**
    The teams in slots `qa != qb` meet within the first `i` slot pairs exactly when
    their slots are mirror images and that pair is among them.
  */
  lemma {:induction false} RoundPairCount(rot: seq<Option<int>>, league: int, week: int, i: int, qa: int, qb: int)
    requires Arrangement(rot) && 0 <= i <= |rot| / 2
    requires 0 <= qa < |rot| && 0 <= qb < |rot| && qa != qb && rot[qa].Some? && rot[qb].Some?
    requires UniqueAt(rot, qa) && UniqueAt(rot, qb)
    ensures PairCount(RoundMatches(rot, league, week, i), rot[qa].value, rot[qb].value)
      == if qa + qb == |rot| - 1 && (qa < i || qb < i) then 1 else 0
  {
    if i > 0 {
      var a, b := rot[qa].value, rot[qb].value;
      var prev, last := RoundMatches(rot, league, week, i - 1), SlotMatch(rot, league, week, i - 1);
      assert RoundMatches(rot, league, week, i) == prev + last;
      RoundPairCount(rot, league, week, i - 1, qa, qb);
      PairCountAppend(prev, last, a, b);
      SlotPairCount(rot, league, week, i - 1, qa, qb);
      CountStep(|rot|, i, qa, qb, PairCount(prev, a, b), PairCount(last, a, b));
    }
  }

  /** The arithmetic of one step of `RoundPairCount`: slot pair `i - 1` is added. */
  lemma CountStep(n: int, i: int, qa: int, qb: int, before: int, added: int)
    requires 0 < i && 2 * i <= n
    requires before == if qa + qb == n - 1 && (qa < i - 1 || qb < i - 1) then 1 else 0
    requires added == if qa + qb == n - 1 && (qa == i - 1 || qb == i - 1) then 1 else 0
    ensures before + added == if qa + qb == n - 1 && (qa < i || qb < i) then 1 else 0
  {
  }

  /** Every matchup of a round is played in that round's week. */
  lemma {:induction false} RoundWeek(rot: seq<Option<int>>, league: int, week: int, i: int, w: int)
    requires Arrangement(rot) && 0 <= i <= |rot| / 2
    ensures w == week ==> InWeek(RoundMatches(rot, league, week, i), w) == RoundMatches(rot, league, week, i)
    ensures w != week ==> InWeek(RoundMatches(rot, league, week, i), w) == []
  {
    if i > 0 {
      RoundWeek(rot, league, week, i - 1, w);
      var last := SlotMatch(rot, league, week, i - 1);
      InWeekAppend(RoundMatches(rot, league, week, i - 1), last, w);
      if last != [] {
        assert last[..0] == [];
      }
    }
  }

  // ---------------------------------------------------------------------------
  // From one arrangement to the rounds of the generator

  /** One `splice(1, 0, pop())` step takes the arrangement of round `r` to that of round `r + 1`. */
  lemma RotateRotation(p: seq<Option<int>>, r: int)
    requires Arrangement(p) && 0 <= r < |p| - 1
    ensures Rotate(Rotation(p, r)) == Rotation(p, r + 1)
  {
    var prev, next := Rotation(p, r), Rotation(p, r + 1);
    assert forall k :: 0 <= k < |p| ==> Rotate(prev)[k] == next[k];
  }

  /** In round `r` of an arrangement of `n` entries, the entries at indices `ja` and `jb` sit in mirrored slots. */
  predicate Mirrored(n: int, r: int, ja: int, jb: int) {
    0 <= r < n && 0 <= ja < n && 0 <= jb < n && SlotOf(n - 1, r, ja) + SlotOf(n - 1, r, jb) == n - 1
  }

  /** The team fixed in slot 0 meets the team at padded index `j` after `m - j` rounds. */
  lemma MeetFixed(n: int, j: int, r: int)
    requires n >= 2 && n % 2 == 0 && 0 < j < n && 0 <= r < n - 1
    ensures SlotOf(n - 1, r, 0) + SlotOf(n - 1, r, j) == n - 1 <==> r == n - 1 - j
  {
  }

  /** MeetRound halves `m - ja - jb` modulo the odd `m = n - 1`. */
  lemma MeetRoundHalves(n: int, ja: int, jb: int)
    requires n >= 2 && n % 2 == 0 && 0 < ja < n && 0 < jb < n
    ensures 0 <= MeetRound(n - 1, ja, jb) < n - 1
    ensures var f := 2 * MeetRound(n - 1, ja, jb) - (n - 1 - ja - jb); f == 0 || f == n - 1 || f == 2 * (n - 1)
  {
    var m := n - 1;
    var t := m - ja - jb;
    var u := if t >= 0 then t else t + m;
    var q := MeetRound(m, ja, jb);
    assert u % 2 == 0 ==> 2 * q == u;
    assert u % 2 == 1 ==> 2 * q == u + m;
  }

  /**
    The arithmetic core: the rotating teams `a != b` sit in slots `1 + Wrap(a - 1 + r - m)`
    and `1 + Wrap(b - 1 + r - m)`, mirrored exactly when `2r` is congruent to `2q`
    modulo the odd `m`, that is when `r == q`.
  */
  lemma MirroredWhenHalved(m: int, h: int, a: int, b: int, r: int, q: int)
    requires m == 2 * h - 1 && 0 < a <= m && 0 < b <= m && a != b && 0 <= r < m && 0 <= q < m
    requires var f := 2 * q - (m - a - b); f == 0 || f == m || f == 2 * m
    ensures Wrap(a - 1 + r - m, m) + Wrap(b - 1 + r - m, m) == m - 2 <==> r == q
  {
    var f := 2 * q - (m - a - b);
    var sa, sb := Wrap(a - 1 + r - m, m), Wrap(b - 1 + r - m, m);
    var e := (a - 1 + r - sa) + (b - 1 + r - sb);
    assert e == 0 || e == m || e == 2 * m;
    if r == q {
      assert sa + sb == m - 2 + f - e;
      assert sa + sb == 2 * m - 2 ==> sa == sb;
    }
    if sa + sb == m - 2 {
      assert 2 * (r - q) == e - f;
    }
  }

  /** Two rotating teams at padded indices `ja != jb` meet in round MeetRound and in no other. */
  lemma MeetRotating(n: int, ja: int, jb: int, r: int)
    requires n >= 2 && n % 2 == 0 && 0 < ja < n && 0 < jb < n && ja != jb && 0 <= r < n - 1
    ensures 0 <= MeetRound(n - 1, ja, jb) < n - 1
    ensures SlotOf(n - 1, r, ja) + SlotOf(n - 1, r, jb) == n - 1 <==> r == MeetRound(n - 1, ja, jb)
  {
    MeetRoundHalves(n, ja, jb);
    MirroredWhenHalved(n - 1, n / 2, ja, jb, r, MeetRound(n - 1, ja, jb));
  }

  /** Two distinct teams are mirror images in exactly one round, MeetRound. */
  lemma MeetRoundUnique(n: int, ja: int, jb: int, r: int)
    requires n >= 2 && n % 2 == 0 && 0 <= ja < n && 0 <= jb < n && ja != jb && 0 <= r < n - 1
    ensures 0 <= MeetRound(n - 1, ja, jb) < n - 1
    ensures Mirrored(n, r, ja, jb) <==> r == MeetRound(n - 1, ja, jb)
  {
    if ja == 0 {
      MeetFixed(n, jb, r);
    } else if jb == 0 {
      MeetFixed(n, ja, r);
    } else {
      MeetRotating(n, ja, jb, r);
    }
  }

  /** Two distinct entries sit in mirrored slots in round MeetRound, and in no other round. */
  lemma MeetsOnce(n: int, ja: int, jb: int)
    requires n >= 2 && n % 2 == 0 && 0 <= ja < n && 0 <= jb < n && ja != jb
    ensures 0 <= MeetRound(n - 1, ja, jb) < n - 1 && Mirrored(n, MeetRound(n - 1, ja, jb), ja, jb)
    ensures forall r :: 0 <= r < n - 1 && r != MeetRound(n - 1, ja, jb) ==> !Mirrored(n, r, ja, jb)
  {
    MeetRoundUnique(n, ja, jb, 0);
    MeetRoundUnique(n, ja, jb, MeetRound(n - 1, ja, jb));
    forall r | 0 <= r < n - 1 && r != MeetRound(n - 1, ja, jb)
      ensures !Mirrored(n, r, ja, jb)
    {
      MeetRoundUnique(n, ja, jb, r);
    }
  }

  /** The team at padded index `j` is in slot SlotOf(j) of round `r`, and in no other slot. */
  lemma RotationUnique(p: seq<Option<int>>, r: int, j: int)
    requires Arrangement(p) && 0 <= r <= |p| - 1 && 0 <= j < |p| && UniqueAt(p, j)
    ensures var q := SlotOf(|p| - 1, r, j); Rotation(p, r)[q] == p[j] && UniqueAt(Rotation(p, r), q)
  {
    var m, rot, q := |p| - 1, Rotation(p, r), SlotOf(|p| - 1, r, j);
    IndexAtSlotOf(m, r, j);
    forall k | 0 <= k < |rot| && k != q
      ensures rot[k] != rot[q]
    {
      SlotOfIndexAt(m, r, k);
      var i := IndexAt(m, r, k);
      assert p[i] != p[j];
    }
  }

  /** A team the arrangement does not hold is in no slot of any round. */
  lemma RotationAbsent(p: seq<Option<int>>, r: int, t: int)
    requires Arrangement(p) && 0 <= r <= |p| - 1 && Some(t) !in p
    ensures Some(t) !in Rotation(p, r)
  {
    var rot := Rotation(p, r);
    forall k | 0 <= k < |rot|
      ensures rot[k] != Some(t)
    {
      assert rot[k] == p[IndexAt(|p| - 1, r, k)];
    }
  }

  /** No team plays twice in any round the generator produces. */
  lemma RotationIsMatching(p: seq<Option<int>>, league: int, r: int, week: int, t: int)
    requires Arrangement(p) && Distinct(p) && 0 <= r <= |p| - 1
    ensures Appearances(RoundMatches(Rotation(p, r), league, week, |p| / 2), t) <= 1
  {
    var rot := Rotation(p, r);
    if j :| 0 <= j < |p| && p[j] == Some(t) {
      var q := SlotOf(|p| - 1, r, j);
      RotationUnique(p, r, j);
      RoundAppearances(rot, league, week, |p| / 2, q, |p| - 1 - q);
    } else {
      RotationAbsent(p, r, t);
      RoundAbsent(rot, league, week, |p| / 2, t);
    }
  }

  /** Slots `qa != qb` both hold a team, and neither team sits in any other slot. */
  predicate SeatedApart(rot: seq<Option<int>>, qa: int, qb: int) {
    0 <= qa < |rot| && 0 <= qb < |rot| && qa != qb && rot[qa].Some? && rot[qb].Some?
    && UniqueAt(rot, qa) && UniqueAt(rot, qb)
  }

  /** Two teams seated apart meet in a full round exactly when their slots are mirror images. */
  lemma FullRoundPairCount(rot: seq<Option<int>>, league: int, week: int, half: int, x: Option<int>, y: Option<int>, meets: bool)
    requires Arrangement(rot) && half == |rot| / 2
    requires exists qa, qb ::
               SeatedApart(rot, qa, qb) && rot[qa] == x && rot[qb] == y && (meets <==> qa + qb == |rot| - 1)
    ensures x.Some? && y.Some?
    ensures PairCount(RoundMatches(rot, league, week, half), x.value, y.value) == if meets then 1 else 0
  {
    var qa, qb :| SeatedApart(rot, qa, qb) && rot[qa] == x && rot[qb] == y && (meets <==> qa + qb == |rot| - 1);
    RoundPairCount(rot, league, week, half, qa, qb);
  }

  /** In round `r` the teams at indices `ja != jb` are seated apart, in mirrored slots exactly when Mirrored says so. */
  lemma RotationSlots(p: seq<Option<int>>, r: int, ja: int, jb: int, meets: bool)
    requires Arrangement(p) && 0 <= r < |p| - 1
    requires SeatedApart(p, ja, jb)
    requires meets <==> Mirrored(|p|, r, ja, jb)
    ensures var rot := Rotation(p, r);
      exists qa, qb ::
        SeatedApart(rot, qa, qb) && rot[qa] == p[ja] && rot[qb] == p[jb] && (meets <==> qa + qb == |rot| - 1)
  {
    var qa, qb := SlotOf(|p| - 1, r, ja), SlotOf(|p| - 1, r, jb);
    IndexAtSlotOf(|p| - 1, r, ja);
    IndexAtSlotOf(|p| - 1, r, jb);
    RotationUnique(p, r, ja);
    RotationUnique(p, r, jb);
    assert SeatedApart(Rotation(p, r), qa, qb);
  }

  /** The teams at padded indices `ja != jb` meet in round `r` exactly when they sit in mirrored slots. */
  lemma RotationPairCountAt(p: seq<Option<int>>, league: int, r: int, ja: int, jb: int, meets: bool)
    requires Arrangement(p) && 0 <= r < |p| - 1
    requires SeatedApart(p, ja, jb)
    requires meets <==> Mirrored(|p|, r, ja, jb)
    ensures PairCount(RoundMatches(Rotation(p, r), league, r + 1, |p| / 2), p[ja].value, p[jb].value)
      == if meets then 1 else 0
  {
    RotationSlots(p, r, ja, jb, meets);
    FullRoundPairCount(Rotation(p, r), league, r + 1, |p| / 2, p[ja], p[jb], meets);
  }

  /** No team plays twice in a round, and a round is played in its own week only. */
  lemma RotationWeekAppearances(p: seq<Option<int>>, league: int, r: int, w: int, t: int)
    requires Arrangement(p) && Distinct(p) && 0 <= r < |p| - 1
    ensures Appearances(InWeek(RoundMatches(Rotation(p, r), league, r + 1, |p| / 2), w), t)
      <= if w == r + 1 then 1 else 0
  {
    RoundWeek(Rotation(p, r), league, r + 1, |p| / 2, w);
    if w == r + 1 {
      RotationIsMatching(p, league, r, r + 1, t);
    }
  }

  /** A pair that meets in round `meet` and in no other meets once overall, if that round is played. */
  lemma {:induction false} FlattenPairCount(rs: seq<seq<NewMatchup>>, a: int, b: int, meet: int)
    requires forall k :: 0 <= k < |rs| ==> PairCount(rs[k], a, b) == if k == meet then 1 else 0
    ensures PairCount(Flatten(rs), a, b) == if 0 <= meet < |rs| then 1 else 0
  {
    if rs != [] {
      var n := |rs| - 1;
      assert forall k :: 0 <= k < n ==> rs[..n][k] == rs[k];
      FlattenPairCount(rs[..n], a, b, meet);
      PairCountAppend(Flatten(rs[..n]), rs[n], a, b);
    }
  }

  /** If round `k` is played in week `k + 1` and no team plays twice in it, no team plays twice in a week. */
  lemma {:induction false} FlattenWeekAppearances(rs: seq<seq<NewMatchup>>, w: int, t: int)
    requires forall k :: 0 <= k < |rs| ==> Appearances(InWeek(rs[k], w), t) <= if w == k + 1 then 1 else 0
    ensures Appearances(InWeek(Flatten(rs), w), t) <= if 1 <= w <= |rs| then 1 else 0
  {
    if rs != [] {
      var n := |rs| - 1;
      assert forall k :: 0 <= k < n ==> rs[..n][k] == rs[k];
      FlattenWeekAppearances(rs[..n], w, t);
      InWeekAppend(Flatten(rs[..n]), rs[n], w);
      AppearancesAppend(InWeek(Flatten(rs[..n]), w), InWeek(rs[n], w), t);
    }
  }

  // ---------------------------------------------------------------------------
  // The properties of the generated season

  /** RotationPairCountAt, for round `r` as the leg lists it. */
  lemma RoundsPairCount(p: seq<Option<int>>, league: int, r: int, ja: int, jb: int, meets: bool)
    requires Arrangement(p) && 0 <= r < |p| - 1
    requires SeatedApart(p, ja, jb)
    requires meets <==> Mirrored(|p|, r, ja, jb)
    ensures PairCount(Rounds(p, league, |p| - 1)[r], p[ja].value, p[jb].value) == if meets then 1 else 0
  {
    RotationPairCountAt(p, league, r, ja, jb, meets);
  }

  /** Teams that sit in mirrored slots in exactly one round `meet` of the leg meet once in the leg. */
  lemma LegMeetsOnce(p: seq<Option<int>>, league: int, ja: int, jb: int, meet: int)
    requires Arrangement(p) && 0 <= meet < |p| - 1
    requires SeatedApart(p, ja, jb)
    requires Mirrored(|p|, meet, ja, jb)
    requires forall r :: 0 <= r < |p| - 1 && r != meet ==> !Mirrored(|p|, r, ja, jb)
    ensures PairCount(FirstLeg(p, league, |p| - 1), p[ja].value, p[jb].value) == 1
  {
    var rs := Rounds(p, league, |p| - 1);
    forall k | 0 <= k < |rs|
      ensures PairCount(rs[k], p[ja].value, p[jb].value) == if k == meet then 1 else 0
    {
      RoundsPairCount(p, league, k, ja, jb, Mirrored(|p|, k, ja, jb));
    }
    FlattenPairCount(rs, p[ja].value, p[jb].value, meet);
  }

  /** Over the rounds of an arrangement without duplicates, the teams at `ja != jb` meet exactly once. */
  lemma LegPairsOnce(p: seq<Option<int>>, league: int, ja: int, jb: int)
    requires Arrangement(p)
    requires SeatedApart(p, ja, jb)
    ensures PairCount(FirstLeg(p, league, |p| - 1), p[ja].value, p[jb].value) == 1
  {
    MeetsOnce(|p|, ja, jb);
    LegMeetsOnce(p, league, ja, jb, MeetRound(|p| - 1, ja, jb));
  }

  /** Over the rounds of an arrangement without duplicates, no team plays twice in one week. */
  lemma LegOncePerWeek(p: seq<Option<int>>, league: int, w: int, t: int)
    requires Arrangement(p) && Distinct(p)
    ensures Appearances(InWeek(FirstLeg(p, league, |p| - 1), w), t) <= if 1 <= w < |p| then 1 else 0
  {
    var rs := Rounds(p, league, |p| - 1);
    forall k | 0 <= k < |rs|
      ensures Appearances(InWeek(rs[k], w), t) <= if w == k + 1 then 1 else 0
    {
      RotationWeekAppearances(p, league, k, w, t);
    }
    FlattenWeekAppearances(rs, w, t);
  }

  /** Padding distinct team ids with one bye keeps them distinct. */
  lemma PaddedDistinct(teams: seq<int>)
    requires NoDup(teams) && |teams| >= 2
    ensures Arrangement(Padded(teams)) && Distinct(Padded(teams))
  {
    var p := Padded(teams);
    NoDupIndices(teams);
    forall q | 0 <= q < |p|
      ensures UniqueAt(p, q)
    {
      forall k | 0 <= k < |p| && k != q
        ensures p[k] != p[q]
      {
        if k < |teams| && q < |teams| {
          if k < q {
            assert teams[k] != teams[q];
          } else {
            assert teams[q] != teams[k];
          }
        }
      }
    }
  }

  /** In the first leg every two distinct teams meet exactly once. */
  lemma FirstLegPairsOnce(teams: seq<int>, league: int, a: int, b: int)
    requires NoDup(teams) && |teams| >= 2
    requires a in teams && b in teams && a != b
    ensures PairCount(FirstLeg(Padded(teams), league, |Padded(teams)| - 1), a, b) == 1
  {
    var ja :| 0 <= ja < |teams| && teams[ja] == a;
    var jb :| 0 <= jb < |teams| && teams[jb] == b;
    PaddedDistinct(teams);
    LegPairsOnce(Padded(teams), league, ja, jb);
  }

  /** No team plays twice in any week of the first leg, and weeks outside it hold none of its games. */
  lemma FirstLegOncePerWeek(teams: seq<int>, league: int, w: int, t: int)
    requires NoDup(teams) && |teams| >= 2
    ensures Appearances(InWeek(FirstLeg(Padded(teams), league, |Padded(teams)| - 1), w), t)
      <= if 1 <= w < |Padded(teams)| then 1 else 0
  {
    PaddedDistinct(teams);
    LegOncePerWeek(Padded(teams), league, w, t);
  }

  /** The return leg plays each first-leg matchup with home and away swapped. */
  lemma {:induction false} ReturnLegMirrors(first: seq<NewMatchup>, start: int, a: int, b: int)
    ensures HomeCount(ReturnLeg(first, start), a, b) == HomeCount(first, b, a)
  {
    if first != [] {
      var n := |first| - 1;
      assert ReturnLeg(first, start)[..n] == ReturnLeg(first[..n], start);
      ReturnLegMirrors(first[..n], start, a, b);
    }
  }

  /**
    Over the whole season every ordered pair of distinct teams occurs exactly once:
    each team hosts each other team once.
  */
  lemma SeasonHostsOnce(teams: seq<int>, league: int, a: int, b: int)
    requires NoDup(teams) && |teams| >= 2
    requires a in teams && b in teams && a != b
    ensures HomeCount(Season(teams, league), a, b) == 1
  {
    var p := Padded(teams);
    var first := FirstLeg(p, league, |p| - 1);
    FirstLegPairsOnce(teams, league, a, b);
    PairCountSplits(first, a, b);
    HomeCountAppend(first, ReturnLeg(first, |p|), a, b);
    ReturnLegMirrors(first, |p|, a, b);
  }

  // ---------------------------------------------------------------------------
  // Weeks of the return leg, the size of a leg, and the inserted rows

  lemma {:induction false} AppearancesAtMostLength(ms: seq<NewMatchup>, t: int)
    ensures Appearances(ms, t) <= |ms|
  {
    if ms != [] {
      AppearancesAtMostLength(ms[..|ms| - 1], t);
    }
  }

  /** The return leg gives each of its games a week of its own, counting from `start`. */
  lemma {:induction false} ReturnLegWeeks(first: seq<NewMatchup>, start: int, w: int)
    ensures |InWeek(ReturnLeg(first, start), w)| <= if start <= w < start + |first| then 1 else 0
  {
    if first != [] {
      var n := |first| - 1;
      assert ReturnLeg(first, start)[..n] == ReturnLeg(first[..n], start);
      ReturnLegWeeks(first[..n], start, w);
    }
  }

  /** Over the whole season no team plays twice in one week. */
  lemma SeasonOncePerWeek(teams: seq<int>, league: int, w: int, t: int)
    requires NoDup(teams) && |teams| >= 2
    ensures Appearances(InWeek(Season(teams, league), w), t) <= 1
  {
    var p := Padded(teams);
    var first := FirstLeg(p, league, |p| - 1);
    var more := ReturnLeg(first, |p|);
    InWeekAppend(first, more, w);
    AppearancesAppend(InWeek(first, w), InWeek(more, w), t);
    FirstLegOncePerWeek(teams, league, w, t);
    ReturnLegWeeks(first, |p|, w);
    AppearancesAtMostLength(InWeek(more, w), t);
  }

  /**
    The slot pairs `0 .. i-1` of an arrangement whose only empty slot is `bye` (none
    when `bye` is out of range) yield one game each, except the pair holding the bye.
  */
  lemma {:induction false} RoundLength(rot: seq<Option<int>>, league: int, week: int, i: int, bye: int)
    requires Arrangement(rot) && 0 <= i <= |rot| / 2
    requires forall k :: 0 <= k < |rot| ==> (rot[k].None? <==> k == bye)
    ensures |RoundMatches(rot, league, week, i)|
      == i - (if 0 <= bye < |rot| && (bye < i || |rot| - 1 - bye < i) then 1 else 0)
  {
    if i > 0 {
      RoundLength(rot, league, week, i - 1, bye);
    }
  }

  /** The only empty slot of round `r`: where the bye sits, and none for an even team count. */
  function ByeSlot(teams: seq<int>, r: int): int
    requires |teams| >= 2 && 0 <= r <= |Padded(teams)| - 1
  {
    var m := |Padded(teams)| - 1;
    if |teams| % 2 == 0 then -1 else SlotOf(m, r, m)
  }

  lemma RotationBye(teams: seq<int>, r: int)
    requires |teams| >= 2 && 0 <= r <= |Padded(teams)| - 1
    ensures forall k :: 0 <= k < |Padded(teams)| ==> (Rotation(Padded(teams), r)[k].None? <==> k == ByeSlot(teams, r))
  {
    var p := Padded(teams);
    var m := |p| - 1;
    forall k | 0 <= k < |p|
      ensures Rotation(p, r)[k].None? <==> k == ByeSlot(teams, r)
    {
      SlotOfIndexAt(m, r, k);
      IndexAtSlotOf(m, r, m);
    }
  }

  lemma {:induction false} FlattenLength(rs: seq<seq<NewMatchup>>, c: int)
    requires forall k :: 0 <= k < |rs| ==> |rs[k]| == c
    ensures |Flatten(rs)| == |rs| * c
  {
    if rs != [] {
      var n := |rs| - 1;
      assert forall k :: 0 <= k < n ==> rs[..n][k] == rs[k];
      FlattenLength(rs[..n], c);
      assert |rs| * c == n * c + c;
    }
  }

  /** Every round of the first leg holds `|p|/2` games, one fewer when a bye pads the teams. */
  lemma RoundsLength(teams: seq<int>, league: int, k: int)
    requires |teams| >= 2 && 0 <= k < |Padded(teams)| - 1
    ensures |Rounds(Padded(teams), league, |Padded(teams)| - 1)[k]|
      == |Padded(teams)| / 2 - (if |teams| % 2 == 0 then 0 else 1)
  {
    var p := Padded(teams);
    RotationBye(teams, k);
    RoundLength(Rotation(p, k), league, k + 1, |p| / 2, ByeSlot(teams, k));
  }

  /** The arithmetic of FirstLegLength: rounds times games per round is `n(n-1)/2`. */
  lemma LegSize(n: int, rounds: int, c: int)
    requires n >= 2
    requires n % 2 == 0 ==> rounds == n - 1 && c == n / 2
    requires n % 2 == 1 ==> rounds == n && c == (n + 1) / 2 - 1
    ensures rounds * c == n * (n - 1) / 2
  {
    var h := n / 2;
    if n % 2 == 0 {
      assert n * (n - 1) == 2 * ((2 * h - 1) * h);
    } else {
      assert n * (n - 1) == 2 * ((2 * h + 1) * h);
    }
  }

  /** Each leg holds one game per pair of teams: `n(n-1)/2` games for `n` teams. */
  lemma FirstLegLength(teams: seq<int>, league: int)
    requires |teams| >= 2
    ensures |FirstLeg(Padded(teams), league, |Padded(teams)| - 1)| == |teams| * (|teams| - 1) / 2
  {
    var p := Padded(teams);
    var rs := Rounds(p, league, |p| - 1);
    var c := |p| / 2 - (if |teams| % 2 == 0 then 0 else 1);
    forall k | 0 <= k < |rs|
      ensures |rs[k]| == c
    {
      RoundsLength(teams, league, k);
    }
    FlattenLength(rs, c);
    LegSize(|teams|, |rs|, c);
  }

  /** The season is two legs of `n(n-1)/2` games each. */
  lemma SeasonLength(teams: seq<int>, league: int)
    requires |teams| >= 2
    ensures |Season(teams, league)| == 2 * (|teams| * (|teams| - 1) / 2)
  {
    FirstLegLength(teams, league);
  }

  /** Every row is pending with both scores `null`. */
  predicate AllPending(ms: seq<NewMatchup>) {
    forall i :: 0 <= i < |ms| ==> ms[i].status == Pending && ms[i].team1Score.None? && ms[i].team2Score.None?
  }

  lemma {:induction false} RoundPending(rot: seq<Option<int>>, league: int, week: int, i: int)
    requires Arrangement(rot) && 0 <= i <= |rot| / 2
    ensures AllPending(RoundMatches(rot, league, week, i))
  {
    if i > 0 {
      RoundPending(rot, league, week, i - 1);
    }
  }

  lemma {:induction false} FlattenPending(rs: seq<seq<NewMatchup>>)
    requires forall k :: 0 <= k < |rs| ==> AllPending(rs[k])
    ensures AllPending(Flatten(rs))
  {
    if rs != [] {
      var n := |rs| - 1;
      assert forall k :: 0 <= k < n ==> rs[..n][k] == rs[k];
      FlattenPending(rs[..n]);
    }
  }

  /** Every row `generateMatchups` inserts starts pending, with both scores `null`. */
  lemma SeasonPending(teams: seq<int>, league: int)
    requires |teams| >= 2
    ensures AllPending(Season(teams, league))
  {
    var p := Padded(teams);
    var rs := Rounds(p, league, |p| - 1);
    forall k | 0 <= k < |rs|
      ensures AllPending(rs[k])
    {
      RoundPending(Rotation(p, k), league, k + 1, |p| / 2);
    }
    FlattenPending(rs);
  }
}
