/**
  The helpers of the current-matchup page (src/pages/CurrentMatchup.js): crest file
  names, the ordering of a squad by position and name, the side-by-side pairing of
  two squads by position, and the score side and leader of the matchup.

  `localeCompare` on names is an abstract ranking `nameKey`: names compare by
  their keys.
*/
module CurrentMatchup {
  import opened Common
  import opened Tables

  // ---------------------------------------------------------------------------
  // Crest file names

  /** `toLowerCase()` on one character, for the ASCII letters. */
  function LowerChar(c: char): (l: char)
    ensures 'A' <= c <= 'Z' ==> l as int == c as int + 32
    ensures !('A' <= c <= 'Z') ==> l == c
  {
    if 'A' <= c <= 'Z' then (c as int + 32) as char else c
  }

  /** `s.toLowerCase()`, letter by letter. */
  function Lower(s: string): (l: string)
    ensures |l| == |s|
    ensures forall i :: 0 <= i < |s| ==> l[i] == LowerChar(s[i])
  {
    seq(|s|, i requires 0 <= i < |s| => LowerChar(s[i]))
  }

  /** A character the pattern `[^a-z0-9]` does not match. */
  predicate SlugChar(c: char) {
    'a' <= c <= 'z' || '0' <= c <= '9'
  }

  /** The slug characters of `s`, in order: what the replacement leaves untouched. */
  function Keep(s: string): string {
    if s == [] then [] else (if SlugChar(s[0]) then [s[0]] else []) + Keep(s[1..])
  }

  /** What is left of `s` once its leading run of matched characters is gone. */
  function DropRun(s: string): (r: string)
    ensures |r| <= |s| && r == s[|s| - |r|..]
    ensures r == [] || SlugChar(r[0])
    ensures Keep(r) == Keep(s)
  {
    if s == [] || SlugChar(s[0]) then s else DropRun(s[1..])
  }

  /** `replace(/[^a-z0-9]+/g, '-')`: every maximal run of other characters becomes one dash. */
  function Collapse(s: string): (r: string)
    ensures forall i :: 0 <= i < |r| ==> SlugChar(r[i]) || r[i] == '-'
    ensures forall i :: 0 <= i < |r| - 1 ==> !(r[i] == '-' && r[i + 1] == '-')
    ensures s != [] && SlugChar(s[0]) ==> r != [] && r[0] == s[0]
    ensures r == [] <==> s == []
    ensures Keep(r) == Keep(s)
    decreases |s|
  {
    if s == [] then []
    else if SlugChar(s[0]) then [s[0]] + Collapse(s[1..])
    else "-" + Collapse(DropRun(s[1..]))
  }

  /** The replacement leaves a dash exactly when the input holds a character outside `[a-z0-9]`. */
  lemma {:induction false} CollapseDashes(s: string)
    ensures '-' in Collapse(s) <==> exists i :: 0 <= i < |s| && !SlugChar(s[i])
    decreases |s|
  {
    if s != [] && SlugChar(s[0]) {
      CollapseDashes(s[1..]);
      assert forall i :: 0 < i < |s| ==> s[i] == s[1..][i - 1];
    }
  }

  /** The slug of a club name. */
  function Slug(club: string): string {
    Collapse(Lower(club))
  }

  /** A string already in slug form is left as it is. */
  lemma {:induction false} CollapseFixes(s: string)
    requires forall i :: 0 <= i < |s| ==> SlugChar(s[i]) || s[i] == '-'
    requires forall i :: 0 <= i < |s| - 1 ==> !(s[i] == '-' && s[i + 1] == '-')
    ensures Collapse(s) == s
    decreases |s|
  {
    if s != [] {
      CollapseFixes(s[1..]);
      if !SlugChar(s[0]) {
        assert DropRun(s[1..]) == s[1..];
      }
    }
  }

  /** Slugging a slug changes nothing. */
  lemma SlugIdempotent(club: string)
    ensures Slug(Slug(club)) == Slug(club)
  {
    var s := Slug(club);
    assert Lower(s) == s;
    CollapseFixes(s);
  }

  /** `crestSrc(club)`: no crest for a missing or empty club name. */
  function CrestSrc(club: Option<string>): (src: Option<string>)
    ensures src.None? <==> club.None? || club.value == ""
    ensures src.Some? ==> src.value == "/crests/" + Slug(club.value) + ".png"
  {
    if club.None? || club.value == "" then None
    else Some("/crests/" + Slug(club.value) + ".png")
  }

  /** The path of a crest is made of slug characters and single dashes between its fixed parts. */
  lemma CrestShape(club: string)
    requires club != ""
    ensures var src := CrestSrc(Some(club)).value;
      src[..8] == "/crests/" && src[|src| - 4..] == ".png"
      && forall i :: 8 <= i < |src| - 4 ==> SlugChar(src[i]) || src[i] == '-'
  {
    var src := CrestSrc(Some(club)).value;
    var slug := Slug(club);
    assert src[8..|src| - 4] == slug;
  }

  // ---------------------------------------------------------------------------
  // Ordering a squad

  /** `POS_ORDER`. */
  const PosOrder: seq<string> := ["Goalkeeper", "Defender", "Midfielder", "Attacker"]

  /** `POS_ORDER.indexOf(pos)`: -1 for any other position. */
  function PosIndex(pos: string): (k: int)
    ensures -1 <= k < |PosOrder|
    ensures k >= 0 ==> PosOrder[k] == pos
    ensures k == -1 <==> pos !in PosOrder
  {
    if pos == PosOrder[0] then 0
    else if pos == PosOrder[1] then 1
    else if pos == PosOrder[2] then 2
    else if pos == PosOrder[3] then 3
    else -1
  }

  /** The comparator of `orderPlayers` says `a` may come before `b`. */
  predicate Before(a: Player, b: Player, nameKey: string -> int) {
    PosIndex(a.position) < PosIndex(b.position)
    || (PosIndex(a.position) == PosIndex(b.position) && nameKey(a.name) <= nameKey(b.name))
  }

  predicate Ordered(s: seq<Player>, nameKey: string -> int) {
    forall i, j :: 0 <= i < j < |s| ==> Before(s[i], s[j], nameKey)
  }

  lemma BeforeTransitive(a: Player, b: Player, c: Player, nameKey: string -> int)
    requires Before(a, b, nameKey) && Before(b, c, nameKey)
    ensures Before(a, c, nameKey)
  {
  }

  /** A player that may come before every player of an ordered list may head it. */
  lemma ConsOrdered(h: Player, s: seq<Player>, nameKey: string -> int)
    requires Ordered(s, nameKey)
    requires forall k :: 0 <= k < |s| ==> Before(h, s[k], nameKey)
    ensures Ordered([h] + s, nameKey)
  {
    var r := [h] + s;
    forall i, j | 0 <= i < j < |r|
      ensures Before(r[i], r[j], nameKey)
    {
      if i > 0 {
        assert r[i] == s[i - 1] && r[j] == s[j - 1];
      }
    }
  }

  /** Whatever may follow `h` in `s` and `p` may follow it in any rearrangement of `s` plus `p`. */
  lemma BoundHoldsAfterInsert(h: Player, p: Player, s: seq<Player>, rest: seq<Player>, nameKey: string -> int)
    requires forall k :: 0 <= k < |s| ==> Before(h, s[k], nameKey)
    requires Before(h, p, nameKey)
    requires multiset(rest) == multiset(s) + multiset{p}
    ensures forall k :: 0 <= k < |rest| ==> Before(h, rest[k], nameKey)
  {
    forall k | 0 <= k < |rest|
      ensures Before(h, rest[k], nameKey)
    {
      assert rest[k] in multiset(rest);
      if rest[k] != p {
        assert rest[k] in multiset(s);
        var j :| 0 <= j < |s| && s[j] == rest[k];
      }
    }
  }

  /** A player that comes strictly before the head of an ordered list comes before all of it. */
  lemma BeforeHeadBeforeAll(p: Player, s: seq<Player>, nameKey: string -> int)
    requires Ordered(s, nameKey) && s != [] && !Before(s[0], p, nameKey)
    ensures forall k :: 0 <= k < |s| ==> Before(p, s[k], nameKey)
  {
    forall k | 0 < k < |s|
      ensures Before(p, s[k], nameKey)
    {
      BeforeTransitive(p, s[0], s[k], nameKey);
    }
  }

  /** Puts `p` after every player that does not come strictly after it. */
  function Insert(p: Player, s: seq<Player>, nameKey: string -> int): (r: seq<Player>)
    requires Ordered(s, nameKey)
    ensures Ordered(r, nameKey)
    ensures multiset(r) == multiset(s) + multiset{p}
  {
    if s == [] then [p]
    else if !Before(s[0], p, nameKey) then
      BeforeHeadBeforeAll(p, s, nameKey);
      ConsOrdered(p, s, nameKey);
      [p] + s
    else
      var rest := Insert(p, s[1..], nameKey);
      BoundHoldsAfterInsert(s[0], p, s[1..], rest, nameKey);
      ConsOrdered(s[0], rest, nameKey);
      assert s == [s[0]] + s[1..];
      [s[0]] + rest
  }

  /** A sort by the comparator, one insertion per player. */
  function Sort(s: seq<Player>, nameKey: string -> int): (r: seq<Player>)
    ensures Ordered(r, nameKey)
    ensures multiset(r) == multiset(s)
  {
    if s == [] then []
    else
      var n := |s| - 1;
      assert s == s[..n] + [s[n]];
      Insert(s[n], Sort(s[..n], nameKey), nameKey)
  }

  /**
    `orderPlayers(rows)`: a sorted copy of the squad (none for a missing one), by
    position in `POS_ORDER` and then by name.
  */
  function OrderPlayers(rows: Option<seq<Player>>, nameKey: string -> int): (r: seq<Player>)
    ensures Ordered(r, nameKey)
    ensures multiset(r) == multiset(rows.GetOr([]))
  {
    Sort(rows.GetOr([]), nameKey)
  }

  /** Players of positions outside `POS_ORDER` are listed first. */
  lemma UnknownPositionsFirst(rows: Option<seq<Player>>, nameKey: string -> int, i: int, j: int)
    requires 0 <= i < j < |OrderPlayers(rows, nameKey)|
    requires OrderPlayers(rows, nameKey)[j].position !in PosOrder
    ensures OrderPlayers(rows, nameKey)[i].position !in PosOrder
  {
    var r := OrderPlayers(rows, nameKey);
    assert Before(r[i], r[j], nameKey);
  }

  // ---------------------------------------------------------------------------
  // Pairing two squads by position

  /** A row of the side-by-side table; an empty side is `null`. */
  datatype PairRow = PairRow(left: Option<Player>, right: Option<Player>)

  /** `arr.filter(p => p.position === pos)`. */
  function Group(arr: seq<Player>, pos: string): (g: seq<Player>)
    ensures |g| <= |arr|
    ensures forall p :: p in g <==> p in arr && p.position == pos
  {
    if arr == [] then []
    else
      var n := |arr| - 1;
      Group(arr[..n], pos) + (if arr[n].position == pos then [arr[n]] else [])
  }

  /** `arr[i] || null`. */
  function At(arr: seq<Player>, i: int): Option<Player> {
    if 0 <= i < |arr| then Some(arr[i]) else None
  }

  function Max(a: int, b: int): int {
    if a >= b then a else b
  }

  /** The rows one position contributes: as many as the longer side has players. */
  function PosRows(l: seq<Player>, r: seq<Player>): (rows: seq<PairRow>)
    ensures |rows| == Max(|l|, |r|)
  {
    seq(Max(|l|, |r|), i requires 0 <= i < Max(|l|, |r|) => PairRow(At(l, i), At(r, i)))
  }

  /** The rows of the first `k` positions of `POS_ORDER`. */
  function PairRows(left: seq<Player>, right: seq<Player>, k: int): seq<PairRow>
    requires 0 <= k <= |PosOrder|
  {
    if k == 0 then []
    else PairRows(left, right, k - 1) + PosRows(Group(left, PosOrder[k - 1]), Group(right, PosOrder[k - 1]))
  }

  /** `pairByPosition(leftArr, rightArr)`. */
  method PairByPosition(leftArr: seq<Player>, rightArr: seq<Player>) returns (rows: seq<PairRow>)
    ensures rows == PairRows(leftArr, rightArr, |PosOrder|)
  {
    rows := [];
    var k := 0;
    while k < |PosOrder|
      invariant 0 <= k <= |PosOrder|
      invariant rows == PairRows(leftArr, rightArr, k)
    {
      var pos := PosOrder[k];
      var l, r := Group(leftArr, pos), Group(rightArr, pos);
      var len := Max(|l|, |r|);
      var i := 0;
      while i < len
        invariant 0 <= i <= len
        invariant rows == PairRows(leftArr, rightArr, k) + PosRows(l, r)[..i]
      {
        rows := rows + [PairRow(At(l, i), At(r, i))];
        i := i + 1;
      }
      k := k + 1;
    }
  }

  /** The left and the right column of a table. */
  function Lefts(rows: seq<PairRow>): seq<Option<Player>> {
    seq(|rows|, i requires 0 <= i < |rows| => rows[i].left)
  }

  function Rights(rows: seq<PairRow>): seq<Option<Player>> {
    seq(|rows|, i requires 0 <= i < |rows| => rows[i].right)
  }

  /** A present prefix followed by absent entries holds exactly that prefix. */
  lemma {:induction false} SomesPadded(l: seq<Player>, col: seq<Option<Player>>)
    requires |l| <= |col|
    requires forall i :: 0 <= i < |col| ==> col[i] == At(l, i)
    ensures Somes(col) == l
  {
    if col != [] {
      var n := |col| - 1;
      if n < |l| {
        SomesPadded(l[..n], col[..n]);
        assert l[..n] + [l[n]] == l;
      } else {
        SomesPadded(l, col[..n]);
      }
    }
  }

  /** Each column of a position's rows lists that side's players of the position, in order. */
  lemma PosRowsColumns(l: seq<Player>, r: seq<Player>)
    ensures Somes(Lefts(PosRows(l, r))) == l
    ensures Somes(Rights(PosRows(l, r))) == r
  {
    SomesPadded(l, Lefts(PosRows(l, r)));
    SomesPadded(r, Rights(PosRows(l, r)));
  }

  /** The players of the first `k` positions of `POS_ORDER`, position by position. */
  function ByPosition(arr: seq<Player>, k: int): seq<Player>
    requires 0 <= k <= |PosOrder|
  {
    if k == 0 then [] else ByPosition(arr, k - 1) + Group(arr, PosOrder[k - 1])
  }

  /**
    The pairing keeps every player of a `POS_ORDER` position exactly once on its own
    side, grouped by position and in its original order within the position.
  */
  lemma {:induction false} PairingKeepsSides(left: seq<Player>, right: seq<Player>, k: int)
    requires 0 <= k <= |PosOrder|
    ensures Somes(Lefts(PairRows(left, right, k))) == ByPosition(left, k)
    ensures Somes(Rights(PairRows(left, right, k))) == ByPosition(right, k)
  {
    if k > 0 {
      PairingKeepsSides(left, right, k - 1);
      var a := PairRows(left, right, k - 1);
      var b := PosRows(Group(left, PosOrder[k - 1]), Group(right, PosOrder[k - 1]));
      assert Lefts(a + b) == Lefts(a) + Lefts(b);
      assert Rights(a + b) == Rights(a) + Rights(b);
      SomesConcat(Lefts(a), Lefts(b));
      SomesConcat(Rights(a), Rights(b));
      PosRowsColumns(Group(left, PosOrder[k - 1]), Group(right, PosOrder[k - 1]));
    }
  }

  /** A player appears in the pairing exactly when their position is in `POS_ORDER`. */
  lemma {:induction false} ByPositionMembers(arr: seq<Player>, k: int, p: Player)
    requires 0 <= k <= |PosOrder|
    ensures p in ByPosition(arr, k) <==> p in arr && p.position in PosOrder[..k]
  {
    if k > 0 {
      ByPositionMembers(arr, k - 1, p);
      assert PosOrder[..k] == PosOrder[..k - 1] + [PosOrder[k - 1]];
    }
  }

  // ---------------------------------------------------------------------------
  // Score sides

  /** `Number(score) || 0`. */
  function ScoreOrZero(score: Option<real>): real {
    score.GetOr(0.0)
  }

  /** `myTotal`: this team's score, or 0 without a matchup. */
  function MyTotal(m: Option<MatchupRow>, me: int): (total: real)
    ensures m.Some? && m.value.team1Id == me ==> total == ScoreOrZero(m.value.team1Score)
    ensures m.Some? && m.value.team1Id != me ==> total == ScoreOrZero(m.value.team2Score)
    ensures m.None? ==> total == 0.0
  {
    match m
    case None => 0.0
    case Some(row) => if row.team1Id == me then ScoreOrZero(row.team1Score) else ScoreOrZero(row.team2Score)
  }

  /** `oppTotal`: the other side's score, or 0 without a matchup. */
  function OppTotal(m: Option<MatchupRow>, me: int): (total: real)
    ensures m.Some? && m.value.team1Id == me ==> total == ScoreOrZero(m.value.team2Score)
    ensures m.Some? && m.value.team1Id != me ==> total == ScoreOrZero(m.value.team1Score)
    ensures m.None? ==> total == 0.0
  {
    match m
    case None => 0.0
    case Some(row) => if row.team1Id == me then ScoreOrZero(row.team2Score) else ScoreOrZero(row.team1Score)
  }

  /**
    The two sides see the same scores: my total is what my opponent's page shows as
    theirs, and the opponent's total is the opponent's own.
  */
  lemma SidesAgree(m: MatchupRow, me: int)
    requires me == m.team1Id || me == m.team2Id
    requires m.team1Id != m.team2Id
    ensures MyTotal(Some(m), me) == OppTotal(Some(m), OpponentOf(m, me))
    ensures OppTotal(Some(m), me) == MyTotal(Some(m), OpponentOf(m, me))
  {
  }

  /** `leftLeads`: the left side is shown leading unless it is strictly behind. */
  function LeftLeads(myTotal: real, oppTotal: real): (leads: bool)
    ensures leads <==> !(myTotal < oppTotal)
  {
    myTotal >= oppTotal
  }

  /** On a tie both pages show their own side leading. */
  lemma TieLeadsBothWays(m: MatchupRow, me: int)
    requires me == m.team1Id || me == m.team2Id
    requires m.team1Id != m.team2Id
    requires ScoreOrZero(m.team1Score) == ScoreOrZero(m.team2Score)
    ensures LeftLeads(MyTotal(Some(m), me), OppTotal(Some(m), me))
    ensures LeftLeads(MyTotal(Some(m), OpponentOf(m, me)), OppTotal(Some(m), OpponentOf(m, me)))
  {
  }

  /** A cell's points: none for an empty side, 0 for a player without a live-points row. */
  function CellPoints(side: Option<Player>, pts: map<int, real>): (r: Option<real>)
    ensures r.None? <==> side.None?
    ensures side.Some? && side.value.id !in pts ==> r == Some(0.0)
    ensures side.Some? && side.value.id in pts ==> r == Some(pts[side.value.id])
  {
    match side
    case None => None
    case Some(p) => Some(if p.id in pts then pts[p.id] else 0.0)
  }
}
