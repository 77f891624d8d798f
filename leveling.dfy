/**
 * The XP/level progression of the leveling cog: the level curve, the
 * carry-over grant, the message cooldown and the leaderboard ranking.
 * The MySQL `users` table is a map from user id to its row; the random
 * message reward and the clock are parameters.
 */
module Leveling {

  const MessageXpMin: nat := 15
  const MessageXpMax: nat := 25
  const MessageCooldownSeconds: int := 60
  const LeaderboardSize: int := 10

  /** One row of the `users` table. `xp` is the XP gathered inside the current level; `lastMsgTs` is in whole seconds. */
  datatype Profile = Profile(userId: int, xp: nat, level: nat, lastMsgTs: int)

  // ---------------------------------------------------------------- the curve

  /** XP needed to go from `level` to `level + 1`. */
  function XpForNextLevel(level: nat): (r: nat)
    ensures r >= 100
  {
    5 * (level * level) + 50 * level + 100
  }

  /** The threshold grows with the level. */
  lemma XpForNextLevelIncreasing(a: nat, b: nat)
    requires a < b
    ensures XpForNextLevel(a) < XpForNextLevel(b)
  {
    assert a * a <= a * b <= b * b;
  }

  /** The sum of the thresholds of all levels below `level`. */
  function CumulativeXp(level: nat): nat
  {
    if level == 0 then 0 else CumulativeXp(level - 1) + XpForNextLevel(level - 1)
  }

  /** `total_xp_at_level`: the accumulating `for` loop. */
  method TotalXpAtLevel(level: nat) returns (total: nat)
    ensures total == CumulativeXp(level)
  {
    total := 0;
    for l := 0 to level
      invariant total == CumulativeXp(l)
    {
      total := total + XpForNextLevel(l);
    }
  }

  /** Closed form of the sum: `6 * CumulativeXp(L) == 10 L^3 + 135 L^2 + 455 L`. */
  lemma {:induction false} CumulativeXpClosedForm(level: nat)
    ensures 6 * CumulativeXp(level) == 10 * (level * level * level) + 135 * (level * level) + 455 * level
  {
    if level > 0 {
      var l := level - 1;
      CumulativeXpClosedForm(l);
      var sq, cu := l * l, l * l * l;
      assert 6 * CumulativeXp(level) == 10 * cu + 165 * sq + 755 * l + 600;
      SquareAndCubeOfSuccessor(l);
    }
  }

  lemma SquareAndCubeOfSuccessor(l: nat)
    ensures (l + 1) * (l + 1) == l * l + 2 * l + 1
    ensures (l + 1) * (l + 1) * (l + 1) == l * l * l + 3 * (l * l) + 3 * l + 1
  {
    assert (l + 1) * (l + 1) * (l + 1) == (l * l + 2 * l + 1) * (l + 1);
  }

  /** `combined_score`: lifetime-equivalent XP, the leaderboard's ranking key. */
  function CombinedScore(level: nat, xpInLevel: int): (r: int)
    ensures 0 <= xpInLevel < XpForNextLevel(level) ==> CumulativeXp(level) <= r < CumulativeXp(level + 1)
  {
    CumulativeXp(level) + xpInLevel
  }

  /** Every level above `a` starts no earlier than where level `a` ends. */
  lemma {:induction false} CumulativeXpGap(a: nat, b: nat)
    requires a < b
    ensures CumulativeXp(a) + XpForNextLevel(a) <= CumulativeXp(b)
    decreases b - a
  {
    if a + 1 < b {
      CumulativeXpGap(a + 1, b);
    }
  }

  /** For an in-range `xp`, a higher level always outranks a lower one, whatever its xp. */
  lemma HigherLevelOutranks(l1: nat, x1: nat, l2: nat, x2: nat)
    requires l1 < l2 && x1 < XpForNextLevel(l1)
    ensures CombinedScore(l1, x1) < CombinedScore(l2, x2)
  {
    CumulativeXpGap(l1, l2);
  }

  /** An in-range profile is determined by its score: no two normalised (level, xp) pairs share one. */
  lemma ScoreDeterminesProfile(l1: nat, x1: nat, l2: nat, x2: nat)
    requires x1 < XpForNextLevel(l1) && x2 < XpForNextLevel(l2)
    requires CombinedScore(l1, x1) == CombinedScore(l2, x2)
    ensures l1 == l2 && x1 == x2
  {
    if l1 < l2 {
      HigherLevelOutranks(l1, x1, l2, x2);
    } else if l2 < l1 {
      HigherLevelOutranks(l2, x2, l1, x1);
    }
  }

  /** `(level 2, 0 xp)` scores 255 and outranks `(level 1, 154 xp)`, which scores 254. */
  lemma LevelTwoOutranksLevelOne()
    ensures CombinedScore(2, 0) == 255 && CombinedScore(1, 154) == 254
  {
  }

  // ---------------------------------------------------------------- the grant

  /**
   * The arithmetic of `add_xp`: add the amount, then carry over into the
   * next level while the XP reaches the current threshold.
   */
  method GrantXp(xp: nat, level: nat, amount: nat) returns (newXp: nat, newLevel: nat, leveledUp: bool)
    ensures newXp < XpForNextLevel(newLevel)
    ensures newLevel >= level
    ensures leveledUp <==> newLevel > level
    ensures CombinedScore(newLevel, newXp) == CombinedScore(level, xp) + amount
  {
    newXp := xp + amount;
    newLevel := level;
    leveledUp := false;
    while newXp >= XpForNextLevel(newLevel)
      invariant newLevel >= level
      invariant leveledUp <==> newLevel > level
      invariant CombinedScore(newLevel, newXp) == CombinedScore(level, xp) + amount
      decreases newXp
    {
      newXp := newXp - XpForNextLevel(newLevel);
      newLevel := newLevel + 1;
      leveledUp := true;
    }
  }

  /** The only normalised result of granting 20 XP at `(xp 90, level 0)` is `(xp 10, level 1)`. */
  lemma GrantTwentyAtNinety(newLevel: nat, newXp: nat)
    requires newXp < XpForNextLevel(newLevel)
    requires CombinedScore(newLevel, newXp) == CombinedScore(0, 90) + 20
    ensures newLevel == 1 && newXp == 10
  {
    ScoreDeterminesProfile(newLevel, newXp, 1, 10);
  }

  /**
   * The only normalised result of granting 500 XP at `(xp 0, level 0)`:
   * 500 - 100 - 155 - 220 leaves 25 at level 3 (whose threshold is 295).
   */
  lemma GrantFiveHundredAtZero(newLevel: nat, newXp: nat)
    requires newXp < XpForNextLevel(newLevel)
    requires CombinedScore(newLevel, newXp) == CombinedScore(0, 0) + 500
    ensures newLevel == 3 && newXp == 25
  {
    assert CumulativeXp(3) == 475;
    ScoreDeterminesProfile(newLevel, newXp, 3, 25);
  }

  // ---------------------------------------------------------------- the table

  /** What `get_profile` reports for a user: the stored row, or the zero row it inserts. */
  function Stored(table: map<int, Profile>, userId: int): (r: Profile)
    ensures userId in table ==> r == table[userId]
    ensures userId !in table ==> r.userId == userId && r.xp == 0 && r.level == 0 && r.lastMsgTs == 0
  {
    if userId in table then table[userId] else Profile(userId, 0, 0, 0)
  }

  function Score(p: Profile): int
  {
    CombinedScore(p.level, p.xp)
  }

  /** The `users` table. */
  class UserTable {
    var profiles: map<int, Profile>

    /** Each row sits under its own id and never holds a full level's worth of XP. */
    ghost predicate Valid()
      reads this
    {
      forall id :: id in profiles ==>
        profiles[id].userId == id && profiles[id].xp < XpForNextLevel(profiles[id].level)
    }

    constructor ()
      ensures Valid() && profiles == map[]
    {
      profiles := map[];
    }

    /** `get_profile`: read the row, inserting a zero row for an unknown user. */
    method GetProfile(userId: int) returns (p: Profile)
      requires Valid()
      modifies this
      ensures Valid()
      ensures p == Stored(old(profiles), userId)
      ensures profiles == old(profiles)[userId := p]
    {
      if userId !in profiles {
        profiles := profiles[userId := Profile(userId, 0, 0, 0)];
      }
      p := profiles[userId];
    }

    /** `add_xp`: read-modify-write of one row through the carry-over loop. */
    method AddXp(userId: int, amount: nat) returns (newXp: nat, newLevel: nat, leveledUp: bool)
      requires Valid()
      modifies this
      ensures Valid()
      ensures var before := Stored(old(profiles), userId);
        && profiles == old(profiles)[userId := Profile(userId, newXp, newLevel, before.lastMsgTs)]
        && newLevel >= before.level
        && (leveledUp <==> newLevel > before.level)
        && CombinedScore(newLevel, newXp) == Score(before) + amount
    {
      var before: Profile;
      if userId in profiles {
        before := profiles[userId];
      } else {
        before := Profile(userId, 0, 0, 0);
      }
      newXp, newLevel, leveledUp := GrantXp(before.xp, before.level, amount);
      profiles := profiles[userId := Profile(userId, newXp, newLevel, before.lastMsgTs)];
    }

    /** `update_last_message_ts`: an UPDATE, so a missing row stays missing. */
    method UpdateLastMessageTs(userId: int, ts: int)
      requires Valid()
      modifies this
      ensures Valid()
      ensures profiles == if userId in old(profiles)
        then old(profiles)[userId := old(profiles)[userId].(lastMsgTs := ts)]
        else old(profiles)
    {
      if userId in profiles {
        profiles := profiles[userId := profiles[userId].(lastMsgTs := ts)];
      }
    }

    /**
     * `on_message`: bots and direct messages are ignored; otherwise the
     * profile is fetched (and created), and unless the last rewarded message
     * is under 60 s old, `amount` XP is granted and the timestamp set to now.
     */
    method OnMessage(userId: int, authorIsBot: bool, inGuild: bool, now: int, amount: nat)
      returns (granted: bool, leveledUp: bool)
      requires MessageXpMin <= amount <= MessageXpMax
      requires Valid()
      modifies this
      ensures Valid()
      ensures granted ==> !authorIsBot && inGuild
      ensures !granted ==> !leveledUp
      ensures authorIsBot || !inGuild ==> profiles == old(profiles)
      ensures !authorIsBot && inGuild ==>
        var before := Stored(old(profiles), userId);
        && (granted <==> now - before.lastMsgTs >= MessageCooldownSeconds)
        && userId in profiles
        && profiles == old(profiles)[userId := profiles[userId]]
        && (!granted ==> profiles[userId] == before)
        && (granted ==>
              && profiles[userId].lastMsgTs == now
              && Score(profiles[userId]) == Score(before) + amount
              && profiles[userId].level >= before.level
              && (leveledUp <==> profiles[userId].level > before.level))
    {
      granted, leveledUp := false, false;
      if authorIsBot || !inGuild {
        return;
      }
      var profile := GetProfile(userId);
      if now - profile.lastMsgTs < MessageCooldownSeconds {
        return;
      }
      var newXp, newLevel;
      newXp, newLevel, leveledUp := AddXp(userId, amount);
      UpdateLastMessageTs(userId, now);
      granted := true;
    }
  }

  /** Two messages of a new user `gap` seconds apart are both rewarded exactly when `gap >= 60`. */
  method CooldownScenario(table: UserTable, userId: int, t0: int, gap: nat, a1: nat, a2: nat)
    returns (first: bool, second: bool)
    requires table.Valid() && userId !in table.profiles
    requires t0 >= MessageCooldownSeconds
    requires MessageXpMin <= a1 <= MessageXpMax && MessageXpMin <= a2 <= MessageXpMax
    modifies table
    ensures first && (second <==> gap >= MessageCooldownSeconds)
  {
    var up;
    first, up := table.OnMessage(userId, false, true, t0, a1);
    second, up := table.OnMessage(userId, false, true, t0 + gap, a2);
  }

  // ---------------------------------------------------------------- the ranking

  /** No score increases along the sequence. */
  ghost predicate RankedByScore(ps: seq<Profile>)
  {
    forall i, j :: 0 <= i < j < |ps| ==> Score(ps[i]) >= Score(ps[j])
  }

  /** Places `p` before the first profile it ties or beats, keeping earlier ties first. */
  function InsertByScore(p: Profile, ranked: seq<Profile>): (r: seq<Profile>)
    ensures multiset(r) == multiset(ranked) + multiset{p}
    decreases |ranked|
  {
    if |ranked| == 0 || Score(p) >= Score(ranked[0]) then [p] + ranked
    else
      assert ranked == [ranked[0]] + ranked[1..];
      [ranked[0]] + InsertByScore(p, ranked[1..])
  }

  /** Inserting into a ranked sequence keeps it ranked. */
  lemma {:induction false} InsertByScoreRanked(p: Profile, ranked: seq<Profile>)
    requires RankedByScore(ranked)
    ensures RankedByScore(InsertByScore(p, ranked))
    decreases |ranked|
  {
    if |ranked| > 0 && Score(p) < Score(ranked[0]) {
      var rest := InsertByScore(p, ranked[1..]);
      InsertByScoreRanked(p, ranked[1..]);
      forall k | 0 <= k < |rest| ensures Score(ranked[0]) >= Score(rest[k]) {
        assert rest[k] in multiset(rest);
        assert rest[k] == p || rest[k] in multiset(ranked[1..]);
        if rest[k] != p {
          var j :| 0 <= j < |ranked[1..]| && ranked[1..][j] == rest[k];
          assert ranked[j + 1] == rest[k];
        }
      }
    }
  }

  /** `profiles.sort(key=combined_score, reverse=True)`: a stable sort, highest score first. */
  function SortByScore(ps: seq<Profile>): (r: seq<Profile>)
    ensures multiset(r) == multiset(ps)
    ensures RankedByScore(r)
    decreases |ps|
  {
    if |ps| == 0 then []
    else
      assert ps == [ps[0]] + ps[1..];
      var rest := SortByScore(ps[1..]);
      InsertByScoreRanked(ps[0], rest);
      InsertByScore(ps[0], rest)
  }

  /** The profiles that have score `s`, in order. */
  function WithScore(ps: seq<Profile>, s: int): seq<Profile>
    decreases |ps|
  {
    if |ps| == 0 then []
    else (if Score(ps[0]) == s then [ps[0]] else []) + WithScore(ps[1..], s)
  }

  /** Filtering a sequence with a first element splits off that element. */
  lemma WithScoreCons(x: Profile, r: seq<Profile>, s: int)
    ensures WithScore([x] + r, s) == (if Score(x) == s then [x] else []) + WithScore(r, s)
  {
    assert ([x] + r)[1..] == r;
  }

  /** Among profiles of one score, an inserted profile comes first. */
  lemma {:induction false} WithScoreOfInsert(p: Profile, ranked: seq<Profile>, s: int)
    ensures WithScore(InsertByScore(p, ranked), s)
      == (if Score(p) == s then [p] else []) + WithScore(ranked, s)
    decreases |ranked|
  {
    if |ranked| == 0 || Score(p) >= Score(ranked[0]) {
      WithScoreCons(p, ranked, s);
    } else {
      var rest := InsertByScore(p, ranked[1..]);
      var mine := if Score(p) == s then [p] else [];
      var head := if Score(ranked[0]) == s then [ranked[0]] else [];
      var tail := WithScore(ranked[1..], s);
      assert WithScore(InsertByScore(p, ranked), s) == head + WithScore(rest, s) by {
        WithScoreCons(ranked[0], rest, s);
      }
      assert WithScore(rest, s) == mine + tail by {
        WithScoreOfInsert(p, ranked[1..], s);
      }
      assert WithScore(ranked, s) == head + tail;
      assert mine == [] || head == [];
      assert head + (mine + tail) == mine + (head + tail);
    }
  }

  /** The sort is stable: profiles with equal scores keep their listing order. */
  lemma {:induction false} SortByScoreStable(ps: seq<Profile>, s: int)
    ensures WithScore(SortByScore(ps), s) == WithScore(ps, s)
    decreases |ps|
  {
    if |ps| > 0 {
      SortByScoreStable(ps[1..], s);
      WithScoreOfInsert(ps[0], SortByScore(ps[1..]), s);
    }
  }

  /** The length of Python's `xs[:limit]` for `|xs| == n`, negative limits counting from the end. */
  function SliceLength(n: nat, limit: int): (k: nat)
    ensures k <= n
    ensures var stop := if limit < 0 then n + limit else limit;
      k == stop || (k == 0 && stop <= 0) || (k == n && stop >= n)
  {
    if limit >= 0 then (if limit < n then limit else n)
    else if n + limit > 0 then n + limit else 0
  }

  /** `top_users(limit)` over the rows the SELECT listed (it has no guild: every guild ranks the same rows, ties in the order the SELECT lists them). */
  function TopUsers(listing: seq<Profile>, limit: int): (r: seq<Profile>)
    ensures |r| == SliceLength(|listing|, limit)
    ensures RankedByScore(r)
    ensures multiset(r) <= multiset(listing)
  {
    var sorted := SortByScore(listing);
    var n := SliceLength(|listing|, limit);
    assert |sorted| == |multiset(sorted)| == |multiset(listing)| == |listing|;
    assert sorted == sorted[..n] + sorted[n..];
    assert multiset(sorted) == multiset(sorted[..n]) + multiset(sorted[n..]);
    sorted[..n]
  }

  /** Filtering by score works piecewise over a concatenation. */
  lemma {:induction false} WithScoreAppend(a: seq<Profile>, b: seq<Profile>, s: int)
    ensures WithScore(a + b, s) == WithScore(a, s) + WithScore(b, s)
    decreases |a|
  {
    if |a| == 0 {
      assert a + b == b;
    } else {
      var h := if Score(a[0]) == s then [a[0]] else [];
      assert WithScore(a + b, s) == h + WithScore(a[1..] + b, s) by {
        assert (a + b)[0] == a[0] && (a + b)[1..] == a[1..] + b;
      }
      WithScoreAppend(a[1..], b, s);
      assert h + (WithScore(a[1..], s) + WithScore(b, s)) == (h + WithScore(a[1..], s)) + WithScore(b, s);
    }
  }

  /** The cut keeps ties in listing order: the kept profiles of one score lead that score's profiles in the listing. */
  lemma TopUsersStable(listing: seq<Profile>, limit: int, s: int)
    ensures WithScore(TopUsers(listing, limit), s) <= WithScore(listing, s)
  {
    var sorted := SortByScore(listing);
    var n := SliceLength(|listing|, limit);
    assert |sorted| == |listing| by {
      assert |multiset(sorted)| == |multiset(listing)|;
    }
    assert sorted == sorted[..n] + sorted[n..];
    WithScoreAppend(sorted[..n], sorted[n..], s);
    SortByScoreStable(listing, s);
  }

  /** Nobody left off the leaderboard scores above anybody on it. */
  lemma TopUsersAreTop(listing: seq<Profile>, limit: int, x: Profile, k: nat)
    requires x in listing && x !in TopUsers(listing, limit)
    requires k < |TopUsers(listing, limit)|
    ensures Score(x) <= Score(TopUsers(listing, limit)[k])
  {
    var sorted := SortByScore(listing);
    var n := SliceLength(|listing|, limit);
    assert x in multiset(listing);
    assert x in multiset(sorted);
    var j :| 0 <= j < |sorted| && sorted[j] == x;
    assert TopUsers(listing, limit) == sorted[..n];
    forall i | 0 <= i < n ensures sorted[i] != x {
      assert sorted[..n][i] == sorted[i];
    }
  }

  /** A listing of the table: every row exactly once. */
  ghost predicate IsListing(table: map<int, Profile>, listing: seq<Profile>)
  {
    && (forall i :: 0 <= i < |listing| ==> listing[i].userId in table && table[listing[i].userId] == listing[i])
    && (forall i, j :: 0 <= i < j < |listing| ==> listing[i].userId != listing[j].userId)
    && (forall id :: id in table ==> exists i :: 0 <= i < |listing| && listing[i].userId == id)
  }

  /** Dropping the last profile of a listing lists the table without that row. */
  lemma ListingDropLast(table: map<int, Profile>, listing: seq<Profile>)
    requires IsListing(table, listing) && |listing| > 0
    ensures listing[|listing| - 1].userId in table
    ensures IsListing(table - {listing[|listing| - 1].userId}, listing[..|listing| - 1])
  {
    var n := |listing| - 1;
    var k := listing[n].userId;
    var smaller := table - {k};
    var front := listing[..n];
    forall i | 0 <= i < |front| ensures front[i].userId in smaller && smaller[front[i].userId] == front[i] {
      assert front[i] == listing[i];
      assert listing[i].userId != k;
    }
    forall i, j | 0 <= i < j < |front| ensures front[i].userId != front[j].userId {
      assert front[i] == listing[i] && front[j] == listing[j];
    }
    forall id | id in smaller ensures exists i :: 0 <= i < |front| && front[i].userId == id {
      var i :| 0 <= i < |listing| && listing[i].userId == id;
      assert i < |front|;
      assert front[i] == listing[i];
    }
  }

  lemma {:induction false} ListingSize(table: map<int, Profile>, listing: seq<Profile>)
    requires IsListing(table, listing)
    ensures |listing| == |table|
    decreases |listing|
  {
    if |listing| == 0 {
      assert forall id :: id !in table.Keys;
      assert table.Keys == {};
    } else {
      var k := listing[|listing| - 1].userId;
      ListingDropLast(table, listing);
      ListingSize(table - {k}, listing[..|listing| - 1]);
      assert (table - {k}).Keys == table.Keys - {k};
    }
  }

  /** Over the whole table, the leaderboard has `min(limit, rows)` entries, all of them table rows. */
  lemma TopUsersOfTable(table: map<int, Profile>, listing: seq<Profile>, limit: int)
    requires IsListing(table, listing)
    ensures |TopUsers(listing, limit)| == SliceLength(|table|, limit)
    ensures forall p :: p in TopUsers(listing, limit) ==> p.userId in table && table[p.userId] == p
  {
    ListingSize(table, listing);
    var r := TopUsers(listing, limit);
    forall p | p in r ensures p.userId in table && table[p.userId] == p {
      assert p in multiset(r);
      assert p in multiset(listing);
      var i :| 0 <= i < |listing| && listing[i] == p;
    }
  }

  /** `_build_leaderboard_embed` calls `top_users()` with the default limit `LEADERBOARD_SIZE`. */
  lemma LeaderboardOfTable(table: map<int, Profile>, listing: seq<Profile>)
    requires IsListing(table, listing)
    ensures |TopUsers(listing, LeaderboardSize)| == if |table| < LeaderboardSize then |table| else LeaderboardSize
  {
    TopUsersOfTable(table, listing, LeaderboardSize);
  }
}
