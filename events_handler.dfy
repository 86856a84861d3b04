/** The statistics aggregation engine of `statistics_service/events_handler.cpp`.

    The handler keeps, for every registered user, a cumulative amount
    (`_statistics`) and the same amounts as an ordered ranking
    (`_sorted_statistics`); the two must stay in lock-step.  Deal-won events
    feed the amounts, a new week resets them, and at every minute boundary
    every connected user is sent its rank snapshot.

    Amounts and times are unbounded integers: the 64-bit width of `int64_t`
    and of `std::chrono::nanoseconds` is not modelled.  The truncating
    division and remainder of C++ are written out. */
module EventsHandling {
  import opened Events
  import opened Statistics
  import opened Packets

  /** `neighbors_count`: the length of the top list and the reach of the
      window around a user's own pair. */
  const NeighborsCount: nat := 10

  const Minute: int := 60 * 1_000_000_000
  const Week: int := 7 * 24 * 60 * Minute

  // ---------------------------------------------------------------------
  // Amounts and the ranking

  /** `_statistics[user]`: a user that is not there reads as 0. */
  function Amount(stats: map<User, int>, u: User): int {
    if u in stats then stats[u] else 0
  }

  /** The pairs the ranking must hold for a map of amounts. */
  function Pairs(stats: map<User, int>): set<Pair> {
    set u | u in stats :: (stats[u], u)
  }

  /** The lock-step invariant: the ranking holds exactly one pair per user,
      carrying that user's amount, in comparator order. */
  ghost predicate LockStep(stats: map<User, int>, sorted: seq<Pair>) {
    Sorted(sorted) && Elems(sorted) == Pairs(stats)
  }

  /** Setting one user's amount replaces that user's pair and no other. */
  lemma PairsUpdate(stats: map<User, int>, u: User, a: int)
    ensures Pairs(stats[u := a]) == Pairs(stats) - {(Amount(stats, u), u)} + {(a, u)}
  {
    var lhs := Pairs(stats[u := a]);
    var rhs := Pairs(stats) - {(Amount(stats, u), u)} + {(a, u)};
    forall x | x in lhs ensures x in rhs {
      var v :| v in stats[u := a] && x == (stats[u := a][v], v);
      if v != u { assert x in Pairs(stats); }
    }
    forall x | x in rhs ensures x in lhs {
      if x != (a, u) {
        assert x in Pairs(stats) && x != (Amount(stats, u), u);
        var v :| v in stats && x == (stats[v], v);
        assert v != u;
        assert v in stats[u := a] && x == (stats[u := a][v], v);
      } else {
        assert u in stats[u := a] && x == (stats[u := a][u], u);
      }
    }
  }

  /** `_statistics.emplace(user, 0)`: an existing amount is kept. */
  function NewUserStats(stats: map<User, int>, u: User): (r: map<User, int>)
    ensures u in r && r[u] == Amount(stats, u)
    ensures forall v :: v in stats ==> v in r && r[v] == stats[v]
    ensures r.Keys == stats.Keys + {u}
  {
    if u in stats then stats else stats[u := 0]
  }

  /** Registering keeps the lock-step exactly when the user is new or its
      amount is still 0; a known user with a non-zero amount ends up with
      a second pair `(0, user)` beside its real one. */
  lemma NewUserLockStep(stats: map<User, int>, sorted: seq<Pair>, u: User)
    requires LockStep(stats, sorted)
    ensures LockStep(NewUserStats(stats, u), Insert(sorted, (0, u))) <==> Amount(stats, u) == 0
  {
    var r := Insert(sorted, (0, u));
    if u in stats {
      if stats[u] == 0 {
        assert (0, u) in Pairs(stats);
      } else {
        assert (0, u) in Elems(r);
        assert (0, u) !in Pairs(stats);
      }
    } else {
      PairsUpdate(stats, u, 0);
      assert (0, u) !in Pairs(stats);
    }
  }

  /** A concrete case: user 1 with amount 5 registers again. */
  lemma ReRegisterBreaksLockStep()
    ensures LockStep(map[1 := 5], [(5, 1)])
    ensures !LockStep(NewUserStats(map[1 := 5], 1), Insert([(5, 1)], (0, 1)))
  {
    var m := map[1 := 5];
    assert Pairs(m) == {(5, 1)} by {
      assert 1 in m && (m[1], 1) in Pairs(m);
    }
    assert Elems([(5, 1)]) == {(5, 1)} by {
      assert (5, 1) in Elems([(5, 1)]);
    }
    NewUserLockStep(map[1 := 5], [(5, 1)], 1);
  }

  /** Adding a delta: the map gets the new total and the ranking trades the
      old pair for the new one, which keeps the lock-step. */
  lemma AddAmountLockStep(stats: map<User, int>, sorted: seq<Pair>, sorted': seq<Pair>, u: User, d: int)
    requires LockStep(stats, sorted)
    requires Sorted(sorted')
    requires Elems(sorted') == Elems(sorted) - {(Amount(stats, u), u)} + {(Amount(stats, u) + d, u)}
    ensures LockStep(stats[u := Amount(stats, u) + d], sorted')
  {
    PairsUpdate(stats, u, Amount(stats, u) + d);
  }

  /** Every amount set to 0, every user kept. */
  function Zeroed(stats: map<User, int>): (r: map<User, int>)
    ensures r.Keys == stats.Keys
    ensures forall v :: v in r ==> r[v] == 0
  {
    map v | v in stats :: 0
  }

  /** The ranking of a reset: one `(0, user)` pair per user. */
  function ZeroPairs(users: set<User>): set<Pair> {
    set v | v in users :: (0, v)
  }

  lemma ZeroPairsAdd(users: set<User>, v: User)
    ensures ZeroPairs(users + {v}) == ZeroPairs(users) + {(0, v)}
  {
    assert (0, v) in ZeroPairs(users + {v});
  }

  lemma PairsZeroed(stats: map<User, int>)
    ensures Pairs(Zeroed(stats)) == ZeroPairs(stats.Keys)
  {
    forall x | x in ZeroPairs(stats.Keys) ensures x in Pairs(Zeroed(stats)) {
      var v :| v in stats.Keys && x == (0, v);
      assert v in Zeroed(stats) && x == (Zeroed(stats)[v], v);
    }
  }

  lemma ZeroedIdempotent(stats: map<User, int>)
    ensures Zeroed(Zeroed(stats)) == Zeroed(stats)
  {
  }

  /** After a reset the ranking is determined: any two rankings in lock-step
      with the zeroed amounts are the same sequence, and resetting again
      changes nothing. */
  lemma ClearDeterminesRanking(stats: map<User, int>, s1: seq<Pair>, s2: seq<Pair>)
    requires LockStep(Zeroed(stats), s1)
    requires LockStep(Zeroed(Zeroed(stats)), s2)
    ensures s1 == s2
  {
    ZeroedIdempotent(stats);
    SortedUnique(s1, s2);
  }

  /** The loop of `clearStatistics`: the ranking starts empty, and each
      user in turn has its amount set to 0 and `(0, user)` put into the
      ranking. */
  method ZeroAll(stats: map<User, int>) returns (zeroed: map<User, int>, ranking: seq<Pair>)
    ensures zeroed == Zeroed(stats)
    ensures LockStep(zeroed, ranking)
  {
    zeroed := stats;
    ranking := [];
    var todo := stats.Keys;
    while todo != {}
      invariant todo <= stats.Keys
      invariant zeroed.Keys == stats.Keys
      invariant forall v :: v in zeroed && v !in todo ==> zeroed[v] == 0
      invariant Sorted(ranking) && Elems(ranking) == ZeroPairs(stats.Keys - todo)
      decreases |todo|
    {
      SomeMember(todo);
      var v :| v in todo;
      zeroed := zeroed[v := 0];
      ranking := Insert(ranking, (0, v));
      RemainingStep(stats.Keys, todo, v);
      ZeroPairsAdd(stats.Keys - todo, v);
      todo := todo - {v};
    }
    assert stats.Keys - todo == stats.Keys;
    assert forall v :: v in zeroed ==> zeroed[v] == Zeroed(stats)[v];
    PairsZeroed(stats);
  }

  /** A user the ranking can find: `userRank` does not return `cend()`. */
  ghost predicate Ranked(stats: map<User, int>, sorted: seq<Pair>, u: User) {
    u in stats && (stats[u], u) in sorted
  }

  lemma LockStepRanked(stats: map<User, int>, sorted: seq<Pair>, u: User)
    requires LockStep(stats, sorted) && u in stats
    ensures Ranked(stats, sorted, u)
  {
    assert (stats[u], u) in Pairs(stats);
  }

  /** `userRank` as a 0-based index: where the user's pair sits, or the
      size of the ranking (`cend()`) when the user or its pair is missing. */
  function UserRank(stats: map<User, int>, sorted: seq<Pair>, u: User): (r: nat)
    ensures r <= |sorted|
    ensures r < |sorted| <==> u in stats && (stats[u], u) in sorted
    ensures r < |sorted| ==> sorted[r] == (stats[u], u)
  {
    if u in stats && (stats[u], u) in sorted then IndexOf(sorted, (stats[u], u)) else |sorted|
  }

  function Min(a: int, b: int): int {
    if a < b then a else b
  }

  function Max(a: int, b: int): int {
    if a < b then b else a
  }

  /** `topStatistic`: the first `neighbors_count` pairs, or all of them. */
  function Top(sorted: seq<Pair>): seq<Pair> {
    sorted[..if |sorted| > NeighborsCount then NeighborsCount else |sorted|]
  }

  /** A sorted sequence holds each pair at one index only. */
  lemma SortedDistinct(s: seq<Pair>, i: nat, j: nat)
    requires Sorted(s) && i < |s| && j < |s| && s[i] == s[j]
    ensures i == j
  {
    if i < j { BeforeIrreflexive(s[i]); }
    if j < i { BeforeIrreflexive(s[j]); }
  }

  /** The top list is the first `min(10, size)` pairs, and a pair is in it
      exactly when its 1-based position is at most 10. */
  lemma TopWindow(s: seq<Pair>)
    requires Sorted(s)
    ensures |Top(s)| == Min(NeighborsCount, |s|) && Top(s) == s[..Min(NeighborsCount, |s|)]
    ensures forall k :: 0 <= k < |s| ==> (s[k] in Top(s) <==> k + 1 <= NeighborsCount)
  {
    SliceMembers(s, 0, Min(NeighborsCount, |s|));
    assert s[..Min(NeighborsCount, |s|)] == s[0..Min(NeighborsCount, |s|)];
  }

  /** Every pair of the top list outranks every pair left out of it. */
  lemma TopOutranksRest(s: seq<Pair>, x: Pair, y: Pair)
    requires Sorted(s) && x in Top(s) && y in s && y !in Top(s)
    ensures Before(x, y)
  {
    TopWindow(s);
    var i :| 0 <= i < |s| && s[i] == x;
    var j :| 0 <= j < |s| && s[j] == y;
    assert i < NeighborsCount <= j;
  }

  /** `neigborsStatistic` for the user at 1-based position `p`: from
      `neighbors_count` pairs before its own (or the start) to
      `neighbors_count` pairs after it (or the end). */
  function Near(sorted: seq<Pair>, p: nat): seq<Pair>
    requires 1 <= p <= |sorted|
  {
    var lo: nat := if p > NeighborsCount then (p - 1) - NeighborsCount else 0;
    var hi: nat := if |sorted| - p > NeighborsCount then (p - 1) + NeighborsCount + 1 else |sorted|;
    sorted[lo..hi]
  }

  /** In a sorted sequence a slice holds exactly the pairs at its indices. */
  lemma SliceMembers(s: seq<Pair>, lo: nat, hi: nat)
    requires Sorted(s) && lo <= hi <= |s|
    ensures forall k :: 0 <= k < |s| ==> (s[k] in s[lo..hi] <==> lo <= k < hi)
  {
    var w := s[lo..hi];
    forall k | 0 <= k < |s| ensures s[k] in w <==> lo <= k < hi {
      if s[k] in w {
        var j :| 0 <= j < |w| && w[j] == s[k];
        assert s[lo + j] == s[k];
        SortedDistinct(s, lo + j, k);
      }
      if lo <= k < hi { assert w[k - lo] == s[k]; }
    }
  }

  lemma NearSlice(s: seq<Pair>, p: nat)
    requires 1 <= p <= |s|
    ensures 0 <= Max(1, p - NeighborsCount) - 1 < p <= Min(|s|, p + NeighborsCount) <= |s|
    ensures Near(s, p) == s[Max(1, p - NeighborsCount) - 1..Min(|s|, p + NeighborsCount)]
  {
  }

  /** The window is the run of positions `max(1, p-10)` to `min(size, p+10)`,
      so it holds the user's own pair and at most 21 pairs. */
  lemma NearWindow(s: seq<Pair>, p: nat)
    requires Sorted(s) && 1 <= p <= |s|
    ensures Near(s, p) == s[Max(1, p - NeighborsCount) - 1..Min(|s|, p + NeighborsCount)]
    ensures s[p - 1] in Near(s, p)
    ensures |Near(s, p)| <= 2 * NeighborsCount + 1
    ensures forall k :: 0 <= k < |s| ==>
      (s[k] in Near(s, p) <==> Max(1, p - NeighborsCount) <= k + 1 <= Min(|s|, p + NeighborsCount))
  {
    NearSlice(s, p);
    SliceMembers(s, Max(1, p - NeighborsCount) - 1, Min(|s|, p + NeighborsCount));
  }

  /** `userStatistic`: the packet for a user the ranking can find.  The
      position counts the pairs that rank before the user's own, the top
      list is the start of the ranking, and the window holds the user's
      own pair.  For a user that cannot be found the source walks past
      the end of the set, so such a user is excluded. */
  function UserStatistic(stats: map<User, int>, sorted: seq<Pair>, u: User): (r: Packet)
    requires Sorted(sorted) && Ranked(stats, sorted, u)
    ensures r.user == u && 1 <= r.position <= |sorted|
    ensures sorted[r.position - 1] == (stats[u], u)
  {
    var position := UserRank(stats, sorted, u) + 1;
    Packet(u, position, Top(sorted), Near(sorted, position))
  }

  /** What the packet says: the position is 1 plus the number of pairs
      ranked before the user's own, the top list and the window are those
      of that position, and the window holds the user's own pair. */
  lemma UserStatisticContents(stats: map<User, int>, sorted: seq<Pair>, u: User)
    requires Sorted(sorted) && Ranked(stats, sorted, u)
    ensures var r := UserStatistic(stats, sorted, u);
      r.position == 1 + |set y | y in sorted && Before(y, (stats[u], u))| &&
      r.top == Top(sorted) && r.near == Near(sorted, r.position) &&
      (stats[u], u) in r.near
  {
    var r := UserStatistic(stats, sorted, u);
    IndexCountsBefore(sorted, (stats[u], u));
    NearWindow(sorted, r.position);
  }

  /** With the lock-step kept, the position is 1 plus the number of users
      with a larger amount, or the same amount and a smaller id. */
  lemma PositionCountsUsers(stats: map<User, int>, sorted: seq<Pair>, u: User)
    requires LockStep(stats, sorted) && u in stats
    ensures Ranked(stats, sorted, u)
    ensures UserStatistic(stats, sorted, u).position
      == 1 + |set y | y in Pairs(stats) && Before(y, (stats[u], u))|
  {
    LockStepRanked(stats, sorted, u);
    UserStatisticContents(stats, sorted, u);
    assert (set y | y in sorted && Before(y, (stats[u], u)))
        == (set y | y in Pairs(stats) && Before(y, (stats[u], u))) by {
      assert forall y :: y in sorted <==> y in Elems(sorted);
    }
  }

  /** A concrete case: the only user, registered with amount 0, is sent
      position 1 and finds its own pair both in the top list and in its
      window. */
  lemma FirstConnectionPacket()
    ensures Sorted([(0, 1)]) && Ranked(map[1 := 0], [(0, 1)], 1)
    ensures UserStatistic(map[1 := 0], [(0, 1)], 1) == Packet(1, 1, [(0, 1)], [(0, 1)])
  {
    assert UserRank(map[1 := 0], [(0, 1)], 1) == 0;
  }

  /** A non-empty set has a member to pick. */
  lemma SomeMember(s: set<User>)
    requires s != {}
    ensures exists v :: v in s
  {
    if forall v :: v !in s { assert false; }
  }

  // ---------------------------------------------------------------------
  // Time

  /** C++ integer division: the quotient is truncated toward zero. */
  function CppDiv(a: int, b: int): int
    requires b > 0
  {
    if a >= 0 then a / b else -((-a) / b)
  }

  /** C++ `%`: the remainder takes the sign of the dividend. */
  function CppRem(a: int, b: int): int
    requires b > 0
  {
    if a >= 0 then a % b else -((-a) % b)
  }

  lemma CppDivRem(a: int, b: int)
    requires b > 0
    ensures CppDiv(a, b) * b + CppRem(a, b) == a
    ensures a >= 0 ==> 0 <= CppRem(a, b) < b
    ensures a < 0 ==> -b < CppRem(a, b) <= 0
  {
  }

  /** `time % week`: the time projected into its week; for a negative time
      the projection is negative too. */
  function WeekTime(time: int): (wt: int)
    ensures time >= 0 ==> 0 <= wt < Week
    ensures time < 0 ==> -Week < wt <= 0
    ensures time - wt == CppDiv(time, Week) * Week
  {
    CppDivRem(time, Week);
    CppRem(time, Week)
  }

  /** `isNewWeek`: the projected time went backwards. */
  predicate IsNewWeek(last: int, wt: int) {
    last > wt
  }

  /** `isNextMinute`: the two times fall into different minutes. */
  predicate IsNextMinute(last: int, wt: int) {
    CppDiv(last, Minute) != CppDiv(wt, Minute)
  }

  function MinuteMark(k: int): int {
    k * Minute
  }

  /** For a time that moves forward, a broadcast is due exactly when a
      whole minute mark lies in `(last, wt]`. */
  lemma NextMinuteCrossesMark(last: int, wt: int)
    requires 0 <= last <= wt
    ensures IsNextMinute(last, wt) <==> exists k :: last < MinuteMark(k) <= wt
  {
    if IsNextMinute(last, wt) {
      var k := wt / Minute;
      assert last / Minute < k;
      assert last < MinuteMark(k) <= wt;
    }
    if exists k :: last < MinuteMark(k) <= wt {
      var k :| last < MinuteMark(k) <= wt;
      assert last / Minute < k <= wt / Minute;
    }
  }

  // ---------------------------------------------------------------------
  // Broadcast

  function Users(batch: seq<Packet>): set<User> {
    set i | 0 <= i < |batch| :: batch[i].user
  }

  /** What `sendPackets` hands to the packets handler: one packet for each
      connected user, each computed from the current state.  The order of
      `_connected_users`, an `unordered_set`, is not specified, so neither
      is the order of the batch. */
  ghost predicate Broadcast(batch: seq<Packet>, users: set<User>, stats: map<User, int>, sorted: seq<Pair>) {
    Sorted(sorted) &&
    (forall v :: v in users ==> Ranked(stats, sorted, v)) &&
    Users(batch) == users &&
    (forall i, j :: 0 <= i < j < |batch| ==> batch[i].user != batch[j].user) &&
    (forall i :: 0 <= i < |batch| ==> batch[i] == UserStatistic(stats, sorted, batch[i].user))
  }

  lemma {:induction false} DistinctUsersCard(batch: seq<Packet>)
    requires forall i, j :: 0 <= i < j < |batch| ==> batch[i].user != batch[j].user
    ensures |Users(batch)| == |batch|
    decreases |batch|
  {
    if batch != [] {
      var n := |batch| - 1;
      var init := batch[..n];
      DistinctUsersCard(init);
      assert Users(batch) == Users(init) + {batch[n].user} by {
        forall v | v in Users(batch) ensures v in Users(init) + {batch[n].user} {
          var i :| 0 <= i < |batch| && batch[i].user == v;
          if i < n { assert init[i].user == v; }
        }
        forall v | v in Users(init) ensures v in Users(batch) {
          var i :| 0 <= i < |init| && init[i].user == v;
          assert batch[i].user == v;
        }
      }
      assert batch[n].user !in Users(init) by {
        forall i | 0 <= i < |init| ensures init[i].user != batch[n].user {
          assert init[i] == batch[i];
        }
      }
    }
  }

  lemma UsersAppend(batch: seq<Packet>, p: Packet)
    ensures Users(batch + [p]) == Users(batch) + {p.user}
  {
    var b := batch + [p];
    assert b[|batch|].user == p.user;
    forall v | v in Users(batch) ensures v in Users(b) {
      var i :| 0 <= i < |batch| && batch[i].user == v;
      assert b[i].user == v;
    }
  }

  lemma BroadcastAppend(batch: seq<Packet>, users: set<User>, stats: map<User, int>, sorted: seq<Pair>, v: User)
    requires Broadcast(batch, users, stats, sorted)
    requires v !in users && Ranked(stats, sorted, v)
    ensures Broadcast(batch + [UserStatistic(stats, sorted, v)], users + {v}, stats, sorted)
  {
    var p := UserStatistic(stats, sorted, v);
    var b := batch + [p];
    UsersAppend(batch, p);
    forall i | 0 <= i < |batch| ensures batch[i].user in users {
      assert batch[i].user in Users(batch);
    }
    assert forall i :: 0 <= i < |batch| ==> b[i] == batch[i];
  }

  /** Taking one more user off the to-do set adds it to the users done. */
  lemma RemainingStep(users: set<User>, todo: set<User>, v: User)
    requires v in todo && todo <= users
    ensures v !in users - todo
    ensures (users - todo) + {v} == users - (todo - {v})
  {
  }

  /** A broadcast has exactly as many packets as there are connected users. */
  lemma BroadcastSize(batch: seq<Packet>, users: set<User>, stats: map<User, int>, sorted: seq<Pair>)
    requires Broadcast(batch, users, stats, sorted)
    ensures |batch| == |users|
  {
    DistinctUsersCard(batch);
  }

  // ---------------------------------------------------------------------
  // The effect of one event

  /** The part of the handler's state an event can change, with the packets
      still waiting in the packets handler. */
  datatype Engine = Engine(registered: map<User, string>, connected: set<User>,
                           statistics: map<User, int>, sorted: seq<Pair>,
                           lastUpdateWeekTime: int, pending: seq<Packet>)

  /** The deal-won protocol from `s` to `t`: project the time into its week,
      reset when the projection went backwards, add the amount to the user,
      broadcast when a minute boundary was crossed, remember the
      projection.  The new ranking is fixed in both cases: after a reset it
      is the one in lock-step with the new amounts, otherwise the user's
      old pair is traded for the new one. */
  ghost predicate DealWonApplied(s: Engine, u: User, amount: int, time: int, t: Engine) {
    var wt := WeekTime(time);
    var reset := IsNewWeek(s.lastUpdateWeekTime, wt);
    var base := if reset then Zeroed(s.statistics) else s.statistics;
    t.registered == s.registered && t.connected == s.connected &&
    t.statistics == base[u := Amount(base, u) + amount] &&
    (reset ==> LockStep(t.statistics, t.sorted)) &&
    (!reset ==>
      Sorted(t.sorted) &&
      Elems(t.sorted) == Elems(s.sorted) - {(Amount(s.statistics, u), u)} + {(Amount(s.statistics, u) + amount, u)}) &&
    t.lastUpdateWeekTime == wt &&
    (IsNextMinute(s.lastUpdateWeekTime, wt) ==> Broadcast(t.pending, t.connected, t.statistics, t.sorted)) &&
    (!IsNextMinute(s.lastUpdateWeekTime, wt) ==> t.pending == s.pending)
  }

  /** The `switch` of `procesing` as a relation between the state before
      and after one event: each type code names its handler's effect, and
      `undefined` or a code outside the enumerators changes nothing. */
  ghost predicate Applied(s: Engine, e: Event, t: Engine) {
    if e.typeCode == TypeRegistered then
      e.body.Registered? && Sorted(s.sorted) &&
      t == s.(registered := if e.user in s.registered then s.registered else s.registered[e.user := e.body.name],
              statistics := NewUserStats(s.statistics, e.user),
              sorted := Insert(s.sorted, (0, e.user)))
    else if e.typeCode == TypeRenamed then
      e.body.Renamed? && t == s.(registered := s.registered[e.user := e.body.name])
    else if e.typeCode == TypeDealWon then
      e.body.DealWon? && DealWonApplied(s, e.user, e.body.amount, e.body.time, t)
    else if e.typeCode == TypeConnected then
      Sorted(s.sorted) && Ranked(s.statistics, s.sorted, e.user) &&
      t == s.(connected := s.connected + {e.user},
              pending := s.pending + [UserStatistic(s.statistics, s.sorted, e.user)])
    else if e.typeCode == TypeDisconnected then
      t == s.(connected := s.connected - {e.user})
    else
      t == s
  }

  // ---------------------------------------------------------------------
  // The handler

  /** `EventsHandler`: the event queue and the engine's state.  The packets
      handler it was constructed with is kept as a reference. */
  class EventsHandler {
    var unhandled: seq<Event>
    var processing: seq<Event>
    var stopped: bool
    var registered: map<User, string>
    var connected: set<User>
    var statistics: map<User, int>
    var sorted: seq<Pair>
    var lastUpdateWeekTime: int
    const packets: PacketsHandler

    /** The state every operation keeps: the ranking is ordered and every
        connected user can be found in it. */
    ghost predicate Valid()
      reads this
    {
      Sorted(sorted) && forall v :: v in connected ==> Ranked(statistics, sorted, v)
    }

    ghost predicate InLockStep()
      reads this
    {
      LockStep(statistics, sorted)
    }

    /** The engine's state together with the packets still pending. */
    ghost function Snapshot(): Engine
      reads this, packets
    {
      Engine(registered, connected, statistics, sorted, lastUpdateWeekTime, packets.unhandled)
    }

    /** The handler is a static object, so its counters start at zero. */
    constructor (ph: PacketsHandler)
      ensures packets == ph
      ensures unhandled == [] && processing == [] && !stopped
      ensures registered == map[] && connected == {} && statistics == map[] && sorted == []
      ensures lastUpdateWeekTime == 0
      ensures Valid() && InLockStep()
    {
      unhandled := [];
      processing := [];
      stopped := false;
      registered := map[];
      connected := {};
      statistics := map[];
      sorted := [];
      lastUpdateWeekTime := 0;
      packets := ph;
      assert Pairs(map[]) == {};
    }

    /** `put`: the event joins the back of the queue. */
    method Put(e: Event)
      modifies this
      ensures unhandled == old(unhandled) + [e]
      ensures processing == old(processing) && stopped == old(stopped)
      ensures registered == old(registered) && connected == old(connected)
      ensures statistics == old(statistics) && sorted == old(sorted)
      ensures lastUpdateWeekTime == old(lastUpdateWeekTime)
    {
      unhandled := unhandled + [e];
    }

    /** `pop`, once its wait is over (the handler is stopped or the queue is
        non-empty): when running, exactly the front event moves into the
        processing batch; when stopped, nothing is taken. */
    method Pop() returns (ok: bool)
      requires stopped || unhandled != []
      modifies this
      ensures ok == !old(stopped) && stopped == old(stopped)
      ensures ok ==> processing == [old(unhandled)[0]] && unhandled == old(unhandled)[1..]
      ensures !ok ==> processing == [] && unhandled == old(unhandled)
      ensures registered == old(registered) && connected == old(connected)
      ensures statistics == old(statistics) && sorted == old(sorted)
      ensures lastUpdateWeekTime == old(lastUpdateWeekTime)
    {
      processing := [];
      if !stopped {
        processing := processing + [unhandled[0]];
        unhandled := unhandled[1..];
      }
      ok := !stopped;
    }

    /** `stopProcessing`. */
    method StopProcessing()
      modifies this
      ensures stopped
      ensures unhandled == old(unhandled) && processing == old(processing)
      ensures registered == old(registered) && connected == old(connected)
      ensures statistics == old(statistics) && sorted == old(sorted)
      ensures lastUpdateWeekTime == old(lastUpdateWeekTime)
    {
      stopped := true;
    }

    /** The first statement of `procesing`: a stop requested earlier is
        forgotten. */
    method StartProcessing()
      modifies this
      ensures !stopped
      ensures unhandled == old(unhandled) && processing == old(processing)
      ensures registered == old(registered) && connected == old(connected)
      ensures statistics == old(statistics) && sorted == old(sorted)
      ensures lastUpdateWeekTime == old(lastUpdateWeekTime)
    {
      stopped := false;
    }

    /** `addNewUser`: all three `emplace`s leave an existing entry alone. */
    method AddNewUser(u: User, name: string)
      requires Valid()
      modifies this
      ensures Valid()
      ensures registered == if u in old(registered) then old(registered) else old(registered)[u := name]
      ensures statistics == NewUserStats(old(statistics), u)
      ensures sorted == Insert(old(sorted), (0, u))
      ensures old(InLockStep()) ==> (InLockStep() <==> Amount(old(statistics), u) == 0)
      ensures unhandled == old(unhandled) && processing == old(processing) && stopped == old(stopped)
      ensures connected == old(connected) && lastUpdateWeekTime == old(lastUpdateWeekTime)
    {
      if u !in registered {
        registered := registered[u := name];
      }
      ghost var oldStats := statistics;
      ghost var oldSorted := sorted;
      if u !in statistics {
        statistics := statistics[u := 0];
      }
      sorted := Insert(sorted, (0, u));
      if LockStep(oldStats, oldSorted) {
        NewUserLockStep(oldStats, oldSorted, u);
      }
      forall v | v in connected ensures Ranked(statistics, sorted, v) {
        assert (statistics[v], v) in Elems(oldSorted);
      }
    }

    /** `addUserAmount`: the user's total grows by `amount` (a missing user
        counts as 0 and is added), and its pair is taken out of the ranking,
        re-keyed with the new total and put back; every other user's entry
        stays as it was. */
    method AddUserAmount(u: User, amount: int)
      requires Valid()
      modifies this
      ensures Valid()
      ensures statistics == old(statistics)[u := Amount(old(statistics), u) + amount]
      ensures Elems(sorted) == Elems(old(sorted)) - {(Amount(old(statistics), u), u)}
                                                  + {(Amount(old(statistics), u) + amount, u)}
      ensures old(InLockStep()) ==> InLockStep()
      ensures unhandled == old(unhandled) && processing == old(processing) && stopped == old(stopped)
      ensures registered == old(registered) && connected == old(connected)
      ensures lastUpdateWeekTime == old(lastUpdateWeekTime)
    {
      ghost var oldStats := statistics;
      ghost var oldSorted := sorted;
      assert forall v :: v in connected ==> Ranked(oldStats, oldSorted, v);
      var lastAmount := if u in statistics then statistics[u] else 0;
      var total := lastAmount + amount;
      statistics := statistics[u := total];
      if (lastAmount, u) in sorted {
        sorted := Insert(Remove(sorted, (lastAmount, u)), (total, u));
      } else {
        assert Elems(sorted) - {(lastAmount, u)} == Elems(sorted);
        sorted := Insert(sorted, (total, u));
      }
      if LockStep(oldStats, oldSorted) {
        AddAmountLockStep(oldStats, oldSorted, sorted, u, amount);
      }
      forall v | v in connected ensures Ranked(statistics, sorted, v) {
        if v != u {
          assert (oldStats[v], v) in Elems(oldSorted);
          assert (statistics[v], v) in Elems(sorted);
        } else {
          assert (total, u) in Elems(sorted);
        }
      }
    }

    /** `clearStatistics`: every amount becomes 0 and the ranking is rebuilt
        with one `(0, user)` pair per known user; nothing else changes. */
    method ClearStatistics()
      requires Valid()
      modifies this
      ensures Valid() && InLockStep()
      ensures statistics == Zeroed(old(statistics))
      ensures unhandled == old(unhandled) && processing == old(processing) && stopped == old(stopped)
      ensures registered == old(registered) && connected == old(connected)
      ensures lastUpdateWeekTime == old(lastUpdateWeekTime)
    {
      assert forall v :: v in connected ==> v in statistics;
      statistics, sorted := ZeroAll(statistics);
      forall v | v in connected ensures Ranked(statistics, sorted, v) {
        LockStepRanked(statistics, sorted, v);
      }
    }

    /** The batch `sendPackets` builds with `std::transform`: one snapshot
        per connected user, all computed from the same state. */
    method Snapshots() returns (batch: seq<Packet>)
      requires Valid()
      ensures Broadcast(batch, connected, statistics, sorted)
    {
      var users, stats, ranking := connected, statistics, sorted;
      batch := [];
      var todo := users;
      assert Users([]) == {};
      while todo != {}
        invariant todo <= users
        invariant Broadcast(batch, users - todo, stats, ranking)
        decreases |todo|
      {
        SomeMember(todo);
        var v :| v in todo;
        BroadcastAppend(batch, users - todo, stats, ranking, v);
        RemainingStep(users, todo, v);
        batch := batch + [UserStatistic(stats, ranking, v)];
        todo := todo - {v};
      }
      assert users - todo == users;
    }

    /** `sendPackets`: the snapshots replace whatever packets were still
        pending. */
    method SendPackets()
      requires Valid()
      modifies packets
      ensures Broadcast(packets.unhandled, connected, statistics, sorted)
      ensures packets.processing == old(packets.processing) && packets.stopped == old(packets.stopped)
    {
      var batch := Snapshots();
      packets.Replace(batch);
    }

    /** `updateTime`. */
    method UpdateTime(wt: int)
      modifies this
      ensures lastUpdateWeekTime == wt
      ensures unhandled == old(unhandled) && processing == old(processing) && stopped == old(stopped)
      ensures registered == old(registered) && connected == old(connected)
      ensures statistics == old(statistics) && sorted == old(sorted)
    {
      lastUpdateWeekTime := wt;
    }

    /** `updateUserStatistics`, the deal-won protocol: project the time into
        its week, reset when the projection went backwards, add the amount,
        broadcast when a minute boundary was crossed, remember the
        projection.  After a reset the user's total is exactly the amount. */
    method UpdateUserStatistics(u: User, amount: int, time: int)
      requires Valid()
      modifies this, packets
      ensures Valid()
      ensures lastUpdateWeekTime == WeekTime(time)
      ensures var base := if IsNewWeek(old(lastUpdateWeekTime), WeekTime(time)) then Zeroed(old(statistics)) else old(statistics);
        statistics == base[u := Amount(base, u) + amount]
      ensures IsNewWeek(old(lastUpdateWeekTime), WeekTime(time)) ==> statistics[u] == amount
      ensures IsNewWeek(old(lastUpdateWeekTime), WeekTime(time)) || old(InLockStep()) ==> InLockStep()
      ensures !IsNewWeek(old(lastUpdateWeekTime), WeekTime(time)) ==>
        Elems(sorted) == Elems(old(sorted)) - {(Amount(old(statistics), u), u)}
                                            + {(Amount(old(statistics), u) + amount, u)}
      ensures DealWonApplied(old(Snapshot()), u, amount, time, Snapshot())
      ensures IsNextMinute(old(lastUpdateWeekTime), WeekTime(time)) ==>
        Broadcast(packets.unhandled, connected, statistics, sorted)
      ensures !IsNextMinute(old(lastUpdateWeekTime), WeekTime(time)) ==>
        packets.unhandled == old(packets.unhandled)
      ensures packets.processing == old(packets.processing) && packets.stopped == old(packets.stopped)
      ensures unhandled == old(unhandled) && processing == old(processing) && stopped == old(stopped)
      ensures registered == old(registered) && connected == old(connected)
    {
      var wt := WeekTime(time);
      if IsNewWeek(lastUpdateWeekTime, wt) {
        ClearStatistics();
      }
      AddUserAmount(u, amount);
      if IsNextMinute(lastUpdateWeekTime, wt) {
        SendPackets();
      }
      UpdateTime(wt);
    }

    /** `registered`. */
    method OnRegistered(u: User, name: string)
      requires Valid()
      modifies this
      ensures Valid()
      ensures registered == if u in old(registered) then old(registered) else old(registered)[u := name]
      ensures statistics == NewUserStats(old(statistics), u)
      ensures sorted == Insert(old(sorted), (0, u))
      ensures unhandled == old(unhandled) && processing == old(processing) && stopped == old(stopped)
      ensures connected == old(connected) && lastUpdateWeekTime == old(lastUpdateWeekTime)
    {
      AddNewUser(u, name);
    }

    /** `renamed`: the name is overwritten, or created for an unknown user. */
    method OnRenamed(u: User, name: string)
      requires Valid()
      modifies this
      ensures Valid()
      ensures registered == old(registered)[u := name]
      ensures unhandled == old(unhandled) && processing == old(processing) && stopped == old(stopped)
      ensures connected == old(connected) && lastUpdateWeekTime == old(lastUpdateWeekTime)
      ensures statistics == old(statistics) && sorted == old(sorted)
    {
      registered := registered[u := name];
    }

    /** `connected`: the user joins the connected set and exactly one packet,
        its own snapshot, is queued.  The user must be one the ranking can
        find (see `UserStatistic`). */
    method OnConnected(u: User)
      requires Valid() && Ranked(statistics, sorted, u)
      modifies this, packets
      ensures Valid()
      ensures connected == old(connected) + {u}
      ensures packets.unhandled == old(packets.unhandled) + [UserStatistic(statistics, sorted, u)]
      ensures packets.processing == old(packets.processing) && packets.stopped == old(packets.stopped)
      ensures unhandled == old(unhandled) && processing == old(processing) && stopped == old(stopped)
      ensures registered == old(registered) && lastUpdateWeekTime == old(lastUpdateWeekTime)
      ensures statistics == old(statistics) && sorted == old(sorted)
    {
      connected := connected + {u};
      packets.Put(UserStatistic(statistics, sorted, u));
    }

    /** `disconnected`. */
    method OnDisconnected(u: User)
      requires Valid()
      modifies this
      ensures Valid()
      ensures connected == old(connected) - {u}
      ensures unhandled == old(unhandled) && processing == old(processing) && stopped == old(stopped)
      ensures registered == old(registered) && lastUpdateWeekTime == old(lastUpdateWeekTime)
      ensures statistics == old(statistics) && sorted == old(sorted)
    {
      connected := connected - {u};
    }

    /** What the dispatch of `procesing` needs of an event: the `static_cast`
        to the class the type code names must be to the event's own class,
        and a connecting user must be one the ranking can find. */
    ghost predicate CanDispatch(e: Event)
      reads this
    {
      (TypeRegistered <= e.typeCode <= TypeDisconnected ==> KindCode(e.body) == e.typeCode) &&
      (e.typeCode == TypeConnected ==> Ranked(statistics, sorted, e.user))
    }

    /** The `switch` of `procesing`: each type code goes to its handler;
        `undefined` and codes outside the enumerators do nothing. */
    method Dispatch(e: Event)
      requires Valid() && CanDispatch(e)
      modifies this, packets
      ensures Valid()
      ensures Applied(old(Snapshot()), e, Snapshot())
      ensures unhandled == old(unhandled) && processing == old(processing) && stopped == old(stopped)
      ensures packets.processing == old(packets.processing) && packets.stopped == old(packets.stopped)
    {
      if e.typeCode == TypeRegistered {
        OnRegistered(e.user, e.body.name);
      } else if e.typeCode == TypeRenamed {
        OnRenamed(e.user, e.body.name);
      } else if e.typeCode == TypeDealWon {
        UpdateUserStatistics(e.user, e.body.amount, e.body.time);
      } else if e.typeCode == TypeConnected {
        OnConnected(e.user);
      } else if e.typeCode == TypeDisconnected {
        OnDisconnected(e.user);
      }
    }

    /** One round of the `procesing` loop: `pop`, then dispatch every event
        of the processing batch. */
    method ProcessStep() returns (ok: bool)
      requires Valid()
      requires stopped || unhandled != []
      requires !stopped ==> CanDispatch(unhandled[0])
      modifies this, packets
      ensures Valid()
      ensures ok == !old(stopped) && stopped == old(stopped)
      ensures ok ==> unhandled == old(unhandled)[1..] && processing == [old(unhandled)[0]]
      ensures ok ==> Applied(old(Snapshot()), old(unhandled)[0], Snapshot())
      ensures !ok ==> unhandled == old(unhandled) && processing == [] && Snapshot() == old(Snapshot())
      ensures packets.processing == old(packets.processing) && packets.stopped == old(packets.stopped)
    {
      ok := Pop();
      if ok {
        var i := 0;
        while i < |processing|
          invariant 0 <= i <= |processing| && processing == [old(unhandled)[0]]
          invariant Valid() && stopped == old(stopped)
          invariant unhandled == old(unhandled)[1..]
          invariant packets.processing == old(packets.processing) && packets.stopped == old(packets.stopped)
          invariant i == 0 ==> CanDispatch(processing[0]) && Snapshot() == old(Snapshot())
          invariant i == 1 ==> Applied(old(Snapshot()), processing[0], Snapshot())
        {
          Dispatch(processing[i]);
          i := i + 1;
        }
      }
    }
  }
}
