/** The ranking order of the statistics service: `StatisticsComparator`
    orders `(amount, user)` pairs by amount descending and then by user id
    ascending, and `SortedStatistic` is a `std::set` of such pairs under that
    order.  The set is modelled as a sequence kept strictly sorted by the
    comparator; `Insert` and `Remove` are the set's `emplace`/`insert` and
    `extract`/`erase`. */
module Statistics {
  import opened Events

  /** `std::pair<int64_t, Event::User>`: the amount first, then the user. */
  type Pair = (int, User)

  /** `StatisticsComparator::operator()`: does `a` rank strictly before `b`? */
  predicate Before(a: Pair, b: Pair) {
    if a.0 == b.0 then a.1 < b.1 else a.0 > b.0
  }

  lemma BeforeIrreflexive(a: Pair)
    ensures !Before(a, a)
  {
  }

  /** Of two distinct pairs exactly one ranks before the other. */
  lemma BeforeTotal(a: Pair, b: Pair)
    requires a != b
    ensures Before(a, b) <==> !Before(b, a)
  {
  }

  lemma BeforeTransitive(a: Pair, b: Pair, c: Pair)
    requires Before(a, b) && Before(b, c)
    ensures Before(a, c)
  {
  }

  /** The ordering invariant of the `std::set`: strictly increasing under
      the comparator (so in particular free of duplicates). */
  ghost predicate Sorted(s: seq<Pair>) {
    forall i, j :: 0 <= i < j < |s| ==> Before(s[i], s[j])
  }

  function Elems(s: seq<Pair>): set<Pair> {
    set x | x in s
  }

  lemma ConsElems(h: Pair, t: seq<Pair>)
    ensures Elems([h] + t) == {h} + Elems(t)
  {
  }

  lemma {:induction false} SortedCons(h: Pair, t: seq<Pair>)
    requires Sorted(t)
    requires forall y :: y in t ==> Before(h, y)
    ensures Sorted([h] + t)
  {
    var s := [h] + t;
    forall i, j | 0 <= i < j < |s| ensures Before(s[i], s[j]) {
      assert s[j] == t[j - 1];
      if i > 0 { assert s[i] == t[i - 1]; }
    }
  }

  lemma {:induction false} SortedTail(s: seq<Pair>)
    requires Sorted(s) && s != []
    ensures Sorted(s[1..])
    ensures forall y :: y in s[1..] ==> Before(s[0], y)
    ensures s == [s[0]] + s[1..]
    ensures Elems(s) == {s[0]} + Elems(s[1..])
  {
    forall y | y in s[1..] ensures Before(s[0], y) {
      var k :| 0 <= k < |s[1..]| && s[1..][k] == y;
      assert s[k + 1] == y;
    }
    ConsElems(s[0], s[1..]);
  }

  /** Inserting a pair into the set: afterwards the set holds the old pairs
      and `x`, still in order; an equal pair already present stays once. */
  function Insert(s: seq<Pair>, x: Pair): (r: seq<Pair>)
    requires Sorted(s)
    ensures Sorted(r) && Elems(r) == Elems(s) + {x}
  {
    if s == [] then [x]
    else if s[0] == x then s
    else if Before(x, s[0]) then
      SortedTail(s);
      assert forall y :: y in s ==> Before(x, y) by {
        forall y | y in s ensures Before(x, y) {
          if y != s[0] { BeforeTransitive(x, s[0], y); }
        }
      }
      SortedCons(x, s);
      ConsElems(x, s);
      [x] + s
    else
      SortedTail(s);
      var t := Insert(s[1..], x);
      assert forall y :: y in t ==> Before(s[0], y) by {
        forall y | y in t ensures Before(s[0], y) {
          assert y in Elems(t);
          if y == x { BeforeTotal(x, s[0]); }
        }
      }
      SortedCons(s[0], t);
      ConsElems(s[0], t);
      [s[0]] + t
  }

  /** Removing a pair from the set: afterwards the set holds the old pairs
      except `x`, still in order; removing an absent pair changes nothing. */
  function Remove(s: seq<Pair>, x: Pair): (r: seq<Pair>)
    requires Sorted(s)
    ensures Sorted(r) && Elems(r) == Elems(s) - {x}
  {
    if s == [] then []
    else if s[0] == x then
      SortedTail(s);
      assert x !in Elems(s[1..]) by {
        if x in s[1..] { BeforeIrreflexive(x); }
      }
      s[1..]
    else
      SortedTail(s);
      var t := Remove(s[1..], x);
      assert forall y :: y in t ==> Before(s[0], y) by {
        forall y | y in t ensures Before(s[0], y) {
          assert y in Elems(t);
        }
      }
      SortedCons(s[0], t);
      ConsElems(s[0], t);
      [s[0]] + t
  }

  /** The position of a pair in the set, 0-based: `std::distance` from
      `cbegin()` to the iterator `find` returns. */
  function IndexOf(s: seq<Pair>, x: Pair): (i: nat)
    requires x in s
    ensures i < |s| && s[i] == x
    ensures forall k :: 0 <= k < i ==> s[k] != x
  {
    if s[0] == x then 0 else 1 + IndexOf(s[1..], x)
  }

  /** A sorted sequence has no duplicates, so it has as many pairs as
      elements. */
  lemma {:induction false} SortedCard(s: seq<Pair>)
    requires Sorted(s)
    ensures |Elems(s)| == |s|
    decreases |s|
  {
    if s != [] {
      SortedTail(s);
      SortedCard(s[1..]);
      assert s[0] !in Elems(s[1..]) by {
        if s[0] in s[1..] { BeforeIrreflexive(s[0]); }
      }
    }
  }

  /** The set is determined by its elements: two sorted sequences holding
      the same pairs are the same sequence. */
  lemma {:induction false} SortedUnique(a: seq<Pair>, b: seq<Pair>)
    requires Sorted(a) && Sorted(b)
    requires Elems(a) == Elems(b)
    ensures a == b
    decreases |a|
  {
    if a != [] { assert a[0] in Elems(a); }
    if b != [] { assert b[0] in Elems(b); }
    if a != [] && b != [] {
      SortedTail(a);
      SortedTail(b);
      assert a[0] in Elems(b) && b[0] in Elems(a);
      assert a[0] !in Elems(a[1..]) by {
        if a[0] in a[1..] { BeforeIrreflexive(a[0]); }
      }
      assert b[0] !in Elems(b[1..]) by {
        if b[0] in b[1..] { BeforeIrreflexive(b[0]); }
      }
      assert Elems(a[1..]) == Elems(b[1..]);
      SortedUnique(a[1..], b[1..]);
    }
  }

  /** A 0-based position counts exactly the pairs that rank before it. */
  lemma IndexCountsBefore(s: seq<Pair>, x: Pair)
    requires Sorted(s) && x in s
    ensures IndexOf(s, x) == |set y | y in s && Before(y, x)|
  {
    var i := IndexOf(s, x);
    var ahead := set y | y in s && Before(y, x);
    assert ahead == Elems(s[..i]) by {
      forall y | y in ahead ensures y in Elems(s[..i]) {
        var k :| 0 <= k < |s| && s[k] == y;
        if k == i { BeforeIrreflexive(x); }
        if k > i { assert Before(x, y); BeforeTotal(x, y); }
        assert s[..i][k] == y;
      }
      forall y | y in Elems(s[..i]) ensures y in ahead {
        var k :| 0 <= k < i && s[..i][k] == y;
        assert s[k] == y;
      }
    }
    assert Sorted(s[..i]) by {
      forall a, b | 0 <= a < b < |s[..i]| ensures Before(s[..i][a], s[..i][b]) {
        assert s[..i][a] == s[a] && s[..i][b] == s[b];
      }
    }
    SortedCard(s[..i]);
  }

  /** Inserting a pair that is already there leaves the set as it was. */
  lemma InsertPresent(s: seq<Pair>, x: Pair)
    requires Sorted(s) && x in s
    ensures Insert(s, x) == s
  {
    SortedUnique(Insert(s, x), s);
  }

  /** The set knows nothing of users: the same user with two different
      amounts is two separate elements. */
  lemma SameUserTwoAmounts(s: seq<Pair>, u: User, a: int, b: int)
    requires Sorted(s) && (a, u) in s && a != b
    ensures var r := Insert(s, (b, u)); (a, u) in r && (b, u) in r
  {
    var r := Insert(s, (b, u));
    assert (a, u) in Elems(r) && (b, u) in Elems(r);
  }
}
