/** Sender identities that the rows of one window contradict themselves about. */
module Collisions {
  import opened Model
  import opened Sorting

  datatype CollisionKind = NoCollision | DifferentIncarnation | ContradictoryAttributes

  datatype Collision = Collision(sender: nat, kind: CollisionKind, occurrences: nat)

  // ----- What a collision is -----

  /** A usable row of the given sender. */
  predicate Speaks(r: Sender, k: nat) { r.identity.Valid() && r.identity.sender == k }

  predicate Reincarnated(rows: seq<Sender>, k: nat) {
    exists a, b | a in rows && b in rows && Speaks(a, k) && Speaks(b, k) :: a.identity.incarnation != b.identity.incarnation
  }

  predicate Inconsistent(rows: seq<Sender>, k: nat) {
    exists a, b | a in rows && b in rows && Speaks(a, k) && Speaks(b, k) ::
      Strength(a.service) != Strength(b.service) || a.protectedObligation != b.protectedObligation
  }

  function KindFor(rows: seq<Sender>, k: nat): CollisionKind {
    if Reincarnated(rows, k) then DifferentIncarnation
    else if Inconsistent(rows, k) then ContradictoryAttributes
    else NoCollision
  }

  function SpeaksFor(k: nat): Sender -> bool { (r: Sender) => Speaks(r, k) }

  function CollisionFor(rows: seq<Sender>, k: nat): Collision {
    Collision(k, KindFor(rows, k), |Selected(SpeaksFor(k), rows)|)
  }

  /** A report with one entry for every sender whose rows disagree and none for any other, in some order. */
  ghost predicate Reports(list: seq<Collision>, rows: seq<Sender>) {
    && (forall i, j | 0 <= i < j < |list| :: list[i].sender != list[j].sender)
    && (forall c | c in list :: c == CollisionFor(rows, c.sender) && c.kind != NoCollision)
    && forall k | KindFor(rows, k) != NoCollision :: CollisionFor(rows, k) in list
  }

  /** The colliding senders in order of first appearance among the first n rows. */
  function Found(rows: seq<Sender>, n: nat): seq<Collision>
    requires n <= |rows|
  {
    if n == 0 then []
    else
      var k := rows[n - 1].identity.sender;
      if rows[n - 1].identity.Valid() && KindFor(rows, k) != NoCollision && !(exists r | r in rows[..n - 1] :: Speaks(r, k))
      then Found(rows, n - 1) + [CollisionFor(rows, k)]
      else Found(rows, n - 1)
  }

  function KindCode(k: CollisionKind): nat {
    match k
    case NoCollision => 0
    case DifferentIncarnation => 1
    case ContradictoryAttributes => 2
  }

  function BySender(): (Collision, Collision) -> bool {
    (a: Collision, b: Collision) => a.sender < b.sender || (a.sender == b.sender && KindCode(a.kind) <= KindCode(b.kind))
  }

  /** The collisions of a window: the report, sorted. */
  function Collided(rows: seq<Sender>): seq<Collision> { Sorted(BySender(), Found(rows, |rows|)) }

  // ----- The report is unique -----

  lemma {:induction false} FoundSoFar(rows: seq<Sender>, n: nat)
    requires n <= |rows|
    ensures forall i, j | 0 <= i < j < |Found(rows, n)| :: Found(rows, n)[i].sender != Found(rows, n)[j].sender
    ensures forall c | c in Found(rows, n) ::
      c == CollisionFor(rows, c.sender) && c.kind != NoCollision && exists r | r in rows[..n] :: Speaks(r, c.sender)
    ensures forall r | r in rows[..n] && r.identity.Valid() && KindFor(rows, r.identity.sender) != NoCollision ::
      CollisionFor(rows, r.identity.sender) in Found(rows, n)
  {
    hide KindFor;
    if n > 0 {
      FoundSoFar(rows, n - 1);
      assert rows[..n] == rows[..n - 1] + [rows[n - 1]];
      assert forall x | x in rows[..n - 1] :: x in rows[..n];
      assert rows[n - 1].identity.Valid() ==> Speaks(rows[n - 1], rows[n - 1].identity.sender);
      forall c | c in Found(rows, n) ensures exists r | r in rows[..n] :: Speaks(r, c.sender) {
        if c in Found(rows, n - 1) {
          var r :| r in rows[..n - 1] && Speaks(r, c.sender);
        } else {
          assert rows[n - 1] in rows[..n] && Speaks(rows[n - 1], c.sender);
        }
      }
      forall r | r in rows[..n] && r.identity.Valid() && KindFor(rows, r.identity.sender) != NoCollision
        ensures CollisionFor(rows, r.identity.sender) in Found(rows, n)
      {
        if r !in rows[..n - 1] && exists q | q in rows[..n - 1] :: Speaks(q, r.identity.sender) {
          var q :| q in rows[..n - 1] && Speaks(q, r.identity.sender);
          assert CollisionFor(rows, q.identity.sender) in Found(rows, n - 1);
        }
      }
    }
  }

  lemma FoundReports(rows: seq<Sender>)
    ensures Reports(Found(rows, |rows|), rows)
  {
    FoundSoFar(rows, |rows|);
    assert rows[..|rows|] == rows;
    forall k | KindFor(rows, k) != NoCollision ensures CollisionFor(rows, k) in Found(rows, |rows|) {
      var a :| a in rows && Speaks(a, k);
    }
  }

  lemma {:induction false} NoRepeats<T(!new)>(s: seq<T>, x: T)
    requires forall i, j | 0 <= i < j < |s| :: s[i] != s[j]
    ensures multiset(s)[x] == if x in s then 1 else 0
    decreases |s|
  {
    if s != [] {
      assert s == [s[0]] + s[1..];
      NoRepeats(s[1..], x);
    }
  }

  lemma ReportsPermute(s: seq<Collision>, t: seq<Collision>, rows: seq<Sender>)
    requires Reports(s, rows) && Reports(t, rows)
    ensures multiset(s) == multiset(t)
  {
    hide CollisionFor, KindFor;
    forall x ensures multiset(s)[x] == multiset(t)[x] {
      NoRepeats(s, x);
      NoRepeats(t, x);
      assert x in s ==> KindFor(rows, x.sender) != NoCollision by { KindIsKept(rows, x.sender); }
      assert x in t ==> KindFor(rows, x.sender) != NoCollision by { KindIsKept(rows, x.sender); }
    }
  }

  lemma KindIsKept(rows: seq<Sender>, k: nat)
    ensures CollisionFor(rows, k).kind == KindFor(rows, k)
  {}

  lemma SendersDecide(list: seq<Collision>, rows: seq<Sender>)
    requires Reports(list, rows)
    ensures Untied(BySender(), list)
  {}

  lemma BySenderIsLinear()
    ensures LinearOrder(BySender())
  {}

  /** Whatever order the hash map yields the senders in, the sorted report is the same. */
  lemma ReportIsCollided(list: seq<Collision>, rows: seq<Sender>)
    requires Reports(list, rows)
    ensures Sorted(BySender(), list) == Collided(rows)
  {
    hide Reports, LinearOrder, Untied, BySender, Found, Sorted;
    FoundReports(rows);
    ReportsPermute(list, Found(rows, |rows|), rows);
    SendersDecide(list, rows);
    BySenderIsLinear();
    SortingForgetsOrder(BySender(), list, Found(rows, |rows|));
  }

  /** COLLISIONS.  The list is strictly ascending by sender, with exactly one entry, of the right kind and count,
      for each sender whose usable rows disagree. */
  lemma CollidedReports(rows: seq<Sender>)
    ensures Reports(Collided(rows), rows)
    ensures forall i, j | 0 <= i < j < |Collided(rows)| :: Collided(rows)[i].sender < Collided(rows)[j].sender
  {
    hide CollisionFor, KindFor;
    FoundReports(rows);
    BySenderIsLinear();
    SortedAscends(BySender(), Found(rows, |rows|));
    SortedReports(rows);
  }

  lemma TwoPlaces<T>(t: seq<T>, i: nat, j: nat)
    requires i < j < |t| && t[i] == t[j]
    ensures multiset(t)[t[i]] >= 2
  {
    assert t == (t[..i] + [t[i]]) + (t[i + 1..j] + ([t[j]] + t[j + 1..]));
  }

  lemma NoRepeatsKept<T(!new)>(s: seq<T>, t: seq<T>)
    requires (forall i, j | 0 <= i < j < |s| :: s[i] != s[j]) && multiset(s) == multiset(t)
    ensures forall i, j | 0 <= i < j < |t| :: t[i] != t[j]
  {
    forall i, j | 0 <= i < j < |t| ensures t[i] != t[j] {
      if t[i] == t[j] {
        NoRepeats(s, t[i]);
        TwoPlaces(t, i, j);
      }
    }
  }

  lemma SortedReports(rows: seq<Sender>)
    requires Reports(Found(rows, |rows|), rows)
    ensures Reports(Collided(rows), rows)
  {
    hide CollisionFor, KindFor, BySender, Found, Sorted;
    var s, t := Found(rows, |rows|), Collided(rows);
    SameMembers(s, t);
    assert forall i, j | 0 <= i < j < |s| :: s[i] != s[j];
    NoRepeatsKept(s, t);
  }

  /** Permuting the rows does not change the collisions. */
  lemma CollisionsForgetOrder(rows: seq<Sender>, other: seq<Sender>)
    requires multiset(rows) == multiset(other)
    ensures Collided(rows) == Collided(other)
  {
    hide BySender, Found, LinearOrder, Untied;
    FoundReports(rows);
    FoundReports(other);
    forall k ensures CollisionFor(rows, k) == CollisionFor(other, k) && KindFor(rows, k) == KindFor(other, k) {
      SameMembers(rows, other);
      SelectedForgetsOrder(SpeaksFor(k), rows, other);
      assert |multiset(Selected(SpeaksFor(k), rows))| == |Selected(SpeaksFor(k), rows)|;
      assert |multiset(Selected(SpeaksFor(k), other))| == |Selected(SpeaksFor(k), other)|;
    }
    assert Reports(Found(other, |other|), rows) by { hide KindFor, CollisionFor; }
    ReportIsCollided(Found(other, |other|), rows);
  }

  lemma SameMembers<T(!new)>(s: seq<T>, t: seq<T>)
    requires multiset(s) == multiset(t)
    ensures forall x :: x in s <==> x in t
  {
    forall x ensures x in s <==> x in t {
      assert x in s <==> x in multiset(s);
      assert x in t <==> x in multiset(t);
    }
  }

  // ----- The scan -----

  /** What the scan keeps about one sender. */
  datatype Aggregate = Aggregate(occurrences: nat, incarnations: set<nat>, weakest: nat, strongest: nat,
                                 protectedSeen: bool, unprotectedSeen: bool)

  const EMPTY_AGGREGATE: Aggregate := Aggregate(0, {}, 255, 0, false, false)

  function Noted(a: Aggregate, r: Sender): Aggregate {
    var strength := Strength(r.service);
    Aggregate(a.occurrences + 1, a.incarnations + {r.identity.incarnation},
              Min(a.weakest, strength), Max(a.strongest, strength),
              a.protectedSeen || r.protectedObligation, a.unprotectedSeen || !r.protectedObligation)
  }

  function AggregateOf(rows: seq<Sender>, k: nat): Aggregate
    decreases |rows|
  {
    if rows == [] then EMPTY_AGGREGATE
    else
      var a := AggregateOf(rows[..|rows| - 1], k);
      if Speaks(rows[|rows| - 1], k) then Noted(a, rows[|rows| - 1]) else a
  }

  lemma {:induction false} AggregateCounts(rows: seq<Sender>, k: nat)
    ensures AggregateOf(rows, k).occurrences == |Selected(SpeaksFor(k), rows)|
    ensures AggregateOf(rows, k).occurrences > 0 <==> exists r | r in rows :: Speaks(r, k)
  {
    if rows != [] {
      AggregateCounts(rows[..|rows| - 1], k);
      assert rows == rows[..|rows| - 1] + [rows[|rows| - 1]];
    }
  }

  /** Every value an aggregate holds comes from some row, and every row left its mark. */
  lemma {:induction false} AggregateWitnesses(rows: seq<Sender>, k: nat)
    ensures var a := AggregateOf(rows, k);
      forall r | r in rows && Speaks(r, k) ::
        && r.identity.incarnation in a.incarnations && a.weakest <= Strength(r.service) <= a.strongest
        && (if r.protectedObligation then a.protectedSeen else a.unprotectedSeen)
    ensures forall v | v in AggregateOf(rows, k).incarnations :: exists r | r in rows && Speaks(r, k) :: r.identity.incarnation == v
    ensures AggregateOf(rows, k).protectedSeen ==> exists r | r in rows && Speaks(r, k) :: r.protectedObligation
    ensures AggregateOf(rows, k).unprotectedSeen ==> exists r | r in rows && Speaks(r, k) :: !r.protectedObligation
    ensures var a := AggregateOf(rows, k);
      a.weakest != 255 ==> exists r | r in rows && Speaks(r, k) :: Strength(r.service) == a.weakest
    ensures var a := AggregateOf(rows, k);
      a.strongest != 0 ==> exists r | r in rows && Speaks(r, k) :: Strength(r.service) == a.strongest
  {
    if rows != [] {
      var front, last := rows[..|rows| - 1], rows[|rows| - 1];
      AggregateWitnesses(front, k);
      assert rows == front + [last];
      assert forall x :: x in rows <==> x in front || x == last;
      assert Speaks(last, k) ==> AggregateOf(rows, k) == Noted(AggregateOf(front, k), last);
      hide AggregateOf, Speaks;
    }
  }

  function Judged(a: Aggregate): CollisionKind {
    if |a.incarnations| > 1 then DifferentIncarnation
    else if a.weakest != a.strongest || (a.protectedSeen && a.unprotectedSeen) then ContradictoryAttributes
    else NoCollision
  }

  lemma SeveralMembers(s: set<nat>, a: nat)
    requires a in s
    ensures |s| > 1 <==> exists b | b in s :: b != a
  {
    if b :| b in s && b != a {
      assert {a, b} <= s;
      assert |s| == |s - {a, b}| + |{a, b}|;
    } else {
      assert s == {a};
    }
  }

  /** The aggregate of a sender that has spoken decides the kind of its collision. */
  lemma AggregateJudges(rows: seq<Sender>, k: nat, spoken: Sender)
    requires spoken in rows && Speaks(spoken, k)
    ensures Judged(AggregateOf(rows, k)) == KindFor(rows, k)
  {
    hide AggregateOf, Speaks;
    var a := AggregateOf(rows, k);
    AggregateWitnesses(rows, k);
    SeveralMembers(a.incarnations, spoken.identity.incarnation);
    assert Strength(spoken.service) <= 5;
    assert |a.incarnations| > 1 <==> Reincarnated(rows, k);
    if a.weakest != a.strongest {
      if Strength(spoken.service) != a.weakest {
        var low :| low in rows && Speaks(low, k) && Strength(low.service) == a.weakest;
      } else {
        var high :| high in rows && Speaks(high, k) && Strength(high.service) == a.strongest;
      }
      assert Inconsistent(rows, k);
    }
    if a.protectedSeen && a.unprotectedSeen {
      var p :| p in rows && Speaks(p, k) && p.protectedObligation;
      var u :| u in rows && Speaks(u, k) && !u.protectedObligation;
      assert Inconsistent(rows, k);
    }
  }

  /** The scan of the program: one aggregate for each sender, then one entry for each sender the hash map yields. */
  method DetectCollisions(rows: seq<Sender>) returns (collisions: seq<Collision>)
    ensures collisions == Collided(rows)
  {
    hide Sorted, BySender, Found, Noted, KindFor, CollisionFor;
    var bySender := Aggregates(rows);
    var found: seq<Collision> := [];
    var left := bySender.Keys;
    while left != {}
      invariant left <= bySender.Keys
      invariant forall i, j | 0 <= i < j < |found| :: found[i].sender != found[j].sender
      invariant forall c | c in found :: c == CollisionFor(rows, c.sender) && c.kind != NoCollision && c.sender !in left
      invariant forall k | k in bySender && k !in left && KindFor(rows, k) != NoCollision :: CollisionFor(rows, k) in found
      decreases left
    {
      var k :| k in left;
      left := left - {k};
      Entry(rows, k);
      var kind := Judged(bySender[k]);
      if kind == NoCollision { continue; }
      found := found + [Collision(k, kind, bySender[k].occurrences)];
    }
    forall k | KindFor(rows, k) != NoCollision ensures CollisionFor(rows, k) in found { KindMeansSpoken(rows, k); }
    ReportIsCollided(found, rows);
    collisions := Sorted(BySender(), found);
  }

  lemma Entry(rows: seq<Sender>, k: nat)
    requires AggregateOf(rows, k).occurrences > 0
    ensures var a := AggregateOf(rows, k);
      Collision(k, Judged(a), a.occurrences) == CollisionFor(rows, k) && Judged(a) == KindFor(rows, k)
  {
    AggregateCounts(rows, k);
    var r :| r in rows && Speaks(r, k);
    AggregateJudges(rows, k, r);
  }

  lemma KindMeansSpoken(rows: seq<Sender>, k: nat)
    requires KindFor(rows, k) != NoCollision
    ensures AggregateOf(rows, k).occurrences > 0
  {
    var r :| r in rows && Speaks(r, k);
    AggregateCounts(rows, k);
  }

  method Aggregates(rows: seq<Sender>) returns (bySender: map<nat, Aggregate>)
    ensures forall k :: k in bySender <==> AggregateOf(rows, k).occurrences > 0
    ensures forall k | k in bySender :: bySender[k] == AggregateOf(rows, k)
  {
    bySender := map[];
    for index := 0 to |rows|
      invariant forall k :: k in bySender <==> AggregateOf(rows[..index], k).occurrences > 0
      invariant forall k :: AggregateOf(rows[..index], k) == if k in bySender then bySender[k] else EMPTY_AGGREGATE
    {
      var sender := rows[index];
      assert rows[..index + 1][..index] == rows[..index];
      var k := sender.identity.sender;
      if !sender.identity.Valid() { continue; }
      bySender := bySender[k := Noted(if k in bySender then bySender[k] else EMPTY_AGGREGATE, sender)];
    }
    assert rows[..|rows|] == rows;
  }
}
