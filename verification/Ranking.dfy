/** The senders of a window ranked by what they contribute, and which of them may be penalized. */
module Ranking {
  import opened Words
  import opened Model
  import opened Sorting
  import opened Collisions
  import opened Detect

  datatype Contribution = Contribution(
    identity: SenderIdentity, service: ServiceClass, shielded: bool, collided: bool, synchronized: bool,
    mitigable: bool, offeredRate: u64, offeredShareBp: BasisPoints, aggregateShareBp: BasisPoints, arrivalOffset: int)

  // ----- One contribution for each identity -----

  function Xor(a: nat, b: nat): nat
    decreases a, b
  {
    if a == 0 && b == 0 then 0
    else (if a % 2 != b % 2 then 1 else 0) + 2 * Xor(a / 2, b / 2)
  }

  const WORD: nat := MAX_U64 + 1
  const INCARNATION_FACTOR: nat := 0x9E37_79B9_7F4A_7C15
  const FLOW_FACTOR: nat := 0xC2B2_AE3D_27D4_EB4F

  /** The 64-bit key under which an identity counts as seen. */
  function Key(i: SenderIdentity): nat {
    Xor(Xor(i.sender % WORD, i.incarnation * INCARNATION_FACTOR % WORD), i.flow * FLOW_FACTOR % WORD)
  }

  predicate HasKey(r: Sender, k: nat) { r.identity.Valid() && Key(r.identity) == k }

  predicate SeenIn(rows: seq<Sender>, k: nat) { exists r | r in rows :: HasKey(r, k) }

  /** The usable rows whose key no earlier row has. */
  function Firsts(rows: seq<Sender>): (r: seq<Sender>)
    decreases |rows|
  {
    if rows == [] then []
    else
      var front, last := rows[..|rows| - 1], rows[|rows| - 1];
      if last.identity.Valid() && !SeenIn(front, Key(last.identity)) then Firsts(front) + [last]
      else Firsts(front)
  }

  // ----- Contributions -----

  /** What a contribution is measured against. */
  datatype Setting = Setting(policy: Policy, metrics: Metrics, synchronization: Synchronization, collided: set<nat>)

  function Contribute(r: Sender, g: Setting): Contribution {
    var m := g.metrics;
    var limit := if m.earliestArrival != 0 then m.earliestArrival + g.synchronization.syncWindowBound else 0;
    var shielded := IsProtected(r, g.policy);
    var collided := r.identity.sender in g.collided;
    var synchronized := g.synchronization.synchronized && limit != 0 && r.firstArrival != 0
                        && m.earliestArrival <= r.firstArrival <= limit;
    Contribution(r.identity, r.service, shielded, collided, synchronized, synchronized && !shielded && !collided,
                 r.offeredRate, RatioBp(r.offeredRate, m.aggregateOffered), RatioBp(r.offeredRate, m.serviceRate),
                 if r.firstArrival != 0 && m.earliestArrival != 0 && r.firstArrival >= m.earliestArrival
                 then r.firstArrival - m.earliestArrival else 0)
  }

  function Contributors(rows: seq<Sender>, g: Setting): (cs: seq<Contribution>)
    ensures |cs| == |rows|
    ensures forall i | 0 <= i < |rows| :: cs[i] == Contribute(rows[i], g)
    decreases |rows|
  {
    if rows == [] then [] else Contributors(rows[..|rows| - 1], g) + [Contribute(rows[|rows| - 1], g)]
  }

  /** Most offered first, then by incarnation, flow and sender. */
  function ByRate(): (Contribution, Contribution) -> bool {
    (a: Contribution, b: Contribution) =>
      if a.offeredRate != b.offeredRate then a.offeredRate > b.offeredRate
      else if a.identity.incarnation != b.identity.incarnation then a.identity.incarnation < b.identity.incarnation
      else if a.identity.flow != b.identity.flow then a.identity.flow < b.identity.flow
      else a.identity.sender <= b.identity.sender
  }

  function Ranked(rows: seq<Sender>, g: Setting): seq<Contribution> { Sorted(ByRate(), Contributors(Firsts(rows), g)) }

  /** The pass with its set of seen keys. */
  method RankContributions(rows: seq<Sender>, g: Setting) returns (cs: seq<Contribution>)
    ensures cs == Ranked(rows, g)
  {
    hide Key, Contribute, Sorted, ByRate, SeenIn, Firsts, Contributors;
    FirstsStep([], NO_SENDER);
    ContributorsStep([], NO_SENDER, g);
    NothingSeen();
    cs := [];
    var seen: set<nat> := {};
    for index := 0 to |rows|
      invariant cs == Contributors(Firsts(rows[..index]), g)
      invariant forall k :: k in seen <==> SeenIn(rows[..index], k)
    {
      var sender := rows[index];
      SeenGrows(rows[..index], sender);
      FirstsStep(rows[..index], sender);
      ContributorsStep(Firsts(rows[..index]), sender, g);
      assert rows[..index + 1] == rows[..index] + [sender];
      if !sender.identity.Valid() { continue; }
      var key := Key(sender.identity);
      if key in seen { continue; }
      seen := seen + {key};
      cs := cs + [Contribute(sender, g)];
    }
    assert rows[..|rows|] == rows;
    cs := Sorted(ByRate(), cs);
  }

  const NO_SENDER: Sender := Sender(SenderIdentity(0, 0, 0), BestEffort, false, 0, 0, 0)

  lemma NothingSeen()
    ensures forall k :: !SeenIn([], k)
  {}

  lemma SeenGrows(front: seq<Sender>, last: Sender)
    ensures forall k :: SeenIn(front + [last], k) <==> SeenIn(front, k) || HasKey(last, k)
  {
    hide Key;
    assert forall x :: x in front + [last] <==> x in front || x == last;
  }

  lemma FirstsStep(front: seq<Sender>, last: Sender)
    ensures Firsts([]) == []
    ensures Firsts(front + [last]) ==
      if last.identity.Valid() && !SeenIn(front, Key(last.identity)) then Firsts(front) + [last] else Firsts(front)
  {
    assert (front + [last])[..|front|] == front;
  }

  lemma ContributorsStep(front: seq<Sender>, last: Sender, g: Setting)
    ensures Contributors([], g) == [] && Contributors(front + [last], g) == Contributors(front, g) + [Contribute(last, g)]
  {
    assert (front + [last])[..|front|] == front;
  }

  // ----- Who is ranked -----

  lemma {:induction false} FirstsAreDistinct(rows: seq<Sender>)
    ensures forall r | r in Firsts(rows) :: r in rows && r.identity.Valid()
    ensures forall i, j | 0 <= i < j < |Firsts(rows)| :: Key(Firsts(rows)[i].identity) != Key(Firsts(rows)[j].identity)
    decreases |rows|
  {
    hide Key;
    if rows != [] {
      var front, last := rows[..|rows| - 1], rows[|rows| - 1];
      FirstsAreDistinct(front);
      assert rows == front + [last];
      assert forall r | r in Firsts(front) :: r in front && HasKey(r, Key(r.identity));
    }
  }

  lemma IdentitiesDiffer(rows: seq<Sender>, i: nat, j: nat)
    requires i < |Firsts(rows)| && j < |Firsts(rows)| && i != j
    ensures Firsts(rows)[i].identity != Firsts(rows)[j].identity
  {
    hide Key, Firsts;
    FirstsAreDistinct(rows);
  }

  lemma ByRateIsLinear()
    ensures LinearOrder(ByRate())
  {}

  lemma {:induction false} MembersOfContributors(rows: seq<Sender>, g: Setting)
    ensures forall c | c in Contributors(rows, g) :: exists r | r in rows :: c == Contribute(r, g)
  {
    var cs := Contributors(rows, g);
    forall c | c in cs ensures exists r | r in rows :: c == Contribute(r, g) {
      var i :| 0 <= i < |cs| && cs[i] == c;
      assert rows[i] in rows;
    }
  }

  /** Each ranked contribution comes from a usable row, and identities are ranked once. */
  lemma RankedAreRows(rows: seq<Sender>, g: Setting)
    ensures forall c | c in Ranked(rows, g) :: exists r | r in rows && r.identity.Valid() :: c == Contribute(r, g)
    ensures forall i, j | 0 <= i < j < |Ranked(rows, g)| :: Ranked(rows, g)[i].identity != Ranked(rows, g)[j].identity
  {
    hide Key, Contribute, ByRate, Sorted, Firsts;
    var firsts := Firsts(rows);
    var cs, ranked := Contributors(firsts, g), Ranked(rows, g);
    FirstsAreDistinct(rows);
    MembersOfContributors(firsts, g);
    SameMembers(cs, ranked);
    IdentityIsKept(g);
    forall i, j | 0 <= i < j < |cs| ensures cs[i] != cs[j] {
      assert cs[i].identity == firsts[i].identity && cs[j].identity == firsts[j].identity;
    }
    NoRepeatsKept(cs, ranked);
    forall i, j | 0 <= i < j < |ranked| ensures ranked[i].identity != ranked[j].identity {
      assert ranked[i] in cs && ranked[j] in cs;
      var a :| 0 <= a < |cs| && cs[a] == ranked[i];
      var b :| 0 <= b < |cs| && cs[b] == ranked[j];
      assert firsts[a].identity == ranked[i].identity && firsts[b].identity == ranked[j].identity;
      IdentitiesDiffer(rows, a, b);
    }
  }

  lemma IdentityIsKept(g: Setting)
    ensures forall r :: Contribute(r, g).identity == r.identity
  {}

  // ----- Penalization -----

  function CollidedSenders(collisions: seq<Collision>): set<nat> { set c | c in collisions :: c.sender }

  lemma CollidedSendersDisagree(rows: seq<Sender>, k: nat)
    ensures k in CollidedSenders(Collided(rows)) <==> KindFor(rows, k) != NoCollision
  {
    hide Collided, KindFor;
    CollidedReports(rows);
    if KindFor(rows, k) != NoCollision {
      assert CollisionFor(rows, k) in Collided(rows) && CollisionFor(rows, k).sender == k;
    }
    if k in CollidedSenders(Collided(rows)) {
      var c :| c in Collided(rows) && c.sender == k;
      KindIsKept(rows, k);
    }
  }

  /** PENALIZATION SAFETY.  A mitigable contribution names a sender none of whose usable rows is protected or carries
      another incarnation, even when the rows of the window disagree about that sender. */
  lemma MitigableIsSafe(rows: seq<Sender>, g: Setting, c: Contribution, r: Sender)
    requires g.collided == CollidedSenders(Collided(rows)) && c in Ranked(rows, g) && c.mitigable
    requires r in rows && r.identity.Valid() && r.identity.sender == c.identity.sender
    ensures !IsProtected(r, g.policy) && r.identity.incarnation == c.identity.incarnation
  {
    hide Ranked, Collided, RatioBp;
    RankedAreRows(rows, g);
    var own :| own in rows && own.identity.Valid() && c == Contribute(own, g);
    var k := c.identity.sender;
    CollidedSendersDisagree(rows, k);
    assert Speaks(own, k) && Speaks(r, k);
    assert !Reincarnated(rows, k) && !Inconsistent(rows, k);
  }

  /** The row arrived within the synchronization window of a population judged synchronized. */
  predicate Timely(r: Sender, g: Setting) {
    var earliest, latest := g.metrics.earliestArrival, g.metrics.earliestArrival + g.synchronization.syncWindowBound;
    g.synchronization.synchronized && earliest != 0 && latest != 0 && r.firstArrival != 0
    && earliest <= r.firstArrival <= latest
  }

  /** A row without an incarnation is protected, the sender's usable rows agree, and one that counts is timely and not
      protected itself. */
  predicate Bypasses(own: Sender, r: Sender, rows: seq<Sender>, g: Setting) {
    && Timely(own, g) && !IsProtected(own, g.policy) && KindFor(rows, own.identity.sender) == NoCollision
    && r.identity.sender == own.identity.sender && r.identity.incarnation == 0 && IsProtected(r, g.policy)
  }

  lemma CountedRowsAreRanked(rows: seq<Sender>, g: Setting)
    ensures forall own | own in Firsts(rows) :: Contribute(own, g) in Ranked(rows, g)
    ensures forall c | c in Ranked(rows, g) :: exists own | own in Firsts(rows) :: c == Contribute(own, g)
  {
    hide Contribute, ByRate, Sorted, Firsts;
    var firsts := Firsts(rows);
    var cs, ranked := Contributors(firsts, g), Ranked(rows, g);
    SameMembers(cs, ranked);
    MembersOfContributors(firsts, g);
    forall own | own in firsts ensures Contribute(own, g) in ranked {
      var i :| 0 <= i < |firsts| && firsts[i] == own;
      assert cs[i] in cs;
    }
  }

  lemma MitigableRows(own: Sender, rows: seq<Sender>, g: Setting)
    requires g.collided == CollidedSenders(Collided(rows))
    ensures Contribute(own, g).identity == own.identity
    ensures Contribute(own, g).mitigable
      <==> Timely(own, g) && !IsProtected(own, g.policy) && KindFor(rows, own.identity.sender) == NoCollision
  {
    hide Collided, KindFor, IsProtected, RatioBp;
    CollidedSendersDisagree(rows, own.identity.sender);
  }

  /** Rows without an incarnation are skipped, so a protected row of that kind does not shield its sender.  The mitigable
      contributions of a window name only senders without any protected row exactly when no counted row bypasses one. */
  lemma MitigableIsUnshieldedExactlyWhen(rows: seq<Sender>, g: Setting)
    requires g.collided == CollidedSenders(Collided(rows))
    ensures (forall c, r | c in Ranked(rows, g) && c.mitigable && r in rows && r.identity.sender == c.identity.sender ::
               !IsProtected(r, g.policy))
      <==> !(exists own, r | own in Firsts(rows) && r in rows :: Bypasses(own, r, rows, g))
  {
    hide Contribute, Ranked, Collided, KindFor, Timely, IsProtected, Firsts;
    CountedRowsAreRanked(rows, g);
    FirstsAreDistinct(rows);
    forall own | own in Firsts(rows) ensures Contribute(own, g).identity == own.identity {
      MitigableRows(own, rows, g);
    }
    forall c, r | c in Ranked(rows, g) && c.mitigable && r in rows && r.identity.sender == c.identity.sender
                  && IsProtected(r, g.policy)
      ensures exists own | own in Firsts(rows) :: Bypasses(own, r, rows, g)
    {
      var own :| own in Firsts(rows) && c == Contribute(own, g);
      MitigableRows(own, rows, g);
      if r.identity.Valid() { MitigableIsSafe(rows, g, c, r); }
      assert Bypasses(own, r, rows, g);
    }
    forall own, r | own in Firsts(rows) && r in rows && Bypasses(own, r, rows, g)
      ensures exists c | c in Ranked(rows, g) ::
        c.mitigable && r.identity.sender == c.identity.sender && IsProtected(r, g.policy)
    {
      MitigableRows(own, rows, g);
      assert Contribute(own, g) in Ranked(rows, g);
    }
  }

  // ----- Permutation -----

  /** Rows whose keys are pairwise distinct, as rows of a multiset. */
  ghost predicate KeysDistinct(rows: seq<Sender>) {
    && (forall r | r in rows && r.identity.Valid() :: multiset(rows)[r] == 1)
    && forall r, q | r in rows && q in rows && r.identity.Valid() && q.identity.Valid()
                     && Key(r.identity) == Key(q.identity) :: r == q
  }

  function Usable(): Sender -> bool { (r: Sender) => r.identity.Valid() }

  lemma {:induction false} DistinctKeysAreAllFirst(rows: seq<Sender>)
    requires KeysDistinct(rows)
    ensures Firsts(rows) == Selected(Usable(), rows)
    decreases |rows|
  {
    hide Key;
    if rows != [] {
      var n := |rows| - 1;
      var front, last := rows[..n], rows[n];
      assert rows == front + [last];
      assert forall r :: multiset(rows)[r] == multiset(front)[r] + (if r == last then 1 else 0);
      assert KeysDistinct(front) by {
        forall r | r in front && r.identity.Valid() ensures multiset(front)[r] == 1 {
          assert r in rows && r in multiset(front);
        }
      }
      DistinctKeysAreAllFirst(front);
      if last.identity.Valid() {
        assert last !in front by { assert multiset(front)[last] == 0; }
        assert forall r | r in front :: r in rows;
      }
    }
  }

  lemma ContributorsWithout(rows: seq<Sender>, i: nat, g: Setting)
    requires i < |rows|
    ensures multiset(Contributors(rows[..i] + rows[i + 1..], g)) == multiset(Contributors(rows, g)) - multiset{Contribute(rows[i], g)}
  {
    hide Contribute;
    var cs := Contributors(rows, g);
    assert Contributors(rows[..i] + rows[i + 1..], g) == cs[..i] + cs[i + 1..];
    RemoveAt(cs, i);
  }

  lemma SameRemainder<T>(a: multiset<T>, b: multiset<T>, x: T)
    requires x in a && x in b && a - multiset{x} == b - multiset{x}
    ensures a == b
  {
    assert a == (a - multiset{x}) + multiset{x};
    assert b == (b - multiset{x}) + multiset{x};
  }

  lemma {:induction false} ContributorsCount(rows: seq<Sender>, other: seq<Sender>, g: Setting)
    requires multiset(rows) == multiset(other)
    ensures multiset(Contributors(rows, g)) == multiset(Contributors(other, g))
    decreases |rows|
  {
    hide Contribute, Contributors;
    if rows == [] {
      assert |multiset(other)| == |other| == 0;
    } else {
      var n := |rows| - 1;
      assert rows[n] in multiset(other);
      var i :| 0 <= i < |other| && other[i] == rows[n];
      var front, rest := rows[..n] + rows[n + 1..], other[..i] + other[i + 1..];
      assert multiset(front) == multiset(rest) by {
        RemoveAt(other, i);
        RemoveAt(rows, n);
      }
      ContributorsCount(front, rest, g);
      ContributorsWithout(other, i, g);
      ContributorsWithout(rows, n, g);
      Holds(other, i, g);
      Holds(rows, n, g);
      SameRemainder(multiset(Contributors(rows, g)), multiset(Contributors(other, g)), Contribute(rows[n], g));
    }
  }

  lemma Holds(rows: seq<Sender>, i: nat, g: Setting)
    requires i < |rows|
    ensures Contribute(rows[i], g) in multiset(Contributors(rows, g))
  {
    assert Contributors(rows, g)[i] == Contribute(rows[i], g);
  }

  /** PERMUTATION, second half.  With distinct keys, permuting the rows does not change the ranking. */
  lemma RankingForgetsOrder(rows: seq<Sender>, other: seq<Sender>, g: Setting)
    requires multiset(rows) == multiset(other) && KeysDistinct(rows)
    ensures Ranked(rows, g) == Ranked(other, g)
  {
    hide Key, Contribute, Sorted, ByRate, Untied, LinearOrder, Firsts;
    SameMembers(rows, other);
    assert KeysDistinct(other);
    DistinctKeysAreAllFirst(rows);
    DistinctKeysAreAllFirst(other);
    SelectedForgetsOrder(Usable(), rows, other);
    ContributorsCount(Firsts(rows), Firsts(other), g);
    ByRateIsLinear();
    RatesUntied(rows, g);
    SortingForgetsOrder(ByRate(), Contributors(Firsts(rows), g), Contributors(Firsts(other), g));
  }

  lemma TiesShareIdentity(x: Contribution, y: Contribution)
    requires ByRate()(x, y) && ByRate()(y, x)
    ensures x.identity == y.identity
  {}

  lemma RatesUntied(rows: seq<Sender>, g: Setting)
    ensures Untied(ByRate(), Contributors(Firsts(rows), g))
  {
    hide Key, Contribute, Firsts, ByRate;
    var firsts := Firsts(rows);
    var cs := Contributors(firsts, g);
    IdentityIsKept(g);
    forall x, y | x in cs && y in cs && ByRate()(x, y) && ByRate()(y, x) ensures x == y {
      var i :| 0 <= i < |cs| && cs[i] == x;
      var j :| 0 <= j < |cs| && cs[j] == y;
      TiesShareIdentity(x, y);
      if i != j { IdentitiesDiffer(rows, i, j); }
    }
  }

  // ----- Keys -----

  /** The k-th binary digit. */
  function Digit(n: nat, k: nat): nat
    decreases k
  {
    if k == 0 then n % 2 else Digit(n / 2, k - 1)
  }

  /** Exclusive or, digit by digit. */
  lemma {:induction false} XorDigits(a: nat, b: nat, k: nat)
    ensures Digit(Xor(a, b), k) == if Digit(a, k) != Digit(b, k) then 1 else 0
    decreases k
  {
    var x := Xor(a, b);
    if a == 0 && b == 0 {
      ZeroDigits(k);
    } else {
      assert x % 2 == (if a % 2 != b % 2 then 1 else 0) && x / 2 == Xor(a / 2, b / 2);
      if k > 0 { XorDigits(a / 2, b / 2, k - 1); }
    }
  }

  lemma {:induction false} ZeroDigits(k: nat)
    ensures Digit(0, k) == 0
  {
    if k > 0 { ZeroDigits(k - 1); }
  }

  lemma {:induction false} XorCancels(a: nat, b: nat, c: nat)
    requires Xor(a, c) == Xor(b, c)
    ensures a == b
    decreases a + b + c
  {
    if a + b + c > 0 {
      XorSplits(a, c);
      XorSplits(b, c);
      XorCancels(a / 2, b / 2, c / 2);
    }
  }

  lemma XorSplits(a: nat, b: nat)
    ensures Xor(a, b) % 2 == (if a % 2 != b % 2 then 1 else 0) && Xor(a, b) / 2 == Xor(a / 2, b / 2)
  {}

  lemma {:induction false} XorTwice(a: nat, b: nat)
    ensures Xor(Xor(a, b), b) == a
    decreases a + b
  {
    if a + b > 0 {
      XorSplits(a, b);
      XorSplits(Xor(a, b), b);
      XorTwice(a / 2, b / 2);
    }
  }

  lemma {:induction false} XorWithNothing(a: nat)
    ensures Xor(a, 0) == a
    decreases a
  {
    if a > 0 { XorWithNothing(a / 2); }
  }

  lemma {:induction false} XorCommutes(a: nat, b: nat)
    ensures Xor(a, b) == Xor(b, a)
    decreases a + b
  {
    if a + b > 0 { XorCommutes(a / 2, b / 2); }
  }

  lemma {:induction false} XorFits(a: nat, b: nat, n: nat)
    requires a < Pow2(n) && b < Pow2(n)
    ensures Xor(a, b) < Pow2(n)
  {
    if n > 0 && a + b > 0 {
      XorSplits(a, b);
      XorFits(a / 2, b / 2, n - 1);
    }
  }

  /** Multiplying by a factor that has an inverse loses nothing of a word. */
  lemma FactorsLoseNothing(x: nat, y: nat, factor: nat, inverse: nat, wraps: nat)
    requires x < WORD && y < WORD && factor * inverse == wraps * WORD + 1 && x * factor % WORD == y * factor % WORD
    ensures x == y
  {
    var d, t := x - y, x * factor / WORD - y * factor / WORD;
    assert d * factor == t * WORD;
    calc {
      (t * inverse) * WORD;
      (t * WORD) * inverse;
      (d * factor) * inverse;
      d * (factor * inverse);
      d * (wraps * WORD + 1);
      (d * wraps) * WORD + d;
    }
    var m := t * inverse - d * wraps;
    assert m * WORD == d;
  }

  predicate IsWord(i: SenderIdentity) { i.sender < WORD && i.incarnation < WORD && i.flow < WORD }

  /** Two identities that differ in one of their three parts never share a key. */
  lemma KeysTellApart(i: SenderIdentity, j: SenderIdentity)
    requires IsWord(i) && IsWord(j) && Key(i) == Key(j)
    requires (i.sender == j.sender && i.flow == j.flow) || (i.sender == j.sender && i.incarnation == j.incarnation)
          || (i.incarnation == j.incarnation && i.flow == j.flow)
    ensures i == j
  {
    hide Xor;
    var ia, ja := i.incarnation * INCARNATION_FACTOR % WORD, j.incarnation * INCARNATION_FACTOR % WORD;
    var ib, jb := i.flow * FLOW_FACTOR % WORD, j.flow * FLOW_FACTOR % WORD;
    if i.flow == j.flow {
      XorCancels(Xor(i.sender, ia), Xor(j.sender, ja), ib);
      if i.incarnation == j.incarnation {
        XorCancels(i.sender, j.sender, ia);
      } else {
        XorCommutes(i.sender, ia);
        XorCommutes(j.sender, ja);
        XorCancels(ia, ja, i.sender);
        FactorsLoseNothing(i.incarnation, j.incarnation, INCARNATION_FACTOR, 0xF1DE_83E1_9937_733D, 0x957B_BF35_006E_D677);
      }
    } else {
      XorCommutes(Xor(i.sender, ia), ib);
      XorCommutes(Xor(j.sender, ja), jb);
      XorCancels(ib, jb, Xor(i.sender, ia));
      FactorsLoseNothing(i.flow, j.flow, FLOW_FACTOR, 0x0BA7_9078_168D_4BAF, 0x08DD_1DEC_2186_0607);
    }
  }

  /** A sender that the key does not tell from the first one: another sender in its third incarnation. */
  function Double(): SenderIdentity {
    SenderIdentity(Xor(Xor(1, INCARNATION_FACTOR), 3 * INCARNATION_FACTOR % WORD), 3, 0)
  }

  lemma WordPower()
    ensures Pow2(64) == WORD
  {
    WordSizes();
    assert Pow2(36) == 0x10_0000_0000 && Pow2(40) == 0x100_0000_0000 && Pow2(44) == 0x1000_0000_0000;
    assert Pow2(48) == 0x1_0000_0000_0000 && Pow2(52) == 0x10_0000_0000_0000 && Pow2(56) == 0x100_0000_0000_0000;
    assert Pow2(60) == 0x1000_0000_0000_0000;
  }

  /** Different senders may share a key. */
  lemma KeysMayCollide()
    ensures var i := SenderIdentity(1, 1, 0);
      Double().Valid() && IsWord(Double()) && Double().sender != i.sender && Key(Double()) == Key(i)
  {
    hide Xor;
    var i, a, c := SenderIdentity(1, 1, 0), INCARNATION_FACTOR % WORD, 3 * INCARNATION_FACTOR % WORD;
    WordPower();
    XorFits(1, a, 64);
    XorFits(Xor(1, a), c, 64);
    XorTwice(Xor(1, a), c);
    XorSplits(1, a);
    XorSplits(Xor(1, a), c);
    XorWithNothing(Xor(1, a));
    if Double().sender == 1 {
      XorCommutes(1, a);
      XorTwice(a, 1);
      XorCommutes(Xor(1, a), c);
      XorTwice(c, Xor(1, a));
      XorCommutes(1, Xor(1, a));
      assert false;
    }
  }

  /** The identities of the usable rows. */
  ghost predicate Names(rows: seq<Sender>, i: SenderIdentity) { exists r | r in rows :: r.identity == i && i.Valid() }

  lemma {:induction false} FirstsHaveTheKeys(rows: seq<Sender>, k: nat)
    ensures SeenIn(rows, k) <==> exists r | r in Firsts(rows) :: HasKey(r, k)
    decreases |rows|
  {
    hide Key;
    if rows != [] {
      var front, last := rows[..|rows| - 1], rows[|rows| - 1];
      assert rows == front + [last];
      FirstsHaveTheKeys(front, k);
      SeenGrows(front, last);
      FirstsStep(front, last);
      if last.identity.Valid() { FirstsHaveTheKeys(front, Key(last.identity)); }
      assert forall r :: r in Firsts(front) + [last] <==> r in Firsts(front) || r == last;
    }
  }

  /** COUNTED ONCE.  No identity is ranked twice; every usable identity of the window is ranked exactly when no two of them
      share a key. */
  lemma EveryoneIsRankedExactlyWhen(rows: seq<Sender>, g: Setting)
    ensures (forall i | Names(rows, i) :: exists c | c in Ranked(rows, g) :: c.identity == i)
      <==> forall i, j | Names(rows, i) && Names(rows, j) && Key(i) == Key(j) :: i == j
  {
    hide Key, Contribute, Ranked, Firsts;
    CountedRowsAreRanked(rows, g);
    FirstsAreDistinct(rows);
    IdentityIsKept(g);
    if forall i | Names(rows, i) :: exists c | c in Ranked(rows, g) :: c.identity == i {
      forall i, j | Names(rows, i) && Names(rows, j) && Key(i) == Key(j) ensures i == j {
        var c :| c in Ranked(rows, g) && c.identity == i;
        var d :| d in Ranked(rows, g) && d.identity == j;
        var r :| r in Firsts(rows) && c == Contribute(r, g);
        var q :| q in Firsts(rows) && d == Contribute(q, g);
        assert r == q by { SameKeySameRow(rows, r, q); }
      }
    }
    if forall i, j | Names(rows, i) && Names(rows, j) && Key(i) == Key(j) :: i == j {
      forall i | Names(rows, i) ensures exists c | c in Ranked(rows, g) :: c.identity == i {
        var r :| r in rows && r.identity == i && i.Valid();
        assert HasKey(r, Key(i));
        FirstsHaveTheKeys(rows, Key(i));
        var q :| q in Firsts(rows) && HasKey(q, Key(i));
        assert Names(rows, q.identity);
        assert Contribute(q, g) in Ranked(rows, g);
      }
    }
  }

  lemma SameKeySameRow(rows: seq<Sender>, r: Sender, q: Sender)
    requires r in Firsts(rows) && q in Firsts(rows) && Key(r.identity) == Key(q.identity)
    ensures r == q
  {
    hide Key, Firsts;
    FirstsAreDistinct(rows);
    var i :| 0 <= i < |Firsts(rows)| && Firsts(rows)[i] == r;
    var j :| 0 <= j < |Firsts(rows)| && Firsts(rows)[j] == q;
  }

  // ----- Order -----

  /** More is offered, or as much by an earlier incarnation, flow or sender. */
  predicate Outranks(a: Contribution, b: Contribution) {
    a.offeredRate > b.offeredRate
    || (a.offeredRate == b.offeredRate
        && (a.identity.incarnation < b.identity.incarnation
            || (a.identity.incarnation == b.identity.incarnation
                && (a.identity.flow < b.identity.flow
                    || (a.identity.flow == b.identity.flow && a.identity.sender <= b.identity.sender)))))
  }

  /** RANKING.  The heaviest contributions come first. */
  lemma HeaviestFirst(rows: seq<Sender>, g: Setting)
    ensures var cs := Ranked(rows, g);
      |cs| == |Firsts(rows)| && forall i, j | 0 <= i < j < |cs| :: Outranks(cs[i], cs[j])
  {
    hide Key, Contribute, Sorted, Firsts, LinearOrder;
    ByRateIsLinear();
    SortedAscends(ByRate(), Contributors(Firsts(rows), g));
    var cs := Ranked(rows, g);
    assert |multiset(cs)| == |multiset(Contributors(Firsts(rows), g))|;
    forall i, j | 0 <= i < j < |cs| ensures Outranks(cs[i], cs[j]) { RateOutranks(cs[i], cs[j]); }
  }

  lemma RateOutranks(a: Contribution, b: Contribution)
    requires ByRate()(a, b)
    ensures Outranks(a, b)
  {}

  /** What a contribution says of its row: its shares of demand and service, and how long after the first arrival it came. */
  lemma ContributionsMeasure(r: Sender, g: Setting)
    ensures var c := Contribute(r, g);
      && c.identity == r.identity && c.service == r.service && c.offeredRate == r.offeredRate
      && c.offeredShareBp == RatioBp(r.offeredRate, g.metrics.aggregateOffered)
      && c.aggregateShareBp == RatioBp(r.offeredRate, g.metrics.serviceRate)
      && (c.shielded <==> IsProtected(r, g.policy)) && (c.collided <==> r.identity.sender in g.collided)
      && (r.firstArrival != 0 && g.metrics.earliestArrival != 0 ==>
            c.arrivalOffset == Max(0, r.firstArrival - g.metrics.earliestArrival))
  {
    hide RatioBp;
  }
}
