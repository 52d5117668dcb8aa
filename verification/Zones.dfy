/** Civil time: a zone as its table of clock changes, and the UTC instant of a local time
    with fold=0, as PEP 495 describes it. Instants are integer seconds. */
module Zones {
  import opened Options

  const DAY := 86400

  /** From the instant `at` on, local time is UTC plus `offset`. */
  datatype Change = Change(at: int, offset: int)

  datatype Zone = Zone(base: int, changes: seq<Change>)

  /** The offset in force once the first `k` changes have happened. */
  function OffsetAfter(z: Zone, k: nat): int
    requires k <= |z.changes|
  {
    if k == 0 then z.base else z.changes[k - 1].offset
  }

  /** How many of the first `n` changes have happened by the instant `u`. */
  function Passed(z: Zone, u: int, n: nat): (k: nat)
    requires n <= |z.changes|
    ensures k <= n
  {
    if n == 0 then 0 else if z.changes[n - 1].at <= u then n else Passed(z, u, n - 1)
  }

  function Local(z: Zone, u: int): int
  {
    u + OffsetAfter(z, Passed(z, u, |z.changes|))
  }

  /** The local date, as a day number. */
  function Date(z: Zone, u: int): int { Local(z, u) / DAY }

  /** The local reading at which change `i` is over: the end of the repeated or skipped stretch. */
  function Wall(z: Zone, i: nat): int
    requires i < |z.changes|
  {
    z.changes[i].at + Max(OffsetAfter(z, i), OffsetAfter(z, i + 1))
  }

  /** How many of the first `n` changes are over at the local reading `naive`; in a repeated
      or skipped stretch the change does not count yet, which is what fold=0 asks for. */
  function Settled(z: Zone, naive: int, n: nat): (k: nat)
    requires n <= |z.changes|
    ensures k <= n
  {
    if n == 0 then 0 else if Wall(z, n - 1) <= naive then n else Settled(z, naive, n - 1)
  }

  /** The instant of a local time, or nothing when the round trip does not come back. */
  function CivilUtc(z: Zone, naive: int): (r: Option<int>)
    ensures r.Some? ==> Local(z, r.value) == naive
  {
    var u := naive - OffsetAfter(z, Settled(z, naive, |z.changes|));
    if Local(z, u) == naive then Some(u) else None
  }

  /** Offsets lie strictly inside one day, as the datetime library requires. */
  ghost predicate Bounded(z: Zone)
  {
    forall k: nat | k <= |z.changes| :: -DAY < OffsetAfter(z, k) < DAY
  }

  /** Changes come in order, and each is over before the next one starts on the local clock. */
  ghost predicate Orderly(z: Zone)
  {
    && (forall i | 0 <= i < |z.changes| - 1 :: z.changes[i].at < z.changes[i + 1].at)
    && (forall i | 0 <= i < |z.changes| - 1 ::
          Wall(z, i) <= z.changes[i + 1].at + Min(OffsetAfter(z, i + 1), OffsetAfter(z, i + 2)))
  }

  /** The local date never steps backwards. */
  ghost predicate DateNeverStepsBack(z: Zone)
  {
    forall u: int, v: int | u <= v :: Date(z, u) <= Date(z, v)
  }

  lemma {:induction false} PassedMeans(z: Zone, u: int, n: nat)
    requires n <= |z.changes|
    ensures
      var k := Passed(z, u, n);
      (k > 0 ==> z.changes[k - 1].at <= u) && forall i | k <= i < n :: u < z.changes[i].at
  {
    if n > 0 && u < z.changes[n - 1].at { PassedMeans(z, u, n - 1); }
  }

  lemma {:induction false} SettledMeans(z: Zone, naive: int, n: nat)
    requires n <= |z.changes|
    ensures
      var k := Settled(z, naive, n);
      (k > 0 ==> Wall(z, k - 1) <= naive) && forall i | k <= i < n :: naive < Wall(z, i)
  {
    if n > 0 && naive < Wall(z, n - 1) { SettledMeans(z, naive, n - 1); }
  }

  lemma {:induction false} ChangesInOrder(z: Zone, i: nat, j: nat)
    requires Orderly(z) && i <= j < |z.changes|
    ensures z.changes[i].at <= z.changes[j].at && Wall(z, i) <= Wall(z, j)
    decreases j
  {
    if i < j {
      ChangesInOrder(z, i, j - 1);
      OverBeforeNext(z, j - 1);
    }
  }

  lemma OverBeforeNext(z: Zone, i: nat)
    requires Orderly(z) && i + 1 < |z.changes|
    ensures z.changes[i].at < z.changes[i + 1].at
    ensures Wall(z, i) <= z.changes[i + 1].at + OffsetAfter(z, i + 1)
    ensures Wall(z, i) <= z.changes[i + 1].at + OffsetAfter(z, i + 2)
  {
    assert Wall(z, i) <= z.changes[i + 1].at + Min(OffsetAfter(z, i + 1), OffsetAfter(z, i + 2));
  }

  /** An instant between changes `k - 1` and `k` shows the offset after `k` changes. */
  lemma SegmentOf(z: Zone, u: int, k: nat)
    requires Orderly(z) && k <= |z.changes|
    requires k > 0 ==> z.changes[k - 1].at <= u
    requires k < |z.changes| ==> u < z.changes[k].at
    ensures Passed(z, u, |z.changes|) == k
  {
    PassedMeans(z, u, |z.changes|);
    var p := Passed(z, u, |z.changes|);
    if k < p { ChangesInOrder(z, k, p - 1); }
  }

  /** `v` lies after `s` changes and shows `naive`, at which `k` changes are over: then the
      resolved instant lies after exactly `k` changes and is not later than `v`. */
  lemma ResolvedSegment(z: Zone, naive: int, v: int, s: nat, k: nat)
    requires Orderly(z) && s <= |z.changes| && k <= |z.changes| && naive == v + OffsetAfter(z, s)
    requires (s > 0 ==> z.changes[s - 1].at <= v) && (s < |z.changes| ==> v < z.changes[s].at)
    requires (k > 0 ==> Wall(z, k - 1) <= naive) && (k < |z.changes| ==> naive < Wall(z, k))
    ensures
      var u := naive - OffsetAfter(z, k);
      u <= v && (k > 0 ==> z.changes[k - 1].at <= u) && (k < |z.changes| ==> u < z.changes[k].at)
  {
    if s < k {
      ChangesInOrder(z, s, k - 1);
      assert false;
    }
    if s > k + 1 {
      ChangesInOrder(z, k, s - 2);
      OverBeforeNext(z, s - 2);
      assert false;
    }
  }

  /** If any instant shows `naive`, the resolved one does and is not later. */
  lemma ResolvedIsFirst(z: Zone, naive: int, v: int)
    requires Orderly(z) && Local(z, v) == naive
    ensures CivilUtc(z, naive).Some? && CivilUtc(z, naive).value <= v
  {
    var n := |z.changes|;
    var k := Settled(z, naive, n);
    PassedMeans(z, v, n);
    SettledMeans(z, naive, n);
    ResolvedSegment(z, naive, v, Passed(z, v, n), k);
    SegmentOf(z, naive - OffsetAfter(z, k), k);
  }

  /** PEP 495 with fold=0: the earliest instant that shows the local time, and nothing
      exactly when no instant shows it. */
  lemma CivilUtcIsEarliest(z: Zone, naive: int)
    requires Orderly(z)
    ensures CivilUtc(z, naive).None? <==> forall v: int :: Local(z, v) != naive
    ensures CivilUtc(z, naive).Some? ==>
      var u := CivilUtc(z, naive).value;
      Local(z, u) == naive && forall v: int | Local(z, v) == naive :: u <= v
  {
    forall v: int | Local(z, v) == naive
      ensures CivilUtc(z, naive).Some? && CivilUtc(z, naive).value <= v
    {
      ResolvedIsFirst(z, naive, v);
    }
  }

  /** In a zone that never changes its clock every local time exists. */
  lemma FixedOffset(z: Zone, naive: int)
    requires z.changes == []
    ensures CivilUtc(z, naive) == Some(naive - z.base)
  {
  }

  /** Everything before the resolved instant shows an earlier local time. */
  lemma EarlierShowsEarlier(z: Zone, naive: int, t: int)
    requires Orderly(z) && CivilUtc(z, naive).Some? && t < CivilUtc(z, naive).value
    ensures Local(z, t) < naive
  {
    hide Wall, Orderly;
    var n, u := |z.changes|, CivilUtc(z, naive).value;
    var k, q := Settled(z, naive, n), Passed(z, t, n);
    PassedMeans(z, u, n);
    PassedMeans(z, t, n);
    SettledMeans(z, naive, n);
    ResolvedSegment(z, naive, u, Passed(z, u, n), k);
    if q < k {
      ChangesInOrder(z, q, k - 1);
      BeforeItIsOver(z, t, q);
    } else if k < q {
      ChangesInOrder(z, k, q - 1);
      assert false;
    }
  }

  lemma BeforeItIsOver(z: Zone, t: int, q: nat)
    requires q < |z.changes| && t < z.changes[q].at
    ensures t + OffsetAfter(z, q) < Wall(z, q)
  {
  }

  /** Local times that exist resolve in their own order, whatever the clock does between them. */
  lemma ResolvedInOrder(z: Zone, a: int, b: int)
    requires Orderly(z) && a < b && CivilUtc(z, a).Some? && CivilUtc(z, b).Some?
    ensures CivilUtc(z, a).value < CivilUtc(z, b).value
  {
    hide Settled, Local, Orderly;
    if CivilUtc(z, b).value < CivilUtc(z, a).value { EarlierShowsEarlier(z, a, CivilUtc(z, b).value); }
  }
}
