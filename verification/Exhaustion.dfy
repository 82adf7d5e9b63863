/**
  When sampling exhausts the study window (internal/parameterresearch/planning.go, the loop of
  PlanGlobalValidated): the loop compares the number of known hashes with the size of the window, and
  here is what that comparison means for the coordinates.
 */
module Exhaustion {
  import opened Counting
  import opened Grid
  import opened PlanningSpace
  import opened Planning
  import Sobol

  /** Every known hash is that of a coordinate in the window. */
  ghost predicate KnownInWindow(planner: Planner, existing: map<string, bool>) {
    forall h :: h in existing ==> exists c :: InWindow(planner.space, c) && planner.hash(c) == h
  }

  /** Every known hash is that of a coordinate the study can hold. */
  ghost predicate KnownRegular(planner: Planner, existing: map<string, bool>) {
    forall h :: h in existing ==> exists c :: Regular(planner.space, c) && planner.hash(c) == h
  }

  ghost function HashList(planner: Planner, list: seq<seq<int>>): (hashes: seq<string>)
    ensures |hashes| == |list|
  {
    seq(|list|, i requires 0 <= i < |list| => planner.hash(list[i]))
  }

  lemma HashesAre(planner: Planner, window: seq<seq<int>>, h: string)
    requires WindowPrefixes(planner.space, |planner.space.axes|, window)
    ensures h in Members(HashList(planner, window), |window|) <==> exists c :: InWindow(planner.space, c) && planner.hash(c) == h
  {
    hide Members, AllDistinct;
    var hashes := HashList(planner, window);
    MembersAre(hashes, h);
    if h in hashes {
      var i :| 0 <= i < |hashes| && hashes[i] == h;
      assert window[i] in window;
    }
    if c :| InWindow(planner.space, c) && planner.hash(c) == h {
      assert InPrefix(planner.space, |planner.space.axes|, c);
      var i :| 0 <= i < |window| && window[i] == c;
      assert hashes[i] == h;
    }
  }

  lemma HashesCount(planner: Planner, window: seq<seq<int>>)
    requires InjectiveHash(planner.hash) && AllDistinct(window)
    ensures |Members(HashList(planner, window), |window|)| == |window|
  {
    var hashes := HashList(planner, window);
    forall i, j | 0 <= i < j < |hashes| ensures hashes[i] != hashes[j] {
      assert window[i] != window[j];
    }
    MembersCount(hashes, |hashes|);
  }

  /** A hash that progress has seen was known, or is that of a legal coordinate. */
  lemma SeenIsLegal(planner: Planner, existing: map<string, bool>, p: Progress, h: string)
    requires ValidSpace(planner.space) && SoundProgress(planner, existing, p) && h in p.seen
    ensures h in existing || exists c :: Regular(planner.space, c) && Legal(planner, c) && planner.hash(c) == h
  {
    hide ValidSpace, CoordinateValid, ParametersAt, Regular;
    if h !in existing {
      assert HasHash(p.points, h);
      var i :| 0 <= i < |p.points| && p.points[i].vectorHash == h;
      assert SoundPoint(planner, existing, p.points[i]);
      ValidIsRegular(planner.space, p.points[i].coordinates);
    }
  }

  /**
    As many hashes as the window has coordinates have been seen exactly when the hash of every
    coordinate in the window has.
   */
  lemma ExhaustedWindow(planner: Planner, existing: map<string, bool>, p: Progress)
    requires ValidSpace(planner.space) && InjectiveHash(planner.hash)
    requires KnownInWindow(planner, existing) && SoundProgress(planner, existing, p)
    ensures |p.seen| >= Product(planner.space, |planner.space.axes|)
       <==> forall c :: InWindow(planner.space, c) ==> planner.hash(c) in p.seen
  {
    hide ValidSpace, Product, Members, InWindow, SoundProgress, Legal;
    var window := WindowSize(planner.space, |planner.space.axes|);
    var all := Members(HashList(planner, window), |window|);
    HashesCount(planner, window);
    forall h | h in p.seen ensures h in all {
      SeenIsLegal(planner, existing, p, h);
      HashesAre(planner, window, h);
    }
    SubsetCount(p.seen.Keys, all);
    assert |p.seen| == |p.seen.Keys|;
    forall c | InWindow(planner.space, c) ensures planner.hash(c) in all {
      HashesAre(planner, window, planner.hash(c));
    }
    if forall c :: InWindow(planner.space, c) ==> planner.hash(c) in p.seen {
      forall h | h in all ensures h in p.seen {
        HashesAre(planner, window, h);
      }
      assert p.seen.Keys == all;
    }
  }

  /**
    With only hashes of coordinates the study can hold known beforehand, the sampling loop takes the
    window for exhausted exactly when nothing is excluded and every coordinate has been seen.
   */
  lemma ExhaustedMeansAllSeen(planner: Planner, existing: map<string, bool>, p: Progress)
    requires ValidSpace(planner.space) && InjectiveHash(planner.hash)
    requires KnownRegular(planner, existing) && SoundProgress(planner, existing, p)
    ensures |p.seen| >= Product(planner.space, |planner.space.axes|)
       <==> planner.space.excluded == [] && forall c :: Regular(planner.space, c) ==> planner.hash(c) in p.seen
  {
    hide ValidSpace, Product, SoundProgress, Legal;
    ExhaustedWindow(planner, existing, p);
    if planner.space.excluded != [] {
      var c := planner.space.excluded[0];
      ExcludedInWindow(planner.space, c);
      if planner.hash(c) in p.seen { SeenIsLegal(planner, existing, p, planner.hash(c)); }
    }
  }

  // ----- requests that cannot be met

  /** The coordinates that can still be planned, each once. */
  ghost predicate Remaining(planner: Planner, seen: map<string, bool>, list: seq<seq<int>>) {
    AllDistinct(list) && forall c :: c in list <==> Legal(planner, c) && !Seen(seen, planner.hash(c))
  }

  lemma PointsRemain(planner: Planner, seen: map<string, bool>, p: Progress, list: seq<seq<int>>)
    requires SoundProgress(planner, seen, p) && Remaining(planner, seen, list)
    ensures |p.points| <= |list|
  {
    hide Legal, Members;
    var chosen := seq(|p.points|, i requires 0 <= i < |p.points| => p.points[i].coordinates);
    forall i, j | 0 <= i < j < |chosen| ensures chosen[i] != chosen[j] {
      PointHash(planner, seen, p, i);
      PointHash(planner, seen, p, j);
    }
    MembersCount(chosen, |chosen|);
    MembersCount(list, |list|);
    forall c | c in Members(chosen, |chosen|) ensures c in Members(list, |list|) {
      MembersAre(chosen, c);
      MembersAre(list, c);
      var i :| 0 <= i < |chosen| && chosen[i] == c;
      PointHash(planner, seen, p, i);
    }
    SubsetCount(Members(chosen, |chosen|), Members(list, |list|));
  }

  lemma PointHash(planner: Planner, seen: map<string, bool>, p: Progress, i: nat)
    requires SoundProgress(planner, seen, p) && i < |p.points|
    ensures p.points[i].vectorHash == planner.hash(p.points[i].coordinates)
    ensures Legal(planner, p.points[i].coordinates) && !Seen(seen, p.points[i].vectorHash)
  {
    hide CoordinateValid, ParametersAt;
    assert SoundPoint(planner, seen, p.points[i]);
  }

  /** A coordinate of the window that may not be planned, and is not known, is never seen. */
  lemma NeverExhausted(planner: Planner, existing: map<string, bool>, p: Progress, c: seq<int>)
    requires ValidSpace(planner.space) && InjectiveHash(planner.hash)
    requires KnownInWindow(planner, existing) && SoundProgress(planner, existing, p)
    requires InWindow(planner.space, c) && !Legal(planner, c) && planner.hash(c) !in existing
    ensures |p.seen| < Product(planner.space, |planner.space.axes|)
  {
    hide ValidSpace, Product, SoundProgress, InWindow, Legal;
    ExhaustedWindow(planner, existing, p);
    if planner.hash(c) in p.seen { SeenIsLegal(planner, existing, p, planner.hash(c)); }
  }

  /** However many samples are drawn, they add no more points than remain. */
  lemma FewPoints(planner: Planner, p: Progress, start: nat, list: seq<seq<int>>, k: nat)
    requires |planner.space.axes| <= Sobol.MAX_DIMENSIONS && Remaining(planner, p.seen, list)
    ensures |Sampled(planner, p, start, k).points| <= |p.points| + |list|
  {
    hide Remaining, SoundProgress, Sampled;
    SampledContinues(planner, p, start, 0, k);
    NothingSampled(planner, p, start);
    StartIsSound(planner, p.seen);
    SampledIsSound(planner, p.seen, Start(p.seen), start, k);
    PointsRemain(planner, p.seen, Sampled(planner, Start(p.seen), start, k), list);
  }

  lemma KeepsGoing(planner: Planner, existing: map<string, bool>, p: Progress, start: nat, requested: nat, total: nat, list: seq<seq<int>>, c: seq<int>, k: nat)
    requires ValidSpace(planner.space) && InjectiveHash(planner.hash) && |planner.space.axes| <= Sobol.MAX_DIMENSIONS
    requires KnownInWindow(planner, existing) && SoundProgress(planner, existing, p)
    requires InWindow(planner.space, c) && !Legal(planner, c) && planner.hash(c) !in existing
    requires Remaining(planner, p.seen, list) && requested > |list| && total == Product(planner.space, |planner.space.axes|)
    ensures GoesOn(p, Sampled(planner, p, start, k), requested, total)
  {
    hide ValidSpace, Product, SoundProgress, InWindow, Legal, Remaining, Sampled;
    SampledIsSound(planner, existing, p, start, k);
    NeverExhausted(planner, existing, Sampled(planner, p, start, k), c);
    FewPoints(planner, p, start, list, k);
  }

  /**
    Where some coordinate of the window may not be planned (it is excluded, or the strategy rejects
    it), asking for more points than remain never ends in a plan: the window does not count as
    exhausted, and the attempts run out.
   */
  lemma TooManyRequested(planner: Planner, existing: map<string, bool>, p: Progress, start: nat, requested: nat, total: nat, list: seq<seq<int>>, c: seq<int>)
    requires ValidSpace(planner.space) && InjectiveHash(planner.hash) && KnownInWindow(planner, existing)
    requires SoundProgress(planner, existing, p) && total == Product(planner.space, |planner.space.axes|)
    requires InWindow(planner.space, c) && !Legal(planner, c) && planner.hash(c) !in existing
    requires Remaining(planner, p.seen, list) && requested > |list|
    ensures SamplingFails(planner, p, start, requested, total)
  {
    hide ValidSpace, Product, SoundProgress, InWindow, Legal, Remaining, Sampled, GoesOn;
    if |planner.space.axes| > Sobol.MAX_DIMENSIONS {
      NoSampler(planner, p, start, requested, total);
      NeverExhausted(planner, existing, p, c);
      GoesOnAtFirst(p, requested, total);
    } else {
      forall k: nat ensures GoesOn(p, Sampled(planner, p, start, k), requested, total) {
        KeepsGoing(planner, existing, p, start, requested, total, list, c, k);
      }
      CannotFinish(planner, p, start, requested, total, MaxAttempts(requested));
    }
  }

  lemma GoesOnAtFirst(p: Progress, requested: nat, total: nat)
    requires requested > 0 && |p.seen| < total
    ensures GoesOn(p, p, requested, total)
  {
  }

  /**
    A study with an exclusion cannot plan more Sobol points than remain: whatever the strategy accepts,
    such a request is refused.
   */
  lemma ExclusionRefusesLargeRequest(planner: Planner, base: seq<int>, requested: nat, start: nat, existing: map<string, bool>, includeAnchors: bool,
                                     list: seq<seq<int>>)
    requires ValidRequest(planner, base) && InjectiveHash(planner.hash) && KnownRegular(planner, existing)
    requires planner.space.excluded != [] && Product(planner.space, |planner.space.axes|) <= MAX_UINT64
    requires Remaining(planner, Opening(planner, base, existing, includeAnchors).seen, list) && requested > |list|
    requires start > 0 || requested < Product(planner.space, |planner.space.axes|)
    ensures HasNoPlan(planner, base, requested, start, existing, includeAnchors)
  {
    hide ValidSpace, Product, Opening, Remaining, SoundProgress, SamplingFails;
    var c, opening := planner.space.excluded[0], Opening(planner, base, existing, includeAnchors);
    ProductGrows(planner.space, 0, |planner.space.axes|);
    ExcludedInWindow(planner.space, c);
    ExclusionsNeverCount(planner.space, 0);
    OpeningIsSound(planner, base, existing, includeAnchors);
    TooManyRequested(planner, existing, opening, start, requested, Product(planner.space, |planner.space.axes|), list, c);
  }
}
