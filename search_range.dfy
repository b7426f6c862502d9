/**
 * The search-range helpers of the stereo front end: culling ambiguous
 * interest-point matches, naming the cache files, keeping RANSAC inliers,
 * and growing the inlier translations into an integer box expanded by 50%.
 */
module SearchRange {
  import opened Wrappers
  import opened FileNames

  /** An interest point; only its position takes part in the culling. */
  datatype InterestPoint = InterestPoint(x: real, y: real, scale: real, descriptor: seq<real>)

  predicate SameXY(p: InterestPoint, q: InterestPoint)
  {
    p.x == q.x && p.y == q.y
  }

  // ---------------------------------------------------------------------
  // remove_duplicates

  /** Match j reuses a coordinate of match i, on either side. */
  predicate Clashes(ip1: seq<InterestPoint>, ip2: seq<InterestPoint>, i: int, j: int)
    requires 0 <= i < |ip1| <= |ip2| && 0 <= j < |ip1|
  {
    i != j && (SameXY(ip1[i], ip1[j]) || SameXY(ip2[i], ip2[j]))
  }

  /** Match i is ambiguous: some other match shares one of its points. */
  predicate Duplicated(ip1: seq<InterestPoint>, ip2: seq<InterestPoint>, i: int)
    requires 0 <= i < |ip1| <= |ip2|
  {
    exists j :: 0 <= j < |ip1| && Clashes(ip1, ip2, i, j)
  }

  /** The indices below n of the matches that survive, in increasing order. */
  function KeptBelow(ip1: seq<InterestPoint>, ip2: seq<InterestPoint>, n: nat): (r: seq<nat>)
    requires n <= |ip1| <= |ip2|
    ensures forall k :: 0 <= k < |r| ==> r[k] < n
    decreases n
  {
    if n == 0 then []
    else KeptBelow(ip1, ip2, n - 1) + (if Duplicated(ip1, ip2, n - 1) then [] else [n - 1])
  }

  function Kept(ip1: seq<InterestPoint>, ip2: seq<InterestPoint>): (r: seq<nat>)
    requires |ip1| <= |ip2|
    ensures forall k :: 0 <= k < |r| ==> r[k] < |ip1|
  {
    KeptBelow(ip1, ip2, |ip1|)
  }

  /** The surviving indices are increasing and are exactly the unambiguous ones. */
  lemma {:induction false} KeptBelowSpec(ip1: seq<InterestPoint>, ip2: seq<InterestPoint>, n: nat)
    requires n <= |ip1| <= |ip2|
    ensures forall k, l :: 0 <= k < l < |KeptBelow(ip1, ip2, n)| ==>
      KeptBelow(ip1, ip2, n)[k] < KeptBelow(ip1, ip2, n)[l]
    ensures forall i :: 0 <= i < n ==> (i in KeptBelow(ip1, ip2, n) <==> !Duplicated(ip1, ip2, i))
    decreases n
  {
    if n > 0 {
      KeptBelowSpec(ip1, ip2, n - 1);
    }
  }

  /** The elements of `s` at the positions `idx`, in the order of `idx`. */
  function Select<T>(s: seq<T>, idx: seq<int>): (r: seq<T>)
    requires ValidIndices(idx, |s|)
    ensures |r| == |idx|
    ensures forall k :: 0 <= k < |idx| ==> r[k] == s[idx[k]]
  {
    seq(|idx|, k requires 0 <= k < |idx| => s[idx[k]])
  }

  /**
   * remove_duplicates: a match survives when no other match has the same
   * coordinates in the left list or the same coordinates in the right list.
   * The two results replace the caller's lists.
   */
  method RemoveDuplicates(ip1: seq<InterestPoint>, ip2: seq<InterestPoint>)
    returns (new1: seq<InterestPoint>, new2: seq<InterestPoint>)
    requires |ip1| <= |ip2|
    ensures new1 == Select(ip1, Kept(ip1, ip2))
    ensures new2 == Select(ip2, Kept(ip1, ip2))
  {
    new1, new2 := [], [];
    ghost var kept: seq<nat> := [];
    for i := 0 to |ip1|
      invariant kept == KeptBelow(ip1, ip2, i)
      invariant new1 == Select(ip1, kept) && new2 == Select(ip2, kept)
    {
      var badEntry := false;
      for j := 0 to |ip1|
        invariant badEntry <==> exists j' :: 0 <= j' < j && Clashes(ip1, ip2, i, j')
      {
        if i != j && (SameXY(ip1[i], ip1[j]) || SameXY(ip2[i], ip2[j])) {
          badEntry := true;
          assert Clashes(ip1, ip2, i, j);
        } else {
          assert !Clashes(ip1, ip2, i, j);
        }
      }
      if !badEntry {
        new1 := new1 + [ip1[i]];
        new2 := new2 + [ip2[i]];
        kept := kept + [i];
      }
    }
  }

  /** The pair of lists remove_duplicates leaves behind. */
  function Deduplicated(ip1: seq<InterestPoint>, ip2: seq<InterestPoint>)
    : (r: (seq<InterestPoint>, seq<InterestPoint>))
    requires |ip1| <= |ip2|
    ensures |r.0| == |r.1| <= |ip1|
  {
    var kept := Kept(ip1, ip2);
    KeptLength(ip1, ip2);
    (Select(ip1, kept), Select(ip2, kept))
  }

  lemma KeptLength(ip1: seq<InterestPoint>, ip2: seq<InterestPoint>)
    requires |ip1| <= |ip2|
    ensures |Kept(ip1, ip2)| <= |ip1|
  {
    KeptBelowSpec(ip1, ip2, |ip1|);
    var kept := Kept(ip1, ip2);
    IncreasingBounded(kept, |ip1|);
  }

  /** A strictly increasing sequence of numbers below n has at most n elements. */
  lemma {:induction false} IncreasingBounded(s: seq<nat>, n: nat)
    requires forall k :: 0 <= k < |s| ==> s[k] < n
    requires forall k, l :: 0 <= k < l < |s| ==> s[k] < s[l]
    ensures |s| <= n
    decreases n
  {
    if |s| > 0 {
      var init := s[..|s| - 1];
      assert forall k :: 0 <= k < |init| ==> init[k] < s[|s| - 1] < n;
      IncreasingBounded(init, n - 1);
    }
  }

  /**
   * Every survivor of remove_duplicates is unambiguous on both sides:
   * surviving left points are pairwise at distinct coordinates, and so are
   * surviving right points.
   */
  lemma SurvivorsDistinct(ip1: seq<InterestPoint>, ip2: seq<InterestPoint>)
    requires |ip1| <= |ip2|
    ensures var r := Deduplicated(ip1, ip2);
      forall a, b :: 0 <= a < b < |r.0| ==> !SameXY(r.0[a], r.0[b]) && !SameXY(r.1[a], r.1[b])
  {
    var kept := Kept(ip1, ip2);
    KeptBelowSpec(ip1, ip2, |ip1|);
    var r := Deduplicated(ip1, ip2);
    forall a, b | 0 <= a < b < |r.0|
      ensures !SameXY(r.0[a], r.0[b]) && !SameXY(r.1[a], r.1[b])
    {
      assert kept[a] < kept[b];
      assert kept[a] in kept;
      assert !Clashes(ip1, ip2, kept[a], kept[b]);
    }
  }

  /** A second remove_duplicates changes nothing. */
  lemma DeduplicatedIdempotent(ip1: seq<InterestPoint>, ip2: seq<InterestPoint>)
    requires |ip1| <= |ip2|
    ensures var r := Deduplicated(ip1, ip2);
      Deduplicated(r.0, r.1) == r
  {
    var r := Deduplicated(ip1, ip2);
    SurvivorsDistinct(ip1, ip2);
    var m := |r.0|;
    forall i | 0 <= i < m
      ensures !Duplicated(r.0, r.1, i)
    {
      forall j | 0 <= j < m
        ensures !Clashes(r.0, r.1, i, j)
      {
        if i < j {
          assert !SameXY(r.0[i], r.0[j]) && !SameXY(r.1[i], r.1[j]);
        } else if j < i {
          assert !SameXY(r.0[j], r.0[i]) && !SameXY(r.1[j], r.1[i]);
        }
      }
    }
    AllKept(r.0, r.1, m);
    var kept := Kept(r.0, r.1);
    assert Select(r.0, kept) == r.0;
    assert Select(r.1, kept) == r.1;
  }

  /** With no ambiguous match below n, every index below n survives. */
  lemma {:induction false} AllKept(ip1: seq<InterestPoint>, ip2: seq<InterestPoint>, n: nat)
    requires n <= |ip1| <= |ip2|
    requires forall i :: 0 <= i < n ==> !Duplicated(ip1, ip2, i)
    ensures |KeptBelow(ip1, ip2, n)| == n
    ensures forall k :: 0 <= k < n ==> KeptBelow(ip1, ip2, n)[k] == k
    decreases n
  {
    if n > 0 {
      AllKept(ip1, ip2, n - 1);
    }
  }

  // ---------------------------------------------------------------------
  // Cache file names

  datatype CacheFiles = CacheFiles(leftIpFile: string, rightIpFile: string, matchFile: string)

  /**
   * The interest-point files are each image's prefix plus ".vwip"; the match
   * file joins both prefixes with "__" and adds ".match".
   */
  function CacheNames(leftImage: string, rightImage: string): (r: CacheFiles)
    ensures |r.leftIpFile| >= 5 && r.leftIpFile[|r.leftIpFile| - 5..] == ".vwip"
    ensures r.leftIpFile[..|r.leftIpFile| - 5] <= leftImage
    ensures |r.rightIpFile| >= 5 && r.rightIpFile[|r.rightIpFile| - 5..] == ".vwip"
    ensures r.rightIpFile[..|r.rightIpFile| - 5] <= rightImage
    ensures |r.matchFile| >= 6 && r.matchFile[|r.matchFile| - 6..] == ".match"
  {
    var left := PrefixFromFilename(leftImage);
    var right := PrefixFromFilename(rightImage);
    CacheFiles(left + ".vwip", right + ".vwip", left + "__" + right + ".match")
  }

  /** Cutting p + ".ext" at its last '.' gives p back. */
  lemma PrefixOfTagged(p: string, tail: string)
    requires |tail| >= 2 && tail[0] == '.' && '.' !in tail[1..]
    ensures PrefixFromFilename(p + tail) == p
  {
    DotTail(p, tail);
    RFindSpec(p + tail, '.');
    assert (p + tail)[..|p|] == p;
  }

  /**
   * The cache names carry their own extensions, and prefix_from_filename
   * recovers from each of them what it was built from.
   */
  lemma CacheNamesRoundTrip(leftImage: string, rightImage: string)
    ensures var r := CacheNames(leftImage, rightImage);
      && Extension(r.leftIpFile) == ".vwip"
      && Extension(r.rightIpFile) == ".vwip"
      && Extension(r.matchFile) == ".match"
      && PrefixFromFilename(r.leftIpFile) == PrefixFromFilename(leftImage)
      && PrefixFromFilename(r.rightIpFile) == PrefixFromFilename(rightImage)
      && PrefixFromFilename(r.matchFile) ==
         PrefixFromFilename(leftImage) + "__" + PrefixFromFilename(rightImage)
  {
    var left := PrefixFromFilename(leftImage);
    var right := PrefixFromFilename(rightImage);
    var vwip, dotMatch := ".vwip", ".match";
    assert '.' !in vwip[1..] && '.' !in dotMatch[1..];
    PlainTailExtension(left, vwip);
    PlainTailExtension(right, vwip);
    PlainTailExtension(left + "__" + right, dotMatch);
    PrefixOfTagged(left, vwip);
    PrefixOfTagged(right, vwip);
    PrefixOfTagged(left + "__" + right, dotMatch);
  }

  // ---------------------------------------------------------------------
  // Keeping the inliers

  predicate ValidIndices(indices: seq<int>, n: nat)
  {
    forall k :: 0 <= k < |indices| ==> 0 <= indices[k] < n
  }

  /** Keep, in the order of `indices`, the matches RANSAC accepted. */
  method KeepInliers(m1: seq<InterestPoint>, m2: seq<InterestPoint>, indices: seq<int>)
    returns (in1: seq<InterestPoint>, in2: seq<InterestPoint>)
    requires ValidIndices(indices, |m1|) && ValidIndices(indices, |m2|)
    ensures |in1| == |in2| == |indices|
    ensures forall k :: 0 <= k < |indices| ==> in1[k] == m1[indices[k]] && in2[k] == m2[indices[k]]
  {
    in1, in2 := [], [];
    for i := 0 to |indices|
      invariant |in1| == |in2| == i
      invariant forall k :: 0 <= k < i ==> in1[k] == m1[indices[k]] && in2[k] == m2[indices[k]]
    {
      in1 := in1 + [m1[indices[i]]];
      in2 := in2 + [m2[indices[i]]];
    }
  }

  // ---------------------------------------------------------------------
  // Integer boxes

  datatype Vec2i = Vec2i(x: int, y: int)

  /** A BBox2i: the corners `min` and `max`. */
  datatype BBox2i = BBox2i(min: Vec2i, max: Vec2i)

  /** The BBox2i(x, y, width, height) constructor. */
  function BoxFromXYWH(x: int, y: int, width: int, height: int): (r: BBox2i)
    ensures r.min == Vec2i(x, y)
    ensures r.max.x - r.min.x == width && r.max.y - r.min.y == height
  {
    BBox2i(Vec2i(x, y), Vec2i(x + width, y + height))
  }

  /** The box returned when the RANSAC fit throws. */
  const FallbackBox: BBox2i := BoxFromXYWH(-10, -10, 20, 20)

  lemma FallbackBoxCorners()
    ensures FallbackBox.min == Vec2i(-10, -10) && FallbackBox.max == Vec2i(10, 10)
  {
  }

  predicate NonEmpty(b: BBox2i)
  {
    b.min.x <= b.max.x && b.min.y <= b.max.y
  }

  /** Point containment, with both corners included. */
  predicate Contains(b: BBox2i, p: Vec2i)
  {
    b.min.x <= p.x <= b.max.x && b.min.y <= p.y <= b.max.y
  }

  predicate ContainsBox(outer: BBox2i, inner: BBox2i)
  {
    outer.min.x <= inner.min.x && inner.max.x <= outer.max.x &&
    outer.min.y <= inner.min.y && inner.max.y <= outer.max.y
  }

  function Min(a: int, b: int): int { if a <= b then a else b }
  function Max(a: int, b: int): int { if a <= b then b else a }

  /** BBox::grow(point): the smallest box holding both the box and the point. */
  function Grow(b: BBox2i, p: Vec2i): (r: BBox2i)
    requires NonEmpty(b)
    ensures NonEmpty(r) && Contains(r, p) && ContainsBox(r, b)
    ensures forall c :: Contains(c, p) && ContainsBox(c, b) ==> ContainsBox(c, r)
  {
    BBox2i(Vec2i(Min(b.min.x, p.x), Min(b.min.y, p.y)), Vec2i(Max(b.max.x, p.x), Max(b.max.y, p.y)))
  }

  /** The box the first translation starts: from t to t + (1, 1). */
  function UnitBox(t: Vec2i): BBox2i
  {
    BBox2i(t, Vec2i(t.x + 1, t.y + 1))
  }

  /** The box accumulated from a sequence of translations; none for no translation. */
  function Accumulated(ts: seq<Vec2i>): (r: Option<BBox2i>)
    ensures r.Some? <==> |ts| > 0
    ensures r.Some? ==> NonEmpty(r.value)
  {
    if |ts| == 0 then None
    else if |ts| == 1 then Some(UnitBox(ts[0]))
    else Some(Grow(Accumulated(ts[..|ts| - 1]).value, ts[|ts| - 1]))
  }

  /**
   * The accumulated box holds every translation and the first one's
   * (1, 1) corner, and it is the smallest box that does.
   */
  lemma {:induction false} AccumulatedSpec(ts: seq<Vec2i>)
    requires |ts| > 0
    ensures forall k :: 0 <= k < |ts| ==> Contains(Accumulated(ts).value, ts[k])
    ensures ContainsBox(Accumulated(ts).value, UnitBox(ts[0]))
    ensures forall c ::
      (ContainsBox(c, UnitBox(ts[0])) && forall k :: 0 <= k < |ts| ==> Contains(c, ts[k])) ==>
      ContainsBox(c, Accumulated(ts).value)
  {
    if |ts| > 1 {
      var init := ts[..|ts| - 1];
      AccumulatedSpec(init);
      assert init[0] == ts[0];
      assert forall k :: 0 <= k < |init| ==> init[k] == ts[k];
    }
  }

  /** C++ integer division, which truncates toward zero. */
  function TruncDiv(a: int, d: int): int
    requires d > 0
  {
    if a >= 0 then a / d else -((-a) / d)
  }

  /** Widen the box by a quarter of its size on every side. */
  function Expand50(b: BBox2i): (r: BBox2i)
  {
    var offset := Vec2i(TruncDiv(b.max.x - b.min.x, 4), TruncDiv(b.max.y - b.min.y, 4));
    BBox2i(Vec2i(b.min.x - offset.x, b.min.y - offset.y),
           Vec2i(b.max.x + offset.x, b.max.y + offset.y))
  }

  /**
   * The expanded box holds the original and the same centre, and its size
   * is at most 3/2 of the original's and less than 3/2 of it plus 2.
   */
  lemma ExpandSpec(b: BBox2i)
    requires NonEmpty(b)
    ensures ContainsBox(Expand50(b), b)
    ensures var r := Expand50(b);
      r.min.x + r.max.x == b.min.x + b.max.x && r.min.y + r.max.y == b.min.y + b.max.y
    ensures var w, w' := b.max.x - b.min.x, Expand50(b).max.x - Expand50(b).min.x;
      3 * w - 3 <= 2 * w' <= 3 * w
    ensures var h, h' := b.max.y - b.min.y, Expand50(b).max.y - Expand50(b).min.y;
      3 * h - 3 <= 2 * h' <= 3 * h
  {
  }

  // ---------------------------------------------------------------------
  // approximate_search_range

  /**
   * The translation of one match, right minus left, scaled back to full
   * resolution and converted to integers; the floating-point arithmetic is
   * a parameter of the model.
   */
  type Translate = (InterestPoint, InterestPoint) -> Vec2i

  function Translations(m1: seq<InterestPoint>, m2: seq<InterestPoint>, translate: Translate)
    : (r: seq<Vec2i>)
    requires |m1| <= |m2|
    ensures |r| == |m1|
    ensures forall i :: 0 <= i < |m1| ==> r[i] == translate(m1[i], m2[i])
  {
    seq(|m1|, i requires 0 <= i < |m1| => translate(m1[i], m2[i]))
  }

  /** The search window found from a list of matches, before the expansion. */
  method AccumulateTranslations(m1: seq<InterestPoint>, m2: seq<InterestPoint>, translate: Translate)
    returns (range: Option<BBox2i>)
    requires |m1| <= |m2|
    ensures range == Accumulated(Translations(m1, m2, translate))
  {
    ghost var ts := Translations(m1, m2, translate);
    range := None;
    for i := 0 to |m1|
      invariant range == Accumulated(ts[..i])
    {
      var translation := translate(m1[i], m2[i]);
      assert ts[..i + 1][..i] == ts[..i];
      if i == 0 {
        range := Some(UnitBox(translation));
      } else {
        range := Some(Grow(range.value, translation));
      }
    }
    assert ts[..|m1|] == ts;
  }

  /** The outcome of the RANSAC fit: it throws, or it names the inliers. */
  datatype RansacOutcome = Threw | Inliers(indices: seq<int>)

  /** The fit is given a pair of equal-length lists and names only valid inliers. */
  type Ransac = (seq<InterestPoint>, seq<InterestPoint>) -> RansacOutcome

  ghost predicate InliersInRange(ransac: Ransac)
  {
    forall m1, m2 :: ransac(m1, m2).Inliers? ==> ValidIndices(ransac(m1, m2).indices, |m1|)
  }

  /**
   * Where the matches come from: a cached match file, or interest points
   * matched anew (read or detected and written to the cache beforehand).
   */
  datatype MatchSource =
    | CachedMatches(matched1: seq<InterestPoint>, matched2: seq<InterestPoint>)
    | FreshMatches(putative1: seq<InterestPoint>, putative2: seq<InterestPoint>)

  predicate WellFormed(source: MatchSource)
  {
    match source
    case CachedMatches(m1, m2) => |m1| <= |m2|
    case FreshMatches(p1, p2) => |p1| <= |p2|
  }

  /**
   * The matches the search window is computed from: the cached ones, or the
   * fresh ones culled and restricted to the inliers; none when RANSAC throws.
   */
  function FinalMatches(source: MatchSource, ransac: Ransac)
    : (r: Option<(seq<InterestPoint>, seq<InterestPoint>)>)
    requires WellFormed(source) && InliersInRange(ransac)
    ensures r.Some? ==> |r.value.0| <= |r.value.1|
  {
    match source
    case CachedMatches(m1, m2) => Some((m1, m2))
    case FreshMatches(p1, p2) =>
      var d := Deduplicated(p1, p2);
      match ransac(d.0, d.1)
      case Threw => None
      case Inliers(indices) =>
        assert ValidIndices(indices, |d.0|);
        Some((Select(d.0, indices), Select(d.1, indices)))
  }

  /**
   * approximate_search_range: the fallback box when RANSAC throws, otherwise
   * the 50%-expanded box around the translations of the final matches (none
   * when there are no matches).
   */
  method ApproximateSearchRange(source: MatchSource, ransac: Ransac, translate: Translate)
    returns (range: Option<BBox2i>)
    requires WellFormed(source) && InliersInRange(ransac)
    ensures FinalMatches(source, ransac).None? ==> range == Some(FallbackBox)
    ensures FinalMatches(source, ransac).Some? ==>
      var m := FinalMatches(source, ransac).value;
      range == SearchWindow(Translations(m.0, m.1, translate))
  {
    var matched1, matched2;
    match source {
      case CachedMatches(m1, m2) =>
        matched1, matched2 := m1, m2;
      case FreshMatches(p1, p2) =>
        matched1, matched2 := RemoveDuplicates(p1, p2);
        var fit := ransac(matched1, matched2);
        if fit.Threw? {
          return Some(FallbackBox);
        }
        matched1, matched2 := KeepInliers(matched1, matched2, fit.indices);
        assert matched1 == Select(Deduplicated(p1, p2).0, fit.indices);
        assert matched2 == Select(Deduplicated(p1, p2).1, fit.indices);
    }
    var box := AccumulateTranslations(matched1, matched2, translate);
    if box.Some? {
      range := Some(Expand50(box.value));
    } else {
      range := None;
    }
  }

  /** The 50%-expanded accumulated box of a list of translations. */
  function SearchWindow(ts: seq<Vec2i>): Option<BBox2i>
  {
    match Accumulated(ts)
    case None => None
    case Some(b) => Some(Expand50(b))
  }

  /** The search window holds every translation it was computed from. */
  lemma SearchWindowContains(ts: seq<Vec2i>)
    requires |ts| > 0
    ensures SearchWindow(ts).Some?
    ensures forall k :: 0 <= k < |ts| ==> Contains(SearchWindow(ts).value, ts[k])
  {
    AccumulatedSpec(ts);
    ExpandSpec(Accumulated(ts).value);
  }
}
