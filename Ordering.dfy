/**
 * The composite comparator of the upload handler and the sort it drives:
 * landscape records before portrait ones, and within one orientation the
 * larger width/height ratio first. The ratio difference `b.w/b.h - a.w/a.h`
 * is computed by cross-multiplication, which has the same sign whenever
 * both heights are positive.
 */
module Ordering {
  import opened Images

  /** Negative: `a` goes before `b`; positive: after; zero: either. */
  function Compare(a: Record, b: Record): (r: real)
    ensures a.orientation != b.orientation ==> r != 0.0 && (r < 0.0 <==> a.orientation == Landscape)
    ensures a == b ==> r == 0.0
  {
    if a.orientation == b.orientation then b.width * a.height - a.width * b.height
    else if a.orientation == Landscape then -1.0
    else 1.0
  }

  /** `a` may stand before `b` in a sorted batch. */
  predicate Precedes(a: Record, b: Record)
  {
    Compare(a, b) <= 0.0
  }

  predicate PositiveHeights(s: seq<Record>)
  {
    forall k :: 0 <= k < |s| ==> s[k].height > 0.0
  }

  predicate Sorted(s: seq<Record>)
  {
    forall i, j :: 0 <= i < j < |s| ==> Precedes(s[i], s[j])
  }

  /** For positive heights the cross-multiplied value is the ratio difference
      scaled by the positive factor `a.height * b.height`. */
  lemma CompareIsScaledRatioDifference(a: Record, b: Record)
    requires a.height > 0.0 && b.height > 0.0 && a.orientation == b.orientation
    ensures Compare(a, b) == a.height * b.height * (b.width / b.height - a.width / a.height)
  {
    var rb, ra := b.width / b.height, a.width / a.height;
    assert rb * b.height == b.width;
    assert ra * a.height == a.width;
    calc {
      a.height * b.height * (rb - ra);
      a.height * (rb * b.height) - b.height * (ra * a.height);
      a.height * b.width - b.height * a.width;
    }
  }

  /** The comparator orders like the source's `bRatio - aRatio`. */
  lemma CompareAgreesWithRatio(a: Record, b: Record)
    requires a.height > 0.0 && b.height > 0.0 && a.orientation == b.orientation
    ensures Compare(a, b) < 0.0 <==> b.width / b.height < a.width / a.height
    ensures Compare(a, b) == 0.0 <==> b.width / b.height == a.width / a.height
  {
    CompareIsScaledRatioDifference(a, b);
    var d := b.width / b.height - a.width / a.height;
    var f := a.height * b.height;
    assert f > 0.0;
    assert Compare(a, b) == f * d;
    if d < 0.0 { assert f * d < 0.0; }
    if d > 0.0 { assert f * d > 0.0; }
  }

  lemma CompareAntisymmetric(a: Record, b: Record)
    ensures Compare(a, b) == -Compare(b, a)
  {
  }

  lemma PrecedesTotal(a: Record, b: Record)
    ensures Precedes(a, b) || Precedes(b, a)
  {
    CompareAntisymmetric(a, b);
  }

  lemma PrecedesTransitive(a: Record, b: Record, c: Record)
    requires a.height > 0.0 && b.height > 0.0 && c.height > 0.0
    requires Precedes(a, b) && Precedes(b, c)
    ensures Precedes(a, c)
  {
    if a.orientation == b.orientation == c.orientation {
      // a.w * b.h >= b.w * a.h and b.w * c.h >= c.w * b.h
      assert a.width * b.height >= b.width * a.height;
      assert b.width * c.height >= c.width * b.height;
      assert a.width * b.height * c.height >= b.width * a.height * c.height;
      assert b.width * c.height * a.height >= c.width * b.height * a.height;
      assert (a.width * c.height) * b.height >= (c.width * a.height) * b.height;
    }
  }

  /** Places `x` before the first element it may precede (stable insert). */
  function Insert(x: Record, s: seq<Record>): (r: seq<Record>)
    ensures |r| == |s| + 1
    ensures multiset(r) == multiset(s) + multiset{x}
  {
    if s == [] then [x]
    else if Precedes(x, s[0]) then [x] + s
    else
      assert s == [s[0]] + s[1..];
      [s[0]] + Insert(x, s[1..])
  }

  /** The batch order of handleImageUpload: an insertion sort under the
      comparator. Each record is inserted in front of the later records
      it ties with; that ties therefore keep their input order, as in the
      host's stable array sort, is not proved. */
  function SortBatch(s: seq<Record>): (r: seq<Record>)
    ensures |r| == |s|
    ensures multiset(r) == multiset(s)
  {
    if s == [] then []
    else
      assert s == [s[0]] + s[1..];
      Insert(s[0], SortBatch(s[1..]))
  }

  lemma MembersOfPermutation(r: seq<Record>, s: seq<Record>)
    requires multiset(r) == multiset(s)
    ensures forall k :: 0 <= k < |r| ==> r[k] in s
  {
    forall k | 0 <= k < |r| ensures r[k] in s {
      assert r[k] in multiset(r);
    }
  }

  /** `y` may stand before every element of `s`. */
  predicate PrecedesEvery(y: Record, s: seq<Record>)
  {
    forall k :: 0 <= k < |s| ==> Precedes(y, s[k])
  }

  lemma InsertKeepsLowerBound(y: Record, x: Record, s: seq<Record>)
    requires PrecedesEvery(y, s) && Precedes(y, x)
    ensures PrecedesEvery(y, Insert(x, s))
  {
    var t := Insert(x, s);
    MembersOfPermutation(t, s + [x]);
    forall k | 0 <= k < |t| ensures Precedes(y, t[k]) {
      if t[k] != x {
        var m :| 0 <= m < |s| && s[m] == t[k];
      }
    }
  }

  lemma SortedCons(y: Record, t: seq<Record>)
    requires Sorted(t) && PrecedesEvery(y, t)
    ensures Sorted([y] + t)
  {
  }

  lemma {:induction false} InsertSorted(x: Record, s: seq<Record>)
    requires Sorted(s) && PositiveHeights(s) && x.height > 0.0
    ensures Sorted(Insert(x, s))
  {
    if s == [] {
    } else if Precedes(x, s[0]) {
      forall k | 0 <= k < |s| ensures Precedes(x, s[k]) {
        if k > 0 { PrecedesTransitive(x, s[0], s[k]); }
      }
      SortedCons(x, s);
    } else {
      PrecedesTotal(x, s[0]);
      InsertSorted(x, s[1..]);
      InsertKeepsLowerBound(s[0], x, s[1..]);
      SortedCons(s[0], Insert(x, s[1..]));
    }
  }

  /** Every batch of records with positive heights comes out sorted. */
  lemma {:induction false} SortBatchSorted(s: seq<Record>)
    requires PositiveHeights(s)
    ensures Sorted(SortBatch(s))
  {
    if s != [] {
      var t := SortBatch(s[1..]);
      SortBatchSorted(s[1..]);
      MembersOfPermutation(t, s[1..]);
      forall k | 0 <= k < |t| ensures t[k].height > 0.0 {
        var m :| 0 <= m < |s[1..]| && s[1..][m] == t[k];
        assert s[m + 1] == t[k];
      }
      InsertSorted(s[0], t);
    }
  }

  /** What sortedness means for a batch: every landscape record precedes
      every portrait record, and within one orientation the width/height
      ratio does not increase. */
  lemma SortedMeaning(s: seq<Record>)
    requires Sorted(s) && PositiveHeights(s)
    ensures forall i, j :: 0 <= i < j < |s| ==>
              !(s[i].orientation == Portrait && s[j].orientation == Landscape)
    ensures forall i, j :: 0 <= i < j < |s| && s[i].orientation == s[j].orientation ==>
              s[i].width / s[i].height >= s[j].width / s[j].height
  {
    forall i, j | 0 <= i < j < |s| && s[i].orientation == s[j].orientation
      ensures s[i].width / s[i].height >= s[j].width / s[j].height
    {
      assert Precedes(s[i], s[j]);
      CompareAgreesWithRatio(s[i], s[j]);
    }
  }
}
