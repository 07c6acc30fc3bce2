/**
 * The image record of the gallery collection and its orientation rule.
 * A record holds a locator (a data URL or an object URL), the orientation
 * label and the width and height. Dimensions are reals because a resize
 * stores `width * (percentage / 100)` unrounded.
 */
module Images {
  datatype Orientation = Landscape | Portrait

  datatype Record = Record(url: string, orientation: Orientation, width: real, height: real)

  /** The orientation rule: landscape when the width is at least the height. */
  function OrientationOf(width: real, height: real): Orientation
  {
    if width >= height then Landscape else Portrait
  }

  /** A record whose label agrees with its own dimensions. */
  predicate Consistent(r: Record)
  {
    r.orientation == OrientationOf(r.width, r.height)
  }

  predicate AllConsistent(s: seq<Record>)
  {
    forall k :: 0 <= k < |s| ==> Consistent(s[k])
  }

  /** getImageOrientation once the image has loaded: the record for a locator
      and the natural size the host reports for it. */
  function Classify(url: string, width: nat, height: nat): (r: Record)
    ensures r.url == url && r.width == width as real && r.height == height as real
    ensures r.orientation == Landscape <==> width >= height
    ensures Consistent(r)
  {
    Record(url, OrientationOf(width as real, height as real), width as real, height as real)
  }

  /** The locators of a collection, in order. */
  function Urls(s: seq<Record>): (u: seq<string>)
    ensures |u| == |s|
    ensures forall k :: 0 <= k < |s| ==> u[k] == s[k].url
  {
    if s == [] then [] else [s[0].url] + Urls(s[1..])
  }

  lemma {:induction false} UrlsPrefix(s: seq<Record>, i: nat)
    requires i < |s|
    ensures Urls(s[..i + 1]) == Urls(s[..i]) + [s[i].url]
  {
    var a, b := Urls(s[..i + 1]), Urls(s[..i]) + [s[i].url];
    assert |a| == |b|;
    forall k | 0 <= k < |a| ensures a[k] == b[k] {
      if k < i {
        assert s[..i + 1][k] == s[..i][k];
      }
    }
  }
}
