/**
 * The collection-wide transforms (WebP conversion and resize): one host
 * step per record, in order, stopping at the first failure; the collection
 * is replaced only when every step succeeded.
 */
module Transforms {
  import opened Wrappers
  import opened Images

  /** A re-encoded image: its new locator and the natural size the host
      reports once it is loaded. */
  datatype Decoded = Decoded(url: string, width: nat, height: nat)

  /** A resized rendition: the new object URL and the natural size of the
      source image that was drawn. */
  datatype Rendition = Rendition(url: string, sourceWidth: nat, sourceHeight: nat)

  /** The per-record step of a transform, with the host call it relies on. */
  datatype Job =
    | ToWebp(webp: string -> Option<Decoded>)
    | Resize(render: (string, int) -> Option<Rendition>, percentage: int)

  /** resizeImage's size arithmetic: `n * (percentage / 100)`. */
  function Scaled(n: nat, percentage: int): real
  {
    n as real * (percentage as real / 100.0)
  }

  /** The record one step yields, or None when the host call fails. */
  function Step(job: Job, r: Record): (o: Option<Record>)
    ensures o.Some? ==> Consistent(o.value)
  {
    match job
    case ToWebp(webp) =>
      (match webp(r.url)
       case None => None
       case Some(d) => Some(Classify(d.url, d.width, d.height)))
    case Resize(render, p) =>
      (match render(r.url, p)
       case None => None
       case Some(x) =>
         var w, h := Scaled(x.sourceWidth, p), Scaled(x.sourceHeight, p);
         Some(Record(x.url, OrientationOf(w, h), w, h)))
  }

  /** The index of the first record whose step fails, or |s| if none does. */
  function FirstFailure(s: seq<Record>, job: Job): (k: nat)
    ensures k <= |s|
    ensures forall i :: 0 <= i < k ==> Step(job, s[i]).Some?
    ensures k < |s| ==> Step(job, s[k]).None?
  {
    if s == [] then 0
    else if Step(job, s[0]).None? then 0
    else
      assert forall i :: 1 <= i < |s| ==> s[i] == s[1..][i - 1];
      1 + FirstFailure(s[1..], job)
  }

  /** Every step applied, all or nothing. */
  function TransformAll(s: seq<Record>, job: Job): (r: Option<seq<Record>>)
    ensures r.Some? <==> forall i :: 0 <= i < |s| ==> Step(job, s[i]).Some?
    ensures r.Some? ==> |r.value| == |s|
    ensures r.Some? ==> forall i :: 0 <= i < |s| ==> r.value[i] == Step(job, s[i]).value
  {
    if s == [] then Some([])
    else
      assert forall i :: 1 <= i < |s| ==> s[i] == s[1..][i - 1];
      match Step(job, s[0])
      case None => None
      case Some(x) =>
        match TransformAll(s[1..], job)
        case None => None
        case Some(t) => Some([x] + t)
  }

  /** The collection after the transform: the new records on full success,
      the old collection otherwise. */
  function Committed(s: seq<Record>, job: Job): (r: seq<Record>)
    ensures |r| == |s|
    ensures (exists k :: 0 <= k < |s| && Step(job, s[k]).None?) ==> r == s
    ensures (forall k :: 0 <= k < |s| ==> Step(job, s[k]).Some?) ==>
              forall k :: 0 <= k < |s| ==> r[k] == Step(job, s[k]).value
  {
    match TransformAll(s, job)
    case Some(t) => t
    case None => s
  }

  /** The locators handed to the host: every record up to and including the
      first one that fails. */
  function Attempted(s: seq<Record>, job: Job): seq<string>
  {
    var k := FirstFailure(s, job);
    Urls(s[..if k < |s| then k + 1 else k])
  }

  /** On an empty collection a transform changes nothing and calls nothing. */
  lemma EmptyIsNoOp(job: Job)
    ensures Committed([], job) == [] && Attempted([], job) == []
  {
  }

  /** A failure at record k stops the loop there and leaves the collection
      exactly as it was. */
  lemma {:induction false} FailureAtLeavesCollection(s: seq<Record>, job: Job, k: nat)
    requires k < |s| && Step(job, s[k]).None?
    requires forall i :: 0 <= i < k ==> Step(job, s[i]).Some?
    ensures Committed(s, job) == s
    ensures Attempted(s, job) == Urls(s[..k + 1])
  {
    assert FirstFailure(s, job) == k;
  }

  /** Full success replaces the collection with one new record per old one,
      in the old order, each with its label recomputed. */
  lemma SuccessReplacesInOrder(s: seq<Record>, job: Job)
    requires forall i :: 0 <= i < |s| ==> Step(job, s[i]).Some?
    ensures |Committed(s, job)| == |s|
    ensures forall i :: 0 <= i < |s| ==> Committed(s, job)[i] == Step(job, s[i]).value
    ensures AllConsistent(Committed(s, job))
    ensures Attempted(s, job) == Urls(s)
  {
    assert s[..|s|] == s;
  }

  /** A committed transform leaves a consistent collection consistent. */
  lemma CommittedKeepsConsistent(s: seq<Record>, job: Job)
    requires AllConsistent(s)
    ensures AllConsistent(Committed(s, job))
  {
  }

  lemma ScaleKeepsOrder(w: nat, h: nat, p: int)
    requires p > 0
    ensures Scaled(w, p) >= Scaled(h, p) <==> w >= h
  {
    var c := p as real / 100.0;
    assert c > 0.0;
    if w >= h {
      assert w as real * c >= h as real * c;
    } else {
      assert w as real * c < h as real * c;
    }
  }

  /** Uniform scaling by a positive percentage keeps the orientation of the
      drawn source; at 100 percent the size is the source's own. */
  lemma ResizeKeepsOrientation(render: (string, int) -> Option<Rendition>, p: int, r: Record)
    requires p > 0 && render(r.url, p).Some?
    ensures var x := render(r.url, p).value; var o := Step(Resize(render, p), r).value;
      && o.width == x.sourceWidth as real * p as real / 100.0
      && o.height == x.sourceHeight as real * p as real / 100.0
      && o.orientation == OrientationOf(x.sourceWidth as real, x.sourceHeight as real)
      && (p == 100 ==> o.width == x.sourceWidth as real && o.height == x.sourceHeight as real)
  {
    var x := render(r.url, p).value;
    ScaleKeepsOrder(x.sourceWidth, x.sourceHeight, p);
  }

  /** When the drawn source has the record's own size, a resize keeps the
      record's orientation label. */
  lemma ResizeKeepsRecordOrientation(render: (string, int) -> Option<Rendition>, p: int, r: Record)
    requires p > 0 && render(r.url, p).Some? && Consistent(r)
    requires r.width == render(r.url, p).value.sourceWidth as real
    requires r.height == render(r.url, p).value.sourceHeight as real
    ensures Step(Resize(render, p), r).value.orientation == r.orientation
  {
    ResizeKeepsOrientation(render, p, r);
  }

  /** A canvas takes the integer part of a fractional size, so the blob a
      resize produces can be smaller than the size the record stores. A
      201x202 portrait resized to 25 percent is stored as 50.25x50.5 and
      still labelled portrait, but its canvas is 50x50; when the next resize
      draws that 50x50 blob at 100 percent, the label becomes landscape. */
  lemma FractionalResizeThenIdentityFlips()
    ensures var r0 := Record("data:a", Portrait, 201.0, 202.0);
      var first := (u: string, p: int) => Some(Rendition("blob:1", 201, 202));
      var second := (u: string, p: int) => Some(Rendition("blob:2", 50, 50));
      var r1 := Step(Resize(first, 25), r0).value;
      && r1 == Record("blob:1", Portrait, 50.25, 50.5)
      && r1.width.Floor == 50 && r1.height.Floor == 50
      && Step(Resize(second, 100), r1).value.orientation == Landscape
  {
  }
}
