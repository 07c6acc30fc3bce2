/**
 * The upload handler: each selected file is read to a data URL and then
 * decoded to learn its natural size. A read error is caught and the file
 * is dropped; the decoded batch is sorted and appended to the collection.
 */
module Ingest {
  import opened Wrappers
  import opened Images
  import opened Ordering

  /** What the host reports for one selected file. */
  datatype FileOutcome =
    | ReadFailed                                      // FileReader error: caught, file dropped
    | Undecodable(url: string)                        // read, but the image never loads
    | Loaded(url: string, width: nat, height: nat)    // loaded, with its natural size

  /** The records of the files that loaded, in file order. */
  function Successes(files: seq<FileOutcome>): (r: seq<Record>)
    ensures |r| <= |files|
    ensures AllConsistent(r)
    ensures forall k :: 0 <= k < |files| && files[k].Loaded? ==>
              Classify(files[k].url, files[k].width, files[k].height) in r
  {
    if files == [] then []
    else
      var rest := Successes(files[1..]);
      assert forall k :: 1 <= k < |files| ==> files[k] == files[1..][k - 1];
      match files[0]
      case Loaded(u, w, h) => [Classify(u, w, h)] + rest
      case _ => rest
  }

  /** Successes keeps file order: it distributes over concatenation. */
  lemma {:induction false} SuccessesAppend(a: seq<FileOutcome>, b: seq<FileOutcome>)
    ensures Successes(a + b) == Successes(a) + Successes(b)
  {
    if a != [] {
      assert (a + b)[0] == a[0];
      assert (a + b)[1..] == a[1..] + b;
      SuccessesAppend(a[1..], b);
    } else {
      assert a + b == b;
    }
  }

  /** Every record of the batch comes from a file that loaded. */
  lemma {:induction false} SuccessesFromLoaded(files: seq<FileOutcome>, x: Record)
    requires x in Successes(files)
    ensures exists k :: 0 <= k < |files| && files[k].Loaded? &&
              x == Classify(files[k].url, files[k].width, files[k].height)
  {
    var rest := Successes(files[1..]);
    if files[0].Loaded? && x == Classify(files[0].url, files[0].width, files[0].height) {
      assert files[0].Loaded?;
    } else {
      assert x in rest;
      SuccessesFromLoaded(files[1..], x);
      var k :| 0 <= k < |files[1..]| && files[1..][k].Loaded? &&
               x == Classify(files[1..][k].url, files[1..][k].width, files[1..][k].height);
      assert files[k + 1] == files[1..][k];
    }
  }

  /** The sorted batch appended by one upload. */
  function Batch(files: seq<FileOutcome>): seq<Record>
  {
    SortBatch(Successes(files))
  }

  lemma BatchConsistent(files: seq<FileOutcome>)
    ensures AllConsistent(Batch(files))
  {
    var s := Successes(files);
    var b := Batch(files);
    MembersOfPermutation(b, s);
    forall k | 0 <= k < |b| ensures Consistent(b[k]) {
      var m :| 0 <= m < |s| && s[m] == b[k];
    }
  }

  /** The collection after an upload: the old one, then the sorted batch. */
  function Ingest(images: seq<Record>, files: seq<FileOutcome>): (r: seq<Record>)
    ensures |r| == |images| + |Successes(files)|
    ensures r[..|images|] == images
    ensures multiset(r[|images|..]) == multiset(Successes(files))
  {
    images + Batch(files)
  }

  /** The batch of one upload is a permutation of the decoded files, sorted,
      with positive heights, and every label agrees with its record's size. */
  lemma BatchIsSortedPermutation(files: seq<FileOutcome>)
    requires forall k :: 0 <= k < |files| && files[k].Loaded? ==> files[k].height > 0
    ensures multiset(Batch(files)) == multiset(Successes(files))
    ensures Sorted(Batch(files)) && PositiveHeights(Batch(files))
    ensures AllConsistent(Batch(files))
  {
    var s := Successes(files);
    forall k | 0 <= k < |s| ensures s[k].height > 0.0 {
      SuccessesFromLoaded(files, s[k]);
    }
    SortBatchSorted(s);
    var b := Batch(files);
    MembersOfPermutation(b, s);
    forall k | 0 <= k < |b| ensures b[k].height > 0.0 && Consistent(b[k]) {
      var m :| 0 <= m < |s| && s[m] == b[k];
    }
  }

  /** The properties of one upload: the old collection is kept as it was, the
      appended batch is a permutation of the decoded files, landscape records
      come first, the ratio does not increase within an orientation and every
      record's label agrees with its size. */
  lemma UploadOrder(images: seq<Record>, files: seq<FileOutcome>)
    requires forall k :: 0 <= k < |files| && files[k].Loaded? ==> files[k].height > 0
    ensures var r := Ingest(images, files); var b := r[|images|..];
      && r[..|images|] == images
      && multiset(b) == multiset(Successes(files))
      && PositiveHeights(b)
      && (forall i, j :: 0 <= i < j < |b| ==>
            !(b[i].orientation == Portrait && b[j].orientation == Landscape))
      && (forall i, j :: 0 <= i < j < |b| && b[i].orientation == b[j].orientation ==>
            b[i].width / b[i].height >= b[j].width / b[j].height)
      && (forall k :: 0 <= k < |b| ==> (b[k].orientation == Landscape <==> b[k].width >= b[k].height))
  {
    var b := Batch(files);
    assert Ingest(images, files)[|images|..] == b;
    BatchIsSortedPermutation(files);
    SortedMeaning(b);
  }

  /** The handler as written: the decode step never rejects, so an image that
      fails to load leaves its promise pending and the whole batch is never
      appended. `None` is that stall: the collection is not replaced. */
  function UploadAsWritten(images: seq<Record>, files: seq<FileOutcome>): (r: Option<seq<Record>>)
    ensures r.None? <==> exists k :: 0 <= k < |files| && files[k].Undecodable?
    ensures r.Some? ==> |r.value| == |images| + |Successes(files)| && r.value[..|images|] == images
    ensures r.Some? ==> multiset(r.value[|images|..]) == multiset(Successes(files))
    ensures r.Some? ==> r.value == Ingest(images, files)
  {
    if exists k :: 0 <= k < |files| && files[k].Undecodable? then None
    else Some(Ingest(images, files))
  }

  /** One undecodable file among good ones: as written, nothing is added;
      the corrected handler adds the good file. */
  lemma UndecodableFileStallsUpload()
    ensures var files := [Loaded("data:a", 4, 3), Undecodable("data:b")];
      && UploadAsWritten([], files) == None
      && Ingest([], files) == [Classify("data:a", 4, 3)]
  {
    var files := [Loaded("data:a", 4, 3), Undecodable("data:b")];
    assert files[1].Undecodable?;
    assert Successes(files[1..]) == [];
  }
}
