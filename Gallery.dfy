/**
 * The gallery manager's state: the ordered collection, the enlarged-view
 * cursor, the overlay's open flag and the heading's title. Every handler
 * of the controller that changes that state is a method here.
 */
module GalleryManager {
  import opened Wrappers
  import opened Images
  import Ingest
  import Navigation
  import Transforms
  import Naming
  import Export

  /** The title resetGallery restores. */
  const DefaultTitle: string := "Gallery Manager"

  class Gallery {
    var images: seq<Record>
    var currentImageIndex: int
    var title: string
    /** The overlay carries its 'active' class. */
    var modalOpen: bool

    /** The cursor points at a record or is -1. */
    predicate CursorInRange()
      reads this
    {
      -1 <= currentImageIndex < |images|
    }

    /** The constructor with loadInitialImages: the collection starts as the
        page's embedded payload, if there is one, and empty otherwise. */
    constructor (initialState: Option<seq<Record>>, heading: string)
      ensures images == (if initialState.Some? then initialState.value else [])
      ensures currentImageIndex == -1 && title == heading && !modalOpen
      ensures CursorInRange()
    {
      images := if initialState.Some? then initialState.value else [];
      currentImageIndex := -1;
      title := heading;
      modalOpen := false;
    }

    /** openModal: open the overlay on the first record with that locator. */
    method OpenModal(url: string)
      modifies this`currentImageIndex, this`modalOpen
      ensures modalOpen
      ensures currentImageIndex == Navigation.FirstIndexOf(images, url)
      ensures CursorInRange()
    {
      modalOpen := true;
      currentImageIndex := Navigation.FirstIndexOf(images, url);
    }

    /** closeModal: close the overlay and reset the cursor. */
    method CloseModal()
      modifies this`currentImageIndex, this`modalOpen
      ensures !modalOpen && currentImageIndex == -1
      ensures CursorInRange()
    {
      modalOpen := false;
      currentImageIndex := -1;
    }

    method NavigateToNextImage()
      modifies this`currentImageIndex
      ensures currentImageIndex == Navigation.NextIndex(old(currentImageIndex), |images|)
      ensures old(CursorInRange()) ==> CursorInRange()
    {
      if currentImageIndex < |images| - 1 {
        currentImageIndex := currentImageIndex + 1;
      }
    }

    method NavigateToPreviousImage()
      modifies this`currentImageIndex
      ensures currentImageIndex == Navigation.PreviousIndex(old(currentImageIndex))
      ensures old(CursorInRange()) ==> CursorInRange()
    {
      if currentImageIndex > 0 {
        currentImageIndex := currentImageIndex - 1;
      }
    }

    /** handleModalNavigation: arrow keys move the cursor while the overlay
        is open; every other key, or a closed overlay, changes nothing. */
    method HandleModalNavigation(key: string)
      modifies this`currentImageIndex
      ensures currentImageIndex ==
        if !modalOpen then old(currentImageIndex)
        else if key == "ArrowRight" then Navigation.NextIndex(old(currentImageIndex), |images|)
        else if key == "ArrowLeft" then Navigation.PreviousIndex(old(currentImageIndex))
        else old(currentImageIndex)
      ensures old(CursorInRange()) ==> CursorInRange()
    {
      if modalOpen {
        if key == "ArrowRight" {
          NavigateToNextImage();
        } else if key == "ArrowLeft" {
          NavigateToPreviousImage();
        }
      }
    }

    /** handleImageUpload, with an undecodable file dropped like an unreadable
        one: the sorted batch of decoded files is appended. */
    method HandleImageUpload(files: seq<Ingest.FileOutcome>)
      modifies this`images
      ensures images == Ingest.Ingest(old(images), files)
      ensures old(images) == images[..|old(images)|]
      ensures old(AllConsistent(images)) ==> AllConsistent(images)
      ensures old(CursorInRange()) ==> CursorInRange()
    {
      var batch := Ingest.Batch(files);
      Ingest.BatchConsistent(files);
      images := images + batch;
    }

    /** convertToWebp: re-encode every record in order; the first failure
        ends the loop and keeps the old collection. Returns the locators
        handed to the host, in call order. */
    method ConvertToWebp(webp: string -> Option<Transforms.Decoded>) returns (attempted: seq<string>)
      modifies this`images
      ensures images == Transforms.Committed(old(images), Transforms.ToWebp(webp))
      ensures attempted == Transforms.Attempted(old(images), Transforms.ToWebp(webp))
      ensures |images| == |old(images)|
    {
      attempted := RunTransform(Transforms.ToWebp(webp));
    }

    /** resizeAllImages: scale every record by `percentage`, recomputing its
        orientation; any failure leaves the collection as it was. */
    method ResizeAllImages(percentage: int, render: (string, int) -> Option<Transforms.Rendition>)
      returns (attempted: seq<string>)
      modifies this`images
      ensures images == Transforms.Committed(old(images), Transforms.Resize(render, percentage))
      ensures attempted == Transforms.Attempted(old(images), Transforms.Resize(render, percentage))
      ensures |images| == |old(images)|
    {
      attempted := RunTransform(Transforms.Resize(render, percentage));
    }

    /** The loop both transforms share: an empty collection returns at once;
        otherwise the results are pushed one by one and assigned only after
        the last record succeeded. */
    method RunTransform(job: Transforms.Job) returns (attempted: seq<string>)
      modifies this`images
      ensures images == Transforms.Committed(old(images), job)
      ensures attempted == Transforms.Attempted(old(images), job)
      ensures |images| == |old(images)|
    {
      if |images| == 0 {
        Transforms.EmptyIsNoOp(job);
        return [];
      }
      var results: seq<Record> := [];
      attempted := [];
      var i := 0;
      while i < |images|
        invariant 0 <= i <= |images| && images == old(images)
        invariant forall k :: 0 <= k < i ==> Transforms.Step(job, images[k]).Some?
        invariant |results| == i
        invariant forall k :: 0 <= k < i ==> results[k] == Transforms.Step(job, images[k]).value
        invariant attempted == Urls(images[..i])
      {
        UrlsPrefix(images, i);
        attempted := attempted + [images[i].url];
        assert attempted == Urls(images[..i + 1]);
        var next := Transforms.Step(job, images[i]);
        if next.None? {
          Transforms.FailureAtLeavesCollection(images, job, i);
          return;
        }
        results := results + [next.value];
        i := i + 1;
      }
      Transforms.SuccessReplacesInOrder(images, job);
      assert results == Transforms.Committed(images, job);
      assert images[..i] == images;
      images := results;
    }

    /** saveState: the archive for the current collection and the trimmed
        title, or None when a fetch fails. */
    method SaveState(t: Naming.Stamp, fetch: string -> Option<string>) returns (bundle: Option<Export.Bundle>)
      ensures bundle == Export.SaveState(title, t, images, fetch)
      ensures bundle.Some? ==> bundle.value.downloadName == Naming.DownloadName(Naming.Trim(title), t)
    {
      bundle := Export.SaveState(title, t, images, fetch);
      if bundle.Some? {
        Export.SaveStateNames(title, t, images, fetch);
      }
    }

    /** resetGallery: empty the collection and restore the default title. */
    method ResetGallery()
      modifies this`images, this`title
      ensures images == [] && title == DefaultTitle
    {
      images := [];
      title := DefaultTitle;
    }
  }
}
