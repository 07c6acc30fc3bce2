/**
 * saveState: the archive's folder and download name, the per-image file
 * names and the initialization payload the generated page embeds. Any
 * failed fetch of an image aborts the whole export.
 */
module Export {
  import opened Wrappers
  import opened Images
  import opened Naming

  /** What one export yields: the top-level folder, the download name, the
      image file names in collection order and the payload records that
      point at them. */
  datatype Bundle = Bundle(folder: string, downloadName: string, imageFiles: seq<string>, payload: seq<Record>)

  /** The MIME type of every image's fetched blob, all or nothing. */
  function FetchAll(urls: seq<string>, fetch: string -> Option<string>): (r: Option<seq<string>>)
    ensures r.Some? <==> forall i :: 0 <= i < |urls| ==> fetch(urls[i]).Some?
    ensures r.Some? ==> |r.value| == |urls|
    ensures r.Some? ==> forall i :: 0 <= i < |urls| ==> r.value[i] == fetch(urls[i]).value
  {
    if urls == [] then Some([])
    else
      assert forall i :: 1 <= i < |urls| ==> urls[i] == urls[1..][i - 1];
      match fetch(urls[0])
      case None => None
      case Some(t) =>
        match FetchAll(urls[1..], fetch)
        case None => None
        case Some(ts) => Some([t] + ts)
  }

  /** The file names of the exported images, index-aligned with their types. */
  function FileNames(types: seq<string>): (names: seq<string>)
    ensures |names| == |types|
    ensures forall k :: 0 <= k < |types| ==> names[k] == ImageFileName(k, types[k])
  {
    seq(|types|, k requires 0 <= k < |types| => ImageFileName(k, types[k]))
  }

  /** The payload entry of every image: its archive path, with orientation
      and size carried over. */
  function Payload(images: seq<Record>, names: seq<string>): (p: seq<Record>)
    requires |names| == |images|
    ensures |p| == |images|
    ensures forall k :: 0 <= k < |images| ==> p[k].url == "img/" + names[k]
    ensures forall k :: 0 <= k < |images| ==>
              p[k].orientation == images[k].orientation &&
              p[k].width == images[k].width && p[k].height == images[k].height
  {
    seq(|images|, k requires 0 <= k < |images| =>
      Record("img/" + names[k], images[k].orientation, images[k].width, images[k].height))
  }

  /** The export of a collection under a (trimmed) title at a given time. */
  function SaveState(title: string, t: Stamp, images: seq<Record>, fetch: string -> Option<string>): (r: Option<Bundle>)
    ensures r.Some? <==> forall i :: 0 <= i < |images| ==> fetch(images[i].url).Some?
  {
    match FetchAll(Urls(images), fetch)
    case None => None
    case Some(types) =>
      var names := FileNames(types);
      Some(Bundle(Slug(Trim(title), t), DownloadName(Trim(title), t), names, Payload(images, names)))
  }

  lemma FileNamesDistinct(types: seq<string>)
    ensures forall i, j :: 0 <= i < j < |types| ==> FileNames(types)[i] != FileNames(types)[j]
  {
    forall i, j | 0 <= i < j < |types| ensures FileNames(types)[i] != FileNames(types)[j] {
      ImageFileNamesDistinct(i, j, types[i], types[j]);
    }
  }

  /** A successful export names the folder after the trimmed title and the
      time, and the download after the folder. */
  lemma SaveStateNames(title: string, t: Stamp, images: seq<Record>, fetch: string -> Option<string>)
    requires forall i :: 0 <= i < |images| ==> fetch(images[i].url).Some?
    ensures var b := SaveState(title, t, images, fetch).value;
      && b.folder == Slug(Trim(title), t)
      && b.downloadName == DownloadName(Trim(title), t)
  {
    var types := FetchAll(Urls(images), fetch).value;
    var names := FileNames(types);
    var folder, download := Slug(Trim(title), t), DownloadName(Trim(title), t);
    assert SaveState(title, t, images, fetch) == Some(Bundle(folder, download, names, Payload(images, names)));
  }

  /** Image k of a successful export is stored as `image{k+1}` with the
      extension of its fetched type. */
  lemma SaveStateFiles(title: string, t: Stamp, images: seq<Record>, fetch: string -> Option<string>)
    requires forall i :: 0 <= i < |images| ==> fetch(images[i].url).Some?
    ensures var b := SaveState(title, t, images, fetch).value;
      && |b.imageFiles| == |images|
      && forall k :: 0 <= k < |images| ==> b.imageFiles[k] == ImageFileName(k, fetch(images[k].url).value)
  {
    var types := FetchAll(Urls(images), fetch).value;
    var names := FileNames(types);
    var folder, download := Slug(Trim(title), t), DownloadName(Trim(title), t);
    assert SaveState(title, t, images, fetch) == Some(Bundle(folder, download, names, Payload(images, names)));
    forall k | 0 <= k < |images| ensures names[k] == ImageFileName(k, fetch(images[k].url).value) {
      assert Urls(images)[k] == images[k].url;
      assert types[k] == fetch(images[k].url).value;
    }
  }

  /** No two images of one export share a file name. */
  lemma SaveStateNamesDistinct(title: string, t: Stamp, images: seq<Record>, fetch: string -> Option<string>)
    requires forall i :: 0 <= i < |images| ==> fetch(images[i].url).Some?
    ensures var b := SaveState(title, t, images, fetch).value;
      forall i, j :: 0 <= i < j < |b.imageFiles| ==> b.imageFiles[i] != b.imageFiles[j]
  {
    FileNamesDistinct(FetchAll(Urls(images), fetch).value);
  }

  /** The payload lists every image in order, pointing at its archive file
      and keeping its orientation and size. */
  lemma SaveStatePayload(title: string, t: Stamp, images: seq<Record>, fetch: string -> Option<string>)
    requires forall i :: 0 <= i < |images| ==> fetch(images[i].url).Some?
    ensures var b := SaveState(title, t, images, fetch).value;
      && |b.payload| == |images| == |b.imageFiles|
      && forall k :: 0 <= k < |images| ==>
           && b.payload[k].url == "img/" + b.imageFiles[k]
           && b.payload[k].orientation == images[k].orientation
           && b.payload[k].width == images[k].width && b.payload[k].height == images[k].height
  {
  }

  lemma DecimalOf2024()
    ensures Decimal(2024) == "2024"
  {
    assert Decimal(2) == "2";
    assert Decimal(20) == "20";
    assert Decimal(202) == "202";
  }

  lemma DecimalOf3()
    ensures Decimal(3) == "3"
  {
  }

  lemma Pad2Of9()
    ensures Pad2(9) == "09"
  {
  }

  lemma Pad2Of5()
    ensures Pad2(5) == "05"
  {
  }

  /** The example's pieces, joined as Slug joins them. */
  lemma ExampleText()
    ensures "Trip" + "-" + ("3" + " " + "Jan" + " " + "2024" + "-" + ("09" + "05")) == "Trip-3 Jan 2024-0905"
  {
  }

  /** "Trip" exported on 3 Jan 2024 at 09:05. */
  lemma SlugExample()
    ensures Slug("Trip", Stamp(3, "Jan", 2024, 9, 5)) == "Trip-3 Jan 2024-0905"
  {
    DecimalOf2024();
    DecimalOf3();
    Pad2Of9();
    Pad2Of5();
    ExampleText();
  }

  lemma DownloadNameOfSlug(title: string, t: Stamp, slug: string)
    requires Slug(title, t) == slug
    ensures DownloadName(title, t) == slug + ".zip"
  {
  }

  lemma ExampleZipText()
    ensures "Trip-3 Jan 2024-0905" + ".zip" == "Trip-3 Jan 2024-0905.zip"
  {
  }

  /** The same export downloads as "Trip-3 Jan 2024-0905.zip". */
  lemma DownloadNameExample()
    ensures DownloadName("Trip", Stamp(3, "Jan", 2024, 9, 5)) == "Trip-3 Jan 2024-0905.zip"
  {
    SlugExample();
    DownloadNameOfSlug("Trip", Stamp(3, "Jan", 2024, 9, 5), "Trip-3 Jan 2024-0905");
    ExampleZipText();
  }
}
