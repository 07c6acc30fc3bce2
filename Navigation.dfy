/**
 * The enlarged-view cursor: `findIndex` on open, -1 on close, and the
 * arrow-key steps that move by one and stop at the ends.
 */
module Navigation {
  import opened Images

  /** `images.findIndex(img => img.url === url)`: the least matching index,
      or -1 when no record has that locator. */
  function FirstIndexOf(images: seq<Record>, url: string): (r: int)
    ensures -1 <= r < |images|
    ensures r == -1 <==> forall i :: 0 <= i < |images| ==> images[i].url != url
    ensures r >= 0 ==> images[r].url == url && forall i :: 0 <= i < r ==> images[i].url != url
  {
    if images == [] then -1
    else if images[0].url == url then 0
    else
      var k := FirstIndexOf(images[1..], url);
      assert forall i :: 1 <= i < |images| ==> images[i] == images[1..][i - 1];
      if k == -1 then -1 else k + 1
  }

  /** navigateToNextImage on a cursor over `n` records. */
  function NextIndex(index: int, n: nat): (r: int)
    ensures r == index || r == index + 1
    ensures r == index <==> index >= n - 1
    ensures -1 <= index < n ==> -1 <= r < n
  {
    if index < n - 1 then index + 1 else index
  }

  /** navigateToPreviousImage. */
  function PreviousIndex(index: int): (r: int)
    ensures r == index || r == index - 1
    ensures r == index <==> index <= 0
    ensures index >= 0 ==> r >= 0
  {
    if index > 0 then index - 1 else index
  }

  /** Navigation never leaves [0, n-1] once inside it; next at the last index
      and previous at index 0 do nothing. */
  lemma NavigationStaysInBounds(index: int, n: nat)
    requires 0 <= index < n
    ensures 0 <= NextIndex(index, n) < n && 0 <= PreviousIndex(index) < n
    ensures index == n - 1 ==> NextIndex(index, n) == index
    ensures index == 0 ==> PreviousIndex(index) == index
  {
  }

  /** Opening on a locator that no record has leaves the cursor at -1 with the
      overlay open; the next arrow-right then moves it to the first record. */
  lemma NextAfterMissedOpen(images: seq<Record>, url: string)
    requires |images| > 0
    requires forall i :: 0 <= i < |images| ==> images[i].url != url
    ensures NextIndex(FirstIndexOf(images, url), |images|) == 0
  {
  }

  /** With duplicate locators, opening either copy lands on the first one. */
  lemma OpenResolvesToFirstDuplicate(images: seq<Record>, i: nat, j: nat)
    requires i < j < |images| && images[i].url == images[j].url
    ensures FirstIndexOf(images, images[j].url) <= i
  {
  }
}
