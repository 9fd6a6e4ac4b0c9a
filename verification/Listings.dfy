/** Raw listings as the scrapers return them, and their de-duplication by URL.  The fetch time, which
    every scan renews, is not part of a listing here. */
module Listings {

  datatype Listing = Listing(title: string, url: string, rawText: string)

  ghost predicate UniqueUrls(listings: seq<Listing>)
  {
    forall i, j :: 0 <= i < j < |listings| ==> listings[i].url != listings[j].url
  }

  predicate HasUrl(listings: seq<Listing>, url: string)
  {
    exists l <- listings :: l.url == url
  }

  /** Keeps the first listing of every URL, in order. */
  function FirstByUrl(listings: seq<Listing>): seq<Listing>
  {
    if listings == [] then []
    else
      var before := FirstByUrl(listings[..|listings| - 1]);
      var last := listings[|listings| - 1];
      if HasUrl(before, last.url) then before else before + [last]
  }

  /** l is the listing at position i and no earlier one has its URL. */
  ghost predicate FirstAt(listings: seq<Listing>, l: Listing, i: nat)
  {
    i < |listings| && listings[i] == l && !HasUrl(listings[..i], l.url)
  }

  lemma {:induction false} HasUrlAppend(listings: seq<Listing>, last: Listing, url: string)
    ensures HasUrl(listings + [last], url) <==> HasUrl(listings, url) || last.url == url
  {
    assert forall l :: l in listings + [last] <==> l in listings || l == last;
  }

  lemma {:induction false} KeptUrls(listings: seq<Listing>, url: string)
    ensures HasUrl(FirstByUrl(listings), url) <==> HasUrl(listings, url)
  {
    if listings != [] {
      var init, last := listings[..|listings| - 1], listings[|listings| - 1];
      assert listings == init + [last];
      KeptUrls(init, url);
      HasUrlAppend(init, last, url);
      HasUrlAppend(FirstByUrl(init), last, url);
    }
  }

  lemma {:induction false} KeptUrlsDiffer(listings: seq<Listing>)
    ensures UniqueUrls(FirstByUrl(listings))
  {
    if listings != [] {
      KeptUrlsDiffer(listings[..|listings| - 1]);
    }
  }

  /** The kept listings are exactly the first occurrences of each URL. */
  lemma {:induction false} KeptAreFirst(listings: seq<Listing>, l: Listing)
    ensures l in FirstByUrl(listings) <==> exists i :: FirstAt(listings, l, i)
  {
    if listings != [] {
      var n := |listings| - 1;
      var init, last := listings[..n], listings[n];
      KeptAreFirst(init, l);
      KeptUrls(init, last.url);
      forall i: nat | i < n
        ensures FirstAt(listings, l, i) <==> FirstAt(init, l, i)
      {
        assert listings[..i] == init[..i];
      }
      assert FirstAt(listings, last, n) <==> !HasUrl(init, last.url);
    }
  }

  lemma {:induction false} EarlierUrls(listings: seq<Listing>)
    ensures forall a: nat, b: nat :: a < b <= |listings| ==> HasUrl(listings[..b], listings[a].url)
  {
    forall a: nat, b: nat | a < b <= |listings|
      ensures HasUrl(listings[..b], listings[a].url)
    {
      assert listings[a] in listings[..b];
    }
  }

  lemma {:induction false} FirstAtOnce(listings: seq<Listing>, l: Listing, a: nat, b: nat)
    requires FirstAt(listings, l, a) && FirstAt(listings, l, b)
    ensures a == b
  {
    EarlierUrls(listings);
  }

  /** And they stand in the order of those first occurrences. */
  lemma {:induction false} KeptInOrder(listings: seq<Listing>, i: nat, j: nat, a: nat, b: nat)
    requires i < j < |FirstByUrl(listings)|
    requires FirstAt(listings, FirstByUrl(listings)[i], a) && FirstAt(listings, FirstByUrl(listings)[j], b)
    ensures a < b
  {
    var kept, n := FirstByUrl(listings), |listings| - 1;
    var init := listings[..n];
    var before := FirstByUrl(init);
    KeptUrlsDiffer(listings);
    KeptAreFirst(init, kept[i]);
    assert kept[i] in before;
    var a': nat :| FirstAt(init, kept[i], a');
    assert init[..a'] == listings[..a'];
    FirstAtOnce(listings, kept[i], a, a');
    if b < n {
      assert init[..b] == listings[..b];
      KeptAreFirst(init, kept[j]);
      assert FirstAt(init, kept[j], b);
      var k :| 0 <= k < |before| && before[k] == kept[j];
      assert kept[k] == before[k] && k == j;
      KeptInOrder(init, i, j, a, b);
    }
  }

  lemma {:induction false} FirstByUrlStep(listings: seq<Listing>, last: Listing)
    ensures FirstByUrl(listings + [last]) ==
      var before := FirstByUrl(listings); if HasUrl(before, last.url) then before else before + [last]
  {
    assert (listings + [last])[..|listings|] == listings;
  }
}
