/**
 * `pageKey` (index.js:779-787): the page of the booking flow, read from the
 * URL by an ordered list of fragment markers, with "search" as the default.
 */
module PageClassifier {
  import opened Text

  datatype PageState = Search | Results | Summary | Passengers | Details | Payment

  /** The markers `pageKey` tests, in the order it tests them, with the page each selects. */
  const Markers: seq<(string, PageState)> := [
    ("/#/results", Results),
    ("/#/summary", Summary),
    ("/#/passengers", Passengers),
    ("/#/details", Details),
    ("/#/payment", Payment)
  ]

  function PageKey(url: string): PageState {
    if Contains(url, "/#/results") then Results
    else if Contains(url, "/#/summary") then Summary
    else if Contains(url, "/#/passengers") then Passengers
    else if Contains(url, "/#/details") then Details
    else if Contains(url, "/#/payment") then Payment
    else Search
  }

  /** The page of the first marker in `ms` that `url` contains, else `Search`. */
  function FirstMarker(url: string, ms: seq<(string, PageState)>): (r: PageState)
    ensures r == Search || exists k | 0 <= k < |ms| :: r == ms[k].1
  {
    if ms == [] then Search
    else if Contains(url, ms[0].0) then ms[0].1
    else FirstMarker(url, ms[1..])
  }

  lemma {:induction false} FirstMarkerAt(url: string, ms: seq<(string, PageState)>, k: nat)
    requires k < |ms|
    requires forall j | 0 <= j < |ms| :: ms[j].1 != Search
    requires forall i, j | 0 <= i < j < |ms| :: ms[i].1 != ms[j].1
    ensures FirstMarker(url, ms) == ms[k].1
      <==> Contains(url, ms[k].0) && forall j | 0 <= j < k :: !Contains(url, ms[j].0)
  {
    if k > 0 && !Contains(url, ms[0].0) {
      FirstMarkerAt(url, ms[1..], k - 1);
      assert forall j | 0 <= j < k - 1 :: ms[1..][j] == ms[j + 1];
    }
  }

  lemma {:induction false} FirstMarkerNone(url: string, ms: seq<(string, PageState)>)
    requires forall j | 0 <= j < |ms| :: ms[j].1 != Search
    ensures FirstMarker(url, ms) == Search <==> forall j | 0 <= j < |ms| :: !Contains(url, ms[j].0)
  {
    if ms != [] {
      FirstMarkerNone(url, ms[1..]);
      assert forall j | 1 <= j < |ms| :: ms[j] == ms[1..][j - 1];
    }
  }

  /** Marker `k` is in the URL and no earlier marker is. */
  predicate IsFirstMarker(url: string, k: nat)
    requires k < |Markers|
  {
    Contains(url, Markers[k].0) && forall j | 0 <= j < k :: !Contains(url, Markers[j].0)
  }

  lemma PageKeyIsFirstMarker(url: string)
    ensures PageKey(url) == FirstMarker(url, Markers)
  {
    var m := Markers;
    assert m[4..][1..] == [];
    assert FirstMarker(url, m[4..]) == if Contains(url, "/#/payment") then Payment else Search;
    assert m[3..][1..] == m[4..];
    assert FirstMarker(url, m[3..]) == if Contains(url, "/#/details") then Details else FirstMarker(url, m[4..]);
    assert m[2..][1..] == m[3..];
    assert FirstMarker(url, m[2..]) == if Contains(url, "/#/passengers") then Passengers else FirstMarker(url, m[3..]);
    assert m[1..][1..] == m[2..];
    assert FirstMarker(url, m[1..]) == if Contains(url, "/#/summary") then Summary else FirstMarker(url, m[2..]);
  }

  /**
   * `pageKey` returns the page of the first marker the URL contains, in the
   * order results, summary, passengers, details, payment; it returns search
   * exactly when the URL contains none of them.
   */
  lemma PageKeyMeaning(url: string)
    ensures PageKey(url) == Search <==> forall j | 0 <= j < |Markers| :: !Contains(url, Markers[j].0)
    ensures forall k | 0 <= k < |Markers| :: PageKey(url) == Markers[k].1 <==> IsFirstMarker(url, k)
  {
    PageKeyIsFirstMarker(url);
    FirstMarkerNone(url, Markers);
    forall k | 0 <= k < |Markers| ensures PageKey(url) == Markers[k].1 <==> IsFirstMarker(url, k) {
      FirstMarkerAt(url, Markers, k);
    }
  }

  /** Payment is reported only for a URL that carries none of the four earlier markers. */
  lemma PaymentOnlyAfterOthers(url: string)
    ensures PageKey(url) == Payment
      <==> && Contains(url, "/#/payment")
           && !Contains(url, "/#/results") && !Contains(url, "/#/summary")
           && !Contains(url, "/#/passengers") && !Contains(url, "/#/details")
  {
    PageKeyMeaning(url);
    assert Markers[4] == ("/#/payment", Payment);
  }
}
