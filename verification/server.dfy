/**
 * The listing server (index.js): the retrying scraper of the ipspeed.info
 * page, the GitHub and freeopenvpn.org record builders, and the `/list.json`
 * endpoint that combines the three. Each HTTP request is replaced by its
 * outcome, and cheerio's parse of a page by the elements it finds.
 */
module Server {
  import opened Wrappers
  import opened Strings
  import opened Profiles

  // ---------------------------------------------------------------------------
  // Retry policy of fetchVPNData

  /** Number of requests fetchVPNData makes before giving up. */
  const MaxRetries: nat := 10
  /** Wait, in milliseconds, after the first failed attempt; it doubles after each further one. */
  const BaseDelay: nat := 15

  function Pow2(k: nat): (r: nat)
    ensures r >= 1
  {
    if k == 0 then 1 else 2 * Pow2(k - 1)
  }

  /** `baseDelay * Math.pow(2, attempt)`: the wait after failed attempt `attempt` (counted from 0). */
  function Backoff(attempt: nat): (ms: nat)
    ensures ms >= BaseDelay
    ensures attempt > 0 ==> ms == 2 * Backoff(attempt - 1)
  {
    BaseDelay * Pow2(attempt)
  }

  /** The waits after the first `n` failed attempts, in the order they happen. */
  function Schedule(n: nat): (ds: seq<nat>)
    ensures |ds| == n
  {
    seq(n, k requires 0 <= k < n => Backoff(k))
  }

  function Sum(ds: seq<nat>): nat {
    if ds == [] then 0 else Sum(ds[..|ds| - 1]) + ds[|ds| - 1]
  }

  /** The waits after `n` failures add up to `BaseDelay * (2^n - 1)` milliseconds. */
  lemma {:induction false} ScheduleTotal(n: nat)
    ensures Sum(Schedule(n)) == BaseDelay * (Pow2(n) - 1)
  {
    if n == 0 {
      assert Schedule(0) == [];
    } else {
      ScheduleTotal(n - 1);
      assert Schedule(n)[..n - 1] == Schedule(n - 1);
    }
  }

  /** When every attempt fails, fetchVPNData waits 7665 ms in all. */
  lemma WorstCaseWait()
    ensures Sum(Schedule(MaxRetries - 1)) == 7665
  {
    ScheduleTotal(MaxRetries - 1);
    assert Pow2(9) == 512;
  }

  // ---------------------------------------------------------------------------
  // One attempt: validation and row extraction

  /**
   * One element of the parsed page, in document order. The elements are
   * siblings, so the element that follows one is the next in the sequence.
   * `anchors` holds the `href` attribute of each `<a>` inside it (None when
   * the anchor has none).
   */
  datatype Element = Element(isDivList: bool, style: Option<string>, text: string, anchors: seq<Option<string>>)

  /** What one request for the listing page produced. */
  datatype Response =
    | RequestFailed(reason: string)                  // network error, timeout, status outside 200..399
    | NonText                                        // the body is not a string
    | Page(html: string, elements: seq<Element>)     // the body, and the elements parsed from it

  /** Why an attempt is retried. */
  datatype ScrapeError =
    | RequestError     // the request itself threw
    | EmptyHtml        // "Empty or invalid HTML response"
    | NoListElements   // "No VPN data elements found in the response"
    | NothingParsed    // "No VPN data could be parsed from the response"

  /** The style fragment that marks a location cell. */
  const LocationStyle := "width: 263px"

  /** A `div.list` styled as a location cell and holding no anchor begins a row. */
  predicate StartsRecord(e: Element) {
    e.isDivList && e.style.Some? && Includes(e.style.value, LocationStyle) && |e.anchors| == 0
  }

  /** `.next('div.list')` of a selection of at most one element. */
  function NextList(elements: seq<Element>, at: Option<nat>): (r: Option<nat>)
    ensures r.Some? ==> at.Some? && r.value == at.value + 1
    ensures r.Some? ==> r.value < |elements| && elements[r.value].isDivList
    ensures at.Some? && at.value + 1 < |elements| && elements[at.value + 1].isDivList ==> r == Some(at.value + 1)
  {
    match at
    case None => None
    case Some(j) => if j + 1 < |elements| && elements[j + 1].isDivList then Some(j + 1) else None
  }

  /** `.text().trim()` of a selection of at most one element; nothing selected reads as "". */
  function TextAt(elements: seq<Element>, at: Option<nat>): string
    requires at.Some? ==> at.value < |elements|
  {
    match at
    case None => ""
    case Some(j) => Trim(elements[j].text)
  }

  /** The `href`s of the anchors, with missing and empty ones dropped. */
  function KeptHrefs(anchors: seq<Option<string>>): (links: seq<string>)
    ensures |links| <= |anchors|
    ensures forall i :: 0 <= i < |links| ==> links[i] != ""
  {
    if anchors == [] then []
    else
      var rest := KeptHrefs(anchors[1..]);
      if anchors[0].Some? && anchors[0].value != "" then [anchors[0].value] + rest else rest
  }

  /** A link is kept exactly when some anchor carries it as a non-empty `href`. */
  lemma {:induction false} KeptHrefsMembers(anchors: seq<Option<string>>, h: string)
    ensures h in KeptHrefs(anchors) <==> h != "" && Some(h) in anchors
  {
    if anchors != [] {
      KeptHrefsMembers(anchors[1..], h);
      assert Some(h) in anchors <==> Some(h) == anchors[0] || Some(h) in anchors[1..];
    }
  }

  /** The kept links of two runs of anchors are those of the first run, then those of the second. */
  lemma {:induction false} KeptHrefsAppend(a: seq<Option<string>>, b: seq<Option<string>>)
    ensures KeptHrefs(a + b) == KeptHrefs(a) + KeptHrefs(b)
  {
    if a == [] {
      assert a + b == b;
    } else {
      var ab := a + b;
      assert ab[0] == a[0] && ab[1..] == a[1..] + b;
      KeptHrefsAppend(a[1..], b);
      var head := if a[0].Some? && a[0].value != "" then [a[0].value] else [];
      assert KeptHrefs(ab) == head + KeptHrefs(a[1..] + b);
      assert KeptHrefs(a) == head + KeptHrefs(a[1..]);
    }
  }

  /** A profile as the scraper emits it: a named location and at least one non-empty link. */
  predicate Scraped(p: Profile) {
    p.country != "" && Selectable(p) && LinksNonEmpty(p)
  }

  /**
   * What the `.each` callback pushes for element `i`: the location cell's
   * trimmed text, the links of the following cell, and the texts of the two
   * cells after that; nothing when the location or the links are empty.
   */
  function RecordAt(elements: seq<Element>, i: nat): (r: Option<Profile>)
    requires i < |elements|
    ensures r.Some? ==> StartsRecord(elements[i]) && Scraped(r.value)
  {
    if !StartsRecord(elements[i]) then None
    else
      var location := Trim(elements[i].text);
      var linksCell := NextList(elements, Some(i));
      var links := match linksCell
        case None => []
        case Some(j) => KeptHrefs(elements[j].anchors);
      var uptimeCell := NextList(elements, linksCell);
      var uptime := TextAt(elements, uptimeCell);
      var ping := TextAt(elements, NextList(elements, uptimeCell));
      if location != "" && |links| > 0 then Some(Profile(location, links, uptime, ping)) else None
  }

  /**
   * What the `.each` callback yields for each element, in document order.
   * The ensures only spells out the comprehension, so that callers reason
   * about its entries without unfolding `RecordAt`.
   */
  function Records(elements: seq<Element>): (opts: seq<Option<Profile>>)
    ensures |opts| == |elements|
    ensures forall i :: 0 <= i < |opts| ==> opts[i] == RecordAt(elements, i)
  {
    seq(|elements|, i requires 0 <= i < |elements| => RecordAt(elements, i))
  }

  /** The values of the present options, in order: what the pushes accumulate. */
  function Present(opts: seq<Option<Profile>>): (rows: seq<Profile>)
    ensures |rows| <= |opts|
  {
    if opts == [] then []
    else
      var last := opts[|opts| - 1];
      Present(opts[..|opts| - 1]) + if last.Some? then [last.value] else []
  }

  /** Visiting one more option pushes its value when it is present. */
  lemma PresentStep(opts: seq<Option<Profile>>, i: nat)
    requires i < |opts|
    ensures Present(opts[..i + 1]) == Present(opts[..i]) + if opts[i].Some? then [opts[i].value] else []
  {
    assert opts[..i + 1][..i] == opts[..i];
  }

  /** Nothing is pushed exactly when no option is present. */
  lemma {:induction false} PresentEmptyIff(opts: seq<Option<Profile>>)
    ensures Present(opts) == [] <==> forall i :: 0 <= i < |opts| ==> opts[i].None?
  {
    if opts != [] {
      var init := opts[..|opts| - 1];
      PresentEmptyIff(init);
      assert forall i :: 0 <= i < |init| ==> init[i] == opts[i];
    }
  }

  /** A value is pushed exactly when some option holds it. */
  lemma {:induction false} PresentMembers(opts: seq<Option<Profile>>, p: Profile)
    ensures p in Present(opts) <==> Some(p) in opts
  {
    if opts != [] {
      var init := opts[..|opts| - 1];
      PresentMembers(init, p);
      assert opts == init + [opts[|opts| - 1]];
    }
  }

  /** The pushes for two runs of options are those of the first run, then those of the second. */
  lemma {:induction false} PresentAppend(a: seq<Option<Profile>>, b: seq<Option<Profile>>)
    ensures Present(a + b) == Present(a) + Present(b)
  {
    if b == [] {
      assert a + b == a;
    } else {
      var front := b[..|b| - 1];
      PresentAppend(a, front);
      assert (a + b)[..|a + b| - 1] == a + front;
      assert (a + b)[|a + b| - 1] == b[|b| - 1];
    }
  }

  /** Every pushed value satisfies what every present option satisfies. */
  lemma {:induction false} PresentScraped(opts: seq<Option<Profile>>)
    requires forall i :: 0 <= i < |opts| && opts[i].Some? ==> Scraped(opts[i].value)
    ensures forall p :: p in Present(opts) ==> Scraped(p)
  {
    if opts != [] {
      PresentScraped(opts[..|opts| - 1]);
    }
  }

  /**
   * The rows of the whole page, in document order: there are no more rows
   * than elements, none exactly when no element yields a record, and every
   * row is well formed.
   */
  function Rows(elements: seq<Element>): (rows: seq<Profile>)
    ensures |rows| <= |elements|
    ensures rows == [] <==> forall i :: 0 <= i < |elements| ==> RecordAt(elements, i).None?
    ensures forall p :: p in rows ==> Scraped(p)
  {
    var opts := Records(elements);
    PresentEmptyIff(opts);
    PresentScraped(opts);
    Present(opts)
  }

  /** A row is on the page exactly when some element yields it as its record. */
  lemma RowsMembers(elements: seq<Element>, p: Profile)
    ensures p in Rows(elements) <==> exists i :: 0 <= i < |elements| && RecordAt(elements, i) == Some(p)
  {
    var opts := Records(elements);
    PresentMembers(opts, p);
    assert Some(p) in opts <==> exists i :: 0 <= i < |opts| && opts[i] == Some(p);
  }

  /**
   * Element `i` yields a record exactly when it starts one, its trimmed text
   * is not empty and the next element is a `div.list` with a kept link; the
   * record then holds that text and those links, and the trimmed texts of
   * the two `div.list` elements after them as uptime and ping ("" where the
   * chain of `div.list` siblings breaks off).
   */
  lemma RecordAtIff(elements: seq<Element>, i: nat)
    requires i < |elements|
    ensures RecordAt(elements, i).Some? <==>
      (StartsRecord(elements[i]) && Trim(elements[i].text) != "" && i + 1 < |elements|
       && elements[i + 1].isDivList && KeptHrefs(elements[i + 1].anchors) != [])
    ensures RecordAt(elements, i).Some? ==>
      RecordAt(elements, i).value.country == Trim(elements[i].text) &&
      RecordAt(elements, i).value.ovpnLinks == KeptHrefs(elements[i + 1].anchors)
    ensures RecordAt(elements, i).Some? ==>
      RecordAt(elements, i).value.uptime ==
        (if i + 2 < |elements| && elements[i + 2].isDivList then Trim(elements[i + 2].text) else "")
    ensures RecordAt(elements, i).Some? ==>
      RecordAt(elements, i).value.ping ==
        (if i + 3 < |elements| && elements[i + 2].isDivList && elements[i + 3].isDivList
         then Trim(elements[i + 3].text) else "")
  {
    var linksCell := NextList(elements, Some(i));
    var uptimeCell := NextList(elements, linksCell);
    var pingCell := NextList(elements, uptimeCell);
    if i + 1 < |elements| && elements[i + 1].isDivList {
      assert linksCell == Some(i + 1);
      if i + 2 < |elements| && elements[i + 2].isDivList {
        assert uptimeCell == Some(i + 2);
        assert pingCell == (if i + 3 < |elements| && elements[i + 3].isDivList then Some(i + 3) else None);
      } else {
        assert uptimeCell == None && pingCell == None;
      }
    } else {
      assert linksCell == None;
    }
  }

  /** `$('div.list').length`. */
  function ListCount(elements: seq<Element>): (count: nat)
    ensures count <= |elements|
  {
    if elements == [] then 0
    else ListCount(elements[..|elements| - 1]) + if elements[|elements| - 1].isDivList then 1 else 0
  }

  /** The page has no `div.list` exactly when the count is zero. */
  lemma {:induction false} ListCountZero(elements: seq<Element>)
    ensures ListCount(elements) == 0 <==> forall i :: 0 <= i < |elements| ==> !elements[i].isDivList
  {
    if elements != [] {
      var init := elements[..|elements| - 1];
      ListCountZero(init);
      assert forall i :: 0 <= i < |init| ==> init[i] == elements[i];
    }
  }

  /**
   * The outcome of one attempt: the rows of the page, or the reason the
   * attempt is retried. A successful attempt never yields an empty list.
   */
  function AttemptResult(r: Response): (res: Result<seq<Profile>, ScrapeError>)
    ensures res.Success? ==> res.value != [] && forall p :: p in res.value ==> Scraped(p)
  {
    match r
    case RequestFailed(_) => Failure(RequestError)
    case NonText => Failure(EmptyHtml)
    case Page(html, elements) =>
      if Trim(html) == "" then Failure(EmptyHtml)
      else if ListCount(elements) == 0 then Failure(NoListElements)
      else
        var rows := Rows(elements);
        if rows == [] then Failure(NothingParsed) else Success(rows)
  }

  /**
   * An attempt succeeds exactly when a page with some non-blank text came
   * back and at least one of its elements yields a record.
   */
  lemma AttemptSucceedsIff(r: Response)
    ensures AttemptResult(r).Success? <==>
      r.Page? && Trim(r.html) != "" && exists i :: 0 <= i < |r.elements| && RecordAt(r.elements, i).Some?
  {
    if r.Page? {
      ListCountZero(r.elements);
    }
  }

  /**
   * Why an attempt is retried: a body that is not text or is blank; a page
   * without any `div.list`; or a page none of whose elements yields a record.
   */
  lemma AttemptFailureCauses(r: Response)
    ensures AttemptResult(r) == Failure(RequestError) <==> r.RequestFailed?
    ensures AttemptResult(r) == Failure(EmptyHtml) <==> r.NonText? || (r.Page? && Trim(r.html) == "")
    ensures AttemptResult(r) == Failure(NoListElements) <==>
      r.Page? && Trim(r.html) != "" && forall i :: 0 <= i < |r.elements| ==> !r.elements[i].isDivList
    ensures AttemptResult(r) == Failure(NothingParsed) <==>
      r.Page? && Trim(r.html) != "" && (exists i :: 0 <= i < |r.elements| && r.elements[i].isDivList) &&
      forall i :: 0 <= i < |r.elements| ==> RecordAt(r.elements, i).None?
  {
    if r.Page? {
      ListCountZero(r.elements);
    }
  }

  /** The `.each` loop: visits every element in order and pushes the record each yields. */
  method ExtractRows(elements: seq<Element>) returns (rows: seq<Profile>)
    ensures rows == Rows(elements)
  {
    rows := [];
    ghost var opts := Records(elements);
    for i := 0 to |elements|
      invariant rows == Present(opts[..i])
    {
      PresentStep(opts, i);
      var record := RecordAt(elements, i);
      if record.Some? {
        rows := rows + [record.value];
      }
    }
    assert opts[..|elements|] == opts;
  }

  /**
   * The body of one attempt's `try` block. It repeats the case split of
   * `AttemptResult` because the row extraction inside it is the loop of
   * `ExtractRows`; the ensures ties the two together.
   */
  method TryAttempt(r: Response) returns (res: Result<seq<Profile>, ScrapeError>)
    ensures res == AttemptResult(r)
  {
    match r {
      case RequestFailed(_) =>
        return Failure(RequestError);
      case NonText =>
        return Failure(EmptyHtml);
      case Page(html, elements) =>
        if Trim(html) == "" {
          return Failure(EmptyHtml);
        }
        if ListCount(elements) == 0 {
          return Failure(NoListElements);
        }
        var rows := ExtractRows(elements);
        if rows == [] {
          return Failure(NothingParsed);
        }
        return Success(rows);
    }
  }

  // ---------------------------------------------------------------------------
  // The retry loop

  /**
   * The outcome each request would have, attempt by attempt. The ensures
   * only spells out the comprehension, so that callers reason about its
   * entries without unfolding `AttemptResult`.
   */
  function Attempts(responses: seq<Response>): (results: seq<Result<seq<Profile>, ScrapeError>>)
    ensures |results| == |responses|
    ensures forall k :: 0 <= k < |responses| ==> results[k] == AttemptResult(responses[k])
  {
    seq(|responses|, k requires 0 <= k < |responses| => AttemptResult(responses[k]))
  }

  /** The value of the first success, or [] when every result is a failure. */
  function FirstSuccess(results: seq<Result<seq<Profile>, ScrapeError>>): (rows: seq<Profile>)
    ensures rows == [] || Success(rows) in results
  {
    if results == [] then []
    else if results[0].Success? then results[0].value
    else FirstSuccess(results[1..])
  }

  /** When result `k` is the first success, its value is the result. */
  lemma {:induction false} FirstSuccessAt(results: seq<Result<seq<Profile>, ScrapeError>>, k: nat)
    requires k < |results| && results[k].Success?
    requires forall j :: 0 <= j < k ==> results[j].Failure?
    ensures FirstSuccess(results) == results[k].value
  {
    if k > 0 {
      assert forall j :: 0 <= j < k - 1 ==> results[1..][j] == results[j + 1];
      FirstSuccessAt(results[1..], k - 1);
    }
  }

  /** The first-success value is [] exactly when every result is a failure. */
  lemma {:induction false} FirstSuccessEmptyIff(results: seq<Result<seq<Profile>, ScrapeError>>)
    requires forall k :: 0 <= k < |results| && results[k].Success? ==> results[k].value != []
    ensures FirstSuccess(results) == [] <==> forall k :: 0 <= k < |results| ==> results[k].Failure?
  {
    if results != [] {
      assert forall k :: 1 <= k < |results| ==> results[1..][k - 1] == results[k];
      FirstSuccessEmptyIff(results[1..]);
    }
  }

  /** The rows of the first attempt that succeeds, or [] when none does. */
  function FirstParsed(responses: seq<Response>): (rows: seq<Profile>)
    ensures forall p :: p in rows ==> Scraped(p)
  {
    FirstSuccess(Attempts(responses))
  }

  /** When attempt `k` is the first to succeed, its rows are the result. */
  lemma FirstParsedIsFirstSuccess(responses: seq<Response>, k: nat)
    requires k < |responses| && AttemptResult(responses[k]).Success?
    requires forall j :: 0 <= j < k ==> AttemptResult(responses[j]).Failure?
    ensures FirstParsed(responses) == AttemptResult(responses[k]).value
  {
    FirstSuccessAt(Attempts(responses), k);
  }

  /** The result is empty exactly when every attempt fails. */
  lemma FirstParsedEmptyIff(responses: seq<Response>)
    ensures FirstParsed(responses) == [] <==>
      forall k :: 0 <= k < |responses| ==> AttemptResult(responses[k]).Failure?
  {
    FirstSuccessEmptyIff(Attempts(responses));
  }

  /**
   * fetchVPNData: `responses[k]` is what request k would return. Returns
   * the rows of the first successful attempt, how many requests were made,
   * and the waits between them; after the last failure it gives up with []
   * and does not wait.
   */
  method FetchVPNData(responses: seq<Response>) returns (data: seq<Profile>, attempts: nat, delays: seq<nat>)
    requires |responses| == MaxRetries
    ensures 1 <= attempts <= MaxRetries
    ensures forall k :: 0 <= k < attempts - 1 ==> AttemptResult(responses[k]).Failure?
    ensures AttemptResult(responses[attempts - 1]).Success? ==>
      data == AttemptResult(responses[attempts - 1]).value
    ensures AttemptResult(responses[attempts - 1]).Failure? ==> attempts == MaxRetries && data == []
    ensures delays == Schedule(attempts - 1)
    ensures data == FirstParsed(responses)
  {
    // attempt 0
    ghost var results := Attempts(responses);
    var result := TryAttempt(responses[0]);
    attempts, delays := 1, [];
    // a failed attempt that is not the last one is followed by a wait and the next attempt
    while result.Failure? && attempts < MaxRetries
      invariant 1 <= attempts <= MaxRetries
      invariant result == results[attempts - 1]
      invariant forall k :: 0 <= k < attempts - 1 ==> results[k].Failure?
      invariant delays == Schedule(attempts - 1)
    {
      assert forall k :: 0 <= k < attempts ==> results[k].Failure?;
      assert Schedule(attempts) == Schedule(attempts - 1) + [Backoff(attempts - 1)];
      delays := delays + [Backoff(attempts - 1)];
      result := TryAttempt(responses[attempts]);
      attempts := attempts + 1;
    }
    data := if result.Success? then result.value else [];
    assert FirstParsed(responses) == FirstSuccess(results);
    if result.Success? {
      FirstSuccessAt(results, attempts - 1);
    } else {
      forall k | 0 <= k < |results|
        ensures results[k].Failure?
      {
        if k == attempts - 1 {
          assert results[k] == result;
        }
      }
      assert Success(FirstSuccess(results)) !in results;
    }
  }

  // ---------------------------------------------------------------------------
  // The GitHub listing

  /** Where the raw `.ovpn` files of the GitHub listing are downloaded from. */
  const GitHubRawPrefix := "https://github.com/M1noa/free-ovpn/raw/vpn-list-api/conf/"

  /** What the GitHub contents request produced: the file names, or an error. */
  datatype Listing = ListingFailed(reason: string) | Files(names: seq<string>)

  /** The record built for one file of the GitHub listing. */
  function GitHubProfile(name: string): Profile {
    Profile("USA", [GitHubRawPrefix + name], "Unknown", "Github Upload")
  }

  /** One record per listed file, in listing order; none when the request failed. */
  function GitHubRecords(listing: Listing): (r: seq<Profile>)
    ensures listing.ListingFailed? ==> r == []
    ensures listing.Files? ==> |r| == |listing.names|
    ensures listing.Files? ==> forall i :: 0 <= i < |r| ==>
      r[i].ovpnLinks == [GitHubRawPrefix + listing.names[i]] && r[i].country == "USA" &&
      r[i].uptime == "Unknown" && r[i].ping == "Github Upload"
    ensures forall p :: p in r ==> Scraped(p)
  {
    match listing
    case ListingFailed(_) => []
    case Files(names) => seq(|names|, i requires 0 <= i < |names| => GitHubProfile(names[i]))
  }

  /** The client's profile name (`split('/').pop()`) of a GitHub record is the file name. */
  lemma GitHubNameRecovered(name: string)
    requires '/' !in name
    ensures LastSegment(GitHubProfile(name).ovpnLinks[0]) == name
  {
    LastSegmentAfterSlash(GitHubRawPrefix, name);
  }

  // ---------------------------------------------------------------------------
  // The freeopenvpn.org page

  const FreeOpenVpnOrigin := "https://www.freeopenvpn.org"
  const OvpnMarker := ".ovpn"

  /** What the freeopenvpn.org request produced: the `href` of every anchor of the page, or an error. */
  datatype FreePage = FreePageFailed(reason: string) | FreePage(anchors: seq<Option<string>>)

  /** The selector `a[href*=".ovpn"]`. */
  predicate OvpnAnchor(href: Option<string>) {
    href.Some? && Includes(href.value, OvpnMarker)
  }

  /** The absolute links of the `.ovpn` anchors, in document order. */
  function OvpnLinks(anchors: seq<Option<string>>): (links: seq<string>)
    ensures |links| <= |anchors|
  {
    if anchors == [] then []
    else
      var last := anchors[|anchors| - 1];
      OvpnLinks(anchors[..|anchors| - 1]) +
        if OvpnAnchor(last) && last.value != "" then [FreeOpenVpnOrigin + last.value] else []
  }

  /** Every link is on the site's origin and names an `.ovpn` file. */
  lemma {:induction false} OvpnLinksShape(anchors: seq<Option<string>>)
    ensures forall i :: 0 <= i < |OvpnLinks(anchors)| ==>
      FreeOpenVpnOrigin <= OvpnLinks(anchors)[i] && Includes(OvpnLinks(anchors)[i], OvpnMarker)
  {
    if anchors != [] {
      OvpnLinksShape(anchors[..|anchors| - 1]);
      var last := anchors[|anchors| - 1];
      if OvpnAnchor(last) && last.value != "" {
        IncludesAfterPrefix(FreeOpenVpnOrigin, last.value, OvpnMarker);
      }
    }
  }

  /** No link is collected exactly when no anchor matches the selector. */
  lemma {:induction false} OvpnLinksEmptyIff(anchors: seq<Option<string>>)
    ensures OvpnLinks(anchors) == [] <==> forall i :: 0 <= i < |anchors| ==> !OvpnAnchor(anchors[i])
  {
    if anchors != [] {
      var init := anchors[..|anchors| - 1];
      OvpnLinksEmptyIff(init);
      assert forall i :: 0 <= i < |init| ==> init[i] == anchors[i];
    }
  }

  /**
   * A link is collected exactly when it is the origin followed by the `href`
   * of some anchor that matches the selector.
   */
  lemma {:induction false} OvpnLinksMembers(anchors: seq<Option<string>>, l: string)
    ensures l in OvpnLinks(anchors) <==>
      exists h :: Some(h) in anchors && Includes(h, OvpnMarker) && l == FreeOpenVpnOrigin + h
  {
    if anchors != [] {
      var init, last := anchors[..|anchors| - 1], anchors[|anchors| - 1];
      OvpnLinksMembers(init, l);
      assert anchors == init + [last];
      assert !Includes("", OvpnMarker);
      if l in OvpnLinks(anchors) {
        if l in OvpnLinks(init) {
          var h :| Some(h) in init && Includes(h, OvpnMarker) && l == FreeOpenVpnOrigin + h;
          assert Some(h) in anchors;
        } else {
          assert Some(last.value) in anchors;
        }
      } else {
        forall h | Some(h) in anchors && Includes(h, OvpnMarker)
          ensures l != FreeOpenVpnOrigin + h
        {
          if Some(h) !in init {
            assert Some(h) == last;
          }
        }
      }
    }
  }

  /** The links of two runs of anchors are those of the first run followed by those of the second. */
  lemma {:induction false} OvpnLinksAppend(a: seq<Option<string>>, b: seq<Option<string>>)
    ensures OvpnLinks(a + b) == OvpnLinks(a) + OvpnLinks(b)
  {
    if b == [] {
      assert a + b == a;
    } else {
      var front := b[..|b| - 1];
      OvpnLinksAppend(a, front);
      assert (a + b)[..|a + b| - 1] == a + front;
      assert (a + b)[|a + b| - 1] == b[|b| - 1];
    }
  }

  /** The `.each` loop that pushes one absolute link per matching anchor. */
  method CollectOvpnLinks(anchors: seq<Option<string>>) returns (links: seq<string>)
    ensures links == OvpnLinks(anchors)
  {
    links := [];
    for i := 0 to |anchors|
      invariant links == OvpnLinks(anchors[..i])
    {
      assert anchors[..i + 1][..i] == anchors[..i];
      var href := anchors[i];
      if OvpnAnchor(href) && href.value != "" {
        links := links + [FreeOpenVpnOrigin + href.value];
      }
    }
    assert anchors[..|anchors|] == anchors;
  }

  /** The single freeopenvpn.org record holding every link, or none. */
  function FreeOpenVpnRecords(page: FreePage): (r: seq<Profile>)
    ensures |r| <= 1
    ensures r == [] <==> page.FreePageFailed? || forall i :: 0 <= i < |page.anchors| ==> !OvpnAnchor(page.anchors[i])
    ensures r != [] ==> r[0].ovpnLinks == OvpnLinks(page.anchors) && Scraped(r[0])
    ensures r != [] ==> r[0].country == "USA" && r[0].uptime == "Updated Daily" && r[0].ping == "freeopenvpn.org"
  {
    match page
    case FreePageFailed(_) => []
    case FreePage(anchors) =>
      OvpnLinksEmptyIff(anchors);
      OvpnLinksShape(anchors);
      var links := OvpnLinks(anchors);
      assert forall i :: 0 <= i < |links| ==> |links[i]| >= |FreeOpenVpnOrigin| > 0;
      if links == [] then [] else [Profile("USA", links, "Updated Daily", "freeopenvpn.org")]
  }

  /**
   * fetchFreeOpenVPNData. It repeats the case split of `FreeOpenVpnRecords`
   * because the link collection inside it is the loop of
   * `CollectOvpnLinks`; the ensures ties the two together.
   */
  method FetchFreeOpenVpn(page: FreePage) returns (r: seq<Profile>)
    ensures r == FreeOpenVpnRecords(page)
  {
    match page {
      case FreePageFailed(_) =>
        return [];
      case FreePage(anchors) =>
        var links := CollectOvpnLinks(anchors);
        if links == [] {
          return [];
        }
        return [Profile("USA", links, "Updated Daily", "freeopenvpn.org")];
    }
  }

  // ---------------------------------------------------------------------------
  // /list.json

  /**
   * The `/list.json` handler: GitHub records first, then the scraped rows,
   * then the freeopenvpn.org record. Every profile it serves can be selected
   * by the client.
   */
  method ListJson(ipspeed: seq<Response>, github: Listing, freeOpenVpn: FreePage) returns (combined: seq<Profile>)
    requires |ipspeed| == MaxRetries
    ensures combined == GitHubRecords(github) + FirstParsed(ipspeed) + FreeOpenVpnRecords(freeOpenVpn)
    ensures |combined| == |GitHubRecords(github)| + |FirstParsed(ipspeed)| + |FreeOpenVpnRecords(freeOpenVpn)|
    ensures forall p :: p in combined ==> Scraped(p)
  {
    var fetched, _, _ := FetchVPNData(ipspeed);
    var fromGitHub := GitHubRecords(github);
    var fromFreeOpenVpn := FetchFreeOpenVpn(freeOpenVpn);
    combined := fromGitHub + fetched + fromFreeOpenVpn;
  }
}
