/** The DentalStall listing scraper of app/services/scraper.py.

    HTML is seen through abstract records holding what the parser's `find` calls return; the
    network is an oracle giving, for each URL, the response to its n-th GET; an image download
    is an oracle saying, for each image URL, whether the download and the file write succeed. */
module Scraper {
  import opened Wrappers
  import opened Text
  import opened Seqs
  import opened Schemas

  // ---------------------------------------------------------------------------------------
  // The documents

  /** An `a.page-numbers` anchor of the pagination list: its class list and its text. */
  datatype Anchor = Anchor(classes: seq<string>, text: string)

  /** An `img` tag: its `data-lazy-src` and `src` attributes. */
  datatype Img = Img(dataLazySrc: Option<string>, src: Option<string>)

  /** A `div.mf-product-thumbnail`: the first `img` inside it. */
  datatype Thumbnail = Thumbnail(img: Option<Img>)

  /** An `ins` or `span.woocommerce-Price-amount` node: the text of the first `bdi` inside it. */
  datatype PriceNode = PriceNode(bdi: Option<string>)

  /** A `div.mf-product-price-box`: its first `ins` and its first `span.woocommerce-Price-amount`. */
  datatype PriceBox = PriceBox(ins: Option<PriceNode>, amount: Option<PriceNode>)

  /** An `h2.woo-loop-product__title`: the text of the first `a` inside it. */
  datatype Heading = Heading(link: Option<string>)

  /** An `li.product` listing item. */
  datatype Item = Item(heading: Option<Heading>, priceBox: Option<PriceBox>, thumbnail: Option<Thumbnail>)

  /** A fetched document: its text, the anchors of its `ul.page-numbers` (None when there is no
      such list) and its listing items in document order. */
  datatype Html = Html(text: string, pagination: Option<seq<Anchor>>, items: seq<Item>)

  // ---------------------------------------------------------------------------------------
  // fetch_page

  /** One GET: an HTTP answer with its status and body, a timeout, or any other exception. */
  datatype Response = Answered(status: int, body: Html) | Timeout | Error(detail: string)

  /** The exception fetch_page finally raises. */
  datatype FetchError = TimedOut | TransportError(detail: string) | Exhausted(url: string, retries: nat)

  /** What fetch_page returns: the page, None for a blank 200 body, or the exception it raises. */
  datatype FetchOutcome = Content(html: Html) | NoContent | Failed(error: FetchError)

  /** An outcome together with the number of GETs it took. */
  datatype Fetch = Fetch(outcome: FetchOutcome, attempts: nat)

  /** The number of retries a fetch makes by default. */
  const DefaultRetryAttempts: nat := 3

  /** fetch_page(url, retry): the GETs are net(first), net(first + 1), ... in order.
      A timeout or other exception is retried from inside its handler, so the retry's own failure
      escapes. A non-200 answer is retried from inside the `try`, so when that retry fails its
      exception is caught once more by the handlers below and retried again with the same count. */
  function FetchPage(net: nat -> Response, url: string, first: nat, retry: nat, retries: nat): (f: Fetch)
    ensures 1 <= f.attempts
    ensures net(first).Answered? && net(first).status == 200 ==> f.attempts == 1
    ensures f.outcome.Content? ==> Strip(f.outcome.html.text) != []
    decreases if retry < retries then retries - retry else 0
  {
    match net(first)
    case Answered(status, body) =>
      if status == 200 then
        if Strip(body.text) == [] then Fetch(NoContent, 1) else Fetch(Content(body), 1)
      else if retry < retries then
        var inner := FetchPage(net, url, first + 1, retry + 1, retries);
        if !inner.outcome.Failed? then Fetch(inner.outcome, 1 + inner.attempts)
        else
          var again := FetchPage(net, url, first + 1 + inner.attempts, retry + 1, retries);
          Fetch(again.outcome, 1 + inner.attempts + again.attempts)
      else Fetch(Failed(Exhausted(url, retry)), 1)
    case Timeout =>
      if retry < retries then
        var inner := FetchPage(net, url, first + 1, retry + 1, retries);
        Fetch(inner.outcome, 1 + inner.attempts)
      else Fetch(Failed(TimedOut), 1)
    case Error(detail) =>
      if retry < retries then
        var inner := FetchPage(net, url, first + 1, retry + 1, retries);
        Fetch(inner.outcome, 1 + inner.attempts)
      else Fetch(Failed(TransportError(detail)), 1)
  }

  /** A 200 answer ends fetch_page at once, without a retry: a blank body gives None, any other
      body is returned. */
  lemma FetchAnsweredOk(net: nat -> Response, url: string, first: nat, retry: nat, retries: nat)
    requires net(first).Answered? && net(first).status == 200
    ensures FetchPage(net, url, first, retry, retries)
         == Fetch(if Strip(net(first).body.text) == [] then NoContent else Content(net(first).body), 1)
    ensures FetchPage(net, url, first, retry, retries).outcome == NoContent <==> IsBlank(net(first).body.text)
  {
    StripEmptyIffBlank(net(first).body.text);
  }

  /** The number of GETs a server that never answers 200 draws: A(k) = 1 + 2 * A(k + 1), A(R) = 1. */
  function BadStatusAttempts(retry: nat, retries: nat): nat
    decreases if retry < retries then retries - retry else 0
  {
    if retry < retries then 1 + 2 * BadStatusAttempts(retry + 1, retries) else 1
  }

  /** A(k) = 2^(R - k + 1) - 1. */
  lemma {:induction false} BadStatusAttemptsClosedForm(retry: nat, retries: nat)
    requires retry <= retries
    ensures BadStatusAttempts(retry, retries) == Pow2(retries - retry + 1) - 1
    decreases retries - retry
  {
    if retry < retries {
      BadStatusAttemptsClosedForm(retry + 1, retries);
    }
  }

  /** With the default three retries, an always-failing status costs fifteen GETs. */
  lemma DefaultRetriesMakeFifteenGets()
    ensures BadStatusAttempts(0, DefaultRetryAttempts) == 15
  {
    BadStatusAttemptsClosedForm(0, DefaultRetryAttempts);
    assert Pow2(4) == 16 by {
      assert Pow2(2) == 4;
    }
  }

  /** When every retry from `first + 1` on takes at most `bound` GETs, a call with retries left
      takes at most 1 + 2 * bound. */
  lemma FetchAttemptsStep(net: nat -> Response, url: string, first: nat, retry: nat, retries: nat, bound: nat)
    requires retry < retries
    requires FetchPage(net, url, first + 1, retry + 1, retries).attempts <= bound
    requires var k := FetchPage(net, url, first + 1, retry + 1, retries).attempts;
      FetchPage(net, url, first + 1 + k, retry + 1, retries).attempts <= bound
    ensures FetchPage(net, url, first, retry, retries).attempts <= 1 + 2 * bound
  {
  }

  /** No sequence of responses makes fetch_page issue more GETs than A(k). */
  lemma {:induction false} FetchAttemptsAtMost(net: nat -> Response, url: string, first: nat, retry: nat, retries: nat)
    ensures FetchPage(net, url, first, retry, retries).attempts <= BadStatusAttempts(retry, retries)
    decreases if retry < retries then retries - retry else 0
  {
    if retry < retries {
      var bound := BadStatusAttempts(retry + 1, retries);
      FetchAttemptsAtMost(net, url, first + 1, retry + 1, retries);
      var inner := FetchPage(net, url, first + 1, retry + 1, retries);
      FetchAttemptsAtMost(net, url, first + 1 + inner.attempts, retry + 1, retries);
      FetchAttemptsStep(net, url, first, retry, retries, bound);
    }
  }

  /** A server that always times out is asked R - k + 1 times, then the timeout propagates. */
  lemma {:induction false} FetchAlwaysTimingOut(net: nat -> Response, url: string, first: nat, retry: nat, retries: nat)
    requires forall n :: net(n) == Timeout
    requires retry <= retries
    ensures FetchPage(net, url, first, retry, retries) == Fetch(Failed(TimedOut), retries - retry + 1)
    decreases retries - retry
  {
    if retry < retries {
      FetchAlwaysTimingOut(net, url, first + 1, retry + 1, retries);
    }
  }

  /** A connection that always fails is tried R - k + 1 times, then its error propagates. */
  lemma {:induction false} FetchAlwaysErroring(net: nat -> Response, url: string, first: nat, retry: nat, retries: nat, detail: string)
    requires forall n :: net(n) == Error(detail)
    requires retry <= retries
    ensures FetchPage(net, url, first, retry, retries) == Fetch(Failed(TransportError(detail)), retries - retry + 1)
    decreases retries - retry
  {
    if retry < retries {
      FetchAlwaysErroring(net, url, first + 1, retry + 1, retries, detail);
    }
  }

  /** A non-200 answer with retries left whose retry fails: one more retry, whose outcome stands. */
  lemma FetchRetriedTwice(net: nat -> Response, url: string, first: nat, retry: nat, retries: nat,
                          e: FetchError, k: nat, again: Fetch)
    requires net(first).Answered? && net(first).status != 200 && retry < retries
    requires FetchPage(net, url, first + 1, retry + 1, retries) == Fetch(Failed(e), k)
    requires FetchPage(net, url, first + 1 + k, retry + 1, retries) == again
    ensures FetchPage(net, url, first, retry, retries) == Fetch(again.outcome, 1 + k + again.attempts)
  {
  }

  /** A server that never answers 200 is asked exactly A(k) times, and the error that escapes is
      the exhaustion raised at the last retry count. */
  lemma {:induction false} FetchAlwaysBadStatus(net: nat -> Response, url: string, first: nat, retry: nat, retries: nat)
    requires forall n :: net(n).Answered? && net(n).status != 200
    requires retry <= retries
    ensures FetchPage(net, url, first, retry, retries) == Fetch(Failed(Exhausted(url, retries)), BadStatusAttempts(retry, retries))
    decreases retries - retry
  {
    assert net(first).Answered? && net(first).status != 200;
    var failed := Failed(Exhausted(url, retries));
    if retry < retries {
      var k := BadStatusAttempts(retry + 1, retries);
      FetchAlwaysBadStatus(net, url, first + 1, retry + 1, retries);
      FetchAlwaysBadStatus(net, url, first + 1 + k, retry + 1, retries);
      FetchRetriedTwice(net, url, first, retry, retries, Exhausted(url, retries), k, Fetch(failed, k));
    } else {
      assert FetchPage(net, url, first, retry, retries) == Fetch(Failed(Exhausted(url, retry)), 1);
    }
  }

  /** The text str(e) of the exception fetch_page raises. */
  function FetchErrorMessage(e: FetchError): string {
    match e
    case TimedOut => ""
    case TransportError(detail) => detail
    case Exhausted(url, retries) => "Failed to fetch " + url + " after " + NatToString(retries) + " retries"
  }

  // ---------------------------------------------------------------------------------------
  // get_total_pages

  /** The page number an anchor shows: none for the `next` link or a label int() rejects. */
  function PageLabel(a: Anchor): Option<int> {
    if "next" in a.classes then None else ParseInt(Strip(a.text))
  }

  /** An anchor showing more digits than int() converts is skipped, as its ValueError is. */
  lemma LongLabelIgnored(a: Anchor)
    requires AllDigits(Strip(a.text)) && |Strip(a.text)| > MaxIntDigits
    ensures PageLabel(a) == None
  {
    ParseIntDigitLimit(Strip(a.text));
  }

  /** The largest page number among the anchors, and at least 1. */
  function MaxPage(anchors: seq<Anchor>): (r: int)
    ensures r >= 1
    ensures forall i :: 0 <= i < |anchors| && PageLabel(anchors[i]).Some? ==> PageLabel(anchors[i]).value <= r
    ensures r == 1 || exists i :: 0 <= i < |anchors| && PageLabel(anchors[i]) == Some(r)
  {
    if anchors == [] then 1
    else
      var prefix := anchors[..|anchors| - 1];
      var m := MaxPage(prefix);
      var shown := PageLabel(anchors[|anchors| - 1]);
      assert forall i :: 0 <= i < |prefix| ==> prefix[i] == anchors[i];
      if shown.Some? && shown.value > m then shown.value else m
  }

  /** The page count: 1 without a pagination list or without anchors, their largest label otherwise. */
  function TotalPages(pagination: Option<seq<Anchor>>): (r: int)
    ensures r >= 1
  {
    match pagination
    case None => 1
    case Some(anchors) => if anchors == [] then 1 else MaxPage(anchors)
  }

  /** get_total_pages: the loop that folds `max_page` over the anchors. */
  method GetTotalPages(pagination: Option<seq<Anchor>>) returns (r: int)
    ensures r == TotalPages(pagination)
    ensures r >= 1
    ensures pagination.Some? ==> forall i :: 0 <= i < |pagination.value| && PageLabel(pagination.value[i]).Some? ==> PageLabel(pagination.value[i]).value <= r
  {
    if pagination.None? {
      return 1;
    }
    var pageNumbers := pagination.value;
    if pageNumbers == [] {
      return 1;
    }
    var maxPage := 1;
    for i := 0 to |pageNumbers|
      invariant maxPage == MaxPage(pageNumbers[..i])
    {
      assert pageNumbers[..i + 1][..i] == pageNumbers[..i];
      var page := pageNumbers[i];
      if "next" in page.classes {
        continue;
      }
      var pageNum := ParseInt(Strip(page.text));
      if pageNum.Some? {
        maxPage := if pageNum.value > maxPage then pageNum.value else maxPage;
      }
    }
    assert pageNumbers[..|pageNumbers|] == pageNumbers;
    return maxPage;
  }

  /** Anchors labelled 1 .. n, in any number of copies and mixed with non-numeric labels such as
      an ellipsis and with the `next` link, give n pages. */
  lemma NumberedPagination(anchors: seq<Anchor>, n: nat)
    requires n >= 1 && |NatToString(n)| <= MaxIntDigits
    requires exists i :: 0 <= i < |anchors| && anchors[i] == Anchor(["page-numbers"], NatToString(n))
    requires forall i :: 0 <= i < |anchors| && PageLabel(anchors[i]).Some? ==> PageLabel(anchors[i]).value <= n
    ensures TotalPages(Some(anchors)) == n
  {
    var i :| 0 <= i < |anchors| && anchors[i] == Anchor(["page-numbers"], NatToString(n));
    ParseIntOfNatToString(n);
    StripUntrimmed(NatToString(n));
    assert PageLabel(anchors[i]) == Some(n);
  }

  // ---------------------------------------------------------------------------------------
  // The page range of scrape

  /** The number of pages scraped: a non-zero limit caps the total; no limit, or 0, leaves it alone. */
  function PagesToScrape(total: int, pageLimit: Option<int>): (n: int)
    ensures pageLimit.Some? && pageLimit.value != 0 ==> n <= total && n <= pageLimit.value && (n == total || n == pageLimit.value)
    ensures pageLimit.None? || pageLimit.value == 0 ==> n == total
  {
    if pageLimit.Some? && pageLimit.value != 0 then
      (if total <= pageLimit.value then total else pageLimit.value)
    else total
  }

  /** The URL of a listing page: the base URL, then "page/", the page number and a slash. */
  function PageUrl(base: string, page: nat): string {
    base + "page/" + NatToString(page) + "/"
  }

  /** The URLs of pages 1 .. n, in that order (none when n < 1). */
  function PageUrls(base: string, n: int): (urls: seq<string>)
    ensures |urls| == if n > 0 then n else 0
  {
    seq(if n > 0 then n else 0, i requires 0 <= i => PageUrl(base, i + 1))
  }

  /** The k-th URL is page k + 1's. */
  lemma PageUrlsAt(base: string, n: int, k: nat)
    requires k < n
    ensures PageUrls(base, n)[k] == PageUrl(base, k + 1)
  {
  }

  /** One more page appends its URL. */
  lemma PageUrlsSnoc(base: string, n: nat)
    ensures PageUrls(base, n + 1) == PageUrls(base, n) + [PageUrl(base, n + 1)]
  {
  }

  /** The page number can be read back from a page URL, so distinct pages get distinct URLs. */
  lemma PageUrlInjective(base: string, i: nat, j: nat)
    requires PageUrl(base, i) == PageUrl(base, j)
    ensures i == j
  {
    var prefix := base + "page/";
    var u := PageUrl(base, i);
    assert u == prefix + NatToString(i) + "/";
    assert u[|prefix|..|u| - 1] == NatToString(i);
    assert u == prefix + NatToString(j) + "/";
    assert u[|prefix|..|u| - 1] == NatToString(j);
    NatToStringInjective(i, j);
  }

  /** No page is scraped twice. */
  lemma PageUrlsDistinct(base: string, n: int)
    ensures forall a, b :: 0 <= a < b < |PageUrls(base, n)| ==> PageUrls(base, n)[a] != PageUrls(base, n)[b]
  {
    forall a, b | 0 <= a < b < |PageUrls(base, n)|
      ensures PageUrls(base, n)[a] != PageUrls(base, n)[b]
    {
      if PageUrls(base, n)[a] == PageUrls(base, n)[b] {
        PageUrlInjective(base, a + 1, b + 1);
      }
    }
  }

  // ---------------------------------------------------------------------------------------
  // Price text

  const Rupee: char := '\U{20B9}'

  /** The price text with "₹", then ",", then "/-" removed, then stripped. */
  function NormalizePrice(text: string): string {
    Strip(RemoveAll(RemoveAll(RemoveAll(text, [Rupee]), ","), "/-"))
  }

  /** Decimal() of the stripped and normalised `bdi` text; None where Decimal() raises. */
  function ParsePrice(bdiText: string): Option<real> {
    ParseDecimal(NormalizePrice(Strip(bdiText)))
  }

  /** The text handed to Decimal() holds no currency sign and no thousands separator. */
  lemma NormalizedPriceIsBare(text: string)
    ensures Rupee !in NormalizePrice(text) && ',' !in NormalizePrice(text)
  {
    var a := RemoveAll(text, [Rupee]);
    RemoveAllSingle(text, Rupee);
    var b := RemoveAll(a, ",");
    RemoveAllSingle(a, ',');
    var c := RemoveAll(b, "/-");
    RemoveAllKeepsChars(b, "/-");
    StripKeepsChars(c);
    RemoveAllKeepsChars(a, ",");
  }

  lemma DigitsLackPriceMarks(d: string)
    requires AllDigits(d)
    ensures Rupee !in d && ',' !in d && '/' !in d
  {
    forall k | 0 <= k < |d| ensures d[k] != Rupee && d[k] != ',' && d[k] != '/' {
      assert IsDigit(d[k]);
    }
  }

  /** A leading "₹" is the only one removed when the rest holds none. */
  lemma RemoveLeadingRupee(rest: string)
    requires Rupee !in rest
    ensures RemoveAll([Rupee] + rest, [Rupee]) == rest
  {
    assert ([Rupee] + rest)[..1] == [Rupee];
    assert ([Rupee] + rest)[1..] == rest;
    RemoveAllAbsent(rest, [Rupee]);
  }

  /** The trailing "/-" goes, the digits before it stay. */
  lemma RemoveTrailingMark(d: string)
    requires AllDigits(d)
    ensures RemoveAll(d + "/-", "/-") == d
  {
    DigitsLackPriceMarks(d);
    RemoveAllConcat(d, "/-", "/-");
    RemoveAllAbsent(d, "/-");
    assert RemoveAll("/-", "/-") == [];
  }

  /** Digits are left alone by strip(). */
  lemma StripDigits(d: string)
    requires d != [] && AllDigits(d)
    ensures Strip(d) == d
  {
    assert IsDigit(d[0]) && IsDigit(d[|d| - 1]);
    StripUntrimmed(d);
  }

  /** "₹" + digits + "/-" normalises to the digits. */
  lemma NormalizePlainPrice(d: string)
    requires d != [] && AllDigits(d)
    ensures NormalizePrice([Rupee] + d + "/-") == d
  {
    DigitsLackPriceMarks(d);
    var rest := d + "/-";
    assert [Rupee] + d + "/-" == [Rupee] + rest;
    RemoveLeadingRupee(rest);
    RemoveAllAbsent(rest, ",");
    RemoveTrailingMark(d);
    StripDigits(d);
  }

  /** "₹" + a + "," + b + "/-" normalises to the digits of a and b together. */
  lemma NormalizeGroupedPrice(a: string, b: string)
    requires a != [] && AllDigits(a) && AllDigits(b)
    ensures NormalizePrice([Rupee] + a + "," + b + "/-") == a + b
  {
    DigitsLackPriceMarks(a);
    DigitsLackPriceMarks(b);
    var tail := b + "/-";
    var rest := a + ("," + tail);
    assert [Rupee] + a + "," + b + "/-" == [Rupee] + rest;
    assert Rupee !in rest;
    RemoveLeadingRupee(rest);
    RemoveAllConcat(a, "," + tail, ",");
    RemoveAllAbsent(a, ",");
    assert ("," + tail)[..1] == "," && ("," + tail)[1..] == tail;
    RemoveAllAbsent(tail, ",");
    assert a + tail == (a + b) + "/-";
    assert AllDigits(a + b);
    RemoveTrailingMark(a + b);
    StripDigits(a + b);
  }

  /** A price text with no white space at either end is stripped to itself. */
  lemma StripPriceText(t: string)
    requires |t| >= 2 && t[0] == Rupee && t[|t| - 1] == '-'
    ensures Strip(t) == t
  {
    StripUntrimmed(t);
  }

  /** "₹" + str(n) + "/-" is read as the price n. */
  lemma ParsePriceOfRupees(n: nat)
    ensures ParsePrice([Rupee] + NatToString(n) + "/-") == Some(n as real)
  {
    var d := NatToString(n);
    var t := [Rupee] + d + "/-";
    StripPriceText(t);
    NormalizePlainPrice(d);
    ParseDecimalOfNatToString(n);
  }

  /** A price with a thousands separator reads as its digits run together. */
  lemma ParsePriceOfGroupedDigits(a: string, b: string)
    requires a != [] && AllDigits(a) && AllDigits(b)
    ensures ParsePrice([Rupee] + a + "," + b + "/-") == Some(DigitsValue(a + b) as real)
  {
    var t := [Rupee] + a + "," + b + "/-";
    StripPriceText(t);
    NormalizeGroupedPrice(a, b);
    ParseDecimalOfDigits(a + b);
  }

  /** The site's own format: "₹1,234/-" reads as 1234. */
  lemma ParsePriceExample()
    ensures ParsePrice([Rupee] + "1,234/-") == Some(1234 as real)
  {
    SiteFormatExample();
    ParsePriceOfGroupedDigits("1", "234");
    DigitsValueExample();
  }

  lemma SiteFormatExample()
    ensures [Rupee] + "1,234/-" == [Rupee] + "1" + "," + "234" + "/-"
    ensures AllDigits("1") && AllDigits("234")
  {
  }

  lemma DigitsValueExample()
    ensures "1" + "234" == "1234" && DigitsValue("1234") == 1234
  {
    assert "1234"[..3] == "123" && "123"[..2] == "12" && "12"[..1] == "1" && "1"[..0] == [];
  }

  // ---------------------------------------------------------------------------------------
  // download_image

  predicate IsAsciiAlnum(c: char) {
    ('a' <= c <= 'z') || ('A' <= c <= 'Z') || ('0' <= c <= '9')
  }

  /** The characters a saved image's name may keep. */
  predicate FilenameChar(c: char) {
    IsAsciiAlnum(c) || c == ' ' || c == '-' || c == '_'
  }

  /** The title's letters, digits, spaces, hyphens and underscores, in order; everything else dropped. */
  function KeepFilenameChars(s: string): (r: string)
    ensures |r| <= |s|
  {
    if s == [] then [] else (if FilenameChar(s[0]) then [s[0]] else []) + KeepFilenameChars(s[1..])
  }

  /** Only allowed characters are kept. */
  lemma {:induction false} KeepFilenameCharsAllowed(s: string)
    ensures forall k :: 0 <= k < |KeepFilenameChars(s)| ==> FilenameChar(KeepFilenameChars(s)[k])
  {
    if s != [] {
      KeepFilenameCharsAllowed(s[1..]);
      var head := if FilenameChar(s[0]) then [s[0]] else [];
      var r := KeepFilenameChars(s);
      forall k | 0 <= k < |r| ensures FilenameChar(r[k]) {
        if k >= |head| {
          assert r[k] == KeepFilenameChars(s[1..])[k - |head|];
        }
      }
    }
  }

  /** The stem is cut at 50 characters before it is stripped. */
  const MaxStemLength: nat := 50

  /** The file name an image is saved under: the kept characters, cut at 50, stripped, plus ".jpg". */
  function SafeFilename(title: string): (name: string)
    ensures |name| <= MaxStemLength + 4
    ensures EndsWith(name, ".jpg")
  {
    var kept := KeepFilenameChars(title);
    var cut := if |kept| <= MaxStemLength then kept else kept[..MaxStemLength];
    Strip(cut) + ".jpg"
  }

  /** The stem holds only letters, digits, spaces, '-' and '_', and starts and ends with no space. */
  lemma SafeFilenameStem(title: string)
    ensures var name := SafeFilename(title);
      && (forall k :: 0 <= k < |name| - 4 ==> FilenameChar(name[k]))
      && (|name| > 4 ==> name[0] != ' ' && name[|name| - 5] != ' ')
  {
    var kept := KeepFilenameChars(title);
    KeepFilenameCharsAllowed(title);
    var cut := if |kept| <= MaxStemLength then kept else kept[..MaxStemLength];
    assert forall k :: 0 <= k < |cut| ==> cut[k] == kept[k];
    var stem := Strip(cut);
    StripKeepsChars(cut);
    var name := stem + ".jpg";
    assert name == SafeFilename(title);
    forall k | 0 <= k < |name| - 4 ensures FilenameChar(name[k]) {
      assert name[k] == stem[k];
      assert stem[k] in cut;
    }
    if |name| > 4 {
      assert name[0] == stem[0] && name[|name| - 5] == stem[|stem| - 1];
    }
  }

  /** A title that already is a safe name of at most 50 characters is kept as it is. */
  lemma {:induction false} KeepFilenameCharsOfSafe(s: string)
    requires forall k :: 0 <= k < |s| ==> FilenameChar(s[k])
    ensures KeepFilenameChars(s) == s
  {
    if s != [] {
      KeepFilenameCharsOfSafe(s[1..]);
    }
  }

  lemma SafeFilenameOfSafeTitle(title: string)
    requires forall k :: 0 <= k < |title| ==> FilenameChar(title[k])
    requires |title| <= MaxStemLength
    requires title == [] || (title[0] != ' ' && title[|title| - 1] != ' ')
    ensures SafeFilename(title) == title + ".jpg"
  {
    KeepFilenameCharsOfSafe(title);
    StripUntrimmed(title);
  }

  /** A relative name joined to a directory, with one separator between them. */
  function JoinPath(dir: string, name: string): string {
    if dir == [] || dir[|dir| - 1] == '/' then dir + name else dir + "/" + name
  }

  /** download_image: the saved file's path when the download and the write succeed, "" otherwise. */
  function DownloadImage(imageDir: string, title: string, succeeded: bool): (path: string)
    ensures path != "" <==> succeeded
  {
    if succeeded then JoinPath(imageDir, SafeFilename(title)) else ""
  }

  /** A saved image lies in the image directory under its safe file name. */
  lemma DownloadImageSavesUnderSafeName(imageDir: string, title: string)
    ensures EndsWith(DownloadImage(imageDir, title, true), SafeFilename(title))
    ensures DownloadImage(imageDir, title, true)[..|imageDir|] == imageDir
  {
    var name := SafeFilename(title);
    var path := DownloadImage(imageDir, title, true);
    assert path[|path| - |name|..] == name;
  }

  // ---------------------------------------------------------------------------------------
  // The per-item steps of scrape_page

  /** Why an item was passed over, by the first check it fails. */
  datatype Skip =
    | NoTitle | NoPriceBox | NoPriceNode | NoAmount | BadPrice
    | NoThumbnail | NoImage | NoImageUrl | PlaceholderImage | DownloadFailed

  datatype ItemOutcome = Extracted(product: Product) | Skipped(reason: Skip)

  /** The sale price (`ins`) when there is one, else the regular amount span. */
  function PriceNodeOf(box: PriceBox): Option<PriceNode> {
    if box.ins.Some? then box.ins else box.amount
  }

  /** The lazy-load source when it is present and non-empty, else the plain source. */
  function ImageUrl(img: Img): Option<string> {
    if img.dataLazySrc.Some? && img.dataLazySrc.value != "" then img.dataLazySrc else img.src
  }

  /** One pass of the loop body of scrape_page, in the order of its checks. */
  function ExtractItem(item: Item, imageDir: string, downloaded: string -> bool): (r: ItemOutcome)
    ensures r.Extracted? ==>
      && item.heading.Some? && item.heading.value.link.Some?
      && r.product.productTitle == Strip(item.heading.value.link.value)
      && item.priceBox.Some? && PriceNodeOf(item.priceBox.value).Some?
      && PriceNodeOf(item.priceBox.value).value.bdi.Some?
      && ParsePrice(PriceNodeOf(item.priceBox.value).value.bdi.value) == Some(r.product.productPrice)
      && r.product.pathToImage.Some? && r.product.pathToImage.value != ""
      && item.thumbnail.Some? && item.thumbnail.value.img.Some?
      && ImageUrl(item.thumbnail.value.img.value).Some?
      && ImageUrl(item.thumbnail.value.img.value).value != ""
      && !EndsWith(ImageUrl(item.thumbnail.value.img.value).value, "svg+xml")
      && downloaded(ImageUrl(item.thumbnail.value.img.value).value)
  {
    if item.heading.None? || item.heading.value.link.None? then Skipped(NoTitle)
    else
      var title := Strip(item.heading.value.link.value);
      if item.priceBox.None? then Skipped(NoPriceBox)
      else
        var node := PriceNodeOf(item.priceBox.value);
        if node.None? then Skipped(NoPriceNode)
        else if node.value.bdi.None? then Skipped(NoAmount)
        else
          var price := ParsePrice(node.value.bdi.value);
          if price.None? then Skipped(BadPrice)
          else if item.thumbnail.None? then Skipped(NoThumbnail)
          else if item.thumbnail.value.img.None? then Skipped(NoImage)
          else
            var url := ImageUrl(item.thumbnail.value.img.value);
            if url.None? || url.value == "" then Skipped(NoImageUrl)
            else if EndsWith(url.value, "svg+xml") then Skipped(PlaceholderImage)
            else
              var path := DownloadImage(imageDir, title, downloaded(url.value));
              if path == "" then Skipped(DownloadFailed)
              else Extracted(Product(title, price.value, Some(path)))
  }

  /** Every condition an item must meet to yield a product. */
  ghost predicate Complete(item: Item, downloaded: string -> bool) {
    && item.heading.Some? && item.heading.value.link.Some?
    && item.priceBox.Some?
    && PriceNodeOf(item.priceBox.value).Some?
    && PriceNodeOf(item.priceBox.value).value.bdi.Some?
    && ParsePrice(PriceNodeOf(item.priceBox.value).value.bdi.value).Some?
    && item.thumbnail.Some? && item.thumbnail.value.img.Some?
    && ImageUrl(item.thumbnail.value.img.value).Some?
    && ImageUrl(item.thumbnail.value.img.value).value != ""
    && !EndsWith(ImageUrl(item.thumbnail.value.img.value).value, "svg+xml")
    && downloaded(ImageUrl(item.thumbnail.value.img.value).value)
  }

  /** An item yields a product exactly when it is complete; the product's image is the download
      of the preferred image URL. */
  lemma ExtractedIffComplete(item: Item, imageDir: string, downloaded: string -> bool)
    ensures ExtractItem(item, imageDir, downloaded).Extracted? <==> Complete(item, downloaded)
    ensures Complete(item, downloaded) ==>
      ExtractItem(item, imageDir, downloaded).product.pathToImage ==
        Some(DownloadImage(imageDir, Strip(item.heading.value.link.value), true))
  {
    var r := ExtractItem(item, imageDir, downloaded);
    if Complete(item, downloaded) {
      var title := Strip(item.heading.value.link.value);
      var price := ParsePrice(PriceNodeOf(item.priceBox.value).value.bdi.value);
      var path := DownloadImage(imageDir, title, true);
      assert path != "";
      assert r == Extracted(Product(title, price.value, Some(path)));
    }
  }

  /** When the box holds both a sale price and a regular price, the sale price is taken. */
  lemma SalePriceWins(item: Item, imageDir: string, downloaded: string -> bool)
    requires item.priceBox.Some? && item.priceBox.value.ins.Some? && item.priceBox.value.amount.Some?
    ensures ExtractItem(item, imageDir, downloaded).Extracted? ==>
      && item.priceBox.value.ins.value.bdi.Some?
      && Some(ExtractItem(item, imageDir, downloaded).product.productPrice) == ParsePrice(item.priceBox.value.ins.value.bdi.value)
  {
  }

  /** An image whose source ends in "svg+xml" is a placeholder: the item is skipped
      and nothing is downloaded for it. */
  lemma PlaceholderIsSkipped(item: Item, imageDir: string, downloaded: string -> bool)
    requires item.thumbnail.Some? && item.thumbnail.value.img.Some?
    requires var url := ImageUrl(item.thumbnail.value.img.value); url.Some? && EndsWith(url.value, "svg+xml")
    ensures !ExtractItem(item, imageDir, downloaded).Extracted?
  {
  }

  /** The products of a run of items, in item order. */
  function ExtractAll(items: seq<Item>, imageDir: string, downloaded: string -> bool): seq<Product> {
    if items == [] then []
    else
      ExtractAll(items[..|items| - 1], imageDir, downloaded) +
        match ExtractItem(items[|items| - 1], imageDir, downloaded)
        case Extracted(p) => [p]
        case Skipped(_) => []
  }

  /** Items are handled independently and in order: a skipped item costs only itself. */
  lemma {:induction false} ExtractAllConcat(a: seq<Item>, b: seq<Item>, imageDir: string, downloaded: string -> bool)
    ensures ExtractAll(a + b, imageDir, downloaded) == ExtractAll(a, imageDir, downloaded) + ExtractAll(b, imageDir, downloaded)
    decreases |b|
  {
    if b == [] {
      assert a + b == a;
    } else {
      var b' := b[..|b| - 1];
      assert (a + b)[..|a + b| - 1] == a + b';
      assert (a + b)[|a + b| - 1] == b[|b| - 1];
      ExtractAllConcat(a, b', imageDir, downloaded);
    }
  }

  /** A page yields at most one product per item, and each product is what some item yields. */
  lemma {:induction false} ExtractAllFromItems(items: seq<Item>, imageDir: string, downloaded: string -> bool)
    ensures |ExtractAll(items, imageDir, downloaded)| <= |items|
    ensures forall p :: p in ExtractAll(items, imageDir, downloaded) ==>
      exists i :: 0 <= i < |items| && ExtractItem(items[i], imageDir, downloaded) == Extracted(p)
    decreases |items|
  {
    if items != [] {
      var prefix := items[..|items| - 1];
      ExtractAllFromItems(prefix, imageDir, downloaded);
      forall p | p in ExtractAll(items, imageDir, downloaded)
        ensures exists i :: 0 <= i < |items| && ExtractItem(items[i], imageDir, downloaded) == Extracted(p)
      {
        if p in ExtractAll(prefix, imageDir, downloaded) {
          var i :| 0 <= i < |prefix| && ExtractItem(prefix[i], imageDir, downloaded) == Extracted(p);
          assert items[i] == prefix[i];
        } else {
          assert ExtractItem(items[|items| - 1], imageDir, downloaded) == Extracted(p);
        }
      }
    }
  }

  // ---------------------------------------------------------------------------------------
  // scrape_page and scrape

  /** What one page contributes: its products, or none when its fetch raised or came back blank
      (BeautifulSoup(None) raises, and scrape_page catches every exception). */
  function PageProducts(outcome: FetchOutcome, imageDir: string, downloaded: string -> bool): seq<Product> {
    if outcome.Content? then ExtractAll(outcome.html.items, imageDir, downloaded) else []
  }

  /** scrape_page(url) */
  method ScrapePage(responses: nat -> Response, url: string, retries: nat, imageDir: string, downloaded: string -> bool)
    returns (productsOnPage: seq<Product>)
    ensures productsOnPage == PageProducts(FetchPage(responses, url, 0, 0, retries).outcome, imageDir, downloaded)
  {
    productsOnPage := [];
    var fetched := FetchPage(responses, url, 0, 0, retries);
    if !fetched.outcome.Content? {
      return;
    }
    var productElements := fetched.outcome.html.items;
    for i := 0 to |productElements|
      invariant productsOnPage == ExtractAll(productElements[..i], imageDir, downloaded)
    {
      assert productElements[..i + 1][..i] == productElements[..i];
      var outcome := ExtractItem(productElements[i], imageDir, downloaded);
      if outcome.Extracted? {
        productsOnPage := productsOnPage + [outcome.product];
      }
    }
    assert productElements[..|productElements|] == productElements;
  }

  /** The products each page URL yields, in URL order. */
  function Batches(urls: seq<string>, net: string -> nat -> Response, retries: nat, imageDir: string, downloaded: string -> bool)
    : (batches: seq<seq<Product>>)
    ensures |batches| == |urls|
  {
    seq(|urls|, i requires 0 <= i < |urls| =>
      PageProducts(FetchPage(net(urls[i]), urls[i], 0, 0, retries).outcome, imageDir, downloaded))
  }

  /** One more URL appends its batch. */
  lemma BatchesSnoc(urls: seq<string>, k: nat, net: string -> nat -> Response, retries: nat, imageDir: string,
                    downloaded: string -> bool)
    requires k < |urls|
    ensures Batches(urls[..k + 1], net, retries, imageDir, downloaded)
         == Batches(urls[..k], net, retries, imageDir, downloaded)
            + [PageProducts(FetchPage(net(urls[k]), urls[k], 0, 0, retries).outcome, imageDir, downloaded)]
  {
  }

  /** Why scrape raises: the index page could not be fetched, or came back blank. */
  datatype ScrapeError = IndexFetchFailed(error: FetchError) | IndexUnreadable

  /** str(e) of what BeautifulSoup(None) raises. */
  const NoneMarkupMessage: string := "object of type 'NoneType' has no len()"

  function ScrapeErrorMessage(e: ScrapeError): string {
    match e
    case IndexFetchFailed(error) => FetchErrorMessage(error)
    case IndexUnreadable => NoneMarkupMessage
  }

  /** What scrape(page_limit) returns or raises: the index page gives the page count, pages
      1 .. N are scraped and their products are concatenated in page order. */
  function ScrapeResult(base: string, pageLimit: Option<int>, retries: nat, net: string -> nat -> Response,
                        imageDir: string, downloaded: string -> bool): Result<seq<Product>, ScrapeError>
  {
    match FetchPage(net(base), base, 0, 0, retries).outcome
    case Failed(e) => Failure(IndexFetchFailed(e))
    case NoContent => Failure(IndexUnreadable)
    case Content(html) =>
      Success(Flatten(Batches(PageUrls(base, PagesToScrape(TotalPages(html.pagination), pageLimit)),
                              net, retries, imageDir, downloaded)))
  }

  /** The fetched page came back with an item that yields `p`. */
  ghost predicate PageYields(outcome: FetchOutcome, imageDir: string, downloaded: string -> bool, p: Product) {
    && outcome.Content?
    && exists i :: 0 <= i < |outcome.html.items| && ExtractItem(outcome.html.items[i], imageDir, downloaded) == Extracted(p)
  }

  /** Each product of the batches comes from an item of the page at one of the URLs. */
  lemma BatchesProvenance(urls: seq<string>, net: string -> nat -> Response, retries: nat, imageDir: string,
                          downloaded: string -> bool, p: Product)
    requires p in Flatten(Batches(urls, net, retries, imageDir, downloaded))
    ensures exists k :: 0 <= k < |urls| && PageYields(FetchPage(net(urls[k]), urls[k], 0, 0, retries).outcome, imageDir, downloaded, p)
  {
    var batches := Batches(urls, net, retries, imageDir, downloaded);
    FlattenMember(batches, p);
    var k :| 0 <= k < |batches| && p in batches[k];
    var fetched := FetchPage(net(urls[k]), urls[k], 0, 0, retries).outcome;
    assert batches[k] == PageProducts(fetched, imageDir, downloaded);
    ExtractAllFromItems(fetched.html.items, imageDir, downloaded);
    assert PageYields(fetched, imageDir, downloaded, p);
  }

  /** Every scraped product is what some item of one of the pages 1 .. N yields; a page whose
      fetch fails or comes back blank yields none. */
  lemma ScrapedProductsComeFromPages(base: string, pageLimit: Option<int>, retries: nat, net: string -> nat -> Response,
                                     imageDir: string, downloaded: string -> bool, index: Html, p: Product)
    requires FetchPage(net(base), base, 0, 0, retries).outcome == Content(index)
    requires ScrapeResult(base, pageLimit, retries, net, imageDir, downloaded).Success?
    requires p in ScrapeResult(base, pageLimit, retries, net, imageDir, downloaded).value
    ensures exists page :: 1 <= page <= PagesToScrape(TotalPages(index.pagination), pageLimit) &&
                           PageYields(FetchPage(net(PageUrl(base, page)), PageUrl(base, page), 0, 0, retries).outcome, imageDir, downloaded, p)
  {
    var urls := PageUrls(base, PagesToScrape(TotalPages(index.pagination), pageLimit));
    BatchesProvenance(urls, net, retries, imageDir, downloaded, p);
    var k :| 0 <= k < |urls| && PageYields(FetchPage(net(urls[k]), urls[k], 0, 0, retries).outcome, imageDir, downloaded, p);
    PageUrlsAt(base, PagesToScrape(TotalPages(index.pagination), pageLimit), k);
    assert PageYields(FetchPage(net(PageUrl(base, k + 1)), PageUrl(base, k + 1), 0, 0, retries).outcome, imageDir, downloaded, p);
  }

  /** scrape(page_limit) */
  method Scrape(base: string, pageLimit: Option<int>, retries: nat, net: string -> nat -> Response,
                imageDir: string, downloaded: string -> bool)
    returns (r: Result<seq<Product>, ScrapeError>)
    ensures r == ScrapeResult(base, pageLimit, retries, net, imageDir, downloaded)
  {
    var index := FetchPage(net(base), base, 0, 0, retries);
    if index.outcome.Failed? {
      return Failure(IndexFetchFailed(index.outcome.error));
    }
    if index.outcome.NoContent? {
      return Failure(IndexUnreadable);
    }
    var totalPages := GetTotalPages(index.outcome.html.pagination);
    totalPages := PagesToScrape(totalPages, pageLimit);

    var urls: seq<string> := [];
    var page := 1;
    while page <= totalPages
      invariant 1 <= page
      invariant totalPages >= 1 ==> page <= totalPages + 1
      invariant totalPages < 1 ==> page == 1
      invariant urls == PageUrls(base, page - 1)
    {
      PageUrlsSnoc(base, page - 1);
      urls := urls + [PageUrl(base, page)];
      page := page + 1;
    }
    assert urls == PageUrls(base, totalPages) by {
      if totalPages >= 1 {
        assert page == totalPages + 1;
      } else {
        assert page == 1;
      }
    }

    var allProducts: seq<Product> := [];
    for k := 0 to |urls|
      invariant allProducts == Flatten(Batches(urls[..k], net, retries, imageDir, downloaded))
    {
      var batch := ScrapePage(net(urls[k]), urls[k], retries, imageDir, downloaded);
      BatchesSnoc(urls, k, net, retries, imageDir, downloaded);
      allProducts := allProducts + batch;
    }
    assert urls[..|urls|] == urls;
    return Success(allProducts);
  }
}
