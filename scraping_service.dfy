/** ScrapingService of app/services/scraping_service.py: the price-change diff of
    process_scraped_products and the control and notification flow of run_scraping. */
module ScrapingService {
  import opened Wrappers
  import opened Text
  import opened Seqs
  import opened Schemas
  import opened Scraper
  import opened Cache
  import opened Storage

  /** The `stats` dictionary. */
  datatype Stats = Stats(total: nat, updated: nat)

  /** A product is to be updated when the cache has no price for it or a different one. */
  predicate PriceChanged(cached: Option<real>, p: Product) {
    cached.None? || cached.value != p.productPrice
  }

  // ---------------------------------------------------------------------------------------
  // The diff against a title -> price map

  /** The products to update and the cache contents, after a pass against a cache that answers. */
  datatype MapDiff = MapDiff(updates: seq<Product>, data: map<string, Entry>)

  /** The loop of process_scraped_products against a reachable cache: a product whose cached price
      is absent or different is kept and its price written back, so a later product with the same
      title is compared with it. */
  function DiffOnMap(data: map<string, Entry>, products: seq<Product>): MapDiff {
    if products == [] then MapDiff([], data)
    else
      var d := DiffOnMap(data, products[..|products| - 1]);
      var p := products[|products| - 1];
      if PriceChanged(Lookup(d.data, p.productTitle), p) then
        MapDiff(d.updates + [p], Store(d.data, p.productTitle, p.productPrice))
      else d
  }

  /** The price of a title's last occurrence among the products. */
  function LastPrice(products: seq<Product>, title: string): (price: Option<real>)
    ensures price.Some? <==> exists i :: 0 <= i < |products| && products[i].productTitle == title
  {
    if products == [] then None
    else
      var p := products[|products| - 1];
      var prefix := products[..|products| - 1];
      assert forall i :: 0 <= i < |prefix| ==> prefix[i] == products[i];
      if p.productTitle == title then Some(p.productPrice) else LastPrice(prefix, title)
  }

  /** After the pass the cache holds, for each scraped title, the price of its last occurrence,
      and every other title's price as it was. */
  lemma {:induction false} DiffOnMapCachesLastPrice(data: map<string, Entry>, products: seq<Product>, title: string)
    ensures Lookup(DiffOnMap(data, products).data, title)
         == if LastPrice(products, title).Some? then LastPrice(products, title) else Lookup(data, title)
  {
    if products != [] {
      var prefix := products[..|products| - 1];
      var p := products[|products| - 1];
      DiffOnMapCachesLastPrice(data, prefix, title);
      var d := DiffOnMap(data, prefix);
      if PriceChanged(Lookup(d.data, p.productTitle), p) {
        if p.productTitle == title {
          GetAfterSet(d.data, title, p.productPrice);
        } else {
          SetLeavesOthers(d.data, p.productTitle, title, p.productPrice);
        }
      }
    }
  }

  /** The products to update are the scraped ones in scraped order, some left out. */
  lemma {:induction false} DiffOnMapUpdatesSubseq(data: map<string, Entry>, products: seq<Product>)
    ensures IsSubseq(DiffOnMap(data, products).updates, products)
  {
    if products != [] {
      var prefix := products[..|products| - 1];
      var p := products[|products| - 1];
      DiffOnMapUpdatesSubseq(data, prefix);
      assert prefix + [p] == products;
      IsSubseqSnocEither(DiffOnMap(data, products).updates, DiffOnMap(data, prefix).updates, prefix, p);
    }
  }

  /** Every product the pass keeps is one whose price the cache did not hold just before it. */
  lemma {:induction false} DiffOnMapKeepsChanged(data: map<string, Entry>, products: seq<Product>, p: Product)
    requires p in DiffOnMap(data, products).updates
    ensures exists i :: 0 <= i < |products| && products[i] == p &&
                        PriceChanged(Lookup(DiffOnMap(data, products[..i]).data, p.productTitle), p)
  {
    var prefix := products[..|products| - 1];
    var last := products[|products| - 1];
    var d := DiffOnMap(data, prefix);
    if p in d.updates {
      DiffOnMapKeepsChanged(data, prefix, p);
      var i :| 0 <= i < |prefix| && prefix[i] == p && PriceChanged(Lookup(DiffOnMap(data, prefix[..i]).data, p.productTitle), p);
      assert prefix[..i] == products[..i];
    } else {
      assert p == last;
      assert products[..|products| - 1] == prefix;
    }
  }

  /** A later pass only appends to the products to update: what a prefix keeps stays kept. */
  lemma {:induction false} DiffOnMapUpdatesGrow(data: map<string, Entry>, products: seq<Product>, j: nat)
    requires j <= |products|
    ensures DiffOnMap(data, products[..j]).updates <= DiffOnMap(data, products).updates
  {
    if j < |products| {
      var prefix := products[..|products| - 1];
      assert prefix[..j] == products[..j];
      DiffOnMapUpdatesGrow(data, prefix, j);
    } else {
      assert products[..j] == products;
    }
  }

  /** The converse of DiffOnMapKeepsChanged: a product whose cached price, at its turn, is absent
      or different is kept for update. */
  lemma DiffOnMapKeepsEveryChanged(data: map<string, Entry>, products: seq<Product>, i: nat)
    requires i < |products|
    requires PriceChanged(Lookup(DiffOnMap(data, products[..i]).data, products[i].productTitle), products[i])
    ensures DiffOnMap(data, products[..i + 1]).updates == DiffOnMap(data, products[..i]).updates + [products[i]]
    ensures products[i] in DiffOnMap(data, products).updates
  {
    var upTo := products[..i + 1];
    assert upTo[..i] == products[..i] && upTo[i] == products[i];
    DiffOnMapUpdatesGrow(data, products, i + 1);
    var kept := DiffOnMap(data, upTo).updates;
    assert kept[|kept| - 1] == products[i];
  }

  /** A product's turn adds it to the products to update exactly when the cache, at that turn,
      lacks its price or holds a different one. */
  lemma DiffOnMapTurn(data: map<string, Entry>, products: seq<Product>, i: nat)
    requires i < |products|
    ensures PriceChanged(Lookup(DiffOnMap(data, products[..i]).data, products[i].productTitle), products[i])
        <==> |DiffOnMap(data, products[..i + 1]).updates| == |DiffOnMap(data, products[..i]).updates| + 1
    ensures !PriceChanged(Lookup(DiffOnMap(data, products[..i]).data, products[i].productTitle), products[i])
        ==> DiffOnMap(data, products[..i + 1]) == DiffOnMap(data, products[..i])
  {
    var upTo := products[..i + 1];
    assert upTo[..i] == products[..i] && upTo[i] == products[i];
  }

  /** No title appears with two different prices. */
  ghost predicate ConsistentPrices(products: seq<Product>) {
    forall i, j :: 0 <= i < |products| && 0 <= j < |products| && products[i].productTitle == products[j].productTitle
      ==> products[i].productPrice == products[j].productPrice
  }

  /** A pass over products whose prices the cache already holds changes nothing. */
  lemma {:induction false} DiffOnMapNothingNew(data: map<string, Entry>, products: seq<Product>)
    requires forall i :: 0 <= i < |products| ==> Lookup(data, products[i].productTitle) == Some(products[i].productPrice)
    ensures DiffOnMap(data, products) == MapDiff([], data)
  {
    if products != [] {
      var prefix := products[..|products| - 1];
      assert forall i :: 0 <= i < |prefix| ==> prefix[i] == products[i];
      DiffOnMapNothingNew(data, prefix);
    }
  }

  /** Processing the same list again, with the cache left as the first pass left it, finds nothing
      to update when no title appears with two different prices. */
  lemma DiffOnMapIdempotent(data: map<string, Entry>, products: seq<Product>)
    requires ConsistentPrices(products)
    ensures DiffOnMap(DiffOnMap(data, products).data, products) == MapDiff([], DiffOnMap(data, products).data)
  {
    var after := DiffOnMap(data, products).data;
    forall i | 0 <= i < |products|
      ensures Lookup(after, products[i].productTitle) == Some(products[i].productPrice)
    {
      var title := products[i].productTitle;
      DiffOnMapCachesLastPrice(data, products, title);
      LastPriceIsSomeOccurrence(products, title);
    }
    DiffOnMapNothingNew(after, products);
  }

  /** The last price of a title is the price of one of its occurrences. */
  lemma {:induction false} LastPriceIsSomeOccurrence(products: seq<Product>, title: string)
    requires LastPrice(products, title).Some?
    ensures exists i :: 0 <= i < |products| && products[i].productTitle == title &&
                        products[i].productPrice == LastPrice(products, title).value
  {
    var prefix := products[..|products| - 1];
    if products[|products| - 1].productTitle != title {
      LastPriceIsSomeOccurrence(prefix, title);
      var i :| 0 <= i < |prefix| && prefix[i].productTitle == title && prefix[i].productPrice == LastPrice(prefix, title).value;
      assert products[i] == prefix[i];
    }
  }

  // ---------------------------------------------------------------------------------------
  // The diff against the cache object

  /** The products to update and the cache state, after a pass. */
  datatype Diff = Diff(updates: seq<Product>, cache: CacheState)

  /** The loop of process_scraped_products: a get per product, and a set for each product whose
      cached price is absent or different, against a cache whose server answers as `net` says. */
  function DiffSpec(net: nat -> Trip, st: CacheState, products: seq<Product>): (d: Diff)
    ensures |d.updates| <= |products|
    ensures d.cache.trips >= st.trips
  {
    if products == [] then Diff([], st)
    else DiffStep(net, DiffSpec(net, st, products[..|products| - 1]), products[|products| - 1])
  }

  /** One pass of that loop: the product is kept for update, and its price set, exactly when the
      cache does not answer with its price. */
  function DiffStep(net: nat -> Trip, d: Diff, p: Product): (r: Diff)
    ensures r.updates == d.updates || r.updates == d.updates + [p]
    ensures r.cache.trips > d.cache.trips
  {
    var got := GetStep(net, d.cache, p.productTitle);
    if PriceChanged(got.price, p) then
      Diff(d.updates + [p], SetStep(net, got.state, p.productTitle, p.productPrice))
    else Diff(d.updates, got.state)
  }

  /** Whatever the server does, the products to update are the scraped ones in scraped order,
      some left out. */
  lemma {:induction false} DiffSpecUpdatesSubseq(net: nat -> Trip, st: CacheState, products: seq<Product>)
    ensures IsSubseq(DiffSpec(net, st, products).updates, products)
  {
    if products != [] {
      var prefix := products[..|products| - 1];
      var p := products[|products| - 1];
      DiffSpecUpdatesSubseq(net, st, prefix);
      var d := DiffSpec(net, st, prefix);
      assert prefix + [p] == products;
      IsSubseqSnocEither(DiffSpec(net, st, products).updates, d.updates, prefix, p);
    }
  }

  /** Against a server that answers every round trip the pass is the diff against its map. */
  lemma {:induction false} DiffSpecAnswered(net: nat -> Trip, st: CacheState, products: seq<Product>)
    requires AnsweredFrom(net, st.trips)
    ensures DiffSpec(net, st, products).updates == DiffOnMap(st.data, products).updates
    ensures DiffSpec(net, st, products).cache.data == DiffOnMap(st.data, products).data
  {
    if products != [] {
      var prefix := products[..|products| - 1];
      var p := products[|products| - 1];
      DiffSpecAnswered(net, st, prefix);
      var d := DiffSpec(net, st, prefix);
      GetStepAnswered(net, d.cache, p.productTitle);
      var got := GetStep(net, d.cache, p.productTitle);
      if PriceChanged(got.price, p) {
        SetStepAnswered(net, got.state, p.productTitle, p.productPrice);
      }
    }
  }

  /** Against a server that refuses every round trip every product is to be updated, and the
      cache is left as it was. */
  lemma {:induction false} DiffSpecRefused(net: nat -> Trip, st: CacheState, products: seq<Product>)
    requires RefusedFrom(net, st.trips)
    ensures DiffSpec(net, st, products).updates == products
    ensures DiffSpec(net, st, products).cache.data == st.data
  {
    if products != [] {
      var prefix := products[..|products| - 1];
      var p := products[|products| - 1];
      DiffSpecRefused(net, st, prefix);
      var d := DiffSpec(net, st, prefix);
      GetStepRefused(net, d.cache, p.productTitle);
      var got := GetStep(net, d.cache, p.productTitle);
      SetStepRefused(net, got.state, p.productTitle, p.productPrice);
      assert prefix + [p] == products;
    }
  }

  /** process_scraped_products on a store file and a cache state: a load error aborts it before
      any cache access; otherwise the counts of the pass. */
  function ProcessSpec(file: FileState, net: nat -> Trip, st: CacheState, products: seq<Product>)
    : Result<Stats, StorageError>
  {
    match LoadSpec(file)
    case Failure(e) => Failure(e)
    case Success(_) => Success(Stats(|products|, |DiffSpec(net, st, products).updates|))
  }

  /** The counts: every scraped product counted, and as many updated as the pass keeps. */
  lemma ProcessCounts(file: FileState, net: nat -> Trip, st: CacheState, products: seq<Product>)
    requires !file.Malformed?
    ensures ProcessSpec(file, net, st, products).Success?
    ensures ProcessSpec(file, net, st, products).value.total == |products|
    ensures ProcessSpec(file, net, st, products).value.updated <= |products|
  {
  }

  /** Against an unreachable cache every product counts as updated. */
  lemma ProcessRefusedUpdatesAll(file: FileState, net: nat -> Trip, st: CacheState, products: seq<Product>)
    requires !file.Malformed? && RefusedFrom(net, st.trips)
    ensures ProcessSpec(file, net, st, products) == Success(Stats(|products|, |products|))
  {
    DiffSpecRefused(net, st, products);
  }

  // ---------------------------------------------------------------------------------------
  // run_scraping

  /** A notification: to the console notifier or to the email notifier. */
  datatype Notice = Console(text: string) | Email(text: string)

  /** The notifications of a run, and str(e) of the exception it raises, if any. */
  datatype RunReport = RunReport(notices: seq<Notice>, raised: Option<string>)

  const SuccessText: string := "Scraping completed successfully!"

  /** The console summary of a successful run. */
  function SummaryMessage(stats: Stats): string {
    SuccessText + "\nTotal products scraped: " + NatToString(stats.total) + "\nProducts updated: " + NatToString(stats.updated)
  }

  function FailureNotice(message: string): Notice {
    Console("Scraping failed: " + message)
  }

  /** The notifications run_scraping sends, given what scraping and processing did (their counts
      or str() of their exception) and, for the email channel, None when the mail goes out or
      str() of the SMTP exception. A failing mail first reports itself on the console from inside
      EmailNotifier.notify and then raises, which run_scraping reports once more and re-raises. */
  function Report(outcome: Result<Stats, string>, mailError: Option<string>): (r: RunReport)
    ensures r.raised.None? <==> outcome.Success? && mailError.None?
    ensures r.notices != []
    ensures r.raised.Some? ==> r.notices[|r.notices| - 1] == FailureNotice(r.raised.value)
    ensures outcome.Success? ==> r.notices[0] == Console(SummaryMessage(outcome.value))
  {
    match outcome
    case Failure(message) => RunReport([FailureNotice(message)], Some(message))
    case Success(stats) =>
      match mailError
      case None => RunReport([Console(SummaryMessage(stats)), Email(SuccessText)], None)
      case Some(e) =>
        var message := "Failed to send email: " + e;
        RunReport([Console(SummaryMessage(stats)), FailureNotice(e), FailureNotice(message)], Some(message))
  }

  /** A successful run sends exactly the summary to the console, then the fixed text by email. */
  lemma ReportOnSuccess(stats: Stats)
    ensures Report(Success(stats), None) == RunReport([Console(SummaryMessage(stats)), Email(SuccessText)], None)
  {
  }

  /** A failed run never reaches the email channel. */
  lemma ReportOnFailureSkipsEmail(message: string, mailError: Option<string>)
    ensures forall k :: 0 <= k < |Report(Failure(message), mailError).notices| ==>
      Report(Failure(message), mailError).notices[k].Console?
  {
  }

  /** Two numbers written one after the other, with a separator that starts with a non-digit,
      can be told apart. */
  lemma TwoNumbersApart(head: string, mid: string, ta: string, ua: string, tb: string, ub: string)
    requires AllDigits(ta) && AllDigits(tb) && mid != [] && !IsDigit(mid[0])
    requires head + ta + mid + ua == head + tb + mid + ub
    ensures ta == tb && ua == ub
  {
    var s := head + ta + mid + ua;
    assert s[|head|..] == ta + (mid + ua);
    assert (head + tb + mid + ub)[|head|..] == tb + (mid + ub);
    LeadingDigitsOf(ta, mid + ua);
    LeadingDigitsOf(tb, mid + ub);
    assert s[|head| + |ta| + |mid|..] == ua;
    assert (head + tb + mid + ub)[|head| + |tb| + |mid|..] == ub;
  }

  /** The summary carries both counts: distinct counts give distinct summaries. */
  lemma SummaryMessageInjective(a: Stats, b: Stats)
    requires SummaryMessage(a) == SummaryMessage(b)
    ensures a == b
  {
    var head := SuccessText + "\nTotal products scraped: ";
    var mid := "\nProducts updated: ";
    assert mid[0] == '\n';
    TwoNumbersApart(head, mid, NatToString(a.total), NatToString(a.updated), NatToString(b.total), NatToString(b.updated));
    NatToStringInjective(a.total, b.total);
    NatToStringInjective(a.updated, b.updated);
  }

  /** The outcome run_scraping reports: the scrape's exception, the store's exception, or the
      counts of processing. */
  function RunOutcome(scraped: Result<seq<Product>, ScrapeError>, file: FileState, net: nat -> Trip, st: CacheState)
    : Result<Stats, string>
  {
    match scraped
    case Failure(e) => Failure(ScrapeErrorMessage(e))
    case Success(products) =>
      match ProcessSpec(file, net, st, products)
      case Failure(e) => Failure(StorageErrorMessage(e))
      case Success(stats) => Success(stats)
  }

  /** The site a service scrapes: its base URL and retry count, the network, the image
      directory and which image downloads succeed. */
  datatype Site = Site(base: string, retries: nat, net: string -> nat -> Response, imageDir: string,
                       downloaded: string -> bool)

  class ScrapingService {
    const site: Site
    const storage: JsonFileStorage
    const cache: RedisCache

    constructor (site: Site, storage: JsonFileStorage, cache: RedisCache)
      ensures this.site == site && this.storage == storage && this.cache == cache
    {
      this.site := site;
      this.storage := storage;
      this.cache := cache;
    }

    /** process_scraped_products(products) */
    method ProcessScrapedProducts(products: seq<Product>) returns (r: Result<Stats, StorageError>)
      modifies storage, cache
      ensures r == ProcessSpec(old(storage.file), cache.net, old(cache.State()), products)
      ensures cache.startup == old(cache.startup)
      ensures old(storage.file).Malformed? ==> cache.State() == old(cache.State()) && storage.file == old(storage.file)
      ensures !old(storage.file).Malformed? ==>
        var d := DiffSpec(cache.net, old(cache.State()), products);
        && cache.State() == d.cache
        && storage.file == if d.updates == [] then old(storage.file) else Json(Encode(d.updates))
    {
      var existingProducts := storage.LoadProducts();
      if existingProducts.Failure? {
        return Failure(existingProducts.error);
      }
      var stats := Stats(|products|, 0);
      var productsToUpdate: seq<Product> := [];
      for i := 0 to |products|
        invariant var d := DiffSpec(cache.net, old(cache.State()), products[..i]);
          productsToUpdate == d.updates && cache.State() == d.cache
        invariant stats == Stats(|products|, |productsToUpdate|)
        invariant storage.file == old(storage.file) && cache.startup == old(cache.startup)
      {
        assert products[..i + 1][..i] == products[..i];
        var product := products[i];
        var cachedPrice := cache.GetProductPrice(product.productTitle);
        if cachedPrice.None? || cachedPrice.value != product.productPrice {
          productsToUpdate := productsToUpdate + [product];
          cache.SetProductPrice(product.productTitle, product.productPrice);
          stats := stats.(updated := stats.updated + 1);
        }
      }
      assert products[..|products|] == products;
      if productsToUpdate != [] {
        var saved := storage.SaveProducts(productsToUpdate);
        assert saved.Success?;
      }
      return Success(stats);
    }

    /** run_scraping(page_limit): scrape, process, then notify; any exception is reported on the
        console and re-raised. */
    method RunScraping(pageLimit: Option<int>, mailError: Option<string>) returns (report: RunReport)
      modifies storage, cache
      ensures var scraped := ScrapeResult(site.base, pageLimit, site.retries, site.net, site.imageDir, site.downloaded);
        report == Report(RunOutcome(scraped, old(storage.file), cache.net, old(cache.State())), mailError)
      ensures var scraped := ScrapeResult(site.base, pageLimit, site.retries, site.net, site.imageDir, site.downloaded);
        scraped.Failure? || old(storage.file).Malformed? ==>
          storage.file == old(storage.file) && cache.State() == old(cache.State())
      ensures var scraped := ScrapeResult(site.base, pageLimit, site.retries, site.net, site.imageDir, site.downloaded);
        scraped.Success? && !old(storage.file).Malformed? ==>
          var d := DiffSpec(cache.net, old(cache.State()), scraped.value);
          && cache.State() == d.cache
          && storage.file == if d.updates == [] then old(storage.file) else Json(Encode(d.updates))
      ensures cache.startup == old(cache.startup)
    {
      ghost var before := old(cache.State());
      ghost var file := old(storage.file);
      var outcome: Result<Stats, string>;
      var scraped := Scrape(site.base, pageLimit, site.retries, site.net, site.imageDir, site.downloaded);
      if scraped.Failure? {
        outcome := Failure(ScrapeErrorMessage(scraped.error));
      } else {
        var stats := ProcessScrapedProducts(scraped.value);
        assert stats == ProcessSpec(file, cache.net, before, scraped.value);
        if stats.Failure? {
          outcome := Failure(StorageErrorMessage(stats.error));
        } else {
          outcome := Success(stats.value);
        }
      }
      assert outcome == RunOutcome(scraped, file, cache.net, before);
      report := Report(outcome, mailError);
    }
  }
}
