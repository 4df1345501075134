/**
 * The whole extraction of one stock lookup page: title and details, variants,
 * raw store/stock candidates, the whitelist and duplicate filter, and the
 * priority ordering, put together as the scraper's success result.
 */
module Scraper {
  import opened Wrappers
  import opened Text
  import opened Seqs
  import opened Page
  import opened TitleResolver
  import opened DetailScanner
  import opened VariantScanner
  import opened CandidateSources
  import opened CandidateFilter
  import opened PriorityReorder

  /** The lookup address; the barcode is appended as it is. */
  const UrlPrefix: String := "http://mudonetapps.mudo.com.tr/StokSorgula/StokSorgula?kod="

  /** The success result of a lookup. */
  datatype ScrapeResult = ScrapeResult(
    productInfo: ProductInfo,
    stockData: seq<StockEntry>,
    variants: seq<Variant>,
    priorityStore: Option<StockEntry>,
    totalFiltered: int,
    url: String)

  /** The final store list of a page. */
  function FinalStock(doc: Document): seq<StockEntry> {
    Reordered(Filtered(RawCandidates(doc)))
  }

  /** The extraction of `scrape_mudo_stock` on the page `doc` fetched for `barcode`. */
  method ScrapeMudoStock(barcode: String, doc: Document) returns (result: ScrapeResult)
    ensures result.url == UrlPrefix + barcode
    ensures result.productInfo == ProductInfo(TitleOf(doc), DetailsOf(doc))
    ensures result.variants == VariantsOf(doc.tables)
    ensures result.stockData == FinalStock(doc)
    ensures result.priorityStore == PriorityOf(Filtered(RawCandidates(doc)))
    ensures result.totalFiltered == |RawCandidates(doc)| - |FinalStock(doc)| >= 0
  {
    var url := UrlPrefix + barcode;
    var title := ResolveTitle(doc);
    var details := ScanDetails(doc);
    var productInfo := ProductInfo(title, details);
    var variants := ScanVariants(doc.tables);
    var stockData := CollectCandidates(doc);
    var uniqueStockData := FilterCandidates(stockData);
    var finalStockData, priorityStore := Reorder(uniqueStockData);
    ReorderedLength(uniqueStockData);
    result := ScrapeResult(productInfo, finalStockData, variants, priorityStore, |stockData| - |finalStockData|, url);
  }

  // -----------------------------------------------------------------------
  // Properties of the final store list

  /** `total_filtered` is never negative: the final list is no longer than the filtered one, nor that than the raw one. */
  lemma TotalFilteredBounds(doc: Document)
    ensures |FinalStock(doc)| <= |Filtered(RawCandidates(doc))| <= |RawCandidates(doc)|
  {
    ReorderedLength(Filtered(RawCandidates(doc)));
  }

  /** Every stock value shown holds a digit and has at most 10 characters, with no surrounding whitespace. */
  lemma FinalStockValues(doc: Document)
    ensures forall k :: 0 <= k < |FinalStock(doc)| ==>
      HasDigit(FinalStock(doc)[k].stock) && |FinalStock(doc)[k].stock| <= 10 && Strip(FinalStock(doc)[k].stock) == FinalStock(doc)[k].stock
  {
    var raw := RawCandidates(doc);
    RawCandidatesStripped(doc);
    FilteredAccepted(raw);
    forall k | 0 <= k < |FinalStock(doc)|
      ensures HasDigit(FinalStock(doc)[k].stock) && |FinalStock(doc)[k].stock| <= 10
      ensures Strip(FinalStock(doc)[k].stock) == FinalStock(doc)[k].stock
    {
      ReorderedStockSource(Filtered(raw), k);
    }
  }

  /**
   * Every store name shown has 4 to 60 characters: the priority store's fixed
   * name has 22, and the cleaned-up name of every other store keeps the
   * length bounds its stripped name passed in the filter.
   */
  lemma FinalStoreNames(doc: Document)
    ensures forall k :: 0 <= k < |FinalStock(doc)| ==> 4 <= |FinalStock(doc)[k].store| <= 60
  {
    var s := Filtered(RawCandidates(doc));
    var r := Reordered(s);
    FilteredAccepted(RawCandidates(doc));
    var offset := if PriorityOf(s).Some? then 1 else 0;
    forall k | 0 <= k < |r|
      ensures 4 <= |r[k].store| <= 60
    {
      if k < offset {
        assert r[k].store == PriorityName;
      } else {
        var e := r[k];
        assert e == OtherEntries(s)[k - offset];
        FilterMapMember(s, IsOther, Clean, e);
        var i :| 0 <= i < |s| && IsOther(s[i]) && e == Clean(s[i]);
        AcceptedNameLength(s[i]);
      }
    }
  }

  /**
   * The duplicate check runs before store names are cleaned up, so two
   * entries whose names differ only in spacing ("Ankara  Mall" and
   * "Ankara Mall", both with stock "5") both reach the final list, under the
   * same name and with the same stock.
   * The texts are parameters pinned by `requires` rather than literals:
   * given literal arguments, `Collapse` and `Squeeze` unfold without bound.
   */
  lemma SpacingDuplicatesSurvive(city: String, mall: String, gap: String)
    requires city == "Ankara" && mall == "Mall" && gap == "  "
    ensures var s := [Candidate(city + gap + mall, "5"), Candidate(city + " " + mall, "5")];
      Reordered(Filtered(s)) == [StockEntry(city + " " + mall, "5", false), StockEntry(city + " " + mall, "5", false)]
  {
    var a := Candidate(city + gap + mall, "5");
    var b := Candidate(city + " " + mall, "5");
    AnkaraMallAccepted(city, mall, gap);
    AnkaraMallAccepted(city, mall, " ");
    AnkaraMallOther(city, mall, gap);
    AnkaraMallOther(city, mall, " ");
    assert |KeyOf(a).name| != |KeyOf(b).name|;
    KeepBoth(a, b);
    SingleSpaceCleaned(city, gap, mall);
    SingleSpaceCleaned(city, " ", mall);
  }

  /** Cleaning up "Ankara", a run of spaces and "Mall" gives "Ankara Mall" (texts pinned by `requires`, as above). */
  lemma SingleSpaceCleaned(city: String, gap: String, mall: String)
    requires city == "Ankara" && mall == "Mall" && (gap == " " || gap == "  ")
    ensures Collapse(city + gap + mall) == city + " " + mall
  {
    CollapseGap(city, gap, mall);
  }

  /**
   * "Ankara", a run of spaces and "Mall", with stock "5", passes the whitelist,
   * stock and length tests (texts pinned by `requires`, as above).
   */
  lemma AnkaraMallAccepted(city: String, mall: String, gap: String)
    requires city == "Ankara" && mall == "Mall" && (gap == " " || gap == "  ")
    ensures Accepted(Candidate(city + gap + mall, "5"))
    ensures |KeyOf(Candidate(city + gap + mall, "5")).name| == 10 + |gap|
  {
    var low := "ankara" + gap + "mall";
    LowerAppend(city + gap, mall);
    LowerAppend(city, gap);
    assert Lower(city) == "ankara" && Lower(mall) == "mall" && Lower(gap) == gap;
    assert Whitelist[11] == "ankara";
    assert Strip("5") == "5" && IsDigit("5"[0]);
    AcceptedByPrefix(Candidate(city + gap + mall, "5"), low, 11);
  }

  /** "Ankara", a run of spaces and "Mall" does not name the flagship store. */
  lemma AnkaraMallOther(city: String, mall: String, gap: String)
    requires city == "Ankara" && mall == "Mall" && (gap == " " || gap == "  ")
    ensures IsOther(Candidate(city + gap + mall, "5"))
  {
    var low := "ankara" + gap + "mall";
    LowerAppend(city + gap, mall);
    LowerAppend(city, gap);
    assert Lower(city) == "ankara" && Lower(mall) == "mall" && Lower(gap) == gap;
    LacksFirstLetter(low, "city");
  }

  /** Two accepted non-flagship candidates with different keys both reach the final list, cleaned up. */
  lemma KeepBoth(a: Candidate, b: Candidate)
    requires Accepted(a) && Accepted(b) && KeyOf(a) != KeyOf(b)
    requires IsOther(a) && IsOther(b)
    ensures Reordered(Filtered([a, b])) == [Clean(a), Clean(b)]
  {
    FirstOfEachKeyPair(a, b, Accepted, KeyOf);
    FilterMapPair(a, b, IsOther, Clean);
    NoFlagshipNoPriority([a, b]);
  }

  /** A candidate whose lowercased name starts with a whitelisted word passes the three tests. */
  lemma AcceptedByPrefix(c: Candidate, low: String, k: nat)
    requires Lower(c.store) == low && Stripped(low) && 4 <= |low| <= 60
    requires k < |Whitelist| && Whitelist[k] <= low
    requires Strip(c.stock) == c.stock && IsStockValue(c.stock)
    ensures Accepted(c)
  {
    StrippedIsFixed(low);
    ContainsAt(low, Whitelist[k], 0);
  }

  /** A text without the first letter of `w` does not contain `w`. */
  lemma {:induction false} LacksFirstLetter(s: String, w: String)
    requires |w| > 0 && w[0] !in s
    ensures !Contains(s, w)
    decreases |s|
  {
    if |s| > 0 {
      assert s[0] != w[0];
      assert s == [s[0]] + s[1..];
      LacksFirstLetter(s[1..], w);
    }
  }
}
