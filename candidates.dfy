/**
 * The raw store/stock candidates, gathered by three strategies in order:
 * table rows `store | stock | ...`, the store/stock matches found in divs,
 * and a positional pairing of name spans with number spans.
 */
module CandidateSources {
  import opened Text
  import opened Seqs
  import opened Page

  /** One `{'store': ..., 'stock': ...}` entry of `stock_data`. */
  datatype Candidate = Candidate(store: String, stock: String)

  // -----------------------------------------------------------------------
  // Table rows

  /** A row whose first cell is non-empty and whose second cell holds a digit or says "stok". */
  predicate IsStockRow(cells: seq<String>) {
    && |cells| >= 2
    && Strip(cells[0]) != []
    && (HasDigit(Strip(cells[1])) || Contains(Lower(Strip(cells[1])), "stok"))
  }

  function RowCandidate(cells: seq<String>): Candidate {
    if |cells| >= 2 then Candidate(Strip(cells[0]), Strip(cells[1])) else Candidate([], [])
  }

  function TableCandidates(tables: seq<Table>): seq<Candidate> {
    FilterMap(AllRows(tables), IsStockRow, RowCandidate)
  }

  /** Appends the candidates of the rows of one table. */
  method ScanTableRows(found: seq<Candidate>, rows: seq<seq<String>>) returns (extended: seq<Candidate>)
    ensures extended == found + FilterMap(rows, IsStockRow, RowCandidate)
  {
    extended := found;
    for j := 0 to |rows|
      invariant extended == found + FilterMap(rows[..j], IsStockRow, RowCandidate)
    {
      var cells := rows[j];
      assert rows[..j + 1][..j] == rows[..j];
      if |cells| >= 2 {
        var storeName := Strip(cells[0]);
        var stockCount := Strip(cells[1]);
        if storeName != [] && (HasDigit(stockCount) || Contains(Lower(stockCount), "stok")) {
          extended := extended + [Candidate(storeName, stockCount)];
        }
      }
    }
    assert rows[..|rows|] == rows;
  }

  method ScanStockRows(tables: seq<Table>) returns (found: seq<Candidate>)
    ensures found == TableCandidates(tables)
  {
    found := [];
    ghost var rowsOf := RowsOf(tables);
    for i := 0 to |tables|
      invariant found == FilterMap(Flatten(rowsOf[..i]), IsStockRow, RowCandidate)
    {
      var rows := tables[i].rows;
      assert rows == rowsOf[i];
      FilterMapAppend(Flatten(rowsOf[..i]), rows, IsStockRow, RowCandidate);
      found := ScanTableRows(found, rows);
      FlattenStep(rowsOf, i);
    }
    assert rowsOf[..|tables|] == rowsOf;
  }

  /** The table strategy yields a candidate exactly for each row that passes its test. */
  lemma TableCandidateMember(tables: seq<Table>, c: Candidate)
    ensures c in TableCandidates(tables) <==>
      exists k :: 0 <= k < |AllRows(tables)| && IsStockRow(AllRows(tables)[k])
        && c == Candidate(Strip(AllRows(tables)[k][0]), Strip(AllRows(tables)[k][1]))
  {
    FilterMapMember(AllRows(tables), IsStockRow, RowCandidate, c);
  }

  // -----------------------------------------------------------------------
  // Div matches

  /** A div match is kept when its stripped name has between 3 and 49 characters. */
  predicate IsDivStore(m: DivMatch) {
    2 < |Strip(m.name)| < 50
  }

  function DivCandidate(m: DivMatch): Candidate {
    Candidate(Strip(m.name), Strip(m.stock))
  }

  function DivCandidates(matches: seq<DivMatch>): seq<Candidate> {
    FilterMap(matches, IsDivStore, DivCandidate)
  }

  method ScanDivMatches(matches: seq<DivMatch>) returns (found: seq<Candidate>)
    ensures found == DivCandidates(matches)
  {
    found := [];
    for i := 0 to |matches|
      invariant found == FilterMap(matches[..i], IsDivStore, DivCandidate)
    {
      assert matches[..i + 1][..i] == matches[..i];
      var storeName := Strip(matches[i].name);
      var stockCount := Strip(matches[i].stock);
      if 2 < |storeName| < 50 {
        found := found + [Candidate(storeName, stockCount)];
      }
    }
    assert matches[..|matches|] == matches;
  }

  // -----------------------------------------------------------------------
  // Span pairing

  /** A span whose stripped text is a number (`re.match(r'^\d+$', text)`). */
  predicate IsCountSpan(text: String) {
    IsNumber(Strip(text))
  }

  /** A span that may name a store: not a number, 4 to 49 characters, no "©" and no "http". */
  predicate IsNameSpan(text: String) {
    var t := Strip(text);
    !IsNumber(t) && 3 < |t| < 50 && !Contains(t, "©") && !Contains(t, "http")
  }

  function SpanCounts(spans: seq<String>): seq<String> {
    FilterMap(spans, IsCountSpan, Strip)
  }

  function SpanNames(spans: seq<String>): seq<String> {
    FilterMap(spans, IsNameSpan, Strip)
  }

  function Min(a: nat, b: nat): nat {
    if a <= b then a else b
  }

  /** The i-th name span paired with the i-th number span, as far as the shorter list goes. */
  function SpanCandidates(spans: seq<String>): seq<Candidate> {
    var names := SpanNames(spans);
    var counts := SpanCounts(spans);
    seq(Min(|names|, |counts|), i requires 0 <= i < Min(|names|, |counts|) => Candidate(names[i], counts[i]))
  }

  method PairSpans(spans: seq<String>) returns (found: seq<Candidate>)
    ensures found == SpanCandidates(spans)
  {
    var storeNames: seq<String> := [];
    var stockCounts: seq<String> := [];
    for i := 0 to |spans|
      invariant storeNames == FilterMap(spans[..i], IsNameSpan, Strip)
      invariant stockCounts == FilterMap(spans[..i], IsCountSpan, Strip)
    {
      assert spans[..i + 1][..i] == spans[..i];
      var text := Strip(spans[i]);
      if IsNumber(text) {
        stockCounts := stockCounts + [text];
      } else if 3 < |text| < 50 && !Contains(text, "©") && !Contains(text, "http") {
        storeNames := storeNames + [text];
      }
    }
    assert spans[..|spans|] == spans;
    var minLength := Min(|storeNames|, |stockCounts|);
    found := [];
    for i := 0 to minLength
      invariant |found| == i
      invariant forall k :: 0 <= k < i ==> found[k] == Candidate(storeNames[k], stockCounts[k])
    {
      found := found + [Candidate(storeNames[i], stockCounts[i])];
    }
  }

  /**
   * Span pairing yields min(names, numbers) candidates; the i-th joins the
   * i-th name span with the i-th number span, every stock is a number and
   * every store passes the name test.
   */
  lemma SpanPairing(spans: seq<String>)
    ensures |SpanCandidates(spans)| == Min(Count(spans, IsNameSpan), Count(spans, IsCountSpan))
    ensures forall i :: 0 <= i < |SpanCandidates(spans)| ==>
      SpanCandidates(spans)[i].store == SpanNames(spans)[i] && SpanCandidates(spans)[i].stock == SpanCounts(spans)[i]
    ensures forall c :: c in SpanCandidates(spans) ==>
      && IsNumber(c.stock)
      && !IsNumber(c.store) && 3 < |c.store| < 50 && !Contains(c.store, "©") && !Contains(c.store, "http")
  {
    var names := SpanNames(spans);
    var counts := SpanCounts(spans);
    FilterMapLength(spans, IsNameSpan, Strip);
    FilterMapLength(spans, IsCountSpan, Strip);
    forall c | c in SpanCandidates(spans)
      ensures IsNumber(c.stock)
      ensures !IsNumber(c.store) && 3 < |c.store| < 50 && !Contains(c.store, "©") && !Contains(c.store, "http")
    {
      var i :| 0 <= i < |SpanCandidates(spans)| && SpanCandidates(spans)[i] == c;
      FilterMapMember(spans, IsNameSpan, Strip, names[i]);
      FilterMapMember(spans, IsCountSpan, Strip, counts[i]);
    }
  }

  // -----------------------------------------------------------------------
  // All strategies

  /** The scraper's `stock_data`: table rows, then div matches, then span pairs. */
  function RawCandidates(doc: Document): seq<Candidate> {
    TableCandidates(doc.tables) + DivCandidates(doc.divMatches) + SpanCandidates(doc.spans)
  }

  method CollectCandidates(doc: Document) returns (stockData: seq<Candidate>)
    ensures stockData == RawCandidates(doc)
  {
    stockData := ScanStockRows(doc.tables);
    var fromDivs := ScanDivMatches(doc.divMatches);
    stockData := stockData + fromDivs;
    var fromSpans := PairSpans(doc.spans);
    stockData := stockData + fromSpans;
  }

  /** Every strategy strips the store and stock texts it records. */
  lemma RawCandidatesStripped(doc: Document)
    ensures forall c :: c in RawCandidates(doc) ==> Strip(c.store) == c.store && Strip(c.stock) == c.stock
  {
    forall c | c in RawCandidates(doc)
      ensures Strip(c.store) == c.store && Strip(c.stock) == c.stock
    {
      if c in TableCandidates(doc.tables) {
        TableCandidateStripped(doc.tables, c);
      } else if c in DivCandidates(doc.divMatches) {
        DivCandidateStripped(doc.divMatches, c);
      } else {
        SpanCandidateStripped(doc.spans, c);
      }
    }
  }

  lemma TableCandidateStripped(tables: seq<Table>, c: Candidate)
    requires c in TableCandidates(tables)
    ensures Strip(c.store) == c.store && Strip(c.stock) == c.stock
  {
    FilterMapMember(AllRows(tables), IsStockRow, RowCandidate, c);
    var k :| 0 <= k < |AllRows(tables)| && IsStockRow(AllRows(tables)[k]) && c == RowCandidate(AllRows(tables)[k]);
    StripIdempotent(AllRows(tables)[k][0]);
    StripIdempotent(AllRows(tables)[k][1]);
  }

  lemma DivCandidateStripped(matches: seq<DivMatch>, c: Candidate)
    requires c in DivCandidates(matches)
    ensures Strip(c.store) == c.store && Strip(c.stock) == c.stock
  {
    FilterMapMember(matches, IsDivStore, DivCandidate, c);
    var k :| 0 <= k < |matches| && IsDivStore(matches[k]) && c == DivCandidate(matches[k]);
    StripIdempotent(matches[k].name);
    StripIdempotent(matches[k].stock);
  }

  lemma SpanCandidateStripped(spans: seq<String>, c: Candidate)
    requires c in SpanCandidates(spans)
    ensures Strip(c.store) == c.store && Strip(c.stock) == c.stock
  {
    var i :| 0 <= i < |SpanCandidates(spans)| && SpanCandidates(spans)[i] == c;
    FilterMapMember(spans, IsNameSpan, Strip, c.store);
    FilterMapMember(spans, IsCountSpan, Strip, c.stock);
    var a :| 0 <= a < |spans| && IsNameSpan(spans[a]) && c.store == Strip(spans[a]);
    var b :| 0 <= b < |spans| && IsCountSpan(spans[b]) && c.stock == Strip(spans[b]);
    StripIdempotent(spans[a]);
    StripIdempotent(spans[b]);
  }
}
