/**
 * The product details: three passes over the page (free-text elements, then
 * <input> fields, then table rows) write the product code, price, sale status
 * and discount into one dictionary, each write replacing the previous value
 * of its key.
 */
module DetailScanner {
  import opened Wrappers
  import opened Text
  import opened Seqs
  import opened Page

  /** The keys of the `product_details` dictionary. */
  datatype DetailKey = ProductCode | Price | SaleStatus | Discount

  type Details = map<DetailKey, String>

  /** The scraper's `product_info`: the resolved title, updated with the details. */
  datatype ProductInfo = ProductInfo(title: Option<String>, details: Details)

  // -----------------------------------------------------------------------
  // What one item writes

  /** The product code group, once the text mentions a product number. */
  function CodeWrite(e: TextElement): (r: Details)
    ensures r.Keys <= {ProductCode}
    ensures ProductCode in r <==> e.codeMatch.Some?
  {
    if e.codeMatch.Some? then map[ProductCode := e.codeMatch.value] else map[]
  }

  /** The price group with its decimal comma made a point, once the text mentions a currency. */
  function PriceWrite(e: TextElement): (r: Details)
    ensures r.Keys <= {Price}
    ensures Price in r <==> e.priceMatch.Some?
    ensures Price in r ==> EndsWith(r[Price], " TL") && forall i :: 0 <= i < |r[Price]| - 3 ==> r[Price][i] != ','
  {
    if e.priceMatch.Some? then map[Price := ReplaceChar(e.priceMatch.value, ',', '.') + " TL"] else map[]
  }

  /** "Satışta" or "Satış Dışı", once the text mentions a status ("durum") and says "açık" or "kapalı". */
  function StatusWrite(e: TextElement): (r: Details)
    ensures r.Keys <= {SaleStatus}
    ensures SaleStatus in r <==>
      Contains(Lower(Strip(e.text)), "durum") && (Contains(Lower(Strip(e.text)), "açık") || Contains(Lower(Strip(e.text)), "kapalı"))
    ensures SaleStatus in r ==>
      r[SaleStatus] == (if Contains(Lower(Strip(e.text)), "açık") then "Satışta" else "Satış Dışı")
  {
    var low := Lower(Strip(e.text));
    if Contains(low, "durum") && Contains(low, "açık") then map[SaleStatus := "Satışta"]
    else if Contains(low, "durum") && Contains(low, "kapalı") then map[SaleStatus := "Satış Dışı"]
    else map[]
  }

  /** The discount as "%<digits> İndirim", once the text holds `%` followed by digits. */
  function DiscountWrite(e: TextElement): (r: Details)
    ensures r.Keys <= {Discount}
    ensures Discount in r <==> e.discountDigits.Some?
    ensures Discount in r ==> |r[Discount]| > 0 && r[Discount][0] == '%' && EndsWith(r[Discount], " İndirim")
  {
    if e.discountDigits.Some? then map[Discount := "%" + e.discountDigits.value + " İndirim"] else map[]
  }

  /** The keys one free-text element writes, with their values. */
  function TextWrites(e: TextElement): Details {
    CodeWrite(e) + PriceWrite(e) + StatusWrite(e) + DiscountWrite(e)
  }

  /** Storing one key is writing a one-entry dictionary. */
  lemma UpdateIsUnion(d: Details, k: DetailKey, v: String)
    ensures d[k := v] == d + map[k := v]
  {
  }

  /** Writing nothing keeps the dictionary. */
  lemma EmptyUnion(d: Details)
    ensures d + map[] == d
  {
  }

  /** Writing four dictionaries one after the other is writing their union. */
  lemma UnionInSteps(d: Details, a: Details, b: Details, c: Details, e: Details)
    ensures d + a + b + c + e == d + (a + b + c + e)
  {
  }

  /** The field an <input> is known by: its `id`, else its `name`. */
  function FieldName(field: InputField): String {
    if field.id != [] then field.id else field.name
  }

  /** The keys one <input> writes: a price from a "fiyat" field holding a digit, else a code from a "kod" field. */
  function InputWrites(field: InputField): (r: Details)
    ensures r.Keys <= {Price, ProductCode} && !(Price in r && ProductCode in r)
    ensures r != map[] ==> FieldName(field) != [] && Strip(field.value) != []
    ensures Price in r ==> r[Price] == Strip(field.value) + " TL" && HasDigit(Strip(field.value))
    ensures Price in r ==> Contains(Lower(FieldName(field)), "fiyat")
    ensures ProductCode in r ==> r[ProductCode] == Strip(field.value) && Contains(Lower(FieldName(field)), "kod")
    ensures Price in r <==>
      FieldName(field) != [] && Contains(Lower(FieldName(field)), "fiyat") && HasDigit(Strip(field.value))
    ensures ProductCode in r <==>
      && FieldName(field) != []
      && !(Contains(Lower(FieldName(field)), "fiyat") && HasDigit(Strip(field.value)))
      && Contains(Lower(FieldName(field)), "kod") && Strip(field.value) != []
  {
    var name := Lower(FieldName(field));
    var value := Strip(field.value);
    if FieldName(field) == [] then map[]
    else if Contains(name, "fiyat") && value != [] && HasDigit(value) then map[Price := value + " TL"]
    else if Contains(name, "kod") && value != [] then map[ProductCode := value]
    else map[]
  }

  /** The keys one table row `caption | value | ...` writes, by the first caption test that holds. */
  function RowWrites(cells: seq<String>): (r: Details)
    ensures forall k, k' :: k in r && k' in r ==> k == k'
    ensures r != map[] ==> |cells| >= 2 && forall k :: k in r ==> r[k] == Strip(cells[1])
    ensures Price in r ==> r[Price] != []
    ensures r.Keys <= {ProductCode, Price, SaleStatus}
    ensures ProductCode in r <==>
      |cells| >= 2 && (Contains(Lower(Strip(cells[0])), "ürün no") || Contains(Lower(Strip(cells[0])), "model no"))
    ensures Price in r <==>
      |cells| >= 2 && ProductCode !in r && Contains(Lower(Strip(cells[0])), "fiyat") && Strip(cells[1]) != []
    ensures SaleStatus in r <==>
      |cells| >= 2 && ProductCode !in r && Price !in r
      && (Contains(Lower(Strip(cells[0])), "durum") || Contains(Lower(Strip(cells[0])), "satış"))
  {
    if |cells| < 2 then map[]
    else
      var caption := Lower(Strip(cells[0]));
      var value := Strip(cells[1]);
      if Contains(caption, "ürün no") || Contains(caption, "model no") then map[ProductCode := value]
      else if Contains(caption, "fiyat") && value != [] then map[Price := value]
      else if Contains(caption, "durum") || Contains(caption, "satış") then map[SaleStatus := value]
      else map[]
  }

  /**
   * A price row with an empty value cell whose caption also says "satış"
   * ("Satış Fiyatı") falls through to the status test and writes an empty
   * sale status.
   */
  lemma EmptyPriceRowClearsStatus(cells: seq<String>)
    requires |cells| >= 2 && Strip(cells[1]) == []
    requires Contains(Lower(Strip(cells[0])), "fiyat") && Contains(Lower(Strip(cells[0])), "satış")
    requires !Contains(Lower(Strip(cells[0])), "ürün no") && !Contains(Lower(Strip(cells[0])), "model no")
    ensures RowWrites(cells) == map[SaleStatus := []]
  {
  }

  /** A product-number row writes its value even when the value cell is empty. */
  lemma EmptyCodeRowClearsCode(cells: seq<String>)
    requires |cells| >= 2 && Strip(cells[1]) == []
    requires Contains(Lower(Strip(cells[0])), "ürün no")
    ensures RowWrites(cells) == map[ProductCode := []]
  {
  }

  // -----------------------------------------------------------------------
  // The passes

  /** The dictionary after the items of `xs` have written into `d`, one after the other. */
  function Overwrite<X>(d: Details, xs: seq<X>, writes: X -> Details): Details
    decreases |xs|
  {
    if |xs| == 0 then d
    else Overwrite(d, xs[..|xs| - 1], writes) + writes(xs[|xs| - 1])
  }

  /** The value the last item of `xs` that writes `k` gives it, if any item does. */
  function LastWrite<X>(xs: seq<X>, writes: X -> Details, k: DetailKey): Option<String>
    decreases |xs|
  {
    if |xs| == 0 then None
    else if k in writes(xs[|xs| - 1]) then Some(writes(xs[|xs| - 1])[k])
    else LastWrite(xs[..|xs| - 1], writes, k)
  }

  function TextDetails(elements: seq<TextElement>): Details {
    Overwrite(map[], elements, TextWrites)
  }

  function InputDetails(d: Details, inputs: seq<InputField>): Details {
    Overwrite(d, inputs, InputWrites)
  }

  function TableDetails(d: Details, tables: seq<Table>): Details {
    Overwrite(d, AllRows(tables), RowWrites)
  }

  /** The `product_details` dictionary after the three passes. */
  function DetailsOf(doc: Document): Details {
    TableDetails(InputDetails(TextDetails(doc.elements), doc.inputs), doc.tables)
  }

  // -----------------------------------------------------------------------
  // The scanning loops

  /** The writes of one free-text element, in the scraper's order. */
  method ScanElement(d: Details, e: TextElement) returns (details: Details)
    ensures details == d + TextWrites(e)
  {
    details := d;
    if e.codeMatch.Some? {
      UpdateIsUnion(details, ProductCode, e.codeMatch.value);
      details := details[ProductCode := e.codeMatch.value];
    } else {
      EmptyUnion(details);
    }
    if e.priceMatch.Some? {
      var price := ReplaceChar(e.priceMatch.value, ',', '.') + " TL";
      UpdateIsUnion(details, Price, price);
      details := details[Price := price];
    } else {
      EmptyUnion(details);
    }
    var low := Lower(Strip(e.text));
    if Contains(low, "durum") {
      if Contains(low, "açık") {
        UpdateIsUnion(details, SaleStatus, "Satışta");
        details := details[SaleStatus := "Satışta"];
      } else if Contains(low, "kapalı") {
        UpdateIsUnion(details, SaleStatus, "Satış Dışı");
        details := details[SaleStatus := "Satış Dışı"];
      } else {
        EmptyUnion(details);
      }
    } else {
      EmptyUnion(details);
    }
    if e.discountDigits.Some? {
      var discount := "%" + e.discountDigits.value + " İndirim";
      UpdateIsUnion(details, Discount, discount);
      details := details[Discount := discount];
    } else {
      EmptyUnion(details);
    }
    UnionInSteps(d, CodeWrite(e), PriceWrite(e), StatusWrite(e), DiscountWrite(e));
  }

  method ScanText(elements: seq<TextElement>) returns (details: Details)
    ensures details == TextDetails(elements)
  {
    details := map[];
    for i := 0 to |elements|
      invariant details == Overwrite(map[], elements[..i], TextWrites)
    {
      details := ScanElement(details, elements[i]);
      assert elements[..i + 1][..i] == elements[..i];
    }
    assert elements[..|elements|] == elements;
  }

  /** The write of one <input>. */
  method ScanField(d: Details, field: InputField) returns (details: Details)
    ensures details == d + InputWrites(field)
  {
    details := d;
    if field.id != [] || field.name != [] {
      var name := Lower(if field.id != [] then field.id else field.name);
      var value := Strip(field.value);
      if Contains(name, "fiyat") && value != [] && HasDigit(value) {
        UpdateIsUnion(details, Price, value + " TL");
        details := details[Price := value + " TL"];
      } else if Contains(name, "kod") && value != [] {
        UpdateIsUnion(details, ProductCode, value);
        details := details[ProductCode := value];
      } else {
        EmptyUnion(details);
      }
    } else {
      EmptyUnion(details);
    }
  }

  method ScanInputs(d: Details, inputs: seq<InputField>) returns (details: Details)
    ensures details == InputDetails(d, inputs)
  {
    details := d;
    for i := 0 to |inputs|
      invariant details == Overwrite(d, inputs[..i], InputWrites)
    {
      details := ScanField(details, inputs[i]);
      assert inputs[..i + 1][..i] == inputs[..i];
    }
    assert inputs[..|inputs|] == inputs;
  }

  /** The write of one table row: the first caption test that holds decides the key. */
  method ScanRow(d: Details, cells: seq<String>) returns (details: Details)
    ensures details == d + RowWrites(cells)
  {
    details := d;
    if |cells| >= 2 {
      var caption := Lower(Strip(cells[0]));
      var value := Strip(cells[1]);
      if Contains(caption, "ürün no") || Contains(caption, "model no") {
        details := details[ProductCode := value];
      } else if Contains(caption, "fiyat") && value != [] {
        details := details[Price := value];
      } else if Contains(caption, "durum") || Contains(caption, "satış") {
        details := details[SaleStatus := value];
      }
    }
  }

  /** The writes of the rows of one table, in order. */
  method ScanRows(d: Details, rows: seq<seq<String>>) returns (details: Details)
    ensures details == Overwrite(d, rows, RowWrites)
  {
    details := d;
    for j := 0 to |rows|
      invariant details == Overwrite(d, rows[..j], RowWrites)
    {
      details := ScanRow(details, rows[j]);
      assert rows[..j + 1][..j] == rows[..j];
    }
    assert rows[..|rows|] == rows;
  }

  method ScanTables(d: Details, tables: seq<Table>) returns (details: Details)
    ensures details == TableDetails(d, tables)
  {
    details := d;
    ghost var rowsOf := RowsOf(tables);
    for i := 0 to |tables|
      invariant details == Overwrite(d, Flatten(rowsOf[..i]), RowWrites)
    {
      var rows := tables[i].rows;
      assert rows == rowsOf[i];
      OverwriteAppend(d, Flatten(rowsOf[..i]), rows, RowWrites);
      details := ScanRows(details, rows);
      FlattenStep(rowsOf, i);
    }
    assert rowsOf[..|tables|] == rowsOf;
  }

  /** The detail passes in the scraper's order. */
  method ScanDetails(doc: Document) returns (details: Details)
    ensures details == DetailsOf(doc)
  {
    details := ScanText(doc.elements);
    details := ScanInputs(details, doc.inputs);
    details := ScanTables(details, doc.tables);
  }

  // -----------------------------------------------------------------------
  // Last write wins

  /** Writing two runs of items one after the other is writing their concatenation. */
  lemma {:induction false} OverwriteAppend<X>(d: Details, xs: seq<X>, ys: seq<X>, writes: X -> Details)
    ensures Overwrite(d, xs + ys, writes) == Overwrite(Overwrite(d, xs, writes), ys, writes)
    decreases |ys|
  {
    if |ys| == 0 {
      assert xs + ys == xs;
    } else {
      assert (xs + ys)[..|xs + ys| - 1] == xs + ys[..|ys| - 1];
      OverwriteAppend(d, xs, ys[..|ys| - 1], writes);
    }
  }

  /** The last item that writes `k` decides its value; with no such item `k` keeps its value in `d`. */
  lemma {:induction false} OverwriteLookup<X>(d: Details, xs: seq<X>, writes: X -> Details, k: DetailKey)
    ensures k in Overwrite(d, xs, writes) <==> k in d || LastWrite(xs, writes, k).Some?
    ensures LastWrite(xs, writes, k).Some? ==> Overwrite(d, xs, writes)[k] == LastWrite(xs, writes, k).value
    ensures LastWrite(xs, writes, k).None? && k in d ==> Overwrite(d, xs, writes)[k] == d[k]
    decreases |xs|
  {
    if |xs| > 0 {
      OverwriteLookup(d, xs[..|xs| - 1], writes, k);
    }
  }

  /** LastWrite finds the value of the last writer, and None exactly when nothing writes the key. */
  lemma {:induction false} LastWriteIndex<X>(xs: seq<X>, writes: X -> Details, k: DetailKey)
    ensures LastWrite(xs, writes, k).None? <==> forall i :: 0 <= i < |xs| ==> k !in writes(xs[i])
    ensures LastWrite(xs, writes, k).Some? ==>
      exists i :: 0 <= i < |xs| && k in writes(xs[i]) && LastWrite(xs, writes, k).value == writes(xs[i])[k]
        && forall j :: i < j < |xs| ==> k !in writes(xs[j])
    decreases |xs|
  {
    if |xs| > 0 {
      var init := xs[..|xs| - 1];
      LastWriteIndex(init, writes, k);
      assert forall i :: 0 <= i < |init| ==> init[i] == xs[i];
      if k !in writes(xs[|xs| - 1]) && LastWrite(init, writes, k).Some? {
        var i :| 0 <= i < |init| && k in writes(init[i]) && LastWrite(init, writes, k).value == writes(init[i])[k]
          && forall j :: i < j < |init| ==> k !in writes(init[j]);
        assert forall j :: i < j < |xs| ==> k !in writes(xs[j]);
      }
    }
  }

  /**
   * Precedence of the passes: a key a table row writes has the last such
   * row's value; otherwise a key an <input> writes has the last such input's
   * value; otherwise the last free-text element that writes it decides; and a
   * key no pass writes is absent.
   */
  lemma DetailsPrecedence(doc: Document, k: DetailKey)
    ensures LastWrite(AllRows(doc.tables), RowWrites, k).Some? ==>
      k in DetailsOf(doc) && DetailsOf(doc)[k] == LastWrite(AllRows(doc.tables), RowWrites, k).value
    ensures LastWrite(AllRows(doc.tables), RowWrites, k).None? && LastWrite(doc.inputs, InputWrites, k).Some? ==>
      k in DetailsOf(doc) && DetailsOf(doc)[k] == LastWrite(doc.inputs, InputWrites, k).value
    ensures (LastWrite(AllRows(doc.tables), RowWrites, k).None? && LastWrite(doc.inputs, InputWrites, k).None?
             && LastWrite(doc.elements, TextWrites, k).Some?) ==>
      k in DetailsOf(doc) && DetailsOf(doc)[k] == LastWrite(doc.elements, TextWrites, k).value
    ensures k in DetailsOf(doc) <==>
      LastWrite(AllRows(doc.tables), RowWrites, k).Some? || LastWrite(doc.inputs, InputWrites, k).Some?
        || LastWrite(doc.elements, TextWrites, k).Some?
  {
    OverwriteLookup(map[], doc.elements, TextWrites, k);
    OverwriteLookup(TextDetails(doc.elements), doc.inputs, InputWrites, k);
    OverwriteLookup(InputDetails(TextDetails(doc.elements), doc.inputs), AllRows(doc.tables), RowWrites, k);
  }
}
