/**
 * The colour/size variants: every table whose header cells mention a variant
 * column is read row by row after its header row, and each row with a colour,
 * a size and a barcode of at least ten digits becomes a variant.
 */
module VariantScanner {
  import opened Text
  import opened Seqs
  import opened Page

  datatype Variant = Variant(color: String, size: String, productCode: String, barcode: String, displayName: String)

  /** The header words that mark a variant table. */
  const VariantKeywords: seq<String> := ["renk", "beden", "mal no", "barkod"]

  function LowerStripped(s: String): String {
    Lower(Strip(s))
  }

  /** The lowercased, stripped header texts joined by single spaces. */
  function HeaderText(t: Table): String {
    Join(seq(|t.headers|, i requires 0 <= i < |t.headers| => LowerStripped(t.headers[i])), " ")
  }

  predicate IsVariantTable(t: Table) {
    exists w :: w in VariantKeywords && Contains(HeaderText(t), w)
  }

  /** The stripped text of cell `i`, or "" when the row is shorter. */
  function Cell(cells: seq<String>, i: nat): String {
    if |cells| > i then Strip(cells[i]) else ""
  }

  /** A row of at least four cells with a colour, a size and an all-digit barcode of at least ten digits. */
  predicate IsVariantRow(cells: seq<String>) {
    && |cells| >= 4
    && Cell(cells, 0) != [] && Cell(cells, 1) != [] && Cell(cells, 3) != []
    && |Cell(cells, 3)| >= 10 && IsNumber(Cell(cells, 3))
  }

  function RowVariant(cells: seq<String>): Variant {
    Variant(Cell(cells, 0), Cell(cells, 1), Cell(cells, 2), Cell(cells, 3), Cell(cells, 0) + " - " + Cell(cells, 1))
  }

  /** The rows after the header row (Python's `rows[1:]`). */
  function BodyRows(t: Table): seq<seq<String>> {
    if |t.rows| == 0 then [] else t.rows[1..]
  }

  function TableVariants(t: Table): seq<Variant> {
    if IsVariantTable(t) then FilterMap(BodyRows(t), IsVariantRow, RowVariant) else []
  }

  /** The variants of all tables, table after table. */
  function VariantsOf(tables: seq<Table>): seq<Variant>
    decreases |tables|
  {
    if |tables| == 0 then []
    else VariantsOf(tables[..|tables| - 1]) + TableVariants(tables[|tables| - 1])
  }

  // -----------------------------------------------------------------------
  // The scanning loops

  method IsVariantHeader(t: Table) returns (found: bool)
    ensures found == IsVariantTable(t)
  {
    var text := HeaderText(t);
    found := false;
    for k := 0 to |VariantKeywords|
      invariant found <==> exists j :: 0 <= j < k && Contains(text, VariantKeywords[j])
    {
      if Contains(text, VariantKeywords[k]) {
        found := true;
      }
    }
  }

  /** Appends the variants of the body rows of one variant table. */
  method ScanRows(variants: seq<Variant>, rows: seq<seq<String>>) returns (extended: seq<Variant>)
    ensures extended == variants + FilterMap(rows, IsVariantRow, RowVariant)
  {
    extended := variants;
    for j := 0 to |rows|
      invariant extended == variants + FilterMap(rows[..j], IsVariantRow, RowVariant)
    {
      var cells := rows[j];
      assert rows[..j + 1][..j] == rows[..j];
      if |cells| >= 4 {
        var color := Cell(cells, 0);
        var size := Cell(cells, 1);
        var productCode := Cell(cells, 2);
        var barcode := Cell(cells, 3);
        if color != [] && size != [] && barcode != [] && |barcode| >= 10 && IsNumber(barcode) {
          extended := extended + [Variant(color, size, productCode, barcode, color + " - " + size)];
        }
      }
    }
    assert rows[..|rows|] == rows;
  }

  method ScanVariants(tables: seq<Table>) returns (variants: seq<Variant>)
    ensures variants == VariantsOf(tables)
  {
    variants := [];
    for i := 0 to |tables|
      invariant variants == VariantsOf(tables[..i])
    {
      var table := tables[i];
      assert tables[..i + 1][..i] == tables[..i];
      var isVariantTable := IsVariantHeader(table);
      if isVariantTable {
        variants := ScanRows(variants, BodyRows(table));
      }
    }
    assert tables[..|tables|] == tables;
  }

  // -----------------------------------------------------------------------
  // Properties

  /** Every variant has a colour, a size, a barcode of at least ten digits and the name "colour - size". */
  lemma {:induction false} VariantsValid(tables: seq<Table>)
    ensures forall v :: v in VariantsOf(tables) ==>
      && v.color != [] && v.size != [] && Stripped(v.color) && Stripped(v.size)
      && IsNumber(v.barcode) && |v.barcode| >= 10
      && v.displayName == v.color + " - " + v.size
    decreases |tables|
  {
    if |tables| > 0 {
      var t := tables[|tables| - 1];
      VariantsValid(tables[..|tables| - 1]);
      forall v | v in TableVariants(t)
        ensures v.color != [] && v.size != [] && Stripped(v.color) && Stripped(v.size)
        ensures IsNumber(v.barcode) && |v.barcode| >= 10 && v.displayName == v.color + " - " + v.size
      {
        FilterMapMember(BodyRows(t), IsVariantRow, RowVariant, v);
        var r :| 0 <= r < |BodyRows(t)| && IsVariantRow(BodyRows(t)[r]) && v == RowVariant(BodyRows(t)[r]);
        var cells := BodyRows(t)[r];
        var a := StripShape(cells[0]);
        var b := StripShape(cells[1]);
      }
    }
  }

  /**
   * A value is a variant exactly when some variant table has a row after its
   * header row that passes the checks and yields that value.
   */
  lemma {:induction false} VariantProvenance(tables: seq<Table>, v: Variant)
    ensures v in VariantsOf(tables) <==>
      exists i, r :: 0 <= i < |tables| && IsVariantTable(tables[i]) && 1 <= r < |tables[i].rows|
        && IsVariantRow(tables[i].rows[r]) && v == RowVariant(tables[i].rows[r])
    decreases |tables|
  {
    if |tables| > 0 {
      var n := |tables| - 1;
      var t := tables[n];
      var init := tables[..n];
      VariantProvenance(init, v);
      assert forall i :: 0 <= i < n ==> init[i] == tables[i];
      FilterMapMember(BodyRows(t), IsVariantRow, RowVariant, v);
      if v in TableVariants(t) {
        var r :| 0 <= r < |BodyRows(t)| && IsVariantRow(BodyRows(t)[r]) && v == RowVariant(BodyRows(t)[r]);
        assert BodyRows(t)[r] == t.rows[r + 1];
      }
      if exists i, r :: 0 <= i < |tables| && IsVariantTable(tables[i]) && 1 <= r < |tables[i].rows|
          && IsVariantRow(tables[i].rows[r]) && v == RowVariant(tables[i].rows[r]) {
        var i, r :| 0 <= i < |tables| && IsVariantTable(tables[i]) && 1 <= r < |tables[i].rows|
          && IsVariantRow(tables[i].rows[r]) && v == RowVariant(tables[i].rows[r]);
        if i == n {
          assert t.rows[r] == BodyRows(t)[r - 1];
        }
      }
    }
  }
}
