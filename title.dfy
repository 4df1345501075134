/**
 * The product title: the first acceptable h1-h3 heading, else the first long
 * product name in a script, else the first "name" row of a table, else the
 * page's <title> unless it is the lookup page's own title.
 */
module TitleResolver {
  import opened Wrappers
  import opened Text
  import opened Seqs
  import opened Page

  /** The lookup page's own <title>, which the scraper never reports (app.py:57). */
  const LookupPageTitle: String := "MUDO - Stok Sorgula"

  /** A heading names the product when it is longer than 5 characters and mentions neither "stok" nor "mudo". */
  predicate IsProductHeading(heading: String) {
    var text := Strip(heading);
    text != [] && |text| > 5 && !Contains(Lower(text), "stok") && !Contains(Lower(text), "mudo")
  }

  /** A script pattern match is accepted when its group is longer than 5 characters. */
  predicate IsLongName(m: Option<String>) {
    m.Some? && |m.value| > 5
  }

  function MatchedName(m: Option<String>): String {
    if m.Some? then m.value else []
  }

  /** A table row `caption | value` whose caption names the product name and whose value is longer than 5 characters. */
  predicate IsNameRow(row: seq<String>) {
    && |row| >= 2
    && (var caption := Lower(Strip(row[0]));
        Contains(caption, "ürün ad") || Contains(caption, "model ad") || Contains(caption, "isim"))
    && |Strip(row[1])| > 5
  }

  function RowValue(row: seq<String>): String {
    if |row| >= 2 then Strip(row[1]) else []
  }

  /** The <title> text, unless it is missing, empty or the lookup page's own title. */
  function PageTitle(title: Option<String>): Option<String> {
    match title
    case None => None
    case Some(t) =>
      var text := Strip(t);
      if text != [] && text != LookupPageTitle then Some(text) else None
  }

  function HeadingName(doc: Document): Option<String> {
    FirstMatch(doc.headings, IsProductHeading, Strip)
  }

  function ScriptName(doc: Document): Option<String> {
    FirstMatch(Flatten(doc.scriptNames), IsLongName, MatchedName)
  }

  function TableName(doc: Document): Option<String> {
    FirstMatch(AllRows(doc.tables), IsNameRow, RowValue)
  }

  /** The title the scraper reports, by the precedence heading, script, table row, <title>. */
  function TitleOf(doc: Document): Option<String> {
    if HeadingName(doc).Some? then HeadingName(doc)
    else if ScriptName(doc).Some? then ScriptName(doc)
    else if TableName(doc).Some? then TableName(doc)
    else PageTitle(doc.title)
  }

  method FindHeadingName(headings: seq<String>) returns (name: Option<String>)
    ensures name == FirstMatch(headings, IsProductHeading, Strip)
  {
    name := None;
    var i := 0;
    while i < |headings|
      invariant 0 <= i <= |headings|
      invariant name.None?
      invariant forall j :: 0 <= j < i ==> !IsProductHeading(headings[j])
    {
      var text := Strip(headings[i]);
      if text != [] && |text| > 5 && !Contains(Lower(text), "stok") && !Contains(Lower(text), "mudo") {
        name := Some(text);
        FirstMatchAt(headings, IsProductHeading, Strip, i);
        break;
      }
      i := i + 1;
    }
    if name.None? {
      FirstMatchNone(headings, IsProductHeading, Strip);
    }
  }

  method FindScriptName(scripts: seq<seq<Option<String>>>) returns (name: Option<String>)
    ensures name == FirstMatch(Flatten(scripts), IsLongName, MatchedName)
  {
    name := None;
    var i := 0;
    while i < |scripts|
      invariant 0 <= i <= |scripts|
      invariant name.None? && FirstMatch(Flatten(scripts[..i]), IsLongName, MatchedName) == None
    {
      var patterns := scripts[i];
      var j := 0;
      assert Flatten(scripts[..i]) + patterns[..0] == Flatten(scripts[..i]);
      while j < |patterns|
        invariant 0 <= j <= |patterns|
        invariant name.None? && FirstMatch(Flatten(scripts[..i]) + patterns[..j], IsLongName, MatchedName) == None
      {
        var m := patterns[j];
        if m.Some? && |m.value| > 5 {
          name := Some(m.value);
          FlattenSplit(scripts, i, j);
          FirstMatchHit(Flatten(scripts[..i]) + patterns[..j], m, patterns[j + 1..] + Flatten(scripts[i + 1..]), IsLongName, MatchedName);
          break;
        }
        FirstMatchMiss(Flatten(scripts[..i]) + patterns[..j], m, IsLongName, MatchedName);
        assert Flatten(scripts[..i]) + patterns[..j + 1] == Flatten(scripts[..i]) + patterns[..j] + [m];
        j := j + 1;
      }
      if name.Some? {
        break;
      }
      assert patterns[..j] == patterns;
      FlattenStep(scripts, i);
      i := i + 1;
    }
    if name.None? {
      assert scripts[..i] == scripts;
    }
  }

  method FindTableName(tables: seq<Table>) returns (name: Option<String>)
    ensures name == FirstMatch(AllRows(tables), IsNameRow, RowValue)
  {
    name := None;
    ghost var rowsOf := RowsOf(tables);
    var i := 0;
    while i < |tables|
      invariant 0 <= i <= |tables|
      invariant name.None? && FirstMatch(Flatten(rowsOf[..i]), IsNameRow, RowValue) == None
    {
      var rows := tables[i].rows;
      assert rows == rowsOf[i];
      var j := 0;
      assert Flatten(rowsOf[..i]) + rows[..0] == Flatten(rowsOf[..i]);
      while j < |rows|
        invariant 0 <= j <= |rows|
        invariant name.None? && FirstMatch(Flatten(rowsOf[..i]) + rows[..j], IsNameRow, RowValue) == None
      {
        var cells := rows[j];
        if |cells| >= 2 {
          var caption := Lower(Strip(cells[0]));
          var value := Strip(cells[1]);
          if (Contains(caption, "ürün ad") || Contains(caption, "model ad") || Contains(caption, "isim")) && |value| > 5 {
            name := Some(value);
            FlattenSplit(rowsOf, i, j);
            FirstMatchHit(Flatten(rowsOf[..i]) + rows[..j], cells, rows[j + 1..] + Flatten(rowsOf[i + 1..]), IsNameRow, RowValue);
            break;
          }
        }
        FirstMatchMiss(Flatten(rowsOf[..i]) + rows[..j], cells, IsNameRow, RowValue);
        assert Flatten(rowsOf[..i]) + rows[..j + 1] == Flatten(rowsOf[..i]) + rows[..j] + [cells];
        j := j + 1;
      }
      if name.Some? {
        break;
      }
      assert rows[..j] == rows;
      FlattenStep(rowsOf, i);
      i := i + 1;
    }
    if name.None? {
      assert rowsOf[..i] == rowsOf;
    }
  }

  /** The title search of the scraper: <title> first, then overridden by the first product name found. */
  method ResolveTitle(doc: Document) returns (title: Option<String>)
    ensures title == TitleOf(doc)
  {
    title := None;
    if doc.title.Some? {
      var titleText := Strip(doc.title.value);
      if titleText != [] && titleText != LookupPageTitle {
        title := Some(titleText);
      }
    }
    var productName := FindHeadingName(doc.headings);
    if productName.None? {
      productName := FindScriptName(doc.scriptNames);
    }
    if productName.None? {
      productName := FindTableName(doc.tables);
    }
    if productName.Some? {
      title := productName;
    }
  }

  // -----------------------------------------------------------------------
  // Precedence

  /** The first acceptable heading is the title, whatever the scripts, tables and <title> say. */
  lemma {:induction false} HeadingWins(doc: Document, i: nat)
    requires i < |doc.headings| && IsProductHeading(doc.headings[i])
    requires forall j :: 0 <= j < i ==> !IsProductHeading(doc.headings[j])
    ensures TitleOf(doc) == Some(Strip(doc.headings[i]))
    ensures |TitleOf(doc).value| > 5
    ensures !Contains(Lower(TitleOf(doc).value), "stok") && !Contains(Lower(TitleOf(doc).value), "mudo")
  {
    FirstMatchAt(doc.headings, IsProductHeading, Strip, i);
  }

  /** With no acceptable heading, the first script name longer than 5 characters is the title. */
  lemma {:induction false} ScriptBeatsTable(doc: Document, k: nat)
    requires forall j :: 0 <= j < |doc.headings| ==> !IsProductHeading(doc.headings[j])
    requires k < |Flatten(doc.scriptNames)| && IsLongName(Flatten(doc.scriptNames)[k])
    requires forall j :: 0 <= j < k ==> !IsLongName(Flatten(doc.scriptNames)[j])
    ensures TitleOf(doc) == Some(Flatten(doc.scriptNames)[k].value)
    ensures |TitleOf(doc).value| > 5
  {
    FirstMatchNone(doc.headings, IsProductHeading, Strip);
    FirstMatchAt(Flatten(doc.scriptNames), IsLongName, MatchedName, k);
  }

  /** With neither a heading nor a script name, the first "name" row of a table is the title. */
  lemma {:induction false} TableBeatsPageTitle(doc: Document, k: nat)
    requires forall j :: 0 <= j < |doc.headings| ==> !IsProductHeading(doc.headings[j])
    requires forall j :: 0 <= j < |Flatten(doc.scriptNames)| ==> !IsLongName(Flatten(doc.scriptNames)[j])
    requires k < |AllRows(doc.tables)| && IsNameRow(AllRows(doc.tables)[k])
    requires forall j :: 0 <= j < k ==> !IsNameRow(AllRows(doc.tables)[j])
    ensures TitleOf(doc) == Some(Strip(AllRows(doc.tables)[k][1]))
    ensures |TitleOf(doc).value| > 5
  {
    FirstMatchNone(doc.headings, IsProductHeading, Strip);
    FirstMatchNone(Flatten(doc.scriptNames), IsLongName, MatchedName);
    FirstMatchAt(AllRows(doc.tables), IsNameRow, RowValue, k);
  }

  /** No heading, script name or table row names the product. */
  predicate NoProductName(doc: Document) {
    && (forall j :: 0 <= j < |doc.headings| ==> !IsProductHeading(doc.headings[j]))
    && (forall j :: 0 <= j < |Flatten(doc.scriptNames)| ==> !IsLongName(Flatten(doc.scriptNames)[j]))
    && (forall j :: 0 <= j < |AllRows(doc.tables)| ==> !IsNameRow(AllRows(doc.tables)[j]))
  }

  /**
   * The <title> is used exactly when the three searches fail, and then only
   * when it is non-empty and not the lookup page's own title.
   */
  lemma {:induction false} PageTitleIsLastResort(doc: Document)
    ensures NoProductName(doc) ==> TitleOf(doc) == PageTitle(doc.title)
    ensures TitleOf(doc) == None <==>
      NoProductName(doc) && (doc.title.None? || Strip(doc.title.value) == [] || Strip(doc.title.value) == LookupPageTitle)
  {
    FirstMatchNone(doc.headings, IsProductHeading, Strip);
    FirstMatchNone(Flatten(doc.scriptNames), IsLongName, MatchedName);
    FirstMatchNone(AllRows(doc.tables), IsNameRow, RowValue);
  }
}
