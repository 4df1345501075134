/**
 * The parsed lookup page, reduced to the texts the scraper reads from it.
 * Element texts are the raw `get_text()` of their elements; the regex
 * captures are given as found. The headings, free-text elements, inputs,
 * tables and spans are in document order; the script captures are per script
 * in document order and, within a script, in the order of the pattern list;
 * the div matches are in the order they are found.
 */
module Page {
  import opened Wrappers
  import opened Text
  import opened Seqs

  /** One <table>: the texts of all its `th` cells, and for each `tr` the texts of its `td`/`th` cells. */
  datatype Table = Table(headers: seq<String>, rows: seq<seq<String>>)

  /** One <input>: its `id`, `name` and `value` attributes, each "" when absent. */
  datatype InputField = InputField(id: String, name: String, value: String)

  /**
   * One div/span/td/p element seen by the free-text detail pass: its text and
   * what the detail regular expressions captured in it (group 1 of the product
   * code pattern once the code label matched, group 1 of the price pattern once
   * the currency test passed, the digits after `%`).
   */
  datatype TextElement = TextElement(text: String, codeMatch: Option<String>, priceMatch: Option<String>, discountDigits: Option<String>)

  /** One match of the div store/stock patterns: its name group and its stock group. */
  datatype DivMatch = DivMatch(name: String, stock: String)

  datatype Document = Document(
    title: Option<String>,                  // the <title> element's text, if there is one
    headings: seq<String>,                  // h1, h2 and h3 texts
    scriptNames: seq<seq<Option<String>>>,  // per script, per product-name pattern: group 1 of its first match
    elements: seq<TextElement>,             // div, span, td and p elements
    inputs: seq<InputField>,
    tables: seq<Table>,
    divMatches: seq<DivMatch>,              // all div pattern matches, in the order they are found
    spans: seq<String>)

  function RowsOf(tables: seq<Table>): seq<seq<seq<String>>> {
    seq(|tables|, i requires 0 <= i < |tables| => tables[i].rows)
  }

  /** Every `tr` of every table, table after table (what `table.find_all('tr')` yields in a loop over tables). */
  function AllRows(tables: seq<Table>): seq<seq<String>> {
    Flatten(RowsOf(tables))
  }
}
