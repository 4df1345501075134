/**
 * The clean-up of the raw candidates: a candidate is kept when its lowercased,
 * stripped store name contains a whitelisted word, its stripped stock text
 * holds a digit and has at most 10 characters, and its name has 4 to 60
 * characters; of the kept candidates with the same (name, stock) key only
 * the first one stays.
 */
module CandidateFilter {
  import opened Text
  import opened Seqs
  import opened CandidateSources

  /**
   * The words of the store whitelist. Each pattern `.*word.*` is searched
   * with `re.search`, which succeeds exactly when the word occurs in the name.
   */
  const Whitelist: seq<String> := [
    "city", "vadistanbul", "mall", "avm", "center",
    "giyim", "home", "concept", "marina", "outlet",
    "istanbul", "ankara", "izmir", "bursa", "antalya",
    "adana", "trabzon", "kayseri", "samsun", "gaziantep",
    "malatya", "eskişehir", "bodrum", "marmaris",
    "akmerkez", "cevahir", "carousel", "palladium",
    "nautilus", "aqua", "tema", "nişantaşı", "maslak",
    "pendik", "capitol", "çanakkale", "balıkesir",
    "tekirdağ", "bandırma", "mersin", "alanya"]

  /** The duplicate key: the lowercased, stripped store name and the stripped stock text. */
  datatype Key = Key(name: String, stock: String)

  function KeyOf(c: Candidate): Key {
    Key(Strip(Lower(c.store)), Strip(c.stock))
  }

  predicate OnWhitelist(name: String) {
    exists k :: 0 <= k < |Whitelist| && Contains(name, Whitelist[k])
  }

  /** A stock text holds a digit and has at most 10 characters. */
  predicate IsStockValue(stock: String) {
    HasDigit(stock) && |stock| <= 10
  }

  /** The three tests a candidate must pass before the duplicate check. */
  predicate Accepted(c: Candidate) {
    var key := KeyOf(c);
    OnWhitelist(key.name) && IsStockValue(key.stock) && 4 <= |key.name| <= 60
  }

  /** The scraper's `unique_stock_data`: the first accepted candidate of each key, in order. */
  function Filtered(s: seq<Candidate>): seq<Candidate> {
    FirstOfEachKey(s, Accepted, KeyOf)
  }

  // -----------------------------------------------------------------------
  // The filtering loops

  method MatchesWhitelist(name: String) returns (found: bool)
    ensures found == OnWhitelist(name)
  {
    found := false;
    var k := 0;
    while k < |Whitelist|
      invariant 0 <= k <= |Whitelist|
      invariant !found ==> forall j :: 0 <= j < k ==> !Contains(name, Whitelist[j])
      invariant found ==> OnWhitelist(name)
    {
      if Contains(name, Whitelist[k]) {
        found := true;
        break;
      }
      k := k + 1;
    }
  }

  /** The whitelist, stock and length tests of one candidate, in the scraper's order. */
  method CheckCandidate(item: Candidate) returns (accepted: bool)
    ensures accepted == Accepted(item)
  {
    var storeName := Strip(Lower(item.store));
    var stockCount := Strip(item.stock);
    var isValidStore := MatchesWhitelist(storeName);
    if !isValidStore {
      return false;
    }
    if !HasDigit(stockCount) || |stockCount| > 10 {
      return false;
    }
    if |storeName| < 4 || |storeName| > 60 {
      return false;
    }
    return true;
  }

  method FilterCandidates(stockData: seq<Candidate>) returns (unique: seq<Candidate>)
    ensures unique == Filtered(stockData)
  {
    unique := [];
    var seen: set<Key> := {};
    for i := 0 to |stockData|
      invariant unique == Filtered(stockData[..i])
      invariant seen == KeysOf(unique, KeyOf)
    {
      var item := stockData[i];
      assert stockData[..i + 1][..i] == stockData[..i];
      assert Filtered(stockData[..i + 1]) ==
        if Accepted(item) && KeyOf(item) !in seen then unique + [item] else unique;
      var accepted := CheckCandidate(item);
      if !accepted {
        continue;
      }
      var key := Key(Strip(Lower(item.store)), Strip(item.stock));
      if key !in seen {
        assert (unique + [item])[..|unique|] == unique;
        seen := seen + {key};
        unique := unique + [item];
      }
    }
    assert stockData[..|stockData|] == stockData;
  }

  // -----------------------------------------------------------------------
  // Properties

  /** Every kept candidate passes the whitelist, stock and length tests and comes from the input. */
  lemma FilteredAccepted(s: seq<Candidate>)
    ensures forall c :: c in Filtered(s) ==>
      && c in s
      && OnWhitelist(Strip(Lower(c.store)))
      && HasDigit(Strip(c.stock)) && |Strip(c.stock)| <= 10
      && 4 <= |Strip(Lower(c.store))| <= 60
  {
    FirstOfEachKeyKept(s, Accepted, KeyOf);
  }

  /** Every whitelisted word has at least 3 characters and no whitespace. */
  lemma WhitelistWords()
    ensures forall k :: 0 <= k < |Whitelist| ==> |Whitelist[k]| >= 3 && NoSpace(Whitelist[k])
  {
    forall k | 0 <= k < |Whitelist|
      ensures |Whitelist[k]| >= 3 && NoSpace(Whitelist[k])
    {
      if k < 10 {
        WordsLettered0(k);
      } else if k < 20 {
        WordsLettered1(k);
      } else if k < 30 {
        WordsLettered2(k);
      } else {
        WordsLettered3(k);
      }
    }
  }

  /** At least 3 characters, each at or above 'a', so none is whitespace. */
  predicate Lettered(w: String) {
    |w| >= 3 && forall i :: 0 <= i < |w| ==> 'a' <= w[i]
  }

  // The whitelist checked ten words at a time.
  lemma WordsLettered0(k: nat)
    requires k < 10
    ensures Lettered(Whitelist[k])
  {
  }

  lemma WordsLettered1(k: nat)
    requires 10 <= k < 20
    ensures Lettered(Whitelist[k])
  {
  }

  lemma WordsLettered2(k: nat)
    requires 20 <= k < 30
    ensures Lettered(Whitelist[k])
  {
  }

  lemma WordsLettered3(k: nat)
    requires 30 <= k < |Whitelist|
    ensures Lettered(Whitelist[k])
  {
  }

  /**
   * An accepted candidate's store name, stripped and with its whitespace runs
   * collapsed, still has 4 to 60 characters: it is no longer than the
   * stripped name, and the whitelisted word it contains plus any character
   * beyond a space keep at least 4 non-space characters in it.
   */
  lemma AcceptedNameLength(c: Candidate)
    requires Accepted(c)
    ensures 4 <= |Collapse(c.store)| <= 60
  {
    var t := Strip(c.store);
    LowerStrip(c.store);
    assert |Lower(t)| == |t|;
    var k :| 0 <= k < |Whitelist| && Contains(Lower(t), Whitelist[k]);
    WhitelistWords();
    var _ := StripShape(c.store);
    WordInStripped(t, Whitelist[k]);
  }

  /** No two kept candidates share a key. */
  lemma FilteredDistinct(s: seq<Candidate>)
    ensures forall i, j :: 0 <= i < j < |Filtered(s)| ==> KeyOf(Filtered(s)[i]) != KeyOf(Filtered(s)[j])
  {
    FirstOfEachKeyDistinct(s, Accepted, KeyOf);
  }

  /** Every accepted candidate's key is kept: the duplicate check drops repeats, never a new key. */
  lemma FilteredComplete(s: seq<Candidate>, i: nat)
    requires i < |s| && Accepted(s[i])
    ensures exists k :: 0 <= k < |Filtered(s)| && KeyOf(Filtered(s)[k]) == KeyOf(s[i])
  {
    FirstOfEachKeyKeys(s, Accepted, KeyOf, KeyOf(s[i]));
    KeysOfMember(Filtered(s), KeyOf, KeyOf(s[i]));
  }

  /**
   * The kept candidates are, in input order, accepted candidates that no
   * earlier accepted candidate shares a key with.
   */
  lemma FilteredFirstOccurrences(s: seq<Candidate>) returns (idx: seq<nat>)
    ensures |idx| == |Filtered(s)|
    ensures forall k :: 0 <= k < |idx| ==>
      && idx[k] < |s| && Filtered(s)[k] == s[idx[k]] && Accepted(s[idx[k]])
      && forall j :: 0 <= j < idx[k] ==> !(Accepted(s[j]) && KeyOf(s[j]) == KeyOf(s[idx[k]]))
    ensures forall k, l :: 0 <= k < l < |idx| ==> idx[k] < idx[l]
  {
    idx := FirstOfEachKeyIndices(s, Accepted, KeyOf);
  }

  /** An accepted candidate that no earlier accepted candidate shares a key with is kept. */
  lemma FilteredKeepsFirst(s: seq<Candidate>, i: nat)
    requires i < |s| && Accepted(s[i])
    requires forall j :: 0 <= j < i ==> !(Accepted(s[j]) && KeyOf(s[j]) == KeyOf(s[i]))
    ensures s[i] in Filtered(s)
  {
    FirstOfEachKeyComplete(s, Accepted, KeyOf, i);
  }
}
