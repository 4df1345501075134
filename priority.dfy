/**
 * The final ordering of the kept candidates: the Vadistanbul City store is
 * renamed "Vadistanbul City (183)", flagged as the priority store and put
 * first; every other store keeps its order and has its name stripped and its
 * whitespace runs collapsed to single spaces.
 */
module PriorityReorder {
  import opened Wrappers
  import opened Text
  import opened Seqs
  import opened CandidateSources

  /** One entry of the final `stock_data`; `isPriority` is false where the scraper sets no `is_priority` key. */
  datatype StockEntry = StockEntry(store: String, stock: String, isPriority: bool)

  /** The name the priority store is shown under. */
  const PriorityName: String := "Vadistanbul City (183)"

  /** A store name that mentions both "vadistanbul" and "city", in any case. */
  predicate IsFlagshipName(name: String) {
    Contains(Lower(name), "vadistanbul") && Contains(Lower(name), "city")
  }

  predicate IsFlagship(c: Candidate) {
    IsFlagshipName(c.store)
  }

  predicate IsOther(c: Candidate) {
    !IsFlagship(c)
  }

  /** The flagship entry, renamed and flagged. */
  function Promote(c: Candidate): StockEntry {
    StockEntry(PriorityName, c.stock, true)
  }

  /** Any other entry, with its name cleaned up. */
  function Clean(c: Candidate): StockEntry {
    StockEntry(Collapse(c.store), c.stock, false)
  }

  /** The last flagship candidate of `s`, if any (each match replaces the previous one). */
  function LastFlagship(s: seq<Candidate>): Option<Candidate>
    decreases |s|
  {
    if |s| == 0 then None
    else if IsFlagship(s[|s| - 1]) then Some(s[|s| - 1])
    else LastFlagship(s[..|s| - 1])
  }

  /** The scraper's `priority_store`. */
  function PriorityOf(s: seq<Candidate>): Option<StockEntry> {
    match LastFlagship(s)
    case None => None
    case Some(c) => Some(Promote(c))
  }

  /** The scraper's `other_stores`. */
  function OtherEntries(s: seq<Candidate>): seq<StockEntry> {
    FilterMap(s, IsOther, Clean)
  }

  /** The scraper's `final_stock_data`: the priority store, if any, then the others. */
  function Reordered(s: seq<Candidate>): seq<StockEntry> {
    (if PriorityOf(s).Some? then [PriorityOf(s).value] else []) + OtherEntries(s)
  }

  // -----------------------------------------------------------------------
  // The reordering loop

  method Reorder(unique: seq<Candidate>) returns (final: seq<StockEntry>, priorityStore: Option<StockEntry>)
    ensures final == Reordered(unique)
    ensures priorityStore == PriorityOf(unique)
  {
    priorityStore := None;
    var otherStores: seq<StockEntry> := [];
    for i := 0 to |unique|
      invariant priorityStore == PriorityOf(unique[..i])
      invariant otherStores == OtherEntries(unique[..i])
    {
      var item := unique[i];
      assert unique[..i + 1][..i] == unique[..i];
      var storeName := Lower(item.store);
      if Contains(storeName, "vadistanbul") && Contains(storeName, "city") {
        priorityStore := Some(StockEntry(PriorityName, item.stock, true));
      } else {
        var cleanName := Strip(item.store);
        cleanName := Squeeze(cleanName);
        otherStores := otherStores + [StockEntry(cleanName, item.stock, false)];
      }
    }
    assert unique[..|unique|] == unique;
    final := [];
    if priorityStore.Some? {
      final := final + [priorityStore.value];
    }
    final := final + otherStores;
  }

  // -----------------------------------------------------------------------
  // Properties

  /** LastFlagship finds the last flagship candidate, and nothing exactly when there is none. */
  lemma {:induction false} LastFlagshipIndex(s: seq<Candidate>) returns (i: nat)
    ensures LastFlagship(s).None? <==> forall j :: 0 <= j < |s| ==> !IsFlagship(s[j])
    ensures LastFlagship(s).Some? ==>
      i < |s| && LastFlagship(s) == Some(s[i]) && IsFlagship(s[i]) && forall j :: i < j < |s| ==> !IsFlagship(s[j])
    decreases |s|
  {
    if |s| == 0 {
      i := 0;
    } else if IsFlagship(s[|s| - 1]) {
      i := |s| - 1;
    } else {
      var init := s[..|s| - 1];
      i := LastFlagshipIndex(init);
      assert forall j :: 0 <= j < |init| ==> init[j] == s[j];
    }
  }

  /**
   * When some kept candidate is the flagship store, the final list starts
   * with the last such candidate, renamed and flagged, and that entry is
   * the priority store; when none is, there is no priority store.
   */
  lemma PriorityFirst(s: seq<Candidate>, i: nat)
    requires i < |s| && IsFlagship(s[i])
    requires forall j :: i < j < |s| ==> !IsFlagship(s[j])
    ensures PriorityOf(s) == Some(StockEntry(PriorityName, s[i].stock, true))
    ensures |Reordered(s)| > 0 && Reordered(s)[0] == PriorityOf(s).value
  {
    var k := LastFlagshipIndex(s);
  }

  lemma NoFlagshipNoPriority(s: seq<Candidate>)
    ensures PriorityOf(s).None? <==> forall j :: 0 <= j < |s| ==> !IsFlagship(s[j])
    ensures PriorityOf(s).None? ==> Reordered(s) == OtherEntries(s)
  {
    var k := LastFlagshipIndex(s);
  }

  /** Only the first entry can be flagged, and only when there is a priority store. */
  lemma OnlyFirstIsPriority(s: seq<Candidate>)
    ensures forall k :: 0 <= k < |Reordered(s)| && Reordered(s)[k].isPriority ==> k == 0 && PriorityOf(s).Some?
  {
    var r := Reordered(s);
    var offset := if PriorityOf(s).Some? then 1 else 0;
    forall k | 0 <= k < |r| && r[k].isPriority
      ensures k == 0 && PriorityOf(s).Some?
    {
      if k >= offset {
        var e := r[k];
        assert e == OtherEntries(s)[k - offset];
        FilterMapMember(s, IsOther, Clean, e);
      }
    }
  }

  lemma {:induction false} CountSplit(s: seq<Candidate>)
    ensures Count(s, IsFlagship) + Count(s, IsOther) == |s|
    decreases |s|
  {
    if |s| > 0 {
      CountSplit(s[..|s| - 1]);
    }
  }

  /**
   * The final list has one entry per non-flagship candidate plus one for the
   * flagship store: every flagship candidate but the last is dropped.
   */
  lemma ReorderedLength(s: seq<Candidate>)
    ensures |Reordered(s)| == |s| - Count(s, IsFlagship) + (if Count(s, IsFlagship) > 0 then 1 else 0)
    ensures |Reordered(s)| <= |s|
  {
    FilterMapLength(s, IsOther, Clean);
    CountSplit(s);
    CountBound(s, IsFlagship);
    var k := LastFlagshipIndex(s);
  }

  /**
   * The entries after the priority store are the non-flagship candidates in
   * their original order, each with its name stripped and single-spaced and
   * its stock unchanged; none of them is flagged.
   */
  lemma OthersInOrder(s: seq<Candidate>) returns (idx: seq<nat>)
    ensures |idx| == |OtherEntries(s)|
    ensures forall k, l :: 0 <= k < l < |idx| ==> idx[k] < idx[l]
    ensures forall k :: 0 <= k < |idx| ==>
      && idx[k] < |s| && !IsFlagship(s[idx[k]])
      && OtherEntries(s)[k] == StockEntry(Collapse(s[idx[k]].store), s[idx[k]].stock, false)
      && WellSpaced(OtherEntries(s)[k].store)
    ensures forall i :: 0 <= i < |s| && !IsFlagship(s[i]) ==> i in idx
  {
    idx := FilterMapIndices(s, IsOther, Clean);
    forall k | 0 <= k < |idx|
      ensures WellSpaced(OtherEntries(s)[k].store)
    {
      CollapseWellSpaced(s[idx[k]].store);
    }
  }

  /** Every entry of the final list carries the stock text of one of the candidates. */
  lemma ReorderedStockSource(s: seq<Candidate>, k: nat)
    requires k < |Reordered(s)|
    ensures exists c :: c in s && Reordered(s)[k].stock == c.stock
  {
    var r := Reordered(s);
    if PriorityOf(s).Some? && k == 0 {
      var i := LastFlagshipIndex(s);
    } else {
      var offset := if PriorityOf(s).Some? then 1 else 0;
      assert r[k] == OtherEntries(s)[k - offset];
      FilterMapMember(s, IsOther, Clean, r[k]);
    }
  }

  lemma PriorityNameIsFlagship()
    ensures IsFlagshipName(PriorityName)
  {
    var low := Lower(PriorityName);
    assert low[..11] == "vadistanbul";
    assert low[12..16] == "city";
    ContainsAt(low, "vadistanbul", 0);
    ContainsAt(low, "city", 12);
  }

  /** Cleaning up another store's name never makes it mention both "vadistanbul" and "city". */
  lemma CleanedNotFlagship(c: Candidate)
    requires IsOther(c)
    ensures !IsFlagshipName(Clean(c).store)
  {
    if Contains(Lower(Collapse(c.store)), "vadistanbul") {
      ContainsThroughCollapse(c.store, "vadistanbul");
    }
    if Contains(Lower(Collapse(c.store)), "city") {
      ContainsThroughCollapse(c.store, "city");
    }
  }

  /**
   * Exactly one entry of the final list names the flagship store when some
   * candidate is the flagship, and none does otherwise: collapsing whitespace
   * never makes another store's name mention both words.
   */
  lemma OneFlagshipEntry(s: seq<Candidate>)
    ensures forall k :: 0 <= k < |Reordered(s)| ==>
      (IsFlagshipName(Reordered(s)[k].store) <==> k == 0 && PriorityOf(s).Some?)
  {
    var r := Reordered(s);
    var offset := if PriorityOf(s).Some? then 1 else 0;
    PriorityNameIsFlagship();
    forall k | 0 <= k < |r|
      ensures IsFlagshipName(r[k].store) <==> k == 0 && PriorityOf(s).Some?
    {
      if k >= offset {
        var e := r[k];
        assert e == OtherEntries(s)[k - offset];
        FilterMapMember(s, IsOther, Clean, e);
        var j :| 0 <= j < |s| && IsOther(s[j]) && e == Clean(s[j]);
        CleanedNotFlagship(s[j]);
      }
    }
  }
}
