/**
The TCGplayer price index of app/integrations/tcgcsv.py: `_merge_group`, `_Cache.lookup` and the swap at
the end of `_ensure_loaded`. CSV decoding is left to the caller: a group is its decoded rows.
*/
module TcgCsv {
  import opened Wrappers
  import opened Text

  const CACHE_TTL := 21600.0
  const BACK_OFF := 300.0

  datatype ProductRow = ProductRow(productId: string, name: string, url: string)

  datatype PriceRow = PriceRow(productId: string, low: Option<real>, mid: Option<real>, high: Option<real>, market: Option<real>)

  datatype Group = Group(products: seq<ProductRow>, prices: seq<PriceRow>)

  datatype Product = Product(name: string, url: string)

  /** One entry of the index. */
  datatype Row = Row(name: string, url: string, prices: PriceRow)

  datatype Entry = Entry(key: string, row: Row)

  /** How texts are compared: `str.lower` and the white space of `strip` and `split`. */
  datatype Locale = Locale(lower: string -> string, space: Space)

  /** Lower-casing erases no text and invents none. */
  ghost predicate SaneLocale(loc: Locale) {
    forall s :: loc.lower(s) == "" <==> s == ""
  }

  // ---- Reference: scanning the downloads row by row ------------------------------------------------

  /** The products of a group by id; the last row of an id wins. */
  function Products(loc: Locale, rows: seq<ProductRow>): map<string, Product> {
    if rows == [] then map[]
    else
      var earlier, row := Products(loc, rows[..|rows| - 1]), rows[|rows| - 1];
      if row.productId == "" then earlier
      else earlier[row.productId := Product(Strip(row.name, loc.space), row.url)]
  }

  /** A price row qualifies when its product is known and has a name. */
  function Qualifies(products: map<string, Product>, row: PriceRow): bool {
    row.productId != "" && row.productId in products && products[row.productId].name != ""
  }

  function EntryOf(loc: Locale, products: map<string, Product>, row: PriceRow): Entry
    requires Qualifies(products, row)
  {
    var product := products[row.productId];
    Entry(loc.lower(product.name), Row(product.name, product.url, row))
  }

  function Entries(loc: Locale, products: map<string, Product>, prices: seq<PriceRow>): seq<Entry> {
    if prices == [] then []
    else
      Entries(loc, products, prices[..|prices| - 1])
      + (if Qualifies(products, prices[|prices| - 1]) then [EntryOf(loc, products, prices[|prices| - 1])] else [])
  }

  /** Every qualifying row of a sequence of groups, in download order. */
  function Scan(loc: Locale, groups: seq<Group>): seq<Entry> {
    if groups == [] then []
    else
      var g := groups[|groups| - 1];
      Scan(loc, groups[..|groups| - 1]) + Entries(loc, Products(loc, g.products), g.prices)
  }

  function FirstWithKey(entries: seq<Entry>, key: string): Option<Row> {
    if entries == [] then None
    else if entries[0].key == key then Some(entries[0].row)
    else FirstWithKey(entries[1..], key)
  }

  predicate HasAll(key: string, tokens: seq<string>) {
    forall t :: t in tokens ==> Contains(key, t)
  }

  function FirstWithTokens(entries: seq<Entry>, tokens: seq<string>): Option<Row> {
    if entries == [] then None
    else if HasAll(entries[0].key, tokens) then Some(entries[0].row)
    else FirstWithTokens(entries[1..], tokens)
  }

  function Query(loc: Locale, query: string): string {
    Strip(loc.lower(query), loc.space)
  }

  /** The answer a linear scan of every downloaded row would give. */
  function ScanLookup(loc: Locale, entries: seq<Entry>, query: string): Option<Row> {
    if query == "" then None
    else
      var q := Query(loc, query);
      var exact := FirstWithKey(entries, q);
      if exact.Some? then exact
      else
        var tokens := Words(q, loc.space);
        if tokens == [] then None else FirstWithTokens(entries, tokens)
  }

  // ---- What the references say ------------------------------------------------------------------------------

  /** Row i is the last of its (non-empty) product id. */
  predicate IsLastOf(rows: seq<ProductRow>, id: string, i: int) {
    id != "" && 0 <= i < |rows| && rows[i].productId == id && forall j :: i < j < |rows| ==> rows[j].productId != id
  }

  /** A product id is known by its last row, under its trimmed name; rows without an id are none. */
  lemma {:induction false} ProductsAre(loc: Locale, rows: seq<ProductRow>, id: string)
    ensures id in Products(loc, rows) <==> exists i :: IsLastOf(rows, id, i)
    ensures forall i :: IsLastOf(rows, id, i) ==> Products(loc, rows)[id] == Product(Strip(rows[i].name, loc.space), rows[i].url)
  {
    if rows != [] {
      var last := |rows| - 1;
      ProductsAre(loc, rows[..last], id);
      if rows[last].productId == id && id != "" {
        assert IsLastOf(rows, id, last);
      } else {
        forall i ensures IsLastOf(rows, id, i) <==> IsLastOf(rows[..last], id, i) {
          if IsLastOf(rows[..last], id, i) {
            assert forall j :: i < j < last ==> rows[j] == rows[..last][j];
          }
          if IsLastOf(rows, id, i) {
            assert forall j :: i < j < last ==> rows[..last][j] == rows[j];
          }
        }
      }
    }
  }

  lemma {:induction false} EntriesParts(loc: Locale, products: map<string, Product>, a: seq<PriceRow>, b: seq<PriceRow>)
    ensures Entries(loc, products, a + b) == Entries(loc, products, a) + Entries(loc, products, b)
    decreases |b|
  {
    if b == [] {
      assert a + b == a;
    } else {
      assert (a + b)[..|a + b| - 1] == a + b[..|b| - 1];
      EntriesParts(loc, products, a, b[..|b| - 1]);
    }
  }

  /**
  The entries of a group follow its price rows: rows of a known product with a name give one, keyed by the name in
  lower case, with the product's name and url and the row's prices; the others give none.
  */
  lemma EntriesFollowRows(loc: Locale, products: map<string, Product>, before: seq<PriceRow>, row: PriceRow, after: seq<PriceRow>)
    ensures Entries(loc, products, before + [row] + after)
         == Entries(loc, products, before)
            + (if row.productId != "" && row.productId in products && products[row.productId].name != ""
               then [Entry(loc.lower(products[row.productId].name), Row(products[row.productId].name, products[row.productId].url, row))]
               else [])
            + Entries(loc, products, after)
  {
    EntriesParts(loc, products, before + [row], after);
    EntriesParts(loc, products, before, [row]);
    assert [row][..0] == [];
    assert Entries(loc, products, []) == [];
  }

  lemma {:induction false} ScanParts(loc: Locale, a: seq<Group>, b: seq<Group>)
    ensures Scan(loc, a + b) == Scan(loc, a) + Scan(loc, b)
    decreases |b|
  {
    if b == [] {
      assert a + b == a;
    } else {
      assert (a + b)[..|a + b| - 1] == a + b[..|b| - 1];
      ScanParts(loc, a, b[..|b| - 1]);
    }
  }

  /** A query is looked up by the tidy inner part of its lower-case form, and cut into the words of that. */
  lemma QueryIs(loc: Locale, query: string)
    ensures Tidy(Query(loc, query), loc.space)
    ensures exists i, j :: IsInner(loc.lower(query), Query(loc, query), i, j, loc.space)
    ensures AreWords(Query(loc, query), Words(Query(loc, query), loc.space), loc.space)
  {
    StripIs(loc.lower(query), loc.space);
    WordsAre(Query(loc, query), loc.space);
  }

  // ---- The index: a dict in insertion order, first write wins --------------------------------------

  datatype Index = Index(order: seq<string>, rows: map<string, Row>)

  function Put(index: Index, e: Entry): Index {
    if e.key in index.rows then index else Index(index.order + [e.key], index.rows[e.key := e.row])
  }

  function PutAll(index: Index, entries: seq<Entry>): Index {
    if entries == [] then index else Put(PutAll(index, entries[..|entries| - 1]), entries[|entries| - 1])
  }

  /** The index lists each key once, at its first entry, with that entry's row. */
  ghost predicate IndexOf(index: Index, entries: seq<Entry>) {
    && (forall k :: k in index.rows <==> FirstWithKey(entries, k).Some?)
    && (forall k :: k in index.rows ==> FirstWithKey(entries, k) == Some(index.rows[k]))
    && (forall k :: k in index.order <==> k in index.rows)
    && (forall tokens :: FirstWithTokens(entries, tokens) == FirstInOrder(index.order, index.rows, tokens))
  }

  function FirstInOrder(order: seq<string>, rows: map<string, Row>, tokens: seq<string>): Option<Row> {
    if order == [] then None
    else if order[0] in rows && HasAll(order[0], tokens) then Some(rows[order[0]])
    else FirstInOrder(order[1..], rows, tokens)
  }

  class NameIndex {
    var order: seq<string>
    var rows: map<string, Row>

    function State(): Index
      reads this
    {
      Index(order, rows)
    }

    constructor ()
      ensures State() == Index([], map[])
    {
      order, rows := [], map[];
    }

    /** `_merge_group`: the group's qualifying price rows, in order, each key written once. */
    method MergeGroup(loc: Locale, g: Group)
      modifies this
      ensures State() == PutAll(old(State()), Entries(loc, Products(loc, g.products), g.prices))
    {
      var products: map<string, Product> := map[];
      for i := 0 to |g.products|
        invariant products == Products(loc, g.products[..i])
      {
        assert g.products[..i + 1][..i] == g.products[..i];
        var row := g.products[i];
        if row.productId == "" {
          continue;
        }
        products := products[row.productId := Product(Strip(row.name, loc.space), row.url)];
      }
      assert g.products[..|g.products|] == g.products;
      ghost var before := State();
      for i := 0 to |g.prices|
        invariant State() == PutAll(before, Entries(loc, products, g.prices[..i]))
      {
        assert g.prices[..i + 1][..i] == g.prices[..i];
        var row := g.prices[i];
        if row.productId == "" || row.productId !in products || products[row.productId].name == "" {
          assert Entries(loc, products, g.prices[..i + 1]) == Entries(loc, products, g.prices[..i]);
          continue;
        }
        ghost var e := EntryOf(loc, products, row);
        PutSnoc(before, Entries(loc, products, g.prices[..i]), e);
        var product := products[row.productId];
        var key := loc.lower(product.name);
        if key in rows {
          continue;
        }
        order, rows := order + [key], rows[key := Row(product.name, product.url, row)];
      }
      assert g.prices[..|g.prices|] == g.prices;
    }
  }

  lemma PutSnoc(index: Index, entries: seq<Entry>, e: Entry)
    ensures PutAll(index, entries + [e]) == Put(PutAll(index, entries), e)
  {
    assert (entries + [e])[..|entries|] == entries;
  }

  class Cache {
    var loadedAt: Time
    var byName: Index

    constructor ()
      ensures loadedAt == 0.0 && byName == Index([], map[])
    {
      loadedAt, byName := 0.0, Index([], map[]);
    }

    predicate Fresh(now: Time)
      reads this
    {
      byName.order != [] && now - loadedAt < CACHE_TTL
    }

    method Lookup(loc: Locale, query: string) returns (row: Option<Row>)
      ensures row == IndexLookup(loc, byName, query)
    {
      if query == "" {
        return None;
      }
      var q := Query(loc, query);
      if q in byName.rows {
        return Some(byName.rows[q]);
      }
      var tokens := Words(q, loc.space);
      if tokens == [] {
        return None;
      }
      for i := 0 to |byName.order|
        invariant FirstInOrder(byName.order, byName.rows, tokens) == FirstInOrder(byName.order[i..], byName.rows, tokens)
      {
        var name := byName.order[i];
        if name in byName.rows && HasAll(name, tokens) {
          return Some(byName.rows[name]);
        }
      }
      row := None;
    }

    /**
    The end of a load: swap a non-empty index in, or keep the old one and set the clock back. So the
    five-minute back-off after an empty load works only while an older index is there to serve.
    */
    method FinishLoad(loaded: Index, now: Time)
      modifies this
      ensures loaded.order == [] ==> byName == old(byName) && loadedAt == now - CACHE_TTL + BACK_OFF
      ensures loaded.order != [] ==> byName == loaded && loadedAt == now
      ensures forall later :: Fresh(later) <==>
                byName.order != [] && later < now + (if loaded.order == [] then 300.0 else 21_600.0)
    {
      if loaded.order == [] {
        loadedAt := now - CACHE_TTL + BACK_OFF;
        return;
      }
      byName, loadedAt := loaded, now;
    }
  }

  function IndexLookup(loc: Locale, index: Index, query: string): Option<Row> {
    if query == "" then None
    else
      var q := Query(loc, query);
      if q in index.rows then Some(index.rows[q])
      else
        var tokens := Words(q, loc.space);
        if tokens == [] then None else FirstInOrder(index.order, index.rows, tokens)
  }

  // ---- The index is a linear scan ----------------------------------------------------------------------

  function Load(loc: Locale, groups: seq<Group>): Index {
    if groups == [] then Index([], map[])
    else
      var g := groups[|groups| - 1];
      PutAll(Load(loc, groups[..|groups| - 1]), Entries(loc, Products(loc, g.products), g.prices))
  }

  lemma {:induction false} FirstSnoc(entries: seq<Entry>, e: Entry, key: string, tokens: seq<string>)
    ensures FirstWithKey(entries + [e], key)
         == if FirstWithKey(entries, key).Some? then FirstWithKey(entries, key) else if e.key == key then Some(e.row) else None
    ensures FirstWithTokens(entries + [e], tokens)
         == if FirstWithTokens(entries, tokens).Some? then FirstWithTokens(entries, tokens)
            else if HasAll(e.key, tokens) then Some(e.row) else None
    ensures FirstWithTokens(entries, tokens).None? && FirstWithKey(entries, e.key).Some? ==> !HasAll(e.key, tokens)
  {
    if entries != [] {
      assert (entries + [e])[1..] == entries[1..] + [e];
      FirstSnoc(entries[1..], e, key, tokens);
    }
  }

  lemma {:induction false} OrderSnoc(order: seq<string>, rows: map<string, Row>, key: string, row: Row, tokens: seq<string>)
    requires key !in order && forall k :: k in order ==> k in rows
    ensures FirstInOrder(order + [key], rows[key := row], tokens)
         == if FirstInOrder(order, rows, tokens).Some? then FirstInOrder(order, rows, tokens)
            else if HasAll(key, tokens) then Some(row) else None
  {
    if order != [] {
      assert (order + [key])[1..] == order[1..] + [key];
      OrderSnoc(order[1..], rows, key, row, tokens);
    }
  }

  lemma PutKeepsIndex(index: Index, entries: seq<Entry>, e: Entry)
    requires IndexOf(index, entries)
    ensures IndexOf(Put(index, e), entries + [e])
  {
    forall key
      ensures FirstWithKey(entries + [e], key)
           == if FirstWithKey(entries, key).Some? then FirstWithKey(entries, key) else if e.key == key then Some(e.row) else None
    {
      FirstSnoc(entries, e, key, []);
    }
    var after := Put(index, e);
    forall tokens ensures FirstWithTokens(entries + [e], tokens) == FirstInOrder(after.order, after.rows, tokens) {
      FirstSnoc(entries, e, e.key, tokens);
      if e.key !in index.rows {
        OrderSnoc(index.order, index.rows, e.key, e.row, tokens);
      }
    }
  }

  lemma {:induction false} PutAllKeepsIndex(index: Index, entries: seq<Entry>, more: seq<Entry>)
    requires IndexOf(index, entries)
    ensures IndexOf(PutAll(index, more), entries + more)
  {
    if more == [] {
      assert entries + more == entries;
    } else {
      var init, last := more[..|more| - 1], more[|more| - 1];
      PutAllKeepsIndex(index, entries, init);
      PutKeepsIndex(PutAll(index, init), entries + init, last);
      assert entries + init + [last] == entries + more;
    }
  }

  /**
  The index is a linear scan: after any sequence of merged groups, each key holds the first qualifying
  price row in download order, and the keys stand in the order of those rows.
  */
  lemma {:induction false} LoadIsScan(loc: Locale, groups: seq<Group>)
    ensures IndexOf(Load(loc, groups), Scan(loc, groups))
  {
    if groups == [] {
      assert IndexOf(Index([], map[]), []);
    } else {
      var g := groups[|groups| - 1];
      LoadIsScan(loc, groups[..|groups| - 1]);
      PutAllKeepsIndex(Load(loc, groups[..|groups| - 1]), Scan(loc, groups[..|groups| - 1]),
                       Entries(loc, Products(loc, g.products), g.prices));
    }
  }

  /** So a lookup answers what scanning every downloaded row would, exact match first. */
  lemma LookupIsScan(loc: Locale, groups: seq<Group>, query: string)
    ensures IndexLookup(loc, Load(loc, groups), query) == ScanLookup(loc, Scan(loc, groups), query)
  {
    LoadIsScan(loc, groups);
  }

  lemma {:induction false} FirstInOrderIs(order: seq<string>, rows: map<string, Row>, tokens: seq<string>)
    requires forall k :: k in order ==> k in rows
    ensures
      var found := FirstInOrder(order, rows, tokens);
      && (found.None? <==> forall k :: k in order ==> !HasAll(k, tokens))
      && (found.Some? ==> exists k :: k in order && HasAll(k, tokens) && rows[k] == found.value)
  {
    if order != [] {
      FirstInOrderIs(order[1..], rows, tokens);
      assert order == [order[0]] + order[1..];
    }
  }

  lemma {:induction false} KeysAreNotEmpty(loc: Locale, groups: seq<Group>)
    requires SaneLocale(loc)
    ensures FirstWithKey(Scan(loc, groups), "").None?
  {
    if groups != [] {
      var g := groups[|groups| - 1];
      KeysAreNotEmpty(loc, groups[..|groups| - 1]);
      EntriesHaveKeys(loc, Scan(loc, groups[..|groups| - 1]), Products(loc, g.products), g.prices);
    }
  }

  lemma {:induction false} EntriesHaveKeys(loc: Locale, before: seq<Entry>, products: map<string, Product>, prices: seq<PriceRow>)
    requires SaneLocale(loc) && FirstWithKey(before, "").None?
    ensures FirstWithKey(before + Entries(loc, products, prices), "").None?
  {
    if prices == [] {
      assert before + [] == before;
    } else {
      var init, last := prices[..|prices| - 1], prices[|prices| - 1];
      EntriesHaveKeys(loc, before, products, init);
      if Qualifies(products, last) {
        FirstSnoc(before + Entries(loc, products, init), EntryOf(loc, products, last), "", []);
        assert before + Entries(loc, products, init) + [EntryOf(loc, products, last)] == before + Entries(loc, products, prices);
      } else {
        assert Entries(loc, products, prices) == Entries(loc, products, init);
      }
    }
  }

  /**
  What `lookup` finds, in the index of any sequence of groups: None exactly when the query is blank or no
  key contains every token of it; otherwise the row of a key that contains them all, exact hits included.
  */
  lemma LookupFindsTokens(loc: Locale, groups: seq<Group>, query: string)
    requires SaneLocale(loc)
    ensures
      var index, tokens := Load(loc, groups), Words(Query(loc, query), loc.space);
      var found := IndexLookup(loc, index, query);
      && (found.None? <==> tokens == [] || forall k :: k in index.rows ==> !HasAll(k, tokens))
      && (found.Some? ==> exists k :: k in index.rows && HasAll(k, tokens) && index.rows[k] == found.value)
  {
    var index, q := Load(loc, groups), Query(loc, query);
    LoadIsScan(loc, groups);
    KeysAreNotEmpty(loc, groups);
    StripIsTidy(loc.lower(query), loc.space);
    WordsAreInside(q, loc.space);
    FirstInOrderIs(index.order, index.rows, Words(q, loc.space));
    if q in index.rows {
      assert HasAll(q, Words(q, loc.space));
      assert q != "" && !loc.space(q[0]) && q[0] in q;
    }
  }

  /** Key i is the earliest that contains all the tokens. */
  predicate IsEarliest(order: seq<string>, tokens: seq<string>, i: int) {
    0 <= i < |order| && HasAll(order[i], tokens) && forall j :: 0 <= j < i ==> !HasAll(order[j], tokens)
  }

  lemma {:induction false} FirstInOrderIsEarliest(order: seq<string>, rows: map<string, Row>, tokens: seq<string>, i: int)
    requires (forall k :: k in order ==> k in rows) && IsEarliest(order, tokens, i)
    ensures FirstInOrder(order, rows, tokens) == Some(rows[order[i]])
  {
    if i > 0 {
      assert forall j :: 0 <= j < i - 1 ==> order[1..][j] == order[j + 1];
      FirstInOrderIsEarliest(order[1..], rows, tokens, i - 1);
    }
  }

  /** Which row a lookup finds: the exact hit's, and without one that of the earliest key containing every token. */
  lemma LookupPrefersExactThenEarliest(loc: Locale, groups: seq<Group>, query: string)
    requires query != ""
    ensures
      var index, q := Load(loc, groups), Query(loc, query);
      && (q in index.rows ==> IndexLookup(loc, index, query) == Some(index.rows[q]))
      && (q !in index.rows && Words(q, loc.space) != [] ==>
            forall i :: IsEarliest(index.order, Words(q, loc.space), i) ==>
              index.order[i] in index.rows && IndexLookup(loc, index, query) == Some(index.rows[index.order[i]]))
  {
    var index, q := Load(loc, groups), Query(loc, query);
    LoadIsScan(loc, groups);
    forall i | IsEarliest(index.order, Words(q, loc.space), i)
      ensures FirstInOrder(index.order, index.rows, Words(q, loc.space)) == Some(index.rows[index.order[i]])
    {
      FirstInOrderIsEarliest(index.order, index.rows, Words(q, loc.space), i);
    }
  }
}
