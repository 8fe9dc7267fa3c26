/** The population chart's data: country metadata, and the latest record of each country. */
module Population {
  import opened Wrappers

  // ----- Countries -----

  /** A country record as the fetched JSON gives it; empty texts stand for missing ones. */
  datatype RawCountry = RawCountry(
    id: string, regionId: string, name: string, region: string, latitude: Option<real>, longitude: Option<real>)

  datatype Country = Country(name: string, region: string, position: Option<(real, real)>)

  /** World Bank aggregates carry the region "NA". */
  predicate RealCountry(r: RawCountry) {
    r.id != "" && r.regionId != "NA"
  }

  function CountryOf(r: RawCountry): Country {
    Country(if r.name == "" then r.id else r.name,
            if r.region == "" then "Unknown" else r.region,
            match (r.latitude, r.longitude)
            case (Some(lat), Some(lon)) => Some((lat, lon))
            case _ => None)
  }

  /** A missing name falls back to the code and a missing region to "Unknown"; a position needs
      both coordinates, latitude first. */
  lemma CountryFields(r: RawCountry)
    ensures r.name != "" ==> CountryOf(r).name == r.name
    ensures r.name == "" ==> CountryOf(r).name == r.id
    ensures r.region != "" ==> CountryOf(r).region == r.region
    ensures r.region == "" ==> CountryOf(r).region == "Unknown"
    ensures CountryOf(r).position.Some? <==> r.latitude.Some? && r.longitude.Some?
    ensures CountryOf(r).position.Some? ==>
              CountryOf(r).position.value.0 == r.latitude.value && CountryOf(r).position.value.1 == r.longitude.value
  {
  }

  predicate Describes(r: RawCountry, id: string) {
    RealCountry(r) && r.id == id
  }

  /** c is how the last of the first n records about the country describes it. */
  ghost predicate LastDescription(records: seq<RawCountry>, n: nat, id: string, c: Country)
    requires n <= |records|
  {
    exists i :: 0 <= i < n && Describes(records[i], id) && c == CountryOf(records[i])
             && forall k :: i < k < n ==> !Describes(records[k], id)
  }

  /** The table knows a country exactly when some record describes it, as the last one does. */
  ghost predicate KnowsCountry(countries: map<string, Country>, records: seq<RawCountry>, n: nat, id: string)
    requires n <= |records|
  {
    && (id in countries <==> exists i :: 0 <= i < n && Describes(records[i], id))
    && (id in countries ==> LastDescription(records, n, id, countries[id]))
  }

  lemma OtherCountryKept(countries: map<string, Country>, next: map<string, Country>,
                         records: seq<RawCountry>, n: nat, id: string)
    requires n < |records| && KnowsCountry(countries, records, n, id) && !Describes(records[n], id)
    requires (id in next <==> id in countries) && (id in countries ==> next[id] == countries[id])
    ensures KnowsCountry(next, records, n + 1, id)
  {
    hide CountryOf, RealCountry;
    if id in countries {
      var i :| 0 <= i < n && Describes(records[i], id) && countries[id] == CountryOf(records[i])
               && forall k :: i < k < n ==> !Describes(records[k], id);
      assert LastDescription(records, n + 1, id, countries[id]);
    }
  }

  lemma DescribedCountryKnown(next: map<string, Country>, records: seq<RawCountry>, n: nat, id: string)
    requires n < |records| && Describes(records[n], id)
    requires id in next && next[id] == CountryOf(records[n])
    ensures KnowsCountry(next, records, n + 1, id)
  {
    assert LastDescription(records, n + 1, id, next[id]);
  }

  /** Exactly the real countries, each as its last record describes it. */
  method LoadCountryMetadata(records: seq<RawCountry>) returns (countries: map<string, Country>)
    ensures forall id :: KnowsCountry(countries, records, |records|, id)
  {
    countries := map[];
    for n := 0 to |records|
      invariant forall id :: KnowsCountry(countries, records, n, id)
    {
      var r := records[n];
      ghost var (before, m) := (countries, n + 1);
      if r.id != "" && r.regionId != "NA" {
        countries := countries[r.id := CountryOf(r)];
      }
      forall id
        ensures KnowsCountry(countries, records, m, id)
      {
        if Describes(r, id) {
          DescribedCountryKnown(countries, records, n, id);
        } else {
          OtherCountryKept(before, countries, records, n, id);
        }
      }
      hide KnowsCountry;
    }
  }

  // ----- Population records -----

  /** A value field: null, not a number, too large for a float, or a rounded count. */
  datatype Reading = Null | Unreadable | Infinite | Count(n: int)

  /** A date field: missing or not a number, an infinite number, or a year. */
  datatype Dating = Undated | Endless | Year(value: int)

  datatype Record = Record(iso3: string, value: Reading, year: Dating)

  datatype Item = Item(iso3: string, country: Country, population: int, year: int)

  predicate Usable(r: Record, countries: map<string, Country>) {
    r.iso3 in countries && r.value.Count? && r.year.Year?
  }

  /** Converting an infinite number to an integer raises an error the loop does not catch: an
      infinite date of a known country's value, or after a proper date an infinite value. */
  predicate Raises(r: Record, countries: map<string, Country>) {
    && r.iso3 in countries && !r.value.Null?
    && (r.year.Endless? || (r.year.Year? && r.value.Infinite?))
  }

  function ItemOf(r: Record, countries: map<string, Country>): Item
    requires Usable(r, countries)
  {
    Item(r.iso3, countries[r.iso3], r.value.n, r.year.value)
  }

  /** A usable record about the country. */
  predicate About(r: Record, countries: map<string, Country>, iso3: string) {
    Usable(r, countries) && r.iso3 == iso3
  }

  /** Among the first n records, i is the first about the country with the greatest year. */
  ghost predicate FirstLatest(records: seq<Record>, n: nat, countries: map<string, Country>, i: int, iso3: string)
    requires n <= |records|
  {
    && 0 <= i < n && About(records[i], countries, iso3)
    && forall k :: 0 <= k < n && About(records[k], countries, iso3) ==>
         records[k].year.value <= records[i].year.value
         && (k < i ==> records[k].year.value < records[i].year.value)
  }

  ghost predicate HasUsable(records: seq<Record>, n: nat, countries: map<string, Country>, iso3: string)
    requires n <= |records|
  {
    exists i :: 0 <= i < n && About(records[i], countries, iso3)
  }

  /** The table has the country exactly when a usable record is about it, and then holds the
      first record of the latest year. */
  ghost predicate Holds(latest: map<string, Item>, records: seq<Record>, n: nat,
                        countries: map<string, Country>, iso3: string)
    requires n <= |records|
  {
    && (iso3 in latest <==> HasUsable(records, n, countries, iso3))
    && (iso3 in latest ==>
          exists i :: FirstLatest(records, n, countries, i, iso3) && latest[iso3] == ItemOf(records[i], countries))
  }

  ghost predicate HoldsLatest(latest: map<string, Item>, records: seq<Record>, n: nat,
                              countries: map<string, Country>)
    requires n <= |records|
  {
    forall iso3 :: Holds(latest, records, n, countries, iso3)
  }

  /** The table after one usable record: it enters when its country is new or its year is
      strictly later. */
  function Updated(latest: map<string, Item>, r: Record, countries: map<string, Country>): map<string, Item>
    requires Usable(r, countries)
  {
    if r.iso3 !in latest || r.year.value > latest[r.iso3].year
    then latest[r.iso3 := ItemOf(r, countries)] else latest
  }

  lemma OtherCountryStep(latest: map<string, Item>, next: map<string, Item>, records: seq<Record>, n: nat,
                         countries: map<string, Country>, iso3: string)
    requires n < |records| && Holds(latest, records, n, countries, iso3)
    requires !About(records[n], countries, iso3)
    requires (iso3 in next <==> iso3 in latest) && (iso3 in latest ==> next[iso3] == latest[iso3])
    ensures Holds(next, records, n + 1, countries, iso3)
  {
    if iso3 in latest {
      var i := Witness(latest, records, n, countries, iso3);
      assert FirstLatest(records, n + 1, countries, i, iso3);
      HoldsAt(next, records, n + 1, countries, i, iso3);
    }
  }

  lemma SameCountryStep(latest: map<string, Item>, records: seq<Record>, n: nat, countries: map<string, Country>)
    requires n < |records| && Usable(records[n], countries)
    requires Holds(latest, records, n, countries, records[n].iso3)
    ensures Holds(Updated(latest, records[n], countries), records, n + 1, countries, records[n].iso3)
  {
    var iso3 := records[n].iso3;
    assert About(records[n], countries, iso3);
    if iso3 in latest {
      var i: nat := Witness(latest, records, n, countries, iso3);
      hide Holds, HasUsable;
      StaysOrYields(records, n, countries, i, iso3);
      HoldsAt(Updated(latest, records[n], countries), records, n + 1, countries,
              if records[n].year.value > records[i].year.value then n else i, iso3);
    } else {
      NobodyBefore(records, n, countries, iso3);
      hide Holds, HasUsable;
      HoldsAt(Updated(latest, records[n], countries), records, n + 1, countries, n, iso3);
    }
  }

  /** Of the first latest so far and one more record, the later year is first latest; a tie
      leaves the earlier record. */
  lemma StaysOrYields(records: seq<Record>, n: nat, countries: map<string, Country>, i: nat, iso3: string)
    requires n < |records| && About(records[n], countries, iso3)
    requires FirstLatest(records, n, countries, i, iso3)
    ensures FirstLatest(records, n + 1, countries,
                        if records[n].year.value > records[i].year.value then n else i, iso3)
  {
  }

  lemma NobodyBefore(records: seq<Record>, n: nat, countries: map<string, Country>, iso3: string)
    requires n < |records| && About(records[n], countries, iso3)
    requires !HasUsable(records, n, countries, iso3)
    ensures FirstLatest(records, n + 1, countries, n, iso3)
  {
  }

  lemma HoldsAt(latest: map<string, Item>, records: seq<Record>, n: nat, countries: map<string, Country>,
                i: nat, iso3: string)
    requires n <= |records| && FirstLatest(records, n, countries, i, iso3)
    requires iso3 in latest && latest[iso3] == ItemOf(records[i], countries)
    ensures Holds(latest, records, n, countries, iso3)
  {
    assert HasUsable(records, n, countries, iso3);
  }

  lemma SkipKeeps(latest: map<string, Item>, records: seq<Record>, n: nat, countries: map<string, Country>)
    requires n < |records| && HoldsLatest(latest, records, n, countries) && !Usable(records[n], countries)
    ensures HoldsLatest(latest, records, n + 1, countries)
  {
    hide Holds;
    var m := n + 1;
    forall iso3
      ensures Holds(latest, records, m, countries, iso3)
    {
      OtherCountryStep(latest, latest, records, n, countries, iso3);
    }
  }

  lemma UpdateKeeps(latest: map<string, Item>, records: seq<Record>, n: nat, countries: map<string, Country>)
    requires n < |records| && HoldsLatest(latest, records, n, countries) && Usable(records[n], countries)
    ensures HoldsLatest(Updated(latest, records[n], countries), records, n + 1, countries)
  {
    hide Holds;
    var (next, m) := (Updated(latest, records[n], countries), n + 1);
    forall iso3
      ensures Holds(next, records, m, countries, iso3)
    {
      if iso3 == records[n].iso3 {
        SameCountryStep(latest, records, n, countries);
      } else {
        OtherCountryStep(latest, next, records, n, countries, iso3);
      }
    }
  }

  // ----- The sorted result -----

  /** Insert into a list in non-increasing population, after its equals. */
  function Insert(items: seq<Item>, x: Item): seq<Item> {
    if items == [] || items[|items| - 1].population >= x.population then items + [x]
    else Insert(items[..|items| - 1], x) + [items[|items| - 1]]
  }

  /** A stable sort by descending population. */
  function SortDescending(items: seq<Item>): seq<Item> {
    if items == [] then [] else Insert(SortDescending(items[..|items| - 1]), items[|items| - 1])
  }

  predicate Descending(items: seq<Item>) {
    forall i, k :: 0 <= i < k < |items| ==> items[i].population >= items[k].population
  }

  /** The items of one population, in order. */
  function Having(items: seq<Item>, population: int): seq<Item> {
    if items == [] then []
    else
      var last := items[|items| - 1];
      Having(items[..|items| - 1], population) + (if last.population == population then [last] else [])
  }

  lemma {:induction false} InsertStep(items: seq<Item>, x: Item)
    requires items != [] && items[|items| - 1].population < x.population
    ensures var (init, last) := (items[..|items| - 1], items[|items| - 1]);
            items == init + [last] && Insert(items, x) == Insert(init, x) + [last]
  {
    assert items == items[..|items| - 1] + [items[|items| - 1]];
  }

  lemma {:induction false} InsertKeepsItems(items: seq<Item>, x: Item)
    ensures multiset(Insert(items, x)) == multiset(items) + multiset{x}
    decreases |items|
  {
    if items != [] && items[|items| - 1].population < x.population {
      InsertStep(items, x);
      InsertKeepsItems(items[..|items| - 1], x);
    }
  }

  lemma {:induction false} InsertDescends(items: seq<Item>, x: Item, floor: int)
    requires Descending(items)
    requires forall i :: 0 <= i < |items| ==> items[i].population >= floor
    requires x.population >= floor
    ensures Descending(Insert(items, x))
    ensures forall i :: 0 <= i < |Insert(items, x)| ==> Insert(items, x)[i].population >= floor
    decreases |items|
  {
    if items != [] && items[|items| - 1].population < x.population {
      var last := items[|items| - 1];
      InsertStep(items, x);
      InsertDescends(items[..|items| - 1], x, last.population);
    }
  }

  lemma {:induction false} HavingLast(items: seq<Item>, x: Item, population: int)
    ensures Having(items + [x], population)
         == Having(items, population) + (if x.population == population then [x] else [])
  {
    assert (items + [x])[..|items|] == items;
  }

  lemma {:induction false} InsertIsStable(items: seq<Item>, x: Item, population: int)
    ensures Having(Insert(items, x), population) == Having(items + [x], population)
    decreases |items|
  {
    if items != [] && items[|items| - 1].population < x.population {
      var (init, last) := (items[..|items| - 1], items[|items| - 1]);
      InsertStep(items, x);
      InsertIsStable(init, x, population);
      HavingLast(Insert(init, x), last, population);
      HavingLast(init, x, population);
      HavingLast(init, last, population);
      HavingLast(items, x, population);
    }
  }

  /** Sorting keeps every item, orders by population, and leaves equals in their order. */
  lemma {:induction false} SortDescendingSorts(items: seq<Item>)
    ensures Descending(SortDescending(items))
    ensures multiset(SortDescending(items)) == multiset(items)
    decreases |items|
  {
    if items != [] {
      var (init, last) := (items[..|items| - 1], items[|items| - 1]);
      assert items == init + [last];
      SortDescendingSorts(init);
      var sorted := SortDescending(init);
      InsertKeepsItems(sorted, last);
      var floor := if sorted == [] || last.population < sorted[|sorted| - 1].population
                   then last.population else sorted[|sorted| - 1].population;
      InsertDescends(sorted, last, floor);
    }
  }

  lemma {:induction false} SortDescendingIsStable(items: seq<Item>, population: int)
    ensures Having(SortDescending(items), population) == Having(items, population)
    decreases |items|
  {
    if items != [] {
      var (init, last) := (items[..|items| - 1], items[|items| - 1]);
      assert items == init + [last];
      SortDescendingIsStable(init, population);
      InsertIsStable(SortDescending(init), last, population);
      HavingLast(SortDescending(init), last, population);
      HavingLast(init, last, population);
    }
  }

  /** The items a table holds, in the order its keys were first inserted. */
  function ItemsInOrder(keys: seq<string>, latest: map<string, Item>): (items: seq<Item>)
    requires forall i :: 0 <= i < |keys| ==> keys[i] in latest
    ensures |items| == |keys|
    ensures forall i :: 0 <= i < |keys| ==> items[i] == latest[keys[i]]
  {
    seq(|keys|, i requires 0 <= i < |keys| => latest[keys[i]])
  }

  /** The countries of the first n records that have a usable one, as they first appear. */
  function FirstSeen(records: seq<Record>, n: nat, countries: map<string, Country>): seq<string>
    requires n <= |records|
  {
    if n == 0 then []
    else
      var (before, r) := (FirstSeen(records, n - 1, countries), records[n - 1]);
      if Usable(r, countries) && r.iso3 !in before then before + [r.iso3] else before
  }

  /** Of two listed countries the earlier one has a usable record before any of the later one. */
  lemma {:induction false} SeenInOrder(records: seq<Record>, n: nat, countries: map<string, Country>, i: nat, k: nat)
    requires n <= |records| && i < k < |FirstSeen(records, n, countries)|
    ensures exists p :: 0 <= p < n && About(records[p], countries, FirstSeen(records, n, countries)[i])
                        && forall q :: 0 <= q <= p ==>
                             !About(records[q], countries, FirstSeen(records, n, countries)[k])
    decreases n
  {
    var (before, now) := (FirstSeen(records, n - 1, countries), FirstSeen(records, n, countries));
    if k < |before| {
      SeenInOrder(records, n - 1, countries, i, k);
    } else {
      SeenHasRecord(records, n - 1, countries, i);
      var p :| 0 <= p < n - 1 && About(records[p], countries, now[i]);
      forall q | 0 <= q <= p
        ensures !About(records[q], countries, now[k])
      {
        if About(records[q], countries, now[k]) {
          RecordIsSeen(records, n - 1, countries, q);
        }
      }
    }
  }

  lemma {:induction false} SeenHasRecord(records: seq<Record>, n: nat, countries: map<string, Country>, i: nat)
    requires n <= |records| && i < |FirstSeen(records, n, countries)|
    ensures exists p :: 0 <= p < n && About(records[p], countries, FirstSeen(records, n, countries)[i])
    decreases n
  {
    var before := FirstSeen(records, n - 1, countries);
    if i < |before| {
      SeenHasRecord(records, n - 1, countries, i);
    } else {
      assert About(records[n - 1], countries, FirstSeen(records, n, countries)[i]);
    }
  }

  lemma {:induction false} RecordIsSeen(records: seq<Record>, n: nat, countries: map<string, Country>, q: nat)
    requires q < n <= |records| && Usable(records[q], countries)
    ensures records[q].iso3 in FirstSeen(records, n, countries)
    decreases n
  {
    if q < n - 1 {
      RecordIsSeen(records, n - 1, countries, q);
    }
  }

  /** keys lists the table's keys, each once. */
  ghost predicate KeysOf(keys: seq<string>, table: map<string, Item>) {
    && (forall i :: 0 <= i < |keys| ==> keys[i] in table)
    && (forall k :: k in table ==> k in keys)
    && (forall i, k :: 0 <= i < k < |keys| ==> keys[i] != keys[k])
  }

  /** The finished list: each item of the table once and nothing else, in non-increasing
      population, items of equal population in the order their countries first appeared. */
  ghost predicate Lists(items: seq<Item>, keys: seq<string>, table: map<string, Item>) {
    && KeysOf(keys, table)
    && multiset(items) == multiset(ItemsInOrder(keys, table))
    && Descending(items)
    && forall p :: Having(items, p) == Having(ItemsInOrder(keys, table), p)
  }

  /** Raises (None) exactly when some record does.  Otherwise the result lists a table that
      holds, for each country with a usable record and no other, the first record of the
      latest year. */
  method LatestCountryPopulations(records: seq<Record>, countries: map<string, Country>)
    returns (result: Option<seq<Item>>, ghost keys: seq<string>, ghost latest: map<string, Item>)
    ensures result.None? <==> exists i :: 0 <= i < |records| && Raises(records[i], countries)
    ensures result.Some? ==> HoldsLatest(latest, records, |records|, countries)
    ensures result.Some? ==> Lists(result.value, keys, latest)
    ensures result.Some? ==> keys == FirstSeen(records, |records|, countries)
  {
    var table: map<string, Item> := map[];
    var order: seq<string> := [];
    keys, latest := order, table;
    hide HoldsLatest;
    NothingHeld(records, countries);
    for n := 0 to |records|
      invariant forall i :: 0 <= i < n ==> !Raises(records[i], countries)
      invariant HoldsLatest(table, records, n, countries)
      invariant KeysOf(order, table)
      invariant order == FirstSeen(records, n, countries)
    {
      var r := records[n];
      if r.iso3 !in countries || r.value.Null? {
        SkipKeeps(table, records, n, countries);
      } else if r.year.Endless? {
        assert Raises(records[n], countries);
        result := None;
        return;
      } else if r.year.Undated? || r.value.Unreadable? {
        SkipKeeps(table, records, n, countries);
      } else if r.value.Infinite? {
        assert Raises(records[n], countries);
        result := None;
        return;
      } else {
        UpdateKeeps(table, records, n, countries);
        if r.iso3 !in table || r.year.value > table[r.iso3].year {
          order := if r.iso3 !in table then order + [r.iso3] else order;
          table := table[r.iso3 := ItemOf(r, countries)];
        }
      }
    }
    keys, latest := order, table;
    result := Some(SortDescending(ItemsInOrder(order, table)));
    Sorted(order, table);
  }

  lemma NothingHeld(records: seq<Record>, countries: map<string, Country>)
    ensures HoldsLatest(map[], records, 0, countries)
  {
  }

  lemma Sorted(keys: seq<string>, table: map<string, Item>)
    requires KeysOf(keys, table)
    ensures Lists(SortDescending(ItemsInOrder(keys, table)), keys, table)
  {
    var items := ItemsInOrder(keys, table);
    SortDescendingSorts(items);
    forall p
      ensures Having(SortDescending(items), p) == Having(items, p)
    {
      SortDescendingIsStable(items, p);
    }
    hide SortDescending, Having, ItemsInOrder;
  }

  /** Such a list has one item per country of the table, under its own code. */
  lemma OneItemPerCountry(items: seq<Item>, keys: seq<string>, latest: map<string, Item>,
                          records: seq<Record>, countries: map<string, Country>)
    requires HoldsLatest(latest, records, |records|, countries) && Lists(items, keys, latest)
    ensures |items| == |latest|
    ensures forall x :: x in items <==> x.iso3 in latest && latest[x.iso3] == x
    ensures forall iso3 :: iso3 in latest ==> multiset(items)[latest[iso3]] == 1
  {
    ItemsNamed(latest, records, countries);
    var inOrder := ItemsInOrder(keys, latest);
    hide HoldsLatest, Having;
    assert |multiset(items)| == |multiset(inOrder)|;
    DistinctSize(keys);
    assert (set k | k in keys) == latest.Keys;
    forall x: Item
      ensures x in items <==> x.iso3 in latest && latest[x.iso3] == x
      ensures multiset(items)[x] <= 1
    {
      assert x in items <==> x in multiset(items);
      assert x in inOrder <==> x in multiset(inOrder);
      if x.iso3 in latest && latest[x.iso3] == x {
        var i :| 0 <= i < |keys| && keys[i] == x.iso3;
        assert inOrder[i] == x;
      }
      DistinctCounts(inOrder, x);
    }
    forall iso3 | iso3 in latest
      ensures multiset(items)[latest[iso3]] == 1
    {
      assert latest[iso3] in items;
      assert latest[iso3] in multiset(items);
    }
  }

  lemma {:induction false} DistinctSize(keys: seq<string>)
    requires forall i, k :: 0 <= i < k < |keys| ==> keys[i] != keys[k]
    ensures |set k | k in keys| == |keys|
    decreases |keys|
  {
    if keys != [] {
      var (init, last) := (keys[..|keys| - 1], keys[|keys| - 1]);
      DistinctSize(init);
      assert (set k | k in keys) == (set k | k in init) + {last};
    }
  }

  lemma {:induction false} DistinctCounts(items: seq<Item>, x: Item)
    requires forall i, k :: 0 <= i < k < |items| ==> items[i] != items[k]
    ensures multiset(items)[x] <= 1
    decreases |items|
  {
    if items != [] {
      var (init, last) := (items[..|items| - 1], items[|items| - 1]);
      assert items == init + [last];
      DistinctCounts(init, x);
      if x == last {
        assert x !in init;
        assert x !in multiset(init);
      }
    }
  }

  /** Items carry their own codes. */
  lemma ItemsNamed(latest: map<string, Item>, records: seq<Record>, countries: map<string, Country>)
    requires HoldsLatest(latest, records, |records|, countries)
    ensures forall k :: k in latest ==> latest[k].iso3 == k
  {
    forall k | k in latest
      ensures latest[k].iso3 == k
    {
      assert Holds(latest, records, |records|, countries, k);
    }
  }

  // ----- Order independence -----

  /** No two usable records share country and year. */
  ghost predicate DistinctYears(records: seq<Record>, countries: map<string, Country>) {
    forall i, k :: 0 <= i < k < |records| && Usable(records[i], countries) && Usable(records[k], countries) ==>
      records[i].iso3 != records[k].iso3 || records[i].year != records[k].year
  }

  lemma Position(a: seq<Record>, b: seq<Record>, i: nat) returns (k: nat)
    requires multiset(a) == multiset(b) && i < |a|
    ensures k < |b| && b[k] == a[i]
  {
    assert a[i] in multiset(a);
    assert a[i] in b;
    k :| k < |b| && b[k] == a[i];
  }

  lemma UsableMoves(a: seq<Record>, b: seq<Record>, countries: map<string, Country>, iso3: string)
    requires multiset(a) == multiset(b)
    ensures HasUsable(a, |a|, countries, iso3) ==> HasUsable(b, |b|, countries, iso3)
  {
    if i: nat :| i < |a| && About(a[i], countries, iso3) {
      var k := Position(a, b, i);
    }
  }

  lemma SameLatest(a: seq<Record>, b: seq<Record>, countries: map<string, Country>, iso3: string, i: nat, k: nat)
    requires multiset(a) == multiset(b) && DistinctYears(a, countries)
    requires FirstLatest(a, |a|, countries, i, iso3) && FirstLatest(b, |b|, countries, k, iso3)
    ensures a[i] == b[k]
  {
    var k' := Position(a, b, i);
    var i' := Position(b, a, k);
    assert About(a[i'], countries, iso3) && About(b[k'], countries, iso3);
    assert a[i'].year == a[i].year;
  }

  /** When no two usable records share country and year, the table does not depend on the
      order of the records. */
  lemma TableIgnoresOrder(a: seq<Record>, b: seq<Record>, countries: map<string, Country>,
                          s: map<string, Item>, t: map<string, Item>)
    requires multiset(a) == multiset(b) && DistinctYears(a, countries)
    requires HoldsLatest(s, a, |a|, countries) && HoldsLatest(t, b, |b|, countries)
    ensures s == t
  {
    hide DistinctYears, FirstLatest, HoldsLatest;
    forall iso3
      ensures iso3 in s <==> iso3 in t
      ensures iso3 in s && iso3 in t ==> s[iso3] == t[iso3]
    {
      Unfold(s, a, |a|, countries, iso3);
      Unfold(t, b, |b|, countries, iso3);
      UsableMoves(a, b, countries, iso3);
      UsableMoves(b, a, countries, iso3);
      hide HasUsable;
      if iso3 in s && iso3 in t {
        var i := Witness(s, a, |a|, countries, iso3);
        var k := Witness(t, b, |b|, countries, iso3);
        SameLatest(a, b, countries, iso3, i, k);
      }
    }
  }

  lemma Unfold(latest: map<string, Item>, records: seq<Record>, n: nat, countries: map<string, Country>, iso3: string)
    requires n <= |records| && HoldsLatest(latest, records, n, countries)
    ensures Holds(latest, records, n, countries, iso3)
  {
  }

  lemma Witness(latest: map<string, Item>, records: seq<Record>, n: nat, countries: map<string, Country>, iso3: string)
    returns (i: nat)
    requires n <= |records| && Holds(latest, records, n, countries, iso3) && iso3 in latest
    ensures i < n && About(records[i], countries, iso3) && FirstLatest(records, n, countries, i, iso3)
    ensures latest[iso3] == ItemOf(records[i], countries)
  {
    i :| FirstLatest(records, n, countries, i, iso3) && latest[iso3] == ItemOf(records[i], countries);
  }

  /** When two records do share country and year the order decides: the first one wins. */
  lemma OrderDecidesTies(country: Country, iso3: string, x: Record, y: Record)
    requires x == Record(iso3, Count(1), Year(2024)) && y == Record(iso3, Count(2), Year(2024))
    ensures var countries := map[iso3 := country];
            && multiset([x, y]) == multiset([y, x])
            && HoldsLatest(map[iso3 := ItemOf(x, countries)], [x, y], 2, countries)
            && HoldsLatest(map[iso3 := ItemOf(y, countries)], [y, x], 2, countries)
            && ItemOf(x, countries) != ItemOf(y, countries)
  {
    var countries := map[iso3 := country];
    TieGoesToFirst(country, x, y);
    TieGoesToFirst(country, y, x);
  }

  lemma TieGoesToFirst(country: Country, x: Record, y: Record)
    requires x.iso3 == y.iso3 && x.value.Count? && y.value.Count? && x.year == y.year && x.year.Year?
    ensures var countries := map[x.iso3 := country];
            HoldsLatest(map[x.iso3 := ItemOf(x, countries)], [x, y], 2, countries)
  {
    var countries := map[x.iso3 := country];
    var table := map[x.iso3 := ItemOf(x, countries)];
    var records := [x, y];
    assert records[0] == x && records[1] == y;
    assert About(records[0], countries, x.iso3);
    assert FirstLatest(records, 2, countries, 0, x.iso3);
    forall iso3
      ensures Holds(table, records, 2, countries, iso3)
    {
      if iso3 != x.iso3 {
        assert !About(records[0], countries, iso3) && !About(records[1], countries, iso3);
      }
    }
  }
}
