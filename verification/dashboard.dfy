/**
 * The dashboard overview (admin/app/dashboard/page.tsx): the two totals and
 * the histogram of businesses by city, folded from the `city` column with
 * empty and null cities counted under `Unknown`. The three database replies
 * are inputs.
 *
 * The histogram is modelled with the meaning the page evidently intends (a
 * dictionary from city to count). The source folds into a plain `{}` object,
 * whose inherited prototype properties break that meaning for a few city
 * names; `ReduceAsWritten` models that fold as written.
 */
module Dashboard {
  import opened Base

  const UnknownCity := "Unknown"

  datatype CityRow = CityRow(city: Option<string>)

  /** `row.city || 'Unknown'` */
  function Bucket(row: CityRow): (b: string)
    ensures b != ""
    ensures row.city.Some? && row.city.value != "" ==> b == row.city.value
    ensures row.city.None? || row.city == Some("") ==> b == "Unknown"
  {
    if row.city.Some? && row.city.value != "" then row.city.value else UnknownCity
  }

  /** How many rows fall in bucket `key`. */
  function Occurrences(rows: seq<CityRow>, key: string): nat
    decreases |rows|
  {
    if |rows| == 0 then 0
    else Occurrences(rows[..|rows| - 1], key) + (if Bucket(rows[|rows| - 1]) == key then 1 else 0)
  }

  predicate Distinct(keys: seq<string>)
  {
    forall i, j :: 0 <= i < j < |keys| ==> keys[i] != keys[j]
  }

  /** The counts of the listed keys added up. */
  function SumOver(counts: map<string, nat>, keys: seq<string>): nat
    decreases |keys|
  {
    if |keys| == 0 then 0
    else (if keys[0] in counts then counts[keys[0]] else 0) + SumOver(counts, keys[1..])
  }

  /** The histogram, with its keys in the order they were first seen (the
      order `Object.keys` lists them). */
  datatype Tally = Tally(counts: map<string, nat>, keys: seq<string>)

  /** `t` is the histogram of `rows`: its keys are listed once each, every
      row is counted once under its bucket, and every bucket present counts
      at least one row. */
  ghost predicate Describes(t: Tally, rows: seq<CityRow>)
  {
    && Distinct(t.keys)
    && (forall k :: k in t.counts <==> k in t.keys)
    && |t.counts| == |t.keys|
    && (forall k :: k in t.counts ==> t.counts[k] == Occurrences(rows, k) >= 1)
    && (forall k :: k !in t.counts ==> Occurrences(rows, k) == 0)
    && SumOver(t.counts, t.keys) == |rows|
  }

  /** One step of the fold: `acc[city] = (acc[city] || 0) + 1` on a
      dictionary. */
  function AddRow(t: Tally, b: string): Tally
  {
    if b in t.counts then Tally(t.counts[b := t.counts[b] + 1], t.keys)
    else Tally(t.counts[b := 1], t.keys + [b])
  }

  /** The `cityCounts` fold, row by row from the first. */
  function CityCounts(rows: seq<CityRow>): (t: Tally)
    ensures Describes(t, rows)
    ensures SumOver(t.counts, t.keys) == |rows|
    ensures forall k :: k in t.counts ==> t.counts[k] == Occurrences(rows, k) >= 1
    decreases |rows|
  {
    if |rows| == 0 then Tally(map[], [])
    else
      var prev := CityCounts(rows[..|rows| - 1]);
      AddRowDescribes(prev, rows);
      AddRow(prev, Bucket(rows[|rows| - 1]))
  }

  /** Counting the last row extends the histogram of the rows before it. */
  lemma AddRowDescribes(t: Tally, rows: seq<CityRow>)
    requires |rows| > 0 && Describes(t, rows[..|rows| - 1])
    ensures Describes(AddRow(t, Bucket(rows[|rows| - 1])), rows)
  {
    var b := Bucket(rows[|rows| - 1]);
    AddRowKeys(t, b);
    AddRowCounts(t, rows);
    AddRowSum(t, b);
  }

  lemma AddRowKeys(t: Tally, b: string)
    requires Distinct(t.keys)
    requires forall k :: k in t.counts <==> k in t.keys
    requires |t.counts| == |t.keys|
    ensures Distinct(AddRow(t, b).keys)
    ensures forall k :: k in AddRow(t, b).counts <==> k in AddRow(t, b).keys
    ensures |AddRow(t, b).counts| == |AddRow(t, b).keys|
  {
    var t' := AddRow(t, b);
    if b in t.counts {
      assert t'.counts.Keys == t.counts.Keys;
    } else {
      forall i, j | 0 <= i < j < |t'.keys|
        ensures t'.keys[i] != t'.keys[j]
      {
        if j == |t.keys| {
          assert t.keys[i] in t.keys;
        }
      }
      assert t'.counts.Keys == t.counts.Keys + {b};
    }
  }

  lemma AddRowCounts(t: Tally, rows: seq<CityRow>)
    requires |rows| > 0
    requires forall k :: k in t.counts ==> t.counts[k] == Occurrences(rows[..|rows| - 1], k) >= 1
    requires forall k :: k !in t.counts ==> Occurrences(rows[..|rows| - 1], k) == 0
    ensures var t' := AddRow(t, Bucket(rows[|rows| - 1]));
      && (forall k :: k in t'.counts ==> t'.counts[k] == Occurrences(rows, k) >= 1)
      && (forall k :: k !in t'.counts ==> Occurrences(rows, k) == 0)
  {
    var init, b := rows[..|rows| - 1], Bucket(rows[|rows| - 1]);
    var t' := AddRow(t, b);
    forall k | k in t'.counts
      ensures t'.counts[k] == Occurrences(rows, k) >= 1
    {
      assert Occurrences(rows, k) == Occurrences(init, k) + (if k == b then 1 else 0);
    }
    forall k | k !in t'.counts
      ensures Occurrences(rows, k) == 0
    {
      assert Occurrences(rows, k) == Occurrences(init, k) + (if k == b then 1 else 0);
    }
  }

  lemma AddRowSum(t: Tally, b: string)
    requires Distinct(t.keys)
    requires forall k :: k in t.counts <==> k in t.keys
    ensures SumOver(AddRow(t, b).counts, AddRow(t, b).keys) == SumOver(t.counts, t.keys) + 1
  {
    if b in t.counts {
      SumOverBump(t.counts, t.keys, b);
    } else {
      SumOverFresh(t.counts, t.keys, b, 1);
      SumOverAppend(t.counts[b := 1], t.keys, b);
    }
  }

  lemma {:induction false} SumOverBump(counts: map<string, nat>, keys: seq<string>, b: string)
    requires Distinct(keys) && b in keys && b in counts
    ensures SumOver(counts[b := counts[b] + 1], keys) == SumOver(counts, keys) + 1
    decreases |keys|
  {
    if keys[0] == b {
      assert b !in keys[1..];
      SumOverFresh(counts, keys[1..], b, counts[b] + 1);
    } else {
      assert b in keys[1..];
      SumOverBump(counts, keys[1..], b);
    }
  }

  lemma {:induction false} SumOverFresh(counts: map<string, nat>, keys: seq<string>, b: string, v: nat)
    requires b !in keys
    ensures SumOver(counts[b := v], keys) == SumOver(counts, keys)
    decreases |keys|
  {
    if |keys| > 0 {
      SumOverFresh(counts, keys[1..], b, v);
    }
  }

  lemma {:induction false} SumOverAppend(counts: map<string, nat>, keys: seq<string>, b: string)
    requires b in counts
    ensures SumOver(counts, keys + [b]) == SumOver(counts, keys) + counts[b]
    decreases |keys|
  {
    if |keys| > 0 {
      assert (keys + [b])[1..] == keys[1..] + [b];
      SumOverAppend(counts, keys[1..], b);
    }
  }

  // ---- the overview cards ------------------------------------------------

  datatype Overview = Overview(
    totalBusinesses: nat,
    totalCategories: nat,
    citiesTracked: nat,
    cities: seq<(string, nat)>,
    noData: bool)

  /** The entries' counts added up. */
  function SumEntries(entries: seq<(string, nat)>): nat
    decreases |entries|
  {
    if |entries| == 0 then 0 else entries[0].1 + SumEntries(entries[1..])
  }

  /** `Object.entries(cityCounts)` */
  function Entries(t: Tally): (es: seq<(string, nat)>)
    requires forall k :: k in t.keys ==> k in t.counts
    ensures |es| == |t.keys|
    ensures forall i :: 0 <= i < |es| ==> es[i] == (t.keys[i], t.counts[t.keys[i]])
    ensures SumEntries(es) == SumOver(t.counts, t.keys)
    decreases |t.keys|
  {
    if |t.keys| == 0 then []
    else [(t.keys[0], t.counts[t.keys[0]])] + Entries(Tally(t.counts, t.keys[1..]))
  }

  /** `citiesData || []` */
  function RowsOf(citiesData: Option<seq<CityRow>>): seq<CityRow>
  {
    if citiesData.Some? then citiesData.value else []
  }

  /** The buckets the rows fall in. */
  function Buckets(rows: seq<CityRow>): set<string>
  {
    set k | 0 <= k < |rows| :: Bucket(rows[k])
  }

  /** The cities named on the cards. */
  function CardCities(cards: seq<(string, nat)>): set<string>
  {
    set i | 0 <= i < |cards| :: cards[i].0
  }

  /** The page: null totals show as 0, null city data as no rows; there is
      one card per bucket the rows fall in, each counting that bucket's
      rows; "Cities Tracked" is the number of buckets, and "No data
      available." is shown exactly when no row was read. Built on the
      intended histogram (`CityCounts`). */
  function Summarise(businessCount: Option<nat>, categoryCount: Option<nat>,
                     citiesData: Option<seq<CityRow>>): (o: Overview)
    ensures o.totalBusinesses == (if businessCount.Some? then businessCount.value else 0)
    ensures o.totalCategories == (if categoryCount.Some? then categoryCount.value else 0)
    ensures citiesData.None? ==> o.cities == [] && o.citiesTracked == 0 && o.noData
    ensures SumEntries(o.cities) == |RowsOf(citiesData)|
    ensures forall i, j :: 0 <= i < j < |o.cities| ==> o.cities[i].0 != o.cities[j].0
    ensures forall i :: 0 <= i < |o.cities| ==>
      o.cities[i].1 == Occurrences(RowsOf(citiesData), o.cities[i].0) >= 1
    ensures CardCities(o.cities) == Buckets(RowsOf(citiesData))
    ensures o.citiesTracked == |o.cities| == |Buckets(RowsOf(citiesData))|
    ensures o.noData <==> citiesData.None? || citiesData.value == []
  {
    var rows := RowsOf(citiesData);
    var cards := Cards(rows);
    assert citiesData.None? ==> rows == [];
    Overview(if businessCount.Some? then businessCount.value else 0,
             if categoryCount.Some? then categoryCount.value else 0,
             |cards|, cards, |cards| == 0)
  }

  /** The city cards: one per bucket the rows fall in, in first-seen order,
      each with the number of rows in its bucket. */
  function Cards(rows: seq<CityRow>): (cards: seq<(string, nat)>)
    ensures SumEntries(cards) == |rows|
    ensures forall i, j :: 0 <= i < j < |cards| ==> cards[i].0 != cards[j].0
    ensures forall i :: 0 <= i < |cards| ==> cards[i].1 == Occurrences(rows, cards[i].0) >= 1
    ensures CardCities(cards) == Buckets(rows)
    ensures |cards| == |Buckets(rows)|
    ensures |cards| == 0 <==> rows == []
  {
    CardFacts(rows);
    Entries(CityCounts(rows))
  }

  /** `Cards`'s contract, about the histogram's entries. */
  lemma CardFacts(rows: seq<CityRow>)
    ensures var cards := Entries(CityCounts(rows));
      && SumEntries(cards) == |rows|
      && (forall i, j :: 0 <= i < j < |cards| ==> cards[i].0 != cards[j].0)
      && (forall i :: 0 <= i < |cards| ==> cards[i].1 == Occurrences(rows, cards[i].0) >= 1)
      && CardCities(cards) == Buckets(rows)
      && |cards| == |Buckets(rows)|
      && (|cards| == 0 <==> rows == [])
  {
    CardsCountRows(rows);
    CardsAreBuckets(rows);
  }

  /** Each card is a distinct key of the histogram with its count. */
  lemma CardsCountRows(rows: seq<CityRow>)
    ensures var cards := Entries(CityCounts(rows));
      && SumEntries(cards) == |rows|
      && (forall i, j :: 0 <= i < j < |cards| ==> cards[i].0 != cards[j].0)
      && (forall i :: 0 <= i < |cards| ==> cards[i].1 == Occurrences(rows, cards[i].0) >= 1)
  {
    var t := CityCounts(rows);
    var cards := Entries(t);
    assert Distinct(t.keys);
    forall i | 0 <= i < |cards|
      ensures cards[i].1 == Occurrences(rows, cards[i].0) >= 1
    {
      assert cards[i] == (t.keys[i], t.counts[t.keys[i]]);
    }
  }

  /** The histogram's entries are one card per bucket of the rows. */
  lemma CardsAreBuckets(rows: seq<CityRow>)
    ensures var t := CityCounts(rows);
      && CardCities(Entries(t)) == Buckets(rows) == t.counts.Keys
      && |t.keys| == |Buckets(rows)|
      && (|t.keys| == 0 <==> rows == [])
  {
    var t := CityCounts(rows);
    CountedAreBuckets(rows);
    CardsAreKeys(t);
    assert |t.counts.Keys| == |t.counts|;
    if |rows| > 0 {
      assert Bucket(rows[0]) in Buckets(rows);
    }
  }

  /** The histogram counts exactly the buckets the rows fall in. */
  lemma CountedAreBuckets(rows: seq<CityRow>)
    ensures CityCounts(rows).counts.Keys == Buckets(rows)
  {
    var t := CityCounts(rows);
    forall k
      ensures k in t.counts <==> k in Buckets(rows)
    {
      if k in Buckets(rows) {
        var i :| 0 <= i < |rows| && Bucket(rows[i]) == k;
        OccursAt(rows, i);
      }
      if k in t.counts {
        OccurrenceHasRow(rows, k);
      }
    }
  }

  /** The cards name the tally's keys. */
  lemma CardsAreKeys(t: Tally)
    requires forall k :: k in t.counts <==> k in t.keys
    ensures CardCities(Entries(t)) == t.counts.Keys
  {
    var es := Entries(t);
    forall k
      ensures k in CardCities(es) <==> k in t.keys
    {
      if k in t.keys {
        var i :| 0 <= i < |t.keys| && t.keys[i] == k;
        assert es[i].0 == k;
      }
    }
  }

  /** A bucket that counts a row has a row in it. */
  lemma {:induction false} OccurrenceHasRow(rows: seq<CityRow>, key: string)
    requires Occurrences(rows, key) >= 1
    ensures key in Buckets(rows)
    decreases |rows|
  {
    var init := rows[..|rows| - 1];
    if Bucket(rows[|rows| - 1]) != key {
      OccurrenceHasRow(init, key);
      var i :| 0 <= i < |init| && Bucket(init[i]) == key;
      assert rows[i] == init[i];
    }
  }

  lemma {:induction false} OccursAt(rows: seq<CityRow>, i: nat)
    requires i < |rows|
    ensures Occurrences(rows, Bucket(rows[i])) >= 1
    decreases |rows|
  {
    if i < |rows| - 1 {
      OccursAt(rows[..|rows| - 1], i);
    }
  }

  // ---- the fold as written -----------------------------------------------

  /** What `acc[city]` yields in the source's fold: a count, or the string
      that `+ 1` makes of an inherited prototype method. */
  datatype JsValue = Count(n: nat) | Junk

  /** The methods every plain `{}` inherits from `Object.prototype`. */
  const InheritedNames: set<string> := {
    "constructor", "hasOwnProperty", "isPrototypeOf", "propertyIsEnumerable",
    "toLocaleString", "toString", "valueOf",
    "__defineGetter__", "__defineSetter__", "__lookupGetter__", "__lookupSetter__"}

  /** One step of `acc[city] = (acc[city] || 0) + 1` on a plain object.
      `acc.__proto__ = <string>` is silently ignored; an inherited method is
      truthy, so `+ 1` turns it into a string. */
  function AddAsWritten(acc: map<string, JsValue>, city: string): (r: map<string, JsValue>)
    // `__proto__` never becomes an own property
    ensures city == "__proto__" ==> r == acc
    // otherwise the city becomes (or stays) an own property, and no other
    // property changes
    ensures city != "__proto__" ==> r.Keys == acc.Keys + {city}
    ensures forall k :: k in acc && k != city ==> r[k] == acc[k]
    // a count goes up by one; a first sighting counts 1 unless the name is
    // inherited; anything else is no count
    ensures city != "__proto__" && city in acc && acc[city].Count? ==> r[city] == Count(acc[city].n + 1)
    ensures city != "__proto__" && city !in acc && city !in InheritedNames ==> r[city] == Count(1)
    ensures city != "__proto__" && (city in acc ==> acc[city].Junk?) && (city !in acc ==> city in InheritedNames) ==>
      r[city] == Junk
  {
    if city == "__proto__" then acc
    else if city in acc then
      (match acc[city] case Count(n) => acc[city := Count(n + 1)] case Junk => acc[city := Junk])
    else if city in InheritedNames then acc[city := Junk]
    else acc[city := Count(1)]
  }

  /** The own properties of the source's `cityCounts`. */
  function ReduceAsWritten(rows: seq<CityRow>): map<string, JsValue>
    decreases |rows|
  {
    if |rows| == 0 then map[]
    else AddAsWritten(ReduceAsWritten(rows[..|rows| - 1]), Bucket(rows[|rows| - 1]))
  }

  /** The source's `cityCounts` key by key: every bucket except
      `__proto__` is an own property; an inherited name holds no count, and
      every other name counts its rows. */
  lemma {:induction false} ReduceAsWrittenByKey(rows: seq<CityRow>)
    ensures forall k :: k in ReduceAsWritten(rows) <==> k != "__proto__" && Occurrences(rows, k) >= 1
    ensures forall k :: k in ReduceAsWritten(rows) && k in InheritedNames ==> ReduceAsWritten(rows)[k] == Junk
    ensures forall k :: k in ReduceAsWritten(rows) && k !in InheritedNames ==>
      ReduceAsWritten(rows)[k] == Count(Occurrences(rows, k))
    decreases |rows|
  {
    if |rows| > 0 {
      var init, b := rows[..|rows| - 1], Bucket(rows[|rows| - 1]);
      ReduceAsWrittenByKey(init);
      var prev, acc := ReduceAsWritten(init), ReduceAsWritten(rows);
      forall k
        ensures k in acc <==> k != "__proto__" && Occurrences(rows, k) >= 1
        ensures k in acc && k in InheritedNames ==> acc[k] == Junk
        ensures k in acc && k !in InheritedNames ==> acc[k] == Count(Occurrences(rows, k))
      {
        assert Occurrences(rows, k) == Occurrences(init, k) + (if b == k then 1 else 0);
      }
    }
  }

  /** A business whose city is `__proto__` vanishes from the source's
      histogram (the page then says "No data available." for a table holding
      one business), while the intended histogram counts it. */
  lemma ProtoCityIsLost()
    ensures ReduceAsWritten([CityRow(Some("__proto__"))]) == map[]
    ensures CityCounts([CityRow(Some("__proto__"))]).counts == map["__proto__" := 1]
  {
    var rows := [CityRow(Some("__proto__"))];
    assert rows[..0] == [];
    var t := CityCounts(rows);
    assert Occurrences(rows, "__proto__") == 1;
    assert t.keys == ["__proto__"];
  }

  /** A business whose city is `toString` is listed with a count that is not
      a number. */
  lemma InheritedCityIsNotCounted()
    ensures ReduceAsWritten([CityRow(Some("toString"))]) == map["toString" := Junk]
  {
    var rows := [CityRow(Some("toString"))];
    assert rows[..0] == [];
  }

  /** The source's fold and the intended one agree on an accumulator. */
  ghost predicate Agree(acc: map<string, JsValue>, t: Tally)
  {
    && (forall k :: k in acc <==> k in t.counts)
    && (forall k :: k in acc ==> acc[k] == Count(t.counts[k]))
  }

  /** For every other city name the source's fold is the intended one. */
  lemma {:induction false} AsWrittenAgreesElsewhere(rows: seq<CityRow>)
    requires forall i :: 0 <= i < |rows| ==> Bucket(rows[i]) != "__proto__" && Bucket(rows[i]) !in InheritedNames
    ensures Agree(ReduceAsWritten(rows), CityCounts(rows))
    decreases |rows|
  {
    if |rows| > 0 {
      var init := rows[..|rows| - 1];
      assert forall i :: 0 <= i < |init| ==> init[i] == rows[i];
      AsWrittenAgreesElsewhere(init);
      AgreeStep(ReduceAsWritten(init), CityCounts(init), Bucket(rows[|rows| - 1]));
    }
  }

  lemma AgreeStep(acc: map<string, JsValue>, t: Tally, b: string)
    requires Agree(acc, t)
    requires b != "__proto__" && b !in InheritedNames
    ensures Agree(AddAsWritten(acc, b), AddRow(t, b))
  {
  }

  /** Away from `__proto__` and the inherited names, the page as written
      shows what `Summarise` shows: "Cities Tracked" is the number of keys
      of the source's `cityCounts`, and "No data available." appears
      exactly when it has none. */
  lemma SummariseMatchesPage(businessCount: Option<nat>, categoryCount: Option<nat>,
                             citiesData: Option<seq<CityRow>>)
    requires forall i :: 0 <= i < |RowsOf(citiesData)| ==>
      Bucket(RowsOf(citiesData)[i]) != "__proto__" && Bucket(RowsOf(citiesData)[i]) !in InheritedNames
    ensures var o := Summarise(businessCount, categoryCount, citiesData);
      && o.citiesTracked == |ReduceAsWritten(RowsOf(citiesData))|
      && (o.noData <==> |ReduceAsWritten(RowsOf(citiesData))| == 0)
  {
    var rows := RowsOf(citiesData);
    var acc := ReduceAsWritten(rows);
    AsWrittenAgreesElsewhere(rows);
    CountedAreBuckets(rows);
    assert acc.Keys == Buckets(rows);
    assert |acc.Keys| == |acc|;
  }
}
