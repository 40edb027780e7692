/**
 * The country list of `get_countries`: the records of the country listing are
 * scanned in order and every record whose region is not "Aggregates" is
 * copied, as an (id, name, region) row, to the result.
 */
module Countries {

  /** The `region` object of a listing record; only its `value` is read. */
  datatype RegionRef = RegionRef(value: string)

  /** One record of the listing (`data[1]` in the decoded response). */
  datatype CountryRecord = CountryRecord(id: string, name: string, region: RegionRef)

  /** One row of the countries table. */
  datatype Country = Country(id: string, name: string, region: string)

  const Aggregates := "Aggregates"

  predicate IsAggregate(r: CountryRecord) {
    r.region.value == Aggregates
  }

  /** The row `get_countries` appends for a record. */
  function ToCountry(r: CountryRecord): Country {
    Country(r.id, r.name, r.region.value)
  }

  /** The kept rows, in listing order: never more rows than records, and none of them an aggregate. */
  function NonAggregates(data: seq<CountryRecord>): (r: seq<Country>)
    ensures |r| <= |data|
    ensures forall k :: 0 <= k < |r| ==> r[k].region != Aggregates
  {
    if data == [] then []
    else (if IsAggregate(data[0]) then [] else [ToCountry(data[0])]) + NonAggregates(data[1..])
  }

  /** The scan of `get_countries`: one pass over the records, appending each kept row. */
  method FilterCountries(data: seq<CountryRecord>) returns (countries: seq<Country>)
    ensures countries == NonAggregates(data)
  {
    countries := [];
    var i := 0;
    while i < |data|
      invariant i <= |data|
      invariant countries == NonAggregates(data[..i])
    {
      var country := data[i];
      NonAggregatesAppend(data[..i], country);
      assert data[..i + 1] == data[..i] + [country];
      if country.region.value != Aggregates {
        countries := countries + [Country(country.id, country.name, country.region.value)];
      }
      i := i + 1;
    }
    assert data[..i] == data;
  }

  /** Filtering distributes over concatenation, so relative order is kept. */
  lemma {:induction false} NonAggregatesConcat(a: seq<CountryRecord>, b: seq<CountryRecord>)
    ensures NonAggregates(a + b) == NonAggregates(a) + NonAggregates(b)
  {
    if a != [] {
      assert (a + b)[1..] == a[1..] + b;
      NonAggregatesConcat(a[1..], b);
    } else {
      assert a + b == b;
    }
  }

  lemma NonAggregatesAppend(a: seq<CountryRecord>, r: CountryRecord)
    ensures NonAggregates(a + [r]) == NonAggregates(a) + (if IsAggregate(r) then [] else [ToCountry(r)])
  {
    NonAggregatesConcat(a, [r]);
    assert [r][1..] == [];
  }

  /** A row is in the result exactly when some non-aggregate record produces it. */
  lemma {:induction false} NonAggregatesMembers(data: seq<CountryRecord>, c: Country)
    ensures c in NonAggregates(data) <==>
      exists j :: 0 <= j < |data| && !IsAggregate(data[j]) && ToCountry(data[j]) == c
  {
    if data != [] {
      NonAggregatesMembers(data[1..], c);
      if c in NonAggregates(data[1..]) {
        var j :| 0 <= j < |data[1..]| && !IsAggregate(data[1..][j]) && ToCountry(data[1..][j]) == c;
        assert data[j + 1] == data[1..][j];
      }
      if exists j :: 0 <= j < |data| && !IsAggregate(data[j]) && ToCountry(data[j]) == c {
        var j :| 0 <= j < |data| && !IsAggregate(data[j]) && ToCountry(data[j]) == c;
        if j > 0 {
          assert data[1..][j - 1] == data[j];
        }
      }
    }
  }

  /** Nothing is dropped exactly when the listing holds no aggregate record. */
  lemma {:induction false} NonAggregatesKeepsAll(data: seq<CountryRecord>)
    ensures |NonAggregates(data)| == |data| <==> forall j :: 0 <= j < |data| ==> !IsAggregate(data[j])
  {
    if data != [] {
      NonAggregatesKeepsAll(data[1..]);
      assert forall j :: 0 < j < |data| ==> data[j] == data[1..][j - 1];
    }
  }

  /**
   * The five rows used when the listing cannot be fetched: five distinct ids,
   * none of them in the "Aggregates" region.
   */
  function Fallback(): (r: seq<Country>)
    ensures |r| == 5
    ensures forall k :: 0 <= k < |r| ==> r[k].region != Aggregates
    ensures forall j, k :: 0 <= j < k < |r| ==> r[j].id != r[k].id
  {
    [
    Country("USA", "United States", "North America"),
    Country("GBR", "United Kingdom", "Europe & Central Asia"),
    Country("JPN", "Japan", "East Asia & Pacific"),
    Country("DEU", "Germany", "Europe & Central Asia"),
    Country("IND", "India", "South Asia")
    ]
  }
}
