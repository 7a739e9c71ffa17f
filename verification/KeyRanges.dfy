/** Splitting a table by its key into half-open ranges, and fetching range by range. */
module KeyRanges {
  import opened Rows

  datatype Range = Range(lo: int, hi: int)

  function Ranges(lo: int, hiBound: int, chunk: int): seq<Range>
    requires chunk > 0
    decreases hiBound - lo
  {
    if lo > hiBound then [] else [Range(lo, lo + chunk)] + Ranges(lo + chunk, hiBound, chunk)
  }

  /** The generator's loop. */
  method KeyRanges(lo: int, hiBound: int, chunk: int) returns (ranges: seq<Range>)
    requires chunk > 0
    ensures ranges == Ranges(lo, hiBound, chunk)
  {
    ranges := [];
    var cursor := lo;
    while cursor <= hiBound
      invariant Ranges(lo, hiBound, chunk) == ranges + Ranges(cursor, hiBound, chunk)
      decreases hiBound - cursor
    {
      var hi := cursor + chunk;
      ranges := ranges + [Range(cursor, hi)];
      cursor := hi;
    }
  }

  predicate In(r: Range, key: int) {
    r.lo <= key < r.hi
  }

  /** Every key between the bounds lies in exactly one range, and ranges follow one another. */
  lemma {:induction false} RangesPartition(lo: int, hiBound: int, chunk: int, key: int)
    requires chunk > 0 && lo <= key <= hiBound
    ensures exists i :: 0 <= i < |Ranges(lo, hiBound, chunk)| && In(Ranges(lo, hiBound, chunk)[i], key)
    decreases hiBound - lo
  {
    var ranges := Ranges(lo, hiBound, chunk);
    if key < lo + chunk {
      assert In(ranges[0], key);
    } else {
      RangesPartition(lo + chunk, hiBound, chunk, key);
      var i :| 0 <= i < |Ranges(lo + chunk, hiBound, chunk)| && In(Ranges(lo + chunk, hiBound, chunk)[i], key);
      assert In(ranges[i + 1], key);
    }
  }

  /** Ranges of one chunk each, from lo on, none starting before the one before it ends. */
  ghost predicate Consecutive(ranges: seq<Range>, lo: int, chunk: int) {
    && (forall i :: 0 <= i < |ranges| ==> lo <= ranges[i].lo && ranges[i].hi == ranges[i].lo + chunk)
    && (forall i, j :: 0 <= i < j < |ranges| ==> ranges[i].hi <= ranges[j].lo)
  }

  lemma ConsecutiveCons(rest: seq<Range>, lo: int, chunk: int)
    requires chunk > 0 && Consecutive(rest, lo + chunk, chunk)
    ensures Consecutive([Range(lo, lo + chunk)] + rest, lo, chunk)
  {
    var ranges := [Range(lo, lo + chunk)] + rest;
    assert forall i :: 1 <= i < |ranges| ==> ranges[i] == rest[i - 1];
  }

  lemma {:induction false} RangesAreDisjoint(lo: int, hiBound: int, chunk: int)
    requires chunk > 0
    ensures Consecutive(Ranges(lo, hiBound, chunk), lo, chunk)
    decreases hiBound - lo
  {
    if lo <= hiBound {
      RangesAreDisjoint(lo + chunk, hiBound, chunk);
      ConsecutiveCons(Ranges(lo + chunk, hiBound, chunk), lo, chunk);
    }
  }

  /** A larger maximum only appends ranges: units made before keep their keys. */
  lemma {:induction false} RangesExtend(lo: int, hiBound: int, larger: int, chunk: int)
    requires chunk > 0 && hiBound <= larger
    ensures Ranges(lo, hiBound, chunk) <= Ranges(lo, larger, chunk)
    decreases hiBound - lo
  {
    if lo <= hiBound {
      RangesExtend(lo + chunk, hiBound, larger, chunk);
      var a, b := Ranges(lo + chunk, hiBound, chunk), Ranges(lo + chunk, larger, chunk);
      assert [Range(lo, lo + chunk)] + a <= [Range(lo, lo + chunk)] + b;
    }
  }

  // ------------------------------------------------------------------ Fetching

  /** A row of the table with its key, which may be NULL. */
  datatype Keyed = Keyed(key: Option<int>, row: Row)

  /** key >= lo AND key < hi: a NULL key satisfies neither. */
  predicate Matches(r: Range, k: Keyed) {
    k.key.Some? && In(r, k.key.value)
  }

  /** SELECT * WHERE key >= lo AND key < hi. */
  function FetchRange(table: seq<Keyed>, r: Range): seq<Keyed> {
    if table == [] then []
    else (if Matches(r, table[0]) then [table[0]] else []) + FetchRange(table[1..], r)
  }

  function FetchAll(table: seq<Keyed>, ranges: seq<Range>): seq<Keyed> {
    if ranges == [] then [] else FetchRange(table, ranges[0]) + FetchAll(table, ranges[1..])
  }

  /** The rows with a key. */
  function WithKey(table: seq<Keyed>): seq<Keyed> {
    if table == [] then [] else (if table[0].key.Some? then [table[0]] else []) + WithKey(table[1..])
  }

  /** SELECT min(key), max(key): aggregates pass over NULLs, and are NULL when there is nothing else. */
  function MinKey(table: seq<Keyed>): Option<int> {
    if table == [] then None
    else
      var rest, key := MinKey(table[1..]), table[0].key;
      if key.None? || (rest.Some? && rest.value < key.value) then rest else key
  }

  function MaxKey(table: seq<Keyed>): Option<int> {
    if table == [] then None
    else
      var rest, key := MaxKey(table[1..]), table[0].key;
      if key.None? || (rest.Some? && rest.value > key.value) then rest else key
  }

  /** The units of a table: none when it has no key to start from. */
  function Units(table: seq<Keyed>, chunk: int): seq<Range>
    requires chunk > 0
  {
    if MinKey(table).None? || MaxKey(table).None? then []
    else Ranges(MinKey(table).value, MaxKey(table).value, chunk)
  }

  lemma {:induction false} KeysAreBounded(table: seq<Keyed>, k: Keyed)
    requires k in table && k.key.Some?
    ensures MinKey(table).Some? && MaxKey(table).Some?
    ensures MinKey(table).value <= k.key.value <= MaxKey(table).value
  {
    if k != table[0] {
      KeysAreBounded(table[1..], k);
    }
  }

  /** The rows with a key from lo on. */
  function From(table: seq<Keyed>, lo: int): seq<Keyed> {
    if table == [] then []
    else (if table[0].key.Some? && table[0].key.value >= lo then [table[0]] else []) + From(table[1..], lo)
  }

  lemma {:induction false} FromSplits(table: seq<Keyed>, lo: int, hi: int)
    requires lo <= hi
    ensures multiset(From(table, lo)) == multiset(FetchRange(table, Range(lo, hi))) + multiset(From(table, hi))
  {
    if table != [] {
      FromSplits(table[1..], lo, hi);
    }
  }

  /** Every key there is lies at or below the bound. */
  ghost predicate UpTo(table: seq<Keyed>, hiBound: int) {
    forall k :: k in table && k.key.Some? ==> k.key.value <= hiBound
  }

  lemma {:induction false} FromNothing(table: seq<Keyed>, lo: int, hiBound: int)
    requires UpTo(table, hiBound) && lo > hiBound
    ensures From(table, lo) == []
  {
    if table != [] {
      assert table[0] in table;
      FromNothing(table[1..], lo, hiBound);
    }
  }

  lemma {:induction false} FromEverything(table: seq<Keyed>, lo: int)
    requires forall k :: k in table && k.key.Some? ==> lo <= k.key.value
    ensures From(table, lo) == WithKey(table)
  {
    if table != [] {
      assert table[0] in table;
      FromEverything(table[1..], lo);
    }
  }

  /** Leaving out the rows without a key leaves the table as it is only if there are none. */
  lemma {:induction false} KeylessAreLeftOut(table: seq<Keyed>)
    ensures |WithKey(table)| <= |table|
    ensures |WithKey(table)| == |table| <==> forall k :: k in table ==> k.key.Some?
    ensures (forall k :: k in table ==> k.key.Some?) ==> WithKey(table) == table
  {
    if table != [] {
      KeylessAreLeftOut(table[1..]);
      assert table == [table[0]] + table[1..];
    }
  }

  ghost function Fetched(table: seq<Keyed>, ranges: seq<Range>): multiset<Keyed> {
    multiset(FetchAll(table, ranges))
  }

  /** The ranges start at lo, each where the one before it ends, and the last ends past the bound. */
  predicate Tiles(ranges: seq<Range>, lo: int, hiBound: int) {
    if ranges == [] then lo > hiBound
    else ranges[0].lo == lo < ranges[0].hi && Tiles(ranges[1..], ranges[0].hi, hiBound)
  }

  lemma {:induction false} RangesTile(lo: int, hiBound: int, chunk: int)
    requires chunk > 0
    ensures Tiles(Ranges(lo, hiBound, chunk), lo, hiBound)
    decreases hiBound - lo
  {
    if lo <= hiBound {
      RangesTile(lo + chunk, hiBound, chunk);
      assert Ranges(lo, hiBound, chunk)[1..] == Ranges(lo + chunk, hiBound, chunk);
    }
  }

  lemma {:induction false} TilesFetchFrom(table: seq<Keyed>, ranges: seq<Range>, lo: int, hiBound: int)
    requires Tiles(ranges, lo, hiBound) && UpTo(table, hiBound)
    ensures Fetched(table, ranges) == multiset(From(table, lo))
  {
    if ranges == [] {
      FromNothing(table, lo, hiBound);
    } else {
      TilesFetchFrom(table, ranges[1..], ranges[0].hi, hiBound);
      FromSplits(table, lo, ranges[0].hi);
      assert Range(lo, ranges[0].hi) == ranges[0];
      assert Fetched(table, ranges) == multiset(FetchRange(table, ranges[0])) + Fetched(table, ranges[1..]);
    }
  }

  /**
   Fetching the ranges between the smallest and largest key gives every row that has a key exactly
   once: the whole table if and only if no row's key is NULL.
   */
  lemma RangesFetchEachRowOnceIff(table: seq<Keyed>, chunk: int)
    requires chunk > 0
    ensures Fetched(table, Units(table, chunk)) == multiset(WithKey(table))
    ensures Fetched(table, Units(table, chunk)) == multiset(table) <==> forall k :: k in table ==> k.key.Some?
  {
    if MinKey(table).Some? && MaxKey(table).Some? {
      var lo, hiBound := MinKey(table).value, MaxKey(table).value;
      forall k | k in table && k.key.Some? ensures lo <= k.key.value <= hiBound {
        KeysAreBounded(table, k);
      }
      RangesTile(lo, hiBound, chunk);
      TilesFetchFrom(table, Ranges(lo, hiBound, chunk), lo, hiBound);
      FromEverything(table, lo);
    } else {
      NoKeys(table);
    }
    KeylessAreLeftOut(table);
    assert |multiset(WithKey(table))| == |WithKey(table)| && |multiset(table)| == |table|;
  }

  lemma {:induction false} NoKeys(table: seq<Keyed>)
    requires MinKey(table).None? || MaxKey(table).None?
    ensures WithKey(table) == []
  {
    if table != [] {
      if table[0].key.Some? {
        KeysAreBounded(table, table[0]);
      }
      NoKeys(table[1..]);
    }
  }
}
