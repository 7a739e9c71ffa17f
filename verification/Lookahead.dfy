/** The dlt adapter: a record stream cut into batches, one record held back to know the end. */
module Lookahead {
  import opened Rows

  function Smaller(a: nat, b: nat): nat {
    if a < b then a else b
  }

  /** A stream in batches of `size`, the last one taking what is left. */
  function Batches(rows: seq<Row>, size: nat): seq<seq<Row>>
    requires size >= 1
  {
    if rows == [] then []
    else [rows[..Smaller(size, |rows|)]] + Batches(rows[Smaller(size, |rows|)..], size)
  }

  /** Batches lose and invent nothing and keep the order. */
  lemma {:induction false} BatchesConcatenate(rows: seq<Row>, size: nat)
    requires size >= 1
    ensures Flatten(Batches(rows, size)) == rows
  {
    if rows != [] {
      var n := Smaller(size, |rows|);
      BatchesConcatenate(rows[n..], size);
      assert Batches(rows, size)[1..] == Batches(rows[n..], size);
      assert rows == rows[..n] + rows[n..];
    }
  }

  /** No batch is empty and all but the last have exactly `size` rows. */
  lemma {:induction false} BatchSizes(rows: seq<Row>, size: nat, i: nat)
    requires size >= 1 && i < |Batches(rows, size)|
    ensures var batches := Batches(rows, size);
            && 1 <= |batches[i]| <= size
            && (i < |batches| - 1 ==> |batches[i]| == size)
  {
    var n := Smaller(size, |rows|);
    var rest := Batches(rows[n..], size);
    if i > 0 {
      BatchSizes(rows[n..], size, i - 1);
      assert Batches(rows, size)[i] == rest[i - 1];
    }
  }

  class DltSource {
    const records: seq<Row>
    const batchSize: nat
    var next: nat                    // how far the record iterator has come
    var lookahead: seq<Row>
    var exhausted: bool
    var current: Option<seq<Row>>
    var currentIndex: nat

    ghost predicate Valid()
      reads this
    {
      && batchSize >= 1 && next <= |records| && |lookahead| <= 1
      && (exhausted ==> lookahead == [] && next == |records|)
    }

    /** The records not handed out yet. */
    function Rest(): seq<Row>
      reads this
      requires next <= |records|
    {
      lookahead + records[next..]
    }

    constructor (records: seq<Row>, batchSize: nat)
      requires batchSize >= 1
      ensures Valid() && Rest() == records && this.records == records && this.batchSize == batchSize
      ensures current == None && currentIndex == 0
    {
      this.records, this.batchSize := records, batchSize;
      next, lookahead, exhausted, current, currentIndex := 0, [], false, None, 0;
    }

    /** Drain the lookahead, then fill up from the stream. */
    method Gather() returns (rows: seq<Row>)
      requires Valid()
      modifies this`next, this`lookahead, this`exhausted
      ensures Valid() && lookahead == [] && rows + Rest() == old(Rest())
      ensures |rows| <= batchSize && (|rows| < batchSize ==> exhausted)
    {
      rows := [];
      ghost var all := Rest();
      while lookahead != [] && |rows| < batchSize
        invariant Valid() && rows + Rest() == all && |rows| <= batchSize && |rows| + |lookahead| <= 1
        decreases |lookahead|
      {
        MoveOne(rows, lookahead, records[next..]);
        rows, lookahead := rows + [lookahead[0]], lookahead[1..];
      }
      assert Rest() == records[next..];
      while |rows| < batchSize
        invariant Valid() && rows + records[next..] == all && |rows| <= batchSize && lookahead == []
        decreases batchSize - |rows|
      {
        if next < |records| {
          NextRecord(rows, next);
          rows, next := rows + [records[next]], next + 1;
        } else {
          exhausted := true;
          break;
        }
      }
      assert Rest() == records[next..];
    }

    static lemma MoveOne(rows: seq<Row>, front: seq<Row>, back: seq<Row>)
      requires front != []
      ensures (rows + [front[0]]) + (front[1..] + back) == rows + (front + back)
    {
      assert front == [front[0]] + front[1..];
    }

    lemma NextRecord(rows: seq<Row>, i: nat)
      requires i < |records|
      ensures (rows + [records[i]]) + records[i + 1..] == rows + records[i..]
    {
      assert records[i..] == [records[i]] + records[i + 1..];
    }

    lemma GatheredIsPrefix(rows: seq<Row>, rest: seq<Row>, all: seq<Row>)
      requires rows + rest == all && |rows| <= batchSize && (|rows| < batchSize ==> rest == [])
      ensures rows == all[..Smaller(batchSize, |all|)] && rest == all[Smaller(batchSize, |all|)..]
    {
      assert all[..|rows|] == rows && all[|rows|..] == rest;
    }

    /** A full batch looks one record ahead, to know whether it is the last. */
    method NextBatch() returns (batch: Option<seq<Row>>)
      requires Valid()
      modifies this`next, this`lookahead, this`exhausted
      ensures Valid()
      ensures batch.None? <==> old(Rest()) == []
      ensures batch.Some? ==>
                && batch.value == old(Rest())[..Smaller(batchSize, |old(Rest())|)]
                && Rest() == old(Rest())[Smaller(batchSize, |old(Rest())|)..]
                && (exhausted <==> Rest() == [])
    {
      ghost var all := Rest();
      var rows := Gather();
      GatheredIsPrefix(rows, Rest(), all);
      if rows == [] {
        return None;
      }
      if !exhausted && |rows| == batchSize {
        if next < |records| {
          lookahead, next, exhausted := lookahead + [records[next]], next + 1, false;
        } else {
          exhausted := true;
        }
      }
      batch := Some(rows);
    }

    /** Resuming the generator of units: forget the batch handed out, cut the next one. */
    method NextUnit(index: nat) returns (more: bool)
      requires Valid()
      modifies this
      ensures Valid() && (more <==> old(Rest()) != [])
      ensures more ==>
                && current == Some(old(Rest())[..Smaller(batchSize, |old(Rest())|)])
                && Rest() == old(Rest())[Smaller(batchSize, |old(Rest())|)..]
                && currentIndex == index && (exhausted <==> Rest() == [])
      ensures !more ==> current == None
    {
      current := None;
      var batch := NextBatch();
      if batch.None? {
        return false;
      }
      current, currentIndex := batch, index;
      more := true;
    }

    /** Only the unit just yielded can be fetched; None stands for the fatal error. */
    method Fetch(index: nat) returns (result: Option<(seq<Row>, bool)>)
      ensures result == if current.Some? && currentIndex == index then Some((current.value, exhausted)) else None
    {
      if current.None? || currentIndex != index {
        return None;
      }
      result := Some((current.value, exhausted));
    }

    /**
     A loop over the units that fetches each and stops at the exhausted one: it sees the batches of
     the stream in order, and the exhausted flag is true exactly on the last.
     */
    method CollectAll() returns (batches: seq<seq<Row>>, flags: seq<bool>)
      requires Valid()
      modifies this
      ensures batches == Batches(old(Rest()), batchSize)
      ensures |flags| == |batches| && forall i :: 0 <= i < |flags| ==> (flags[i] <==> i == |flags| - 1)
    {
      batches, flags := [], [];
      ghost var all := Rest();
      var index := 0;
      while true
        invariant Valid() && |flags| == |batches|
        invariant Batches(all, batchSize) == batches + Batches(Rest(), batchSize)
        invariant flags != [] ==> Rest() != []
        invariant forall i :: 0 <= i < |flags| ==> !flags[i]
        decreases |Rest()|
      {
        ghost var before := Rest();
        var more := NextUnit(index);
        if !more {
          return;
        }
        var fetched := Fetch(index);
        batches, flags := batches + [fetched.value.0], flags + [fetched.value.1];
        if fetched.value.1 {
          return;
        }
        index := index + 1;
      }
    }
  }
}
