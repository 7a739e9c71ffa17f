/**
 The by_key merge query, new rows numbered before old ones in each partition, is one row per key of the
 new batch and one row per key that only the old output has.
 */
module MergeQuery {
  import opened Rows
  import opened Transform
  import opened Compilation
  import opened Incremental

  /** Old rows whose key the new batch does not have. */
  function Untouched(old_: seq<Row>, new_: seq<Row>, keys: seq<string>): seq<Row> {
    if old_ == [] then []
    else (if HasKey(new_, keys, KeyOf(old_[0], keys)) then [] else [old_[0]]) + Untouched(old_[1..], new_, keys)
  }

  // ------------------------------------------------------------------ Partitions

  lemma {:induction false} PartitionAppend(a: seq<Tagged>, b: seq<Tagged>, keys: seq<string>, key: seq<Value>)
    ensures Partition(a + b, keys, key) == Partition(a, keys, key) + Partition(b, keys, key)
  {
    if a == [] {
      assert a + b == b;
    } else {
      assert (a + b)[0] == a[0] && (a + b)[1..] == a[1..] + b;
      PartitionAppend(a[1..], b, keys, key);
      AppendAssociates(if KeyOf(a[0].row, keys) == key then [a[0]] else [],
                       Partition(a[1..], keys, key), Partition(b, keys, key));
    }
  }

  lemma {:induction false} PartitionOfTag(rows: seq<Row>, precedence: nat, keys: seq<string>, key: seq<Value>)
    ensures Partition(Tag(rows, precedence), keys, key) == Tag(Group(rows, keys, key), precedence)
  {
    if rows != [] {
      assert Tag(rows, precedence)[1..] == Tag(rows[1..], precedence);
      PartitionOfTag(rows[1..], precedence, keys, key);
      TagAppend(if KeyOf(rows[0], keys) == key then [rows[0]] else [], Group(rows[1..], keys, key), precedence);
    }
  }

  lemma TagAppend(a: seq<Row>, b: seq<Row>, precedence: nat)
    ensures Tag(a + b, precedence) == Tag(a, precedence) + Tag(b, precedence)
  {
  }

  lemma {:induction false} WithPrecedenceAppend(a: seq<Tagged>, b: seq<Tagged>, precedence: nat)
    ensures WithPrecedence(a + b, precedence) == WithPrecedence(a, precedence) + WithPrecedence(b, precedence)
  {
    if a == [] {
      assert a + b == b;
    } else {
      assert (a + b)[0] == a[0] && (a + b)[1..] == a[1..] + b;
      WithPrecedenceAppend(a[1..], b, precedence);
      AppendAssociates(if a[0].precedence == precedence then [a[0].row] else [],
                       WithPrecedence(a[1..], precedence), WithPrecedence(b, precedence));
    }
  }

  lemma {:induction false} WithPrecedenceOfTag(rows: seq<Row>, precedence: nat, wanted: nat)
    ensures WithPrecedence(Tag(rows, precedence), wanted) == if precedence == wanted then rows else []
  {
    if rows != [] {
      assert Tag(rows, precedence)[1..] == Tag(rows[1..], precedence);
      WithPrecedenceOfTag(rows[1..], precedence, wanted);
      assert rows == [rows[0]] + rows[1..];
    }
  }

  lemma {:induction false} LeastOfTag(rows: seq<Row>, precedence: nat)
    requires rows != []
    ensures Least(Tag(rows, precedence)) == precedence
  {
    if |rows| > 1 {
      assert Tag(rows, precedence)[1..] == Tag(rows[1..], precedence);
      LeastOfTag(rows[1..], precedence);
    }
  }

  /** A partition of new and old rows: its least precedence is that of the new ones, if it has any. */
  lemma TwoTags(a: seq<Row>, b: seq<Row>)
    ensures WithPrecedence(Tag(a, 0) + Tag(b, 1), 0) == a && WithPrecedence(Tag(a, 0) + Tag(b, 1), 1) == b
    ensures a + b != [] ==> Least(Tag(a, 0) + Tag(b, 1)) == if a != [] then 0 else 1
  {
    WithPrecedenceAppend(Tag(a, 0), Tag(b, 1), 0);
    WithPrecedenceAppend(Tag(a, 0), Tag(b, 1), 1);
    WithPrecedenceOfTag(a, 0, 0);
    WithPrecedenceOfTag(a, 0, 1);
    WithPrecedenceOfTag(b, 1, 0);
    WithPrecedenceOfTag(b, 1, 1);
    if a == [] && b != [] {
      assert Tag(a, 0) + Tag(b, 1) == Tag(b, 1);
      LeastOfTag(b, 1);
    } else if a != [] {
      assert (Tag(a, 0) + Tag(b, 1))[0].precedence == 0;
    }
  }

  lemma PartitionOfBoth(new_: seq<Row>, old_: seq<Row>, keys: seq<string>, key: seq<Value>)
    ensures Partition(Tag(new_, 0) + Tag(old_, 1), keys, key)
            == Tag(Group(new_, keys, key), 0) + Tag(Group(old_, keys, key), 1)
  {
    PartitionAppend(Tag(new_, 0), Tag(old_, 1), keys, key);
    PartitionOfTag(new_, 0, keys, key);
    PartitionOfTag(old_, 1, keys, key);
  }

  // ------------------------------------------------------------------ Which rows are number one

  lemma {:induction false} GroupHas(rows: seq<Row>, keys: seq<string>, i: nat)
    requires i < |rows|
    ensures Group(rows, keys, KeyOf(rows[i], keys)) != []
  {
    if i > 0 {
      GroupHas(rows[1..], keys, i - 1);
    }
  }

  /** Among the new rows the query numbers as dedup does. */
  lemma NewIsNumberOne(e: Engine, old_: seq<Row>, new_: seq<Row>, keys: seq<string>, i: nat)
    requires i < |new_|
    ensures IsNumberOne(e, Tag(new_, 0) + Tag(old_, 1), keys, i) <==> IsFirst(e, new_, keys, i)
  {
    var all, key := Tag(new_, 0) + Tag(old_, 1), KeyOf(new_[i], keys);
    GroupHas(new_, keys, i);
    PartitionOfBoth(new_, old_, keys, key);
    TwoTags(Group(new_, keys, key), Group(old_, keys, key));
    assert all[..i] == Tag(new_[..i], 0);
    PartitionOfTag(new_[..i], 0, keys, key);
    WithPrecedenceOfTag(Group(new_[..i], keys, key), 0, 0);
  }

  /** An old row can be number one only if no new row has its key. */
  lemma OldIsNumberOne(e: Engine, old_: seq<Row>, new_: seq<Row>, keys: seq<string>, j: nat)
    requires j < |old_|
    ensures IsNumberOne(e, Tag(new_, 0) + Tag(old_, 1), keys, |new_| + j) <==>
            Group(new_, keys, KeyOf(old_[j], keys)) == [] && IsFirst(e, old_, keys, j)
  {
    var all, key := Tag(new_, 0) + Tag(old_, 1), KeyOf(old_[j], keys);
    GroupHas(old_, keys, j);
    PartitionOfBoth(new_, old_, keys, key);
    TwoTags(Group(new_, keys, key), Group(old_, keys, key));
    assert all[..|new_| + j] == Tag(new_, 0) + Tag(old_[..j], 1);
    PartitionOfBoth(new_, old_[..j], keys, key);
    TwoTags(Group(new_, keys, key), Group(old_[..j], keys, key));
    assert all[|new_| + j] == Tagged(old_[j], 1);
  }

  // ------------------------------------------------------------------ The untouched rows

  lemma {:induction false} UntouchedAppend(a: seq<Row>, b: seq<Row>, new_: seq<Row>, keys: seq<string>)
    ensures Untouched(a + b, new_, keys) == Untouched(a, new_, keys) + Untouched(b, new_, keys)
  {
    if a == [] {
      assert a + b == b;
    } else {
      assert (a + b)[0] == a[0] && (a + b)[1..] == a[1..] + b;
      UntouchedAppend(a[1..], b, new_, keys);
      AppendAssociates(if HasKey(new_, keys, KeyOf(a[0], keys)) then [] else [a[0]],
                       Untouched(a[1..], new_, keys), Untouched(b, new_, keys));
    }
  }

  lemma {:induction false} GroupUntouched(
    rows: seq<Row>, new_: seq<Row>, keys: seq<string>, key: seq<Value>)
    requires !HasKey(new_, keys, key)
    ensures Group(Untouched(rows, new_, keys), keys, key) == Group(rows, keys, key)
  {
    if rows != [] {
      GroupUntouched(rows[1..], new_, keys, key);
      GroupAppend(if HasKey(new_, keys, KeyOf(rows[0], keys)) then [] else [rows[0]],
                  Untouched(rows[1..], new_, keys), keys, key);
      GroupOne(rows[0], keys, key);
    }
  }

  lemma {:induction false} GroupIsEmptyIff(rows: seq<Row>, keys: seq<string>, key: seq<Value>)
    ensures Group(rows, keys, key) == [] <==> !HasKey(rows, keys, key)
  {
    if rows != [] {
      GroupIsEmptyIff(rows[1..], keys, key);
      HasKeySplit(rows, keys, key);
    }
  }

  /** An untouched old row stands in the untouched rows after those before it. */
  lemma UntouchedAt(old_: seq<Row>, new_: seq<Row>, keys: seq<string>, j: nat)
    requires j < |old_|
    ensures var rest, m := Untouched(old_, new_, keys), |Untouched(old_[..j], new_, keys)|;
            && Untouched(old_[..j + 1], new_, keys) == Untouched(old_[..j], new_, keys) +
                 (if HasKey(new_, keys, KeyOf(old_[j], keys)) then [] else [old_[j]])
            && m <= |rest| && rest[..m] == Untouched(old_[..j], new_, keys)
            && (!HasKey(new_, keys, KeyOf(old_[j], keys)) ==> m < |rest| && rest[m] == old_[j])
  {
    assert old_[..j + 1] == old_[..j] + [old_[j]] && old_ == old_[..j] + ([old_[j]] + old_[j + 1..]);
    assert [old_[j]][1..] == [];
    UntouchedAppend(old_[..j], [old_[j]], new_, keys);
    UntouchedAppend(old_[..j], [old_[j]] + old_[j + 1..], new_, keys);
    UntouchedAppend([old_[j]], old_[j + 1..], new_, keys);
  }

  lemma FirstAmongUntouched(e: Engine, old_: seq<Row>, new_: seq<Row>, keys: seq<string>, j: nat)
    requires j < |old_| && !HasKey(new_, keys, KeyOf(old_[j], keys))
    ensures var rest, m := Untouched(old_, new_, keys), |Untouched(old_[..j], new_, keys)|;
            m < |rest| && (IsFirst(e, rest, keys, m) <==> IsFirst(e, old_, keys, j))
  {
    UntouchedAt(old_, new_, keys, j);
    GroupUntouched(old_, new_, keys, KeyOf(old_[j], keys));
    GroupUntouched(old_[..j], new_, keys, KeyOf(old_[j], keys));
  }

  // ------------------------------------------------------------------ The query

  lemma {:induction false} PickedAppend(a: seq<Row>, b: seq<Row>, keepA: seq<bool>, keepB: seq<bool>)
    requires |a| == |keepA| && |b| == |keepB|
    ensures Picked(a + b, keepA + keepB) == Picked(a, keepA) + Picked(b, keepB)
  {
    if a == [] {
      assert a + b == b && keepA + keepB == keepB;
    } else {
      assert (a + b)[0] == a[0] && (a + b)[1..] == a[1..] + b;
      assert (keepA + keepB)[0] == keepA[0] && (keepA + keepB)[1..] == keepA[1..] + keepB;
      PickedAppend(a[1..], b, keepA[1..], keepB);
      AppendAssociates(if keepA[0] then [a[0]] else [], Picked(a[1..], keepA[1..]), Picked(b, keepB));
    }
  }

  lemma PickedSnoc(rows: seq<Row>, keep: seq<bool>, n: nat)
    requires n < |rows| == |keep|
    ensures Picked(rows[..n + 1], keep[..n + 1]) == Picked(rows[..n], keep[..n]) + if keep[n] then [rows[n]] else []
  {
    assert rows[..n + 1] == rows[..n] + [rows[n]] && keep[..n + 1] == keep[..n] + [keep[n]];
    PickedAppend(rows[..n], [rows[n]], keep[..n], [keep[n]]);
    assert [rows[n]][1..] == [] && [keep[n]][1..] == [];
  }

  function Firsts(e: Engine, rows: seq<Row>, keys: seq<string>): (firsts: seq<bool>)
    ensures |firsts| == |rows| && forall i :: 0 <= i < |rows| ==> firsts[i] == IsFirst(e, rows, keys, i)
  {
    seq(|rows|, i requires 0 <= i < |rows| => IsFirst(e, rows, keys, i))
  }

  lemma {:induction false} PickedFirsts(e: Engine, rows: seq<Row>, keys: seq<string>, firsts: seq<bool>, n: nat)
    requires n <= |rows| == |firsts|
    requires forall i :: 0 <= i < |rows| ==> firsts[i] == IsFirst(e, rows, keys, i)
    ensures Picked(rows[..n], firsts[..n]) == FirstsUpTo(e, rows, keys, n)
  {
    if n == 0 {
      assert rows[..0] == [];
    } else {
      PickedFirsts(e, rows, keys, firsts, n - 1);
      PickedSnoc(rows, firsts, n - 1);
    }
  }

  /** The flags of the old part of the query. */
  function OldOnes(e: Engine, old_: seq<Row>, new_: seq<Row>, keys: seq<string>): (ones: seq<bool>)
    ensures |ones| == |old_|
    ensures forall j :: 0 <= j < |old_| ==>
              ones[j] == (!HasKey(new_, keys, KeyOf(old_[j], keys)) && IsFirst(e, old_, keys, j))
  {
    seq(|old_|, j requires 0 <= j < |old_| => !HasKey(new_, keys, KeyOf(old_[j], keys)) && IsFirst(e, old_, keys, j))
  }

  lemma NewOne(e: Engine, old_: seq<Row>, new_: seq<Row>, keys: seq<string>, i: nat)
    requires i < |new_|
    ensures NumberOnes(e, Tag(new_, 0) + Tag(old_, 1), keys)[i] == Firsts(e, new_, keys)[i]
  {
    NewIsNumberOne(e, old_, new_, keys, i);
  }

  lemma OldOne(e: Engine, old_: seq<Row>, new_: seq<Row>, keys: seq<string>, j: nat)
    requires j < |old_|
    ensures NumberOnes(e, Tag(new_, 0) + Tag(old_, 1), keys)[|new_| + j] == OldOnes(e, old_, new_, keys)[j]
  {
    OldIsNumberOne(e, old_, new_, keys, j);
    GroupIsEmptyIff(new_, keys, KeyOf(old_[j], keys));
  }

  lemma Pointwise<T>(s: seq<T>, a: seq<T>, b: seq<T>)
    requires |s| == |a| + |b|
    requires forall i :: 0 <= i < |a| ==> s[i] == a[i]
    requires forall j :: 0 <= j < |b| ==> s[|a| + j] == b[j]
    ensures s == a + b
  {
    forall i | 0 <= i < |s| ensures s[i] == (a + b)[i] {
      assert i >= |a| ==> s[i] == s[|a| + (i - |a|)];
    }
  }

  lemma OnesOfBoth(e: Engine, old_: seq<Row>, new_: seq<Row>, keys: seq<string>)
    ensures NumberOnes(e, Tag(new_, 0) + Tag(old_, 1), keys) == Firsts(e, new_, keys) + OldOnes(e, old_, new_, keys)
  {
    var ones, firsts, olds :=
      NumberOnes(e, Tag(new_, 0) + Tag(old_, 1), keys), Firsts(e, new_, keys), OldOnes(e, old_, new_, keys);
    forall i | 0 <= i < |firsts| ensures ones[i] == firsts[i] {
      NewOne(e, old_, new_, keys, i);
    }
    forall j | 0 <= j < |olds| ensures ones[|firsts| + j] == olds[j] {
      OldOne(e, old_, new_, keys, j);
    }
    Pointwise(ones, firsts, olds);
  }

  /** How many of the first j old rows are untouched. */
  function UntouchedBefore(old_: seq<Row>, new_: seq<Row>, keys: seq<string>, j: nat): nat
    requires j <= |old_|
  {
    |Untouched(old_[..j], new_, keys)|
  }

  /** The flags of the old rows up to j pick what those of the untouched rows among them pick. */
  lemma {:induction false} PickedUntouched(
    e: Engine, old_: seq<Row>, new_: seq<Row>, keys: seq<string>, ones: seq<bool>, rest: seq<Row>,
    firsts: seq<bool>, j: nat)
    requires j <= |old_| && rest == Untouched(old_, new_, keys)
    requires ones == OldOnes(e, old_, new_, keys) && firsts == Firsts(e, rest, keys)
    ensures UntouchedBefore(old_, new_, keys, j) <= |rest|
    ensures var m := UntouchedBefore(old_, new_, keys, j);
            Picked(old_[..j], ones[..j]) == Picked(rest[..m], firsts[..m])
  {
    if j == 0 {
      assert old_[..0] == [];
    } else {
      PickedUntouched(e, old_, new_, keys, ones, rest, firsts, j - 1);
      NextUntouched(e, old_, new_, keys, ones, rest, firsts, j - 1);
    }
  }

  lemma NextUntouched(
    e: Engine, old_: seq<Row>, new_: seq<Row>, keys: seq<string>, ones: seq<bool>, rest: seq<Row>,
    firsts: seq<bool>, j: nat)
    requires j < |old_| && rest == Untouched(old_, new_, keys)
    requires ones == OldOnes(e, old_, new_, keys) && firsts == Firsts(e, rest, keys)
    requires UntouchedBefore(old_, new_, keys, j) <= |rest|
    requires var m := UntouchedBefore(old_, new_, keys, j);
             Picked(old_[..j], ones[..j]) == Picked(rest[..m], firsts[..m])
    ensures UntouchedBefore(old_, new_, keys, j + 1) <= |rest|
    ensures var m := UntouchedBefore(old_, new_, keys, j + 1);
            Picked(old_[..j + 1], ones[..j + 1]) == Picked(rest[..m], firsts[..m])
  {
    PickedSnoc(old_, ones, j);
    UntouchedAt(old_, new_, keys, j);
    if HasKey(new_, keys, KeyOf(old_[j], keys)) {
      assert Picked(old_[..j], ones[..j]) + [] == Picked(old_[..j], ones[..j]);
    } else {
      FirstAmongUntouched(e, old_, new_, keys, j);
      PickedSnoc(rest, firsts, UntouchedBefore(old_, new_, keys, j));
    }
  }

  /** The merge query gives one row per key of the new batch, then one per key only the old output has. */
  lemma MergeQueryIsAntiJoin(e: Engine, old_: seq<Row>, new_: seq<Row>, keys: seq<string>)
    ensures MergeRows(e, old_, new_, keys)
            == FirstPerKey(e, new_, keys) + FirstPerKey(e, Untouched(old_, new_, keys), keys)
  {
    var rest := Untouched(old_, new_, keys);
    var ones, firsts := OldOnes(e, old_, new_, keys), Firsts(e, rest, keys);
    OnesOfBoth(e, old_, new_, keys);
    PickedAppend(new_, old_, Firsts(e, new_, keys), ones);
    AllPicked(e, new_, keys);
    AllPicked(e, rest, keys);
    PickedUntouched(e, old_, new_, keys, ones, rest, firsts, |old_|);
    assert old_[..|old_|] == old_ && ones[..|old_|] == ones;
    assert rest[..|rest|] == rest && firsts[..|rest|] == firsts;
  }

  lemma AllPicked(e: Engine, rows: seq<Row>, keys: seq<string>)
    ensures Picked(rows, Firsts(e, rows, keys)) == FirstPerKey(e, rows, keys)
  {
    var firsts := Firsts(e, rows, keys);
    PickedFirsts(e, rows, keys, firsts, |rows|);
    assert rows[..|rows|] == rows && firsts[..|rows|] == firsts;
  }
}
