/**
 When a run starts over and when it builds on what is there: over undisturbed state it loses no part
 and no journal entry, with nothing new it changes nothing, and over disturbed state nothing of what
 was there matters.
 */
module Reruns {
  import opened Rows
  import opened Incremental
  import opened Recompute

  // ------------------------------------------------------ Journal and parts

  /** What is pending keeps the order of the listing. */
  lemma {:induction false} PendingKeepsOrder(known: map<string, string>, files: seq<InputFile>, i: nat, j: nat)
    returns (a: nat, b: nat)
    requires i < j < |Pending(known, files)|
    ensures a < b < |files| && files[a] == Pending(known, files)[i] && files[b] == Pending(known, files)[j]
  {
    var here := if files[0].key in known && known[files[0].key] == files[0].signature then 0 else 1;
    if i < here {
      a := 0;
      b := PlaceOf(known, files[1..], j - here);
      b := b + 1;
    } else {
      a, b := PendingKeepsOrder(known, files[1..], i - here, j - here);
      a, b := a + 1, b + 1;
    }
  }

  lemma {:induction false} PlaceOf(known: map<string, string>, files: seq<InputFile>, j: nat) returns (b: nat)
    requires j < |Pending(known, files)|
    ensures b < |files| && files[b] == Pending(known, files)[j]
  {
    var here := if files[0].key in known && known[files[0].key] == files[0].signature then 0 else 1;
    if j < here {
      b := 0;
    } else {
      b := PlaceOf(known, files[1..], j - here);
      b := b + 1;
    }
  }

  /** Marking files leaves the entries of all other files as they are. */
  lemma {:induction false} MarkedKeeps(known: map<string, string>, files: seq<InputFile>, k: string)
    requires k in known && forall f :: f in files ==> f.key != k
    ensures k in Marked(known, files) && Marked(known, files)[k] == known[k]
    decreases |files|
  {
    if files != [] {
      assert files[0] in files;
      MarkedKeeps(known[files[0].key := files[0].signature], files[1..], k);
    }
  }

  ghost predicate NamesDiffer(parts: seq<Part>) {
    forall i, j :: 0 <= i < j < |parts| ==> parts[i].name != parts[j].name
  }

  /** A part takes the place of the one of its name, and no other part is touched. */
  lemma {:induction false} PublishReplaces(parts: seq<Part>, part: Part, other: Part)
    requires NamesDiffer(parts)
    ensures other in Publish(parts, part) <==> other == part || (other in parts && other.name != part.name)
  {
    if parts != [] {
      assert NamesDiffer(parts[1..]);
      PublishReplaces(parts[1..], part, other);
      if parts[0].name == part.name {
        assert forall i :: 1 <= i < |parts| ==> parts[i].name != part.name;
        assert other in parts[1..] ==> other.name != part.name;
      }
    }
  }

  // ------------------------------------------------------ Undisturbed state

  /** Over undisturbed state what is pending are exactly the files the journal does not have. */
  lemma PendingIsUnknown(d: Durable, hash: string, files: seq<InputFile>, f: InputFile)
    requires Undisturbed(d, hash, files)
    ensures f in Pending(d.known, files) <==> f in files && f.key !in d.known
  {
    PendingMembers(d.known, files, f);
  }

  /** Every part is still there, but one published before under the name of the batch the run works on. */
  ghost predicate KeepsParts(d: Durable, d': Durable, files: seq<InputFile>) {
    d.output.Some? ==>
      && d'.output.Some?
      && forall part :: part in d.output.value && part.name != BatchPart(Pending(d.known, files)) ==>
           part in d'.output.value
  }

  ghost predicate KeepsJournal(d: Durable, d': Durable) {
    d'.specHash == d.specHash && forall k :: k in d.known ==> k in d'.known && d'.known[k] == d.known[k]
  }

  lemma {:induction false} PublishKeeps(parts: seq<Part>, part: Part, other: Part)
    requires other in parts && other.name != part.name
    ensures other in Publish(parts, part)
  {
    if parts[0].name != part.name && other != parts[0] {
      PublishKeeps(parts[1..], part, other);
    }
  }

  lemma MarkedKeepsJournal(d: Durable, hash: string, files: seq<InputFile>)
    requires Undisturbed(d, hash, files)
    ensures forall k :: k in d.known ==>
              k in Marked(d.known, Pending(d.known, files)) && Marked(d.known, Pending(d.known, files))[k] == d.known[k]
  {
    forall k | k in d.known
      ensures k in Marked(d.known, Pending(d.known, files))
      ensures Marked(d.known, Pending(d.known, files))[k] == d.known[k]
    {
      forall f | f in Pending(d.known, files) ensures f.key != k {
        PendingIsUnknown(d, hash, files, f);
      }
      MarkedKeeps(d.known, Pending(d.known, files), k);
    }
  }

  /**
   A run over undisturbed state, cut off anywhere, loses no journal entry, and in by_unit mode no part; in
   by_key mode the part is there as it was, or gone until the merged one is in its place.
   */
  lemma NothingIsLost(s: Setup, d: Durable, hash: string, files: seq<InputFile>, i: nat)
    requires Undisturbed(d, hash, files) && i < |RunStates(s, d, hash, files)|
    ensures var d' := RunStates(s, d, hash, files)[i];
            && KeepsJournal(d, d')
            && (s.job(hash).mode.ByUnit? || Pending(d.known, files) == [] ==> KeepsParts(d, d', files))
            && (!s.job(hash).mode.ByUnit? && d'.known != d.known ==> d'.output.Some? && |d'.output.value| == 1)
  {
    ResetIff(d, hash, files);
    MarkedKeepsJournal(d, hash, files);
    var pending, rows := Pending(d.known, files), s.execute(hash, Pending(d.known, files));
    if d.output.Some? && rows.Some? {
      forall part | part in d.output.value && part.name != BatchPart(pending)
        ensures part in Publish(d.output.value, Part(BatchPart(pending), rows.value))
      {
        PublishKeeps(d.output.value, Part(BatchPart(pending), rows.value), part);
      }
    }
  }

  /** A by_key run that has something to merge goes through a state without any output. */
  lemma OutputIsGoneBetween(s: Setup, d: Durable, hash: string, files: seq<InputFile>)
    requires Undisturbed(d, hash, files) && s.job(hash).mode.ByKey?
    requires Pending(d.known, files) != [] && s.execute(hash, Pending(d.known, files)).Some?
    ensures d.(output := None) in RunStates(s, d, hash, files)
  {
    ResetIff(d, hash, files);
    assert RunStates(s, d, hash, files)[1] == d.(output := None);
  }

  /** With every file journaled as it is, a run changes nothing; a missing output of nothing is made, empty. */
  lemma RerunChangesNothing(s: Setup, d: Durable, hash: string, files: seq<InputFile>, i: nat)
    requires Undisturbed(d, hash, files) && forall f :: f in files ==> f.key in d.known
    requires i < |RunStates(s, d, hash, files)|
    ensures Completes(s, d, hash, files)
    ensures d.output.Some? ==> RunStates(s, d, hash, files)[i] == d && Final(s, d, hash, files) == d
    ensures d.output.None? ==> Final(s, d, hash, files) == d.(output := Some([]))
  {
    ResetIff(d, hash, files);
    if Pending(d.known, files) != [] {
      PendingIsUnknown(d, hash, files, Pending(d.known, files)[0]);
    }
  }

  /** Over disturbed state a run ends as it would have with nothing there, and gets there when that does. */
  lemma DisturbedStartsOver(s: Setup, d: Durable, hash: string, files: seq<InputFile>)
    requires !Undisturbed(d, hash, files)
    ensures var nothing := Durable(Some(hash), map[], None);
            && Completes(s, d, hash, files) == Completes(s, nothing, hash, files)
            && Final(s, d, hash, files) == Final(s, nothing, hash, files)
            && RunStates(s, d, hash, files)[1] == d.(output := None) && RunStates(s, d, hash, files)[2] == nothing
  {
    var nothing := Durable(Some(hash), map[], None);
    ResetIff(d, hash, files);
    ResetIff(nothing, hash, files);
  }
}
