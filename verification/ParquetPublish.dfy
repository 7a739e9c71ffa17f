/**
 Concurrent writers of one unit's Parquet file: each writes a temporary file in pieces and then
 replaces the published file by it, retrying when the replace is denied.
 */
module ParquetPublish {
  import opened Rows

  const REPLACE_ATTEMPTS: nat := 5
  const REPLACE_BACKOFF_MS: nat := 50

  /** The writers of a unit, what each writes, and the name of its temporary file. */
  datatype Setup = Setup(writers: set<nat>, batch: nat -> seq<Row>, tmpName: nat -> string)

  datatype Phase =
    | Idle
    | Writing(done: nat)
    | Replacing(attempt: nat)
    | Cleaning(ok: bool)
    | Returned(ok: bool)
    | Dead

  datatype World = World(published: Option<seq<Row>>, temps: map<string, seq<Row>>, phases: map<nat, Phase>)

  datatype Label =
    | Open(w: nat)
    | Piece(w: nat, n: nat)
    | WriteFails(w: nat)
    | Finish(w: nat)
    | Replace(w: nat)
    | Denied(w: nat)
    | Unlink(w: nat)
    | Kill(w: nat)

  /** Data written at an offset of a file; a gap, left by someone truncating it, reads as garbage. */
  function WriteAt(file: seq<Row>, offset: nat, data: seq<Row>): seq<Row> {
    if offset > |file| then file + seq(offset - |file|, i => Row(map[])) + data
    else file[..offset] + data + (if offset + |data| < |file| then file[offset + |data|..] else [])
  }

  function Next(s: Setup, world: World, l: Label): Option<World> {
    if l.w !in world.phases then None
    else
      var w, tmp, phase := l.w, s.tmpName(l.w), world.phases[l.w];
      match (l, phase)
      case (Open(_), Idle) => Some(world.(temps := world.temps[tmp := []], phases := world.phases[w := Writing(0)]))
      case (Piece(_, n), Writing(done)) =>
        if done + n > |s.batch(w)| then None
        else
          var data := s.batch(w)[done..done + n];
          var temps :=
            if tmp in world.temps then world.temps[tmp := WriteAt(world.temps[tmp], done, data)] else world.temps;
          Some(world.(temps := temps, phases := world.phases[w := Writing(done + n)]))
      case (WriteFails(_), Writing(_)) => Some(world.(phases := world.phases[w := Cleaning(false)]))
      case (Finish(_), Writing(done)) =>
        if done == |s.batch(w)| then Some(world.(phases := world.phases[w := Replacing(0)])) else None
      case (Replace(_), Replacing(_)) =>
        if tmp in world.temps
        then Some(World(Some(world.temps[tmp]), world.temps - {tmp}, world.phases[w := Cleaning(true)]))
        else Some(world.(phases := world.phases[w := Cleaning(false)]))
      case (Denied(_), Replacing(attempt)) =>
        if attempt == REPLACE_ATTEMPTS - 1
        then Some(world.(phases := world.phases[w := Cleaning(false)]))
        else Some(world.(phases := world.phases[w := Replacing(attempt + 1)]))
      case (Unlink(_), Cleaning(ok)) =>
        Some(world.(temps := world.temps - {tmp}, phases := world.phases[w := Returned(ok)]))
      case (Kill(_), _) => if phase.Returned? then None else Some(world.(phases := world.phases[w := Dead]))
      case _ => None
  }

  function Exec(s: Setup, world: World, labels: seq<Label>): Option<World>
    decreases |labels|
  {
    if labels == [] then Some(world)
    else
      match Next(s, world, labels[0])
      case None => None
      case Some(world') => Exec(s, world', labels[1..])
  }

  function Init(s: Setup, published: Option<seq<Row>>): World {
    World(published, map[], map w | w in s.writers :: Idle)
  }

  // ------------------------------------------------------------------ Safety

  /** The published file is what it was before, or one writer's complete batch. */
  ghost predicate Intact(s: Setup, before: Option<seq<Row>>, published: Option<seq<Row>>) {
    published == before || exists w :: w in s.writers && published == Some(s.batch(w))
  }

  ghost predicate NamesDiffer(s: Setup) {
    forall v, w :: v in s.writers && w in s.writers && v != w ==> s.tmpName(v) != s.tmpName(w)
  }

  ghost predicate AllReturned(s: Setup, world: World) {
    forall w :: w in s.writers ==> w in world.phases && world.phases[w].Returned?
  }

  /** What a writer's temporary file holds in each phase. */
  ghost predicate TempOk(s: Setup, world: World, w: nat)
    requires w in world.phases
  {
    var tmp := s.tmpName(w);
    match world.phases[w]
    case Idle => tmp !in world.temps
    case Writing(done) => done <= |s.batch(w)| && tmp in world.temps && world.temps[tmp] == s.batch(w)[..done]
    case Replacing(attempt) =>
      attempt < REPLACE_ATTEMPTS && tmp in world.temps && world.temps[tmp] == s.batch(w)
    case Returned(_) => tmp !in world.temps
    case _ => true
  }

  ghost predicate Inv(s: Setup, before: Option<seq<Row>>, world: World) {
    && world.phases.Keys == s.writers
    && Intact(s, before, world.published)
    && (forall w :: w in s.writers ==> TempOk(s, world, w))
    && (forall name :: name in world.temps ==> exists w :: w in s.writers && s.tmpName(w) == name)
  }

  lemma PieceExtends(batch: seq<Row>, done: nat, n: nat)
    requires done + n <= |batch|
    ensures WriteAt(batch[..done], done, batch[done..done + n]) == batch[..done + n]
  {
  }

  /** A writer's own step keeps what its temporary file holds. */
  lemma OwnTemp(s: Setup, world: World, l: Label)
    requires l.w in world.phases && TempOk(s, world, l.w) && Next(s, world, l).Some?
    ensures TempOk(s, Next(s, world, l).value, l.w)
  {
    var w := l.w;
    if l.Piece? && world.phases[w].Writing? {
      PieceExtends(s.batch(w), world.phases[w].done, l.n);
    }
    if l.Finish? && world.phases[w].Writing? {
      assert s.batch(w)[..|s.batch(w)|] == s.batch(w);
    }
  }

  /** A step of another writer leaves it alone. */
  lemma OtherTemp(s: Setup, world: World, l: Label, v: nat)
    requires v in world.phases && TempOk(s, world, v) && Next(s, world, l).Some?
    requires v != l.w && s.tmpName(v) != s.tmpName(l.w)
    ensures v in Next(s, world, l).value.phases && TempOk(s, Next(s, world, l).value, v)
  {
  }

  lemma StepKeepsIntact(s: Setup, before: Option<seq<Row>>, world: World, l: Label)
    requires Inv(s, before, world) && Next(s, world, l).Some?
    ensures var world' := Next(s, world, l).value;
            && world'.phases.Keys == s.writers
            && Intact(s, before, world'.published)
            && (forall name :: name in world'.temps ==> exists w :: w in s.writers && s.tmpName(w) == name)
  {
    assert l.w in s.writers && TempOk(s, world, l.w);
  }

  lemma StepKeepsInv(s: Setup, before: Option<seq<Row>>, world: World, l: Label)
    requires NamesDiffer(s) && Inv(s, before, world) && Next(s, world, l).Some?
    ensures Inv(s, before, Next(s, world, l).value)
  {
    StepKeepsIntact(s, before, world, l);
    forall v | v in s.writers ensures TempOk(s, Next(s, world, l).value, v) {
      assert TempOk(s, world, v);
      if v == l.w {
        OwnTemp(s, world, l);
      } else {
        assert s.tmpName(v) != s.tmpName(l.w);
        OtherTemp(s, world, l, v);
      }
    }
  }

  /**
   In every interleaving of any number of writers, with denied replaces, failures and kills, the
   published file is at all times the old one or one writer's complete batch, and once every
   writer has returned no temporary file is left.
   */
  lemma {:induction false} PublishedIsIntact(s: Setup, before: Option<seq<Row>>, world: World, labels: seq<Label>)
    requires NamesDiffer(s) && Inv(s, before, world) && Exec(s, world, labels).Some?
    ensures var world' := Exec(s, world, labels).value;
            && Intact(s, before, world'.published)
            && (AllReturned(s, world') ==> world'.temps == map[])
    decreases |labels|
  {
    if labels == [] {
      if AllReturned(s, world) {
        forall w | w in s.writers ensures s.tmpName(w) !in world.temps {
          assert TempOk(s, world, w);
        }
        assert world.temps.Keys == {};
      }
    } else {
      StepKeepsInv(s, before, world, labels[0]);
      PublishedIsIntact(s, before, Next(s, world, labels[0]).value, labels[1..]);
    }
  }

  lemma {:induction false} StepsKeepInv(s: Setup, before: Option<seq<Row>>, world: World, labels: seq<Label>)
    requires NamesDiffer(s) && Inv(s, before, world) && Exec(s, world, labels).Some?
    ensures Inv(s, before, Exec(s, world, labels).value)
    decreases |labels|
  {
    if labels != [] {
      StepKeepsInv(s, before, world, labels[0]);
      StepsKeepInv(s, before, Next(s, world, labels[0]).value, labels[1..]);
    }
  }

  lemma InitInv(s: Setup, published: Option<seq<Row>>)
    ensures Inv(s, published, Init(s, published))
  {
  }

  /** Every interleaving from the start leaves an intact file. */
  ghost predicate AlwaysIntact(s: Setup, before: Option<seq<Row>>) {
    forall labels :: Exec(s, Init(s, before), labels).Some? ==>
                       Intact(s, before, Exec(s, Init(s, before), labels).value.published)
  }

  /** The interleaving that a shared temporary name breaks: opening it again empties it. */
  lemma SharedNamePublishesNothing(s: Setup, before: Option<seq<Row>>, v: nat, w: nat)
    requires v in s.writers && w in s.writers && v != w && s.tmpName(v) == s.tmpName(w)
    ensures var labels := [Open(v), Piece(v, |s.batch(v)|), Finish(v), Open(w), Replace(v)];
            Exec(s, Init(s, before), labels).Some? && Exec(s, Init(s, before), labels).value.published == Some([])
  {
    var labels := [Open(v), Piece(v, |s.batch(v)|), Finish(v), Open(w), Replace(v)];
    var w0 := Init(s, before);
    var w1 := Next(s, w0, Open(v)).value;
    var w2 := Next(s, w1, Piece(v, |s.batch(v)|)).value;
    var w3 := Next(s, w2, Finish(v)).value;
    var w4 := Next(s, w3, Open(w)).value;
    var w5 := Next(s, w4, Replace(v)).value;
    assert w4.temps[s.tmpName(v)] == [];
    ExecCons(s, w4, Replace(v), []);
    ExecCons(s, w3, Open(w), [Replace(v)]);
    ExecCons(s, w2, Finish(v), [Open(w), Replace(v)]);
    ExecCons(s, w1, Piece(v, |s.batch(v)|), [Finish(v), Open(w), Replace(v)]);
    ExecCons(s, w0, Open(v), [Piece(v, |s.batch(v)|), Finish(v), Open(w), Replace(v)]);
    assert labels == [Open(v)] + ([Piece(v, |s.batch(v)|)] + ([Finish(v)] + ([Open(w)] + ([Replace(v)] + []))));
  }

  lemma ExecCons(s: Setup, world: World, l: Label, rest: seq<Label>)
    requires Next(s, world, l).Some?
    ensures Exec(s, world, [l] + rest) == Exec(s, Next(s, world, l).value, rest)
  {
    assert ([l] + rest)[1..] == rest;
  }

  /** With batches that have rows, publishing is safe in every interleaving exactly when temp names differ. */
  lemma IntactIffNamesDiffer(s: Setup, before: Option<seq<Row>>)
    requires (forall w :: w in s.writers ==> s.batch(w) != []) && before != Some([])
    ensures AlwaysIntact(s, before) <==> NamesDiffer(s)
  {
    if NamesDiffer(s) {
      forall labels | Exec(s, Init(s, before), labels).Some?
        ensures Intact(s, before, Exec(s, Init(s, before), labels).value.published)
      {
        InitInv(s, before);
        PublishedIsIntact(s, before, Init(s, before), labels);
      }
    } else {
      var v, w :| v in s.writers && w in s.writers && v != w && s.tmpName(v) == s.tmpName(w);
      SharedNamePublishesNothing(s, before, v, w);
      var labels := [Open(v), Piece(v, |s.batch(v)|), Finish(v), Open(w), Replace(v)];
      assert !Intact(s, before, Exec(s, Init(s, before), labels).value.published);
    }
  }

  // ------------------------------------------------------------------ The methods

  /** The first of the attempts that is not denied. */
  function FirstGranted(denied: nat -> bool, from: nat): Option<nat>
    requires from <= REPLACE_ATTEMPTS
    decreases REPLACE_ATTEMPTS - from
  {
    if from == REPLACE_ATTEMPTS then None
    else if !denied(from) then Some(from)
    else FirstGranted(denied, from + 1)
  }

  /** Five attempts are made: the n-th is the first granted if all before it were denied, none if all five were. */
  lemma FirstGrantedIs(denied: nat -> bool, n: nat)
    ensures FirstGranted(denied, 0) == Some(n) <==> n < 5 && !denied(n) && forall i: nat :: i < n ==> denied(i)
    ensures FirstGranted(denied, 0).None? <==> forall i: nat :: i < 5 ==> denied(i)
  {
    FirstGrantedFrom(denied, 0, n);
  }

  lemma {:induction false} FirstGrantedFrom(denied: nat -> bool, from: nat, n: nat)
    requires from <= REPLACE_ATTEMPTS && n >= from
    ensures FirstGranted(denied, from) == Some(n) <==>
            n < REPLACE_ATTEMPTS && !denied(n) && forall i: nat :: from <= i < n ==> denied(i)
    ensures FirstGranted(denied, from).None? <==> forall i: nat :: from <= i < REPLACE_ATTEMPTS ==> denied(i)
    decreases REPLACE_ATTEMPTS - from
  {
    if from < REPLACE_ATTEMPTS && denied(from) {
      FirstGrantedFrom(denied, from + 1, if n > from then n else from + 1);
    }
  }

  /** The waits after the first n denied attempts, each one unit longer than the one before. */
  function Waits(n: nat): nat {
    if n == 0 then 0 else Waits(n - 1) + REPLACE_BACKOFF_MS * n
  }

  lemma {:induction false} WaitsAre(n: nat)
    ensures Waits(n) * 2 == REPLACE_BACKOFF_MS * (n * (n + 1)) && Waits(n) == 25 * (n * (n + 1))
  {
    if n > 0 {
      WaitsAre(n - 1);
      assert n * (n + 1) == (n - 1) * n + 2 * n;
    }
  }

  /** Steps of writers other than w. */
  predicate ByOthers(labels: seq<Label>, w: nat) {
    forall i :: 0 <= i < |labels| ==> labels[i].w != w
  }

  lemma {:induction false} OthersLeave(s: Setup, world: World, labels: seq<Label>, w: nat)
    requires ByOthers(labels, w) && w in world.phases && Exec(s, world, labels).Some?
    ensures var world' := Exec(s, world, labels).value;
            && w in world'.phases && world'.phases[w] == world.phases[w]
            && (world.phases.Keys == {w} ==> world' == world)
    decreases |labels|
  {
    if labels != [] {
      assert labels[0].w != w;
      OthersLeave(s, Next(s, world, labels[0]).value, labels[1..], w);
    }
  }

  lemma {:induction false} ExecAppend(s: Setup, world: World, a: seq<Label>, b: seq<Label>)
    requires Exec(s, world, a).Some?
    ensures Exec(s, world, a + b) == Exec(s, Exec(s, world, a).value, b)
    decreases |a|
  {
    if a == [] {
      assert a + b == b;
    } else {
      assert (a + b)[0] == a[0] && (a + b)[1..] == a[1..] + b;
      ExecAppend(s, Next(s, world, a[0]).value, a[1..], b);
    }
  }

  /** The directory all writers of a unit write to; `start` and `trail` are history. */
  class ParquetDir {
    const setup: Setup
    var world: World
    ghost const start: World
    ghost var trail: seq<Label>

    constructor (setup: Setup, published: Option<seq<Row>>)
      requires NamesDiffer(setup)
      ensures this.setup == setup && world == Init(setup, published) && Valid()
    {
      this.setup, this.world := setup, Init(setup, published);
      start, trail := Init(setup, published), [];
      InitInv(setup, published);
    }

    /** The world is where the steps taken so far lead. */
    ghost predicate Valid()
      reads this
    {
      NamesDiffer(setup) && Inv(setup, start.published, start) && Exec(setup, start, trail) == Some(world)
    }

    lemma InvHolds()
      requires Valid()
      ensures Inv(setup, start.published, world)
    {
      StepsKeepInv(setup, start.published, start, trail);
    }

    predicate In(w: nat, phase: Phase)
      reads this
    {
      w in world.phases && world.phases[w] == phase
    }

    predicate Alone(w: nat)
      reads this
    {
      world.phases.Keys == {w}
    }

    method Take(l: Label)
      requires Valid() && Next(setup, world, l).Some?
      modifies this
      ensures Valid() && trail == old(trail) + [l]
      ensures Next(setup, old(world), l) == Some(world)
    {
      ExecAppend(setup, start, trail, [l]);
      assert [l][1..] == [];
      trail := trail + [l];
      world := Next(setup, world, l).value;
    }

    /** Any number of steps of other writers. */
    method Others(w: nat)
      requires Valid() && w in world.phases
      modifies this
      ensures Valid() && old(trail) <= trail
      ensures In(w, old(world.phases[w])) && (old(Alone(w)) ==> world == old(world))
    {
      var labels: seq<Label> := *;
      if ByOthers(labels, w) && Exec(setup, world, labels).Some? {
        OthersLeave(setup, world, labels, w);
        ExecAppend(setup, start, trail, labels);
        trail := trail + labels;
        world := Exec(setup, world, labels).value;
      }
    }

    method OpenTemp(w: nat)
      requires Valid() && In(w, Idle)
      modifies this
      ensures Valid() && old(trail) <= trail && In(w, Writing(0))
      ensures old(Alone(w)) ==> Alone(w)
      ensures world.published == old(world.published)
    {
      Take(Open(w));
    }

    /** The finally block: the temporary file is removed, if it is still there. */
    method RemoveTemp(w: nat, ok: bool)
      requires Valid() && In(w, Cleaning(ok))
      modifies this
      ensures Valid() && old(trail) <= trail && In(w, Returned(ok)) && setup.tmpName(w) !in world.temps
      ensures world.published == old(world.published) && Intact(setup, start.published, world.published)
    {
      Take(Unlink(w));
      InvHolds();
    }

    /** One more piece of the temporary file. */
    method WritePiece(w: nat, done: nat, n: nat)
      requires Valid() && In(w, Writing(done)) && done + n <= |setup.batch(w)|
      modifies this
      ensures Valid() && old(trail) <= trail && In(w, Writing(done + n))
      ensures old(Alone(w)) ==> Alone(w)
      ensures world.published == old(world.published)
    {
      Take(Piece(w, n));
    }

    /** One attempt to replace the published file by the temporary one. */
    method TryReplace(w: nat, attempt: nat, denied: bool)
      requires Valid() && In(w, Replacing(attempt))
      modifies this
      ensures Valid() && old(trail) <= trail
      ensures In(w, if !denied then Cleaning(true)
                    else if attempt == REPLACE_ATTEMPTS - 1 then Cleaning(false) else Replacing(attempt + 1))
      ensures !denied ==> world.published == Some(setup.batch(w))
      ensures old(Alone(w)) ==> Alone(w) && (denied ==> world.published == old(world.published))
    {
      Others(w);
      InvHolds();
      assert TempOk(setup, world, w);
      Take(if denied then Denied(w) else Replace(w));
    }

    /**
     os.replace, retried while it is denied: the file is replaced at the first attempt that is
     granted among five, the waits before it adding up to 50 * (1 + ... + attempt) milliseconds.
     */
    method ReplaceWithRetry(w: nat, denied: nat -> bool) returns (replaced: bool, sleptMs: nat)
      requires Valid() && In(w, Replacing(0))
      modifies this
      ensures Valid() && old(trail) <= trail && In(w, Cleaning(replaced))
      ensures replaced <==> FirstGranted(denied, 0).Some?
      ensures replaced <==> exists i: nat :: i < 5 && !denied(i)
      ensures replaced ==> exists n: nat ::
                n < 5 && !denied(n) && (forall i: nat :: i < n ==> denied(i)) && sleptMs == 25 * (n * (n + 1))
      ensures !replaced ==> sleptMs == 25 * (4 * 5)
      ensures replaced ==> world.published == Some(setup.batch(w))
      ensures old(Alone(w)) ==> Alone(w) && (!replaced ==> world.published == old(world.published))
      ensures sleptMs == Waits(if replaced then FirstGranted(denied, 0).value else REPLACE_ATTEMPTS - 1)
    {
      var attempt := 0;
      sleptMs := 0;
      FirstGrantedIs(denied, 0);
      ghost var alone := Alone(w);
      while true
        invariant 0 <= attempt < REPLACE_ATTEMPTS
        invariant Valid() && old(trail) <= trail && In(w, Replacing(attempt))
        invariant alone ==> Alone(w) && world.published == old(world.published)
        invariant FirstGranted(denied, 0) == FirstGranted(denied, attempt) && sleptMs == Waits(attempt)
        decreases REPLACE_ATTEMPTS - attempt
      {
        TryReplace(w, attempt, denied(attempt));
        WaitsAre(attempt);
        if !denied(attempt) {
          FirstGrantedIs(denied, attempt);
          return true, sleptMs;
        }
        if attempt == REPLACE_ATTEMPTS - 1 {
          return false, sleptMs;
        }
        sleptMs := Wait(attempt, sleptMs);
        attempt := attempt + 1;
      }
    }

    method Wait(attempt: nat, sleptMs: nat) returns (sum: nat)
      requires sleptMs == Waits(attempt)
      ensures sum == Waits(attempt + 1)
    {
      sum := sleptMs + REPLACE_BACKOFF_MS * (attempt + 1);
    }

    /** The batch goes to the temporary file in pieces of any size, if it can be written at all. */
    method WriteTemp(w: nat, complete: bool)
      requires Valid() && In(w, Writing(0))
      modifies this
      ensures Valid() && old(trail) <= trail
      ensures In(w, if complete then Replacing(0) else Cleaning(false))
      ensures old(Alone(w)) ==> Alone(w) && world.published == old(world.published)
    {
      var done, size := 0, |setup.batch(w)|;
      while done < size
        invariant done <= size
        invariant Valid() && old(trail) <= trail && In(w, Writing(done))
        invariant old(Alone(w)) ==> Alone(w) && world.published == old(world.published)
        decreases size - done
      {
        Others(w);
        var fails := Strikes(!complete);
        if fails {
          break;
        }
        assert done + 1 <= size;
        var n: nat :| 0 < n && done + n <= size;
        WritePiece(w, done, n);
        done := done + n;
      }
      Others(w);
      if complete {
        Take(Finish(w));
      } else {
        Take(WriteFails(w));
      }
    }

    /**
     `complete` tells whether the batch can be written to its temporary file at all. Every step is one
     of the protocol, other writers taking any steps in between. Whatever happens, the temporary file
     is gone afterwards; the batch is published or nothing is.
     */
    method Write(w: nat, complete: bool, denied: nat -> bool) returns (ok: bool)
      requires Valid() && In(w, Idle)
      modifies this
      ensures Valid() && old(trail) <= trail && In(w, Returned(ok))
      ensures setup.tmpName(w) !in world.temps
      ensures ok <==> complete && FirstGranted(denied, 0).Some?
      ensures Intact(setup, start.published, world.published)
      ensures old(Alone(w)) ==> world.published == if ok then Some(setup.batch(w)) else old(world.published)
    {
      OpenTemp(w);
      WriteTemp(w, complete);
      ok := false;
      if complete {
        var sleptMs;
        ok, sleptMs := ReplaceWithRetry(w, denied);
      }
      Others(w);
      RemoveTemp(w, ok);
    }
  }
}
