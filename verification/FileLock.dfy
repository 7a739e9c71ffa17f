/** A lock file created with O_EXCL, shared by any number of processes. */
module FileLock {
  import opened Rows

  // ------------------------------------------------------------------ Acquire

  function Pow2(n: nat): nat {
    if n == 0 then 1 else 2 * Pow2(n - 1)
  }

  /** The sleep after failed open number `attempt`, counted from zero. */
  function Delay(backoff: real, attempt: nat): real {
    backoff * (Pow2(attempt) as real)
  }

  /** The sleeps after the first n failed opens, each twice the one before. */
  function TotalSleep(backoff: real, n: nat): real {
    if n == 0 then 0.0 else TotalSleep(backoff, n - 1) + Delay(backoff, n - 1)
  }

  lemma Distributes(x: real, a: real, b: real)
    ensures x * (a + b) == x * a + x * b
  {
  }

  lemma {:induction false} TotalSleepIs(backoff: real, n: nat)
    ensures TotalSleep(backoff, n) == backoff * ((Pow2(n) - 1) as real)
  {
    if n > 0 {
      TotalSleepIs(backoff, n - 1);
      var p: int := Pow2(n - 1);
      assert (Pow2(n) - 1) as real == (p - 1) as real + p as real;
      Distributes(backoff, (p - 1) as real, p as real);
    }
  }

  // ------------------------------------------------------------------ Protocol

  /**
   Where a process is: opening, between creating the file and returning from acquire, holding the
   lock, between the unlink and the end of release, or dead.
   */
  datatype Phase = Outside | Opening(attempt: nat) | Creating | Holding | Unlinked | Dead

  datatype World = World(fileExists: bool, phases: map<nat, Phase>)

  datatype Label =
    | Begin(p: nat)
    | Open(p: nat)
    | WritePid(p: nat)
    | WriteFails(p: nat)
    | Unlink(p: nat)
    | Clear(p: nat)
    | Kill(p: nat)

  function Next(attempts: nat, w: World, l: Label): Option<World> {
    if l.p !in w.phases then None
    else
      var p, phase := l.p, w.phases[l.p];
      match (l, phase)
      case (Begin(_), Outside) => Some(w.(phases := w.phases[p := Opening(0)]))
      case (Open(_), Opening(attempt)) =>
        if !w.fileExists then Some(World(true, w.phases[p := Creating]))
        else if attempt + 1 >= attempts then Some(w.(phases := w.phases[p := Outside]))
        else Some(w.(phases := w.phases[p := Opening(attempt + 1)]))
      case (WritePid(_), Creating) => Some(w.(phases := w.phases[p := Holding]))
      // the file stays although acquire raised: nobody holds the lock and nobody can take it
      case (WriteFails(_), Creating) => Some(w.(phases := w.phases[p := Outside]))
      case (Unlink(_), Holding) => Some(World(false, w.phases[p := Unlinked]))
      case (Clear(_), Unlinked) => Some(w.(phases := w.phases[p := Outside]))
      case (Kill(_), _) => if phase.Dead? then None else Some(w.(phases := w.phases[p := Dead]))
      case _ => None
  }

  function Exec(attempts: nat, w: World, labels: seq<Label>): Option<World>
    decreases |labels|
  {
    if labels == [] then Some(w)
    else
      match Next(attempts, w, labels[0])
      case None => None
      case Some(w') => Exec(attempts, w', labels[1..])
  }

  predicate Owns(phase: Phase) {
    phase.Creating? || phase.Holding?
  }

  /** At most one process is between creating the file and unlinking it, and the file is there then. */
  ghost predicate Exclusive(w: World) {
    && (forall p, q :: p in w.phases && q in w.phases && Owns(w.phases[p]) && Owns(w.phases[q]) ==> p == q)
    && (forall p :: p in w.phases && Owns(w.phases[p]) ==> w.fileExists)
  }

  /** Over any processes, interleavings, failures and kills at most one process holds the lock. */
  lemma {:induction false} LockIsExclusive(attempts: nat, w: World, labels: seq<Label>)
    requires Exclusive(w) && Exec(attempts, w, labels).Some?
    ensures Exclusive(Exec(attempts, w, labels).value)
    decreases |labels|
  {
    if labels != [] {
      LockIsExclusive(attempts, Next(attempts, w, labels[0]).value, labels[1..]);
    }
  }

  /** The file is there but no live process will unlink it. */
  ghost predicate Stale(w: World) {
    w.fileExists && forall p :: p in w.phases ==> !Owns(w.phases[p])
  }

  /**
   A process killed between creating and unlinking the file, or failing to write it, leaves the lock
   stale, and then no process ever acquires it again, whatever happens.
   */
  lemma {:induction false} StaleLockIsNeverTaken(attempts: nat, w: World, labels: seq<Label>)
    requires Stale(w) && Exec(attempts, w, labels).Some?
    ensures Stale(Exec(attempts, w, labels).value)
    decreases |labels|
  {
    if labels != [] {
      StaleLockIsNeverTaken(attempts, Next(attempts, w, labels[0]).value, labels[1..]);
    }
  }

  /** The lock becomes stale exactly when its owner dies or fails before unlinking it. */
  lemma BecomesStaleIff(attempts: nat, w: World, l: Label)
    requires Exclusive(w) && !Stale(w) && Next(attempts, w, l).Some?
    ensures Stale(Next(attempts, w, l).value) <==>
            Owns(w.phases[l.p]) && (l.Kill? || l.WriteFails?)
  {
    var w' := Next(attempts, w, l).value;
    if Owns(w.phases[l.p]) && (l.Kill? || l.WriteFails?) {
      forall q | q in w'.phases ensures !Owns(w'.phases[q]) {
        assert Owns(w.phases[l.p]) && q in w.phases;
      }
    } else if Owns(w.phases[l.p]) {
      assert l.Unlink? || Owns(w'.phases[l.p]);
    } else if q :| q in w.phases && Owns(w.phases[q]) {
      assert q in w'.phases && Owns(w'.phases[q]);
    } else {
      assert w'.fileExists ==> Owns(w'.phases[l.p]);
    }
  }

  // ------------------------------------------------------------------ The methods

  /** Steps of processes other than p. */
  predicate ByOthers(labels: seq<Label>, p: nat) {
    forall i :: 0 <= i < |labels| ==> labels[i].p != p
  }

  lemma {:induction false} OthersLeave(attempts: nat, w: World, labels: seq<Label>, p: nat)
    requires ByOthers(labels, p) && p in w.phases && Exec(attempts, w, labels).Some?
    ensures p in Exec(attempts, w, labels).value.phases
    ensures Exec(attempts, w, labels).value.phases[p] == w.phases[p]
    decreases |labels|
  {
    if labels != [] {
      assert labels[0].p != p;
      OthersLeave(attempts, Next(attempts, w, labels[0]).value, labels[1..], p);
    }
  }

  lemma {:induction false} ExecAppend(attempts: nat, w: World, a: seq<Label>, b: seq<Label>)
    requires Exec(attempts, w, a).Some?
    ensures Exec(attempts, w, a + b) == Exec(attempts, Exec(attempts, w, a).value, b)
    decreases |a|
  {
    if a == [] {
      assert a + b == b;
    } else {
      assert (a + b)[0] == a[0] && (a + b)[1..] == a[1..] + b;
      ExecAppend(attempts, Next(attempts, w, a[0]).value, a[1..], b);
    }
  }

  /** The path of the lock file and the processes that use it; `start` and `trail` are history. */
  class Path {
    const attempts: nat
    var world: World
    ghost const start: World
    ghost var trail: seq<Label>

    constructor (attempts: nat, world: World)
      ensures this.attempts == attempts && this.world == world && Valid() && trail == []
    {
      this.attempts, this.world := attempts, world;
      start, trail := world, [];
    }

    /** The world is where the steps taken so far lead. */
    ghost predicate Valid()
      reads this
    {
      Exec(attempts, start, trail) == Some(world)
    }

    method Take(l: Label)
      requires Valid() && Next(attempts, world, l).Some?
      modifies this
      ensures Valid() && trail == old(trail) + [l]
      ensures Next(attempts, old(world), l) == Some(world)
    {
      ExecAppend(attempts, start, trail, [l]);
      assert [l][1..] == [];
      trail := trail + [l];
      world := Next(attempts, world, l).value;
    }

    /** Any number of steps of other processes. */
    method Others(p: nat)
      requires Valid() && p in world.phases
      modifies this
      ensures Valid() && old(trail) <= trail
      ensures p in world.phases && world.phases[p] == old(world.phases[p])
    {
      var labels: seq<Label> := *;
      if ByOthers(labels, p) && Exec(attempts, world, labels).Some? {
        OthersLeave(attempts, world, labels, p);
        ExecAppend(attempts, start, trail, labels);
        trail := trail + labels;
        world := Exec(attempts, world, labels).value;
      }
    }
  }

  datatype Outcome = Acquired | Conflict | WriteFailed

  class FileLock {
    const path: Path
    const p: nat
    const backoff: real
    var held: bool

    /** Rejects fewer than one attempt and a negative backoff. */
    constructor (path: Path, p: nat, backoff: real)
      requires path.attempts >= 1 && backoff >= 0.0
      ensures this.path == path && this.p == p && this.backoff == backoff && !held
    {
      this.path, this.p, this.backoff, held := path, p, backoff, false;
    }

    /** The phase of the process, if it takes part. */
    predicate In(phase: Phase)
      reads path
    {
      p in path.world.phases && path.world.phases[p] == phase
    }

    /**
     Every step is one of the protocol, the other processes taking any steps in between. `found` tells
     what each open found: all but the last found the file there, and the last one only if all
     attempts did. One sleep per failed open, each twice the one before, but none after the last: so
     failing takes exactly `attempts` opens and backoff * (2^(attempts-1) - 1) of sleep. When `mayFail`
     holds writing the file may fail once it was created, and then the file stays.
     */
    method Acquire(mayFail: bool) returns (outcome: Outcome, slept: real, ghost found: seq<bool>)
      requires path.attempts >= 1 && path.Valid() && In(Outside)
      modifies this`held, path
      ensures path.Valid() && old(path.trail) <= path.trail
      ensures 0 < |found| <= path.attempts && forall i :: 0 <= i < |found| - 1 ==> found[i]
      ensures outcome.Conflict? <==> found[|found| - 1]
      ensures outcome.Conflict? ==> |found| == path.attempts
      ensures outcome.WriteFailed? ==> mayFail
      ensures In(if outcome.Acquired? then Holding else Outside)
      ensures held == (outcome.Acquired? || old(held))
      ensures slept == backoff * ((Pow2(|found| - 1) - 1) as real)
    {
      outcome, slept, found := OpenUntilFree(mayFail);
      TotalSleepIs(backoff, |found| - 1);
    }

    /** The loop of acquire, with its sleeps added up one by one. */
    method OpenUntilFree(mayFail: bool) returns (outcome: Outcome, slept: real, ghost found: seq<bool>)
      requires path.attempts >= 1 && path.Valid() && In(Outside)
      modifies this`held, path
      ensures path.Valid() && old(path.trail) <= path.trail
      ensures 0 < |found| <= path.attempts && forall i :: 0 <= i < |found| - 1 ==> found[i]
      ensures outcome.Conflict? <==> found[|found| - 1]
      ensures outcome.Conflict? ==> |found| == path.attempts
      ensures outcome.WriteFailed? ==> mayFail
      ensures In(if outcome.Acquired? then Holding else Outside)
      ensures held == (outcome.Acquired? || old(held))
      ensures slept == TotalSleep(backoff, |found| - 1)
    {
      path.Take(Begin(p));
      slept, found := 0.0, [];
      var attempt := 0;
      while true
        invariant path.Valid() && old(path.trail) <= path.trail
        invariant 0 <= attempt < path.attempts && In(Opening(attempt)) && held == old(held)
        invariant |found| == attempt && forall i :: 0 <= i < attempt ==> found[i]
        invariant slept == TotalSleep(backoff, attempt)
        decreases path.attempts - attempt
      {
        path.Others(p);
        var busy := path.world.fileExists;
        found := found + [busy];
        path.Take(Open(p));
        if !busy {
          outcome := WritePid(mayFail);
          return;
        }
        if attempt == path.attempts - 1 {
          return Conflict, slept, found;
        }
        slept := slept + Delay(backoff, attempt);
        attempt := attempt + 1;
      }
    }

    /** The file is created: write the process id into it. */
    method WritePid(mayFail: bool) returns (outcome: Outcome)
      requires path.Valid() && In(Creating)
      modifies this`held, path
      ensures path.Valid() && old(path.trail) <= path.trail
      ensures In(if outcome.Acquired? then Holding else Outside) && held == (outcome.Acquired? || old(held))
      ensures !outcome.Conflict? && (outcome.WriteFailed? ==> mayFail)
    {
      path.Others(p);
      var fails := Strikes(mayFail);
      if fails {
        path.Take(WriteFails(p));
        return WriteFailed;
      }
      path.Take(Label.WritePid(p));
      held := true;
      outcome := Acquired;
    }

    /** Unlink the file, unless the lock is not held, and forget it. */
    method Release()
      requires path.Valid() && (held ==> In(Holding))
      modifies this`held, path
      ensures path.Valid() && old(path.trail) <= path.trail && !held
      ensures if old(held) then In(Outside) else path.world == old(path.world)
    {
      if held {
        path.Others(p);
        path.Take(Unlink(p));
        path.Others(p);
        path.Take(Clear(p));
        held := false;
      }
    }
  }
}
