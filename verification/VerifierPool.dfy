/** Verifying distinct fingerprints concurrently: a semaphore, at most two attempts each, results on disk. */
module VerifierPool {
  import opened Git
  import opened Options

  /** A JSON reward value. */
  datatype Value = Number(value: real) | Boolean(holds: bool) | OtherValue

  type Rewards = map<string, Value>

  datatype Verdict = Verdict(status: string, rewards: Option<Rewards>, retryable: bool)

  /** What a trial contributes to its fingerprints; digests are injective, so they stand for what they digest. */
  datatype Context = Context(
    taskChecksum: string, taskConfig: string, baseCommit: string, verifierConfig: string, buildContext: string)

  /** `release` holds the schema versions and the Pier version of the scorer. */
  datatype Fingerprint = Fingerprint(release: string, context: Context, patch: Patch)

  /** One deduplicated verification; its record goes to `trial`/patch-scores/results/`id`. */
  datatype Work = Work(id: string, fingerprint: Fingerprint, trial: string)

  datatype StoredFingerprint = NoObject | ForeignObject | Known(fingerprint: Fingerprint)

  datatype Record = Record(
    fingerprintId: string, fingerprint: StoredFingerprint, status: string, rewards: Option<Rewards>,
    sourceTrial: string)

  datatype ResultFile = Unparsable | NotARecord | Stored(record: Record)

  /** result.json files by trial directory and result directory. */
  type Disk = map<(string, string), ResultFile>

  /** The verifier's answer to the n-th attempt on a fingerprint. */
  type Verifier = (Fingerprint, nat) -> Verdict

  const MAX_VERIFY_ATTEMPTS: nat := 2

  // --------------------------------------------------------- one fingerprint alone

  predicate Conclusive(v: Verdict) {
    v.status == "success" || !v.retryable
  }

  /** The verdict that stands when verification starts at the given attempt and nothing else runs. */
  function AttemptFrom(verify: Verifier, fp: Fingerprint, attempt: nat): Verdict
    requires attempt <= MAX_VERIFY_ATTEMPTS
    decreases MAX_VERIFY_ATTEMPTS - attempt
  {
    var v := verify(fp, attempt);
    if Conclusive(v) || attempt == MAX_VERIFY_ATTEMPTS then v else AttemptFrom(verify, fp, attempt + 1)
  }

  function LastAttempt(verify: Verifier, fp: Fingerprint, attempt: nat): (last: nat)
    requires attempt <= MAX_VERIFY_ATTEMPTS
    ensures attempt <= last <= MAX_VERIFY_ATTEMPTS
    decreases MAX_VERIFY_ATTEMPTS - attempt
  {
    if Conclusive(verify(fp, attempt)) || attempt == MAX_VERIFY_ATTEMPTS then attempt
    else LastAttempt(verify, fp, attempt + 1)
  }

  function Alone(verify: Verifier, fp: Fingerprint): Verdict { AttemptFrom(verify, fp, 1) }
  function Attempts(verify: Verifier, fp: Fingerprint): nat { LastAttempt(verify, fp, 1) }

  /** There is a second attempt exactly when the first failed in a way worth retrying, and the last one stands. */
  lemma SecondAttemptIff(verify: Verifier, fp: Fingerprint)
    ensures Attempts(verify, fp) in {1, 2}
    ensures Attempts(verify, fp) == 2 <==> verify(fp, 1).status != "success" && verify(fp, 1).retryable
    ensures Alone(verify, fp) == verify(fp, Attempts(verify, fp))
  {
    if !Conclusive(verify(fp, 1)) {
      assert AttemptFrom(verify, fp, 2) == verify(fp, 2) && LastAttempt(verify, fp, 2) == 2;
    }
  }

  function RecordOf(w: Work, v: Verdict): Record {
    Record(w.id, Known(w.fingerprint), v.status, v.rewards, w.trial)
  }

  function Place(w: Work): (string, string) { (w.trial, w.id) }

  // ------------------------------------------------------------------ the call log

  type Log = seq<(Fingerprint, nat)>

  /** The attempts made on one fingerprint, in call order. */
  function CallsFor(log: Log, fp: Fingerprint): seq<nat> {
    if log == [] then []
    else CallsFor(log[..|log| - 1], fp) + if log[|log| - 1].0 == fp then [log[|log| - 1].1] else []
  }

  function UpTo(n: nat): seq<nat> { seq(n, i => i + 1) }

  // ------------------------------------------------------------------ pool states

  /** A coroutine: queued at the semaphore, holding it after some attempts, or finished. */
  datatype Task =
    | Waiting
    | Holding(tried: nat)
    | Finished(verdict: Verdict, attempts: nat)

  function Tried(t: Task): nat {
    match t
    case Waiting => 0
    case Holding(tried) => tried
    case Finished(_, attempts) => attempts
  }

  function Holders(tasks: seq<Task>): nat {
    if tasks == [] then 0 else (if tasks[0].Holding? then 1 else 0) + Holders(tasks[1..])
  }

  function StepsLeft(t: Task): int {
    match t
    case Waiting => MAX_VERIFY_ATTEMPTS + 1
    case Holding(tried) => MAX_VERIFY_ATTEMPTS - tried
    case Finished(_, _) => 0
  }

  function AllStepsLeft(tasks: seq<Task>): int {
    if tasks == [] then 0 else StepsLeft(tasks[0]) + AllStepsLeft(tasks[1..])
  }

  /** Different works have different fingerprints and write to different files. */
  ghost predicate Distinct(works: seq<Work>) {
    forall i, j :: 0 <= i < j < |works| ==>
      works[i].fingerprint != works[j].fingerprint && Place(works[i]) != Place(works[j])
  }

  /** What a task has done so far is what verifying its fingerprint alone would have done. */
  predicate TaskFits(verify: Verifier, fp: Fingerprint, t: Task) {
    match t
    case Waiting => true
    case Holding(tried) =>
      && tried < MAX_VERIFY_ATTEMPTS
      && AttemptFrom(verify, fp, tried + 1) == Alone(verify, fp)
      && LastAttempt(verify, fp, tried + 1) == Attempts(verify, fp)
    case Finished(verdict, attempts) => verdict == Alone(verify, fp) && attempts == Attempts(verify, fp)
  }

  ghost predicate Written(works: seq<Work>, tasks: seq<Task>, place: (string, string))
    requires |tasks| == |works|
  {
    exists i :: 0 <= i < |works| && tasks[i].Finished? && place == Place(works[i])
  }

  /** Each finished task has its record on disk and no other file changed. */
  ghost predicate DiskFits(works: seq<Work>, tasks: seq<Task>, before: Disk, disk: Disk)
    requires |tasks| == |works|
  {
    && (forall i :: 0 <= i < |works| && tasks[i].Finished? ==>
          Place(works[i]) in disk && disk[Place(works[i])] == Stored(RecordOf(works[i], tasks[i].verdict)))
    && (forall place :: !Written(works, tasks, place) ==>
          (place in disk <==> place in before) && (place in disk ==> disk[place] == before[place]))
  }

  /** The log holds, per fingerprint, exactly the attempts its task has made; nothing else was verified. */
  ghost predicate LogFits(works: seq<Work>, tasks: seq<Task>, log: Log)
    requires |tasks| == |works|
  {
    && (forall i :: 0 <= i < |works| ==> CallsFor(log, works[i].fingerprint) == UpTo(Tried(tasks[i])))
    && (forall fp :: (forall i :: 0 <= i < |works| ==> works[i].fingerprint != fp) ==> CallsFor(log, fp) == [])
  }

  // -------------------------------------------------------------------- bookkeeping

  lemma {:induction false} TotalsUpdate(tasks: seq<Task>, i: nat, t: Task)
    requires i < |tasks|
    ensures Holders(tasks[i := t]) ==
            Holders(tasks) + (if t.Holding? then 1 else 0) - (if tasks[i].Holding? then 1 else 0)
    ensures AllStepsLeft(tasks[i := t]) == AllStepsLeft(tasks) + StepsLeft(t) - StepsLeft(tasks[i])
    decreases i
  {
    var updated := tasks[i := t];
    if i == 0 {
      assert updated[1..] == tasks[1..];
    } else {
      TotalsUpdate(tasks[1..], i - 1, t);
      assert updated[1..] == tasks[1..][i - 1 := t];
    }
  }

  /** While the semaphore is exhausted someone holds it, so some coroutine can always move. */
  lemma {:induction false} HoldersExist(tasks: seq<Task>)
    requires Holders(tasks) > 0
    ensures exists i :: 0 <= i < |tasks| && tasks[i].Holding?
  {
    if !tasks[0].Holding? {
      HoldersExist(tasks[1..]);
      var i :| 0 <= i < |tasks[1..]| && tasks[1..][i].Holding?;
      assert tasks[i + 1].Holding?;
    }
  }

  lemma {:induction false} NobodyHolds(tasks: seq<Task>)
    requires forall i :: 0 <= i < |tasks| ==> tasks[i].Waiting?
    ensures Holders(tasks) == 0
  {
    if tasks != [] {
      NobodyHolds(tasks[1..]);
    }
  }

  lemma {:induction false} StepsAreLeft(verify: Verifier, works: seq<Work>, tasks: seq<Task>)
    requires |tasks| == |works|
    requires forall i :: 0 <= i < |works| ==> TaskFits(verify, works[i].fingerprint, tasks[i])
    ensures AllStepsLeft(tasks) >= 0
  {
    if tasks != [] {
      assert forall i :: 0 <= i < |works[1..]| ==>
          works[1..][i] == works[i + 1] && tasks[1..][i] == tasks[i + 1];
      StepsAreLeft(verify, works[1..], tasks[1..]);
      assert TaskFits(verify, works[0].fingerprint, tasks[0]);
    }
  }

  lemma LogGrows(works: seq<Work>, tasks: seq<Task>, log: Log, i: nat, t: Task)
    requires |tasks| == |works| && Distinct(works) && LogFits(works, tasks, log)
    requires i < |works| && Tried(t) == Tried(tasks[i]) + 1
    ensures LogFits(works, tasks[i := t], log + [(works[i].fingerprint, Tried(t))])
  {
    var call := (works[i].fingerprint, Tried(t));
    var grown := log + [call];
    assert grown[..|grown| - 1] == log;
    assert forall fp :: CallsFor(grown, fp) == CallsFor(log, fp) + if call.0 == fp then [call.1] else [];
    assert UpTo(Tried(t)) == UpTo(Tried(tasks[i])) + [Tried(t)];
  }

  lemma DiskGrows(works: seq<Work>, tasks: seq<Task>, before: Disk, disk: Disk, i: nat, t: Task)
    requires |tasks| == |works| && Distinct(works) && DiskFits(works, tasks, before, disk)
    requires i < |works| && t.Finished? && !tasks[i].Finished?
    ensures DiskFits(works, tasks[i := t], before, disk[Place(works[i]) := Stored(RecordOf(works[i], t.verdict))])
  {
    hide RecordOf;
    var updated := tasks[i := t];
    var disk' := disk[Place(works[i]) := Stored(RecordOf(works[i], t.verdict))];
    forall k | 0 <= k < |works| && updated[k].Finished?
      ensures Place(works[k]) in disk' && disk'[Place(works[k])] == Stored(RecordOf(works[k], updated[k].verdict))
    {
      if k != i {
        assert Place(works[k]) != Place(works[i]);
      }
    }
    assert updated[i].Finished?;
    assert Written(works, updated, Place(works[i]));
    forall place | Written(works, tasks, place) ensures Written(works, updated, place) {
      var k :| 0 <= k < |works| && tasks[k].Finished? && place == Place(works[k]);
      assert updated[k].Finished?;
    }
  }

  lemma DiskStays(works: seq<Work>, tasks: seq<Task>, before: Disk, disk: Disk, i: nat, t: Task)
    requires |tasks| == |works| && DiskFits(works, tasks, before, disk)
    requires i < |works| && !t.Finished? && !tasks[i].Finished?
    ensures DiskFits(works, tasks[i := t], before, disk)
  {
    hide RecordOf;
    var updated := tasks[i := t];
    forall place | Written(works, tasks, place) ensures Written(works, updated, place) {
      var k :| 0 <= k < |works| && tasks[k].Finished? && place == Place(works[k]);
      assert updated[k].Finished?;
    }
  }

  lemma SomeoneCanMove(tasks: seq<Task>, limit: nat)
    requires 1 <= limit && Holders(tasks) <= limit
    requires exists i :: 0 <= i < |tasks| && !tasks[i].Finished?
    ensures exists i :: 0 <= i < |tasks| && (tasks[i].Holding? || (tasks[i].Waiting? && Holders(tasks) < limit))
  {
    if Holders(tasks) == limit {
      HoldersExist(tasks);
    }
  }

  lemma AllFinished(verify: Verifier, works: seq<Work>, tasks: seq<Task>, log: Log)
    requires |tasks| == |works| && LogFits(works, tasks, log)
    requires forall i :: 0 <= i < |works| ==> tasks[i].Finished? && TaskFits(verify, works[i].fingerprint, tasks[i])
    ensures forall i :: 0 <= i < |works| ==>
              && tasks[i] == Finished(Alone(verify, works[i].fingerprint), Attempts(verify, works[i].fingerprint))
              && CallsFor(log, works[i].fingerprint) == UpTo(Attempts(verify, works[i].fingerprint))
    ensures forall fp :: (forall i :: 0 <= i < |works| ==> works[i].fingerprint != fp) ==> CallsFor(log, fp) == []
  {
    hide AttemptFrom, LastAttempt, CallsFor;
  }

  /** A verdict in hand either ends the task or leaves the next attempt to be made. */
  function AfterVerdict(v: Verdict, tried: nat): Task {
    if Conclusive(v) || tried + 1 == MAX_VERIFY_ATTEMPTS then Finished(v, tried + 1) else Holding(tried + 1)
  }

  // ----------------------------------------------------------------------- the pool

  class Pool {
    const verify: Verifier
    const works: seq<Work>
    const limit: nat
    ghost const before: Disk

    var tasks: seq<Task>
    var holders: nat
    var calls: Log
    var disk: Disk

    ghost predicate Valid()
      reads this
    {
      && |tasks| == |works| && Distinct(works) && 1 <= limit
      && holders == Holders(tasks) <= limit
      && (forall i :: 0 <= i < |works| ==> TaskFits(verify, works[i].fingerprint, tasks[i]))
      && LogFits(works, tasks, calls) && DiskFits(works, tasks, before, disk)
    }

    constructor (verify: Verifier, works: seq<Work>, concurrency: int, disk: Disk)
      requires Distinct(works)
      ensures Valid() && this.verify == verify && this.works == works && this.before == disk
      ensures limit == if concurrency > 1 then concurrency else 1
      ensures forall i :: 0 <= i < |tasks| ==> tasks[i] == Waiting
    {
      this.verify, this.works, this.before := verify, works, disk;
      limit := if concurrency > 1 then concurrency else 1;
      tasks, holders := seq(|works|, i => Waiting), 0;
      calls, this.disk := [], disk;
      new;
      NobodyHolds(tasks);
      assert UpTo(0) == [];
    }

    /** A queued coroutine takes a free slot of the semaphore. */
    method Acquire(i: nat)
      requires Valid() && i < |tasks| && tasks[i].Waiting? && holders < limit
      modifies this`tasks, this`holders
      ensures Valid() && tasks == old(tasks)[i := Holding(0)]
    {
      hide Holders, AllStepsLeft, RecordOf, Distinct;
      DiskStays(works, tasks, before, disk, i, Holding(0));
      TotalsUpdate(tasks, i, Holding(0));
      tasks, holders := tasks[i := Holding(0)], holders + 1;
    }

    /** One awaited verifier call; a conclusive or last verdict is written out and frees the slot. */
    method Attempt(i: nat)
      requires Valid() && i < |tasks| && tasks[i].Holding?
      modifies this
      ensures Valid()
      ensures tasks == old(tasks)[i := AfterVerdict(verify(works[i].fingerprint, old(tasks)[i].tried + 1),
                                                    old(tasks)[i].tried)]
      ensures calls == old(calls) + [(works[i].fingerprint, old(tasks)[i].tried + 1)]
    {
      hide LogFits, DiskFits, Distinct;
      var attempt := tasks[i].tried + 1;
      var verdict := verify(works[i].fingerprint, attempt);
      ghost var next := AfterVerdict(verdict, tasks[i].tried);
      assert TaskFits(verify, works[i].fingerprint, tasks[i]);
      assert TaskFits(verify, works[i].fingerprint, next);
      TotalsUpdate(tasks, i, next);
      LogGrows(works, tasks, calls, i, next);
      calls := calls + [(works[i].fingerprint, attempt)];
      if Conclusive(verdict) || attempt == MAX_VERIFY_ATTEMPTS {
        DiskGrows(works, tasks, before, disk, i, next);
        disk := disk[Place(works[i]) := Stored(RecordOf(works[i], verdict))];
        tasks, holders := tasks[i := Finished(verdict, attempt)], holders - 1;
      } else {
        DiskStays(works, tasks, before, disk, i, next);
        tasks := tasks[i := Holding(attempt)];
      }
    }

    /**
     * Let the coroutines run in any order the semaphore allows. The pool never blocks before every
     * task has finished, and whatever the order, each fingerprint gets the verdict it would get alone.
     */
    method RunAll()
      requires Valid()
      modifies this
      ensures Valid()
      ensures forall i :: 0 <= i < |works| ==>
                tasks[i] == Finished(Alone(verify, works[i].fingerprint), Attempts(verify, works[i].fingerprint))
      ensures forall i :: 0 <= i < |works| ==>
                CallsFor(calls, works[i].fingerprint) == UpTo(Attempts(verify, works[i].fingerprint))
      ensures forall fp :: (forall i :: 0 <= i < |works| ==> works[i].fingerprint != fp) ==> CallsFor(calls, fp) == []
    {
      hide LogFits, DiskFits, Distinct, Holders, AllStepsLeft, AttemptFrom, LastAttempt;
      StepsAreLeft(verify, works, tasks);
      while exists i :: 0 <= i < |tasks| && !tasks[i].Finished?
        invariant Valid() && AllStepsLeft(tasks) >= 0
        decreases AllStepsLeft(tasks)
      {
        SomeoneCanMove(tasks, limit);
        var i: nat :| i < |tasks| && (tasks[i].Holding? || (tasks[i].Waiting? && holders < limit));
        ghost var was := tasks;
        assert TaskFits(verify, works[i].fingerprint, was[i]);
        if tasks[i].Holding? {
          Attempt(i);
        } else {
          Acquire(i);
        }
        TotalsUpdate(was, i, tasks[i]);
        StepsAreLeft(verify, works, tasks);
      }
      AllFinished(verify, works, tasks, calls);
    }
  }
}
