/** The parts of a scoring job: one verification per distinct fingerprint, a result cache on disk, and paired deltas. */
module Scoring {
  import opened Git
  import opened Options
  import opened Sums
  import opened VerifierPool
  import D = Discovery

  datatype Trial = Trial(name: string, context: Context, stages: seq<D.Stage>)

  /** One stage of one trial, with what its verification depends on. */
  datatype Occurrence = Occurrence(trial: string, stage: D.StageId, fingerprint: Fingerprint)

  type Key = (string, D.StageId)

  datatype StageScore = StageScore(
    fingerprint: Fingerprint, id: string, status: string, rewards: Option<Rewards>,
    scoredInTrial: Option<string>, cached: bool)

  type IdOf = Fingerprint -> string

  // ------------------------------------------------------------ stages and their work

  function FingerprintOf(release: string, t: Trial, s: D.Stage): Fingerprint {
    Fingerprint(release, t.context, s.patch)
  }

  function StageOccurrences(release: string, t: Trial): seq<Occurrence> {
    seq(|t.stages|, i requires 0 <= i < |t.stages| =>
      Occurrence(t.name, t.stages[i].id, FingerprintOf(release, t, t.stages[i])))
  }

  function Occurrences(release: string, trials: seq<Trial>): seq<Occurrence> {
    if trials == [] then []
    else Occurrences(release, trials[..|trials| - 1]) + StageOccurrences(release, trials[|trials| - 1])
  }

  function KeyOf(o: Occurrence): Key { (o.trial, o.stage) }

  ghost predicate DistinctKeys(occs: seq<Occurrence>) {
    forall i, j :: 0 <= i < j < |occs| ==> KeyOf(occs[i]) != KeyOf(occs[j])
  }

  function WorkFor(o: Occurrence, idOf: IdOf): Work {
    Work(idOf(o.fingerprint), o.fingerprint, o.trial)
  }

  /** The first occurrence of every fingerprint id, in order. */
  function Dedup(occs: seq<Occurrence>, idOf: IdOf): seq<Work> {
    if occs == [] then []
    else
      var before, o := Dedup(occs[..|occs| - 1], idOf), occs[|occs| - 1];
      if Find(before, idOf(o.fingerprint)) < |before| then before else before + [WorkFor(o, idOf)]
  }

  /** Position of the work with the given id; the length when there is none. */
  function Find(works: seq<Work>, id: string): (i: nat)
    ensures i <= |works|
    ensures i < |works| ==> works[i].id == id
    ensures forall j :: 0 <= j < i ==> works[j].id != id
  {
    if works == [] || works[0].id == id then 0 else 1 + Find(works[1..], id)
  }

  ghost predicate DistinctIds(works: seq<Work>) {
    forall i, j :: 0 <= i < j < |works| ==> works[i].id != works[j].id
  }

  /** The work describes the i-th occurrence, and no earlier occurrence shares its id. */
  ghost predicate FirstAt(w: Work, occs: seq<Occurrence>, idOf: IdOf, i: int) {
    0 <= i < |occs| && w == WorkFor(occs[i], idOf) && forall j :: 0 <= j < i ==> idOf(occs[j].fingerprint) != w.id
  }

  ghost predicate IsFirst(w: Work, occs: seq<Occurrence>, idOf: IdOf) {
    exists i :: FirstAt(w, occs, idOf, i)
  }

  ghost predicate Covers(works: seq<Work>, occs: seq<Occurrence>, idOf: IdOf) {
    forall o :: o in occs ==> Find(works, idOf(o.fingerprint)) < |works|
  }

  lemma FirstStays(w: Work, occs: seq<Occurrence>, o: Occurrence, idOf: IdOf)
    requires IsFirst(w, occs, idOf)
    ensures IsFirst(w, occs + [o], idOf)
  {
    hide WorkFor;
    var i :| FirstAt(w, occs, idOf, i);
    assert FirstAt(w, occs + [o], idOf, i);
  }

  lemma FindInLonger(works: seq<Work>, w: Work, id: string)
    requires Find(works, id) < |works| || w.id == id
    ensures Find(works + [w], id) < |works| + 1
  {
    var k := if Find(works, id) < |works| then Find(works, id) else |works|;
    assert (works + [w])[k].id == id;
  }

  /** Deduplication keeps one work per id, each standing for the first occurrence with its id. */
  lemma {:induction false} DedupKeepsFirsts(occs: seq<Occurrence>, idOf: IdOf)
    ensures DistinctIds(Dedup(occs, idOf)) && Covers(Dedup(occs, idOf), occs, idOf)
    ensures forall w :: w in Dedup(occs, idOf) ==> IsFirst(w, occs, idOf)
  {
    hide Find, IsFirst, FirstAt;
    if occs != [] {
      var shorter, o := occs[..|occs| - 1], occs[|occs| - 1];
      var before, works := Dedup(shorter, idOf), Dedup(occs, idOf);
      DedupKeepsFirsts(shorter, idOf);
      assert occs == shorter + [o];
      forall w | w in before ensures IsFirst(w, occs, idOf) {
        FirstStays(w, shorter, o, idOf);
      }
      if works != before {
        forall i | 0 <= i < |shorter| ensures idOf(shorter[i].fingerprint) != idOf(o.fingerprint) {
          assert shorter[i] in shorter;
        }
        NewIsFirst(shorter, o, idOf);
        forall x | x in occs ensures Find(works, idOf(x.fingerprint)) < |works| {
          assert x in shorter || x == o;
          FindInLonger(before, WorkFor(o, idOf), idOf(x.fingerprint));
        }
      }
    }
  }

  lemma NewIsFirst(occs: seq<Occurrence>, o: Occurrence, idOf: IdOf)
    requires forall i :: 0 <= i < |occs| ==> idOf(occs[i].fingerprint) != idOf(o.fingerprint)
    ensures IsFirst(WorkFor(o, idOf), occs + [o], idOf)
  {
    assert FirstAt(WorkFor(o, idOf), occs + [o], idOf, |occs|);
  }

  function Unscored(o: Occurrence, idOf: IdOf): StageScore {
    StageScore(o.fingerprint, idOf(o.fingerprint), "missing", None, None, false)
  }

  lemma AppendOccurrence(occs: seq<Occurrence>, o: Occurrence, idOf: IdOf)
    ensures Dedup(occs + [o], idOf) ==
            if Find(Dedup(occs, idOf), idOf(o.fingerprint)) < |Dedup(occs, idOf)| then Dedup(occs, idOf)
            else Dedup(occs, idOf) + [WorkFor(o, idOf)]
  {
    assert (occs + [o])[..|occs|] == occs;
  }

  /** The table of stage scores has an unscored row for each of the first n occurrences and no other. */
  ghost predicate TableFits(scores: map<Key, StageScore>, occs: seq<Occurrence>, n: nat, idOf: IdOf)
    requires n <= |occs|
  {
    && (forall i :: 0 <= i < n ==> KeyOf(occs[i]) in scores && scores[KeyOf(occs[i])] == Unscored(occs[i], idOf))
    && (forall k :: k in scores ==> exists i :: 0 <= i < n && k == KeyOf(occs[i]))
  }

  /** The table and the work list after the first n occurrences. */
  ghost predicate Collected(scores: map<Key, StageScore>, works: seq<Work>, occs: seq<Occurrence>, n: nat, idOf: IdOf) {
    n <= |occs| && works == Dedup(occs[..n], idOf) && TableFits(scores, occs, n, idOf)
  }

  method CollectStage(trial: Trial, stage: D.Stage, release: string, idOf: IdOf, scores: map<Key, StageScore>,
                      works: seq<Work>, ghost occs: seq<Occurrence>, ghost n: nat)
    returns (scores': map<Key, StageScore>, works': seq<Work>)
    requires DistinctKeys(occs) && Collected(scores, works, occs, n, idOf)
    requires n < |occs| && occs[n] == Occurrence(trial.name, stage.id, FingerprintOf(release, trial, stage))
    ensures Collected(scores', works', occs, n + 1, idOf)
  {
    hide Dedup, Find, TableFits, DistinctKeys;
    var fingerprint := FingerprintOf(release, trial, stage);
    var id := idOf(fingerprint);
    assert occs[..n + 1] == occs[..n] + [occs[n]];
    AppendOccurrence(occs[..n], occs[n], idOf);
    TableGrows(scores, occs, n, idOf);
    scores' := scores[(trial.name, stage.id) := StageScore(fingerprint, id, "missing", None, None, false)];
    works' := if Find(works, id) < |works| then works else works + [Work(id, fingerprint, trial.name)];
  }

  method CollectTrial(trial: Trial, release: string, idOf: IdOf, scores: map<Key, StageScore>,
                      works: seq<Work>, ghost occs: seq<Occurrence>, ghost base: nat)
    returns (scores': map<Key, StageScore>, works': seq<Work>)
    requires DistinctKeys(occs) && Collected(scores, works, occs, base, idOf)
    requires base + |trial.stages| <= |occs|
    requires occs[base..base + |trial.stages|] == StageOccurrences(release, trial)
    ensures Collected(scores', works', occs, base + |trial.stages|, idOf)
  {
    hide Collected, DistinctKeys;
    scores', works' := scores, works;
    for s := 0 to |trial.stages|
      invariant Collected(scores', works', occs, base + s, idOf)
    {
      assert occs[base + s] == occs[base..base + |trial.stages|][s];
      scores', works' := CollectStage(trial, trial.stages[s], release, idOf, scores', works', occs, base + s);
    }
  }

  /** One row per stage, one work per distinct fingerprint id. */
  method CollectWork(trials: seq<Trial>, release: string, idOf: IdOf)
    returns (scores: map<Key, StageScore>, works: seq<Work>)
    requires DistinctKeys(Occurrences(release, trials))
    ensures works == Dedup(Occurrences(release, trials), idOf)
    ensures TableFits(scores, Occurrences(release, trials), |Occurrences(release, trials)|, idOf)
  {
    hide Dedup, TableFits, DistinctKeys, Occurrences, StageOccurrences;
    scores, works := map[], [];
    ghost var occs := Occurrences(release, trials);
    NothingCollected(occs, idOf);
    assert trials[..0] == [];
    NoOccurrences(release);
    for t := 0 to |trials|
      invariant Collected(scores, works, occs, |Occurrences(release, trials[..t])|, idOf)
    {
      ghost var before := Occurrences(release, trials[..t]);
      OccurrencesAreInOrder(release, trials, t);
      assert |StageOccurrences(release, trials[t])| == |trials[t].stages| by { StagesAreCounted(release, trials[t]); }
      scores, works := CollectTrial(trials[t], release, idOf, scores, works, occs, |before|);
    }
    assert trials[..|trials|] == trials && occs[..|occs|] == occs;
  }

  lemma NoOccurrences(release: string)
    ensures Occurrences(release, []) == []
  {
  }

  lemma StagesAreCounted(release: string, t: Trial)
    ensures |StageOccurrences(release, t)| == |t.stages|
  {
  }

  lemma NothingCollected(occs: seq<Occurrence>, idOf: IdOf)
    ensures Collected(map[], [], occs, 0, idOf)
  {
  }

  lemma TableGrows(scores: map<Key, StageScore>, occs: seq<Occurrence>, n: nat, idOf: IdOf)
    requires n < |occs| && DistinctKeys(occs) && TableFits(scores, occs, n, idOf)
    ensures TableFits(scores[KeyOf(occs[n]) := Unscored(occs[n], idOf)], occs, n + 1, idOf)
  {
    hide Unscored;
    var grown := scores[KeyOf(occs[n]) := Unscored(occs[n], idOf)];
    forall i | 0 <= i < n + 1 ensures KeyOf(occs[i]) in grown && grown[KeyOf(occs[i])] == Unscored(occs[i], idOf) {
      assert i < n ==> KeyOf(occs[i]) != KeyOf(occs[n]);
    }
    forall k | k in grown ensures exists i :: 0 <= i < n + 1 && k == KeyOf(occs[i]) {
      if k == KeyOf(occs[n]) {
        assert k == KeyOf(occs[n]);
      } else {
        var i :| 0 <= i < n && k == KeyOf(occs[i]);
      }
    }
  }

  /** Trials contribute their stages one after the other. */
  lemma {:induction false} OccurrencesAreInOrder(release: string, trials: seq<Trial>, t: nat)
    requires t < |trials|
    ensures Occurrences(release, trials[..t]) + StageOccurrences(release, trials[t])
            == Occurrences(release, trials[..t + 1]) <= Occurrences(release, trials)
    decreases |trials|
  {
    hide StageOccurrences;
    assert trials[..t + 1][..t] == trials[..t];
    if t + 1 == |trials| {
      assert trials[..t + 1] == trials;
    } else {
      var shorter := trials[..|trials| - 1];
      OccurrencesAreInOrder(release, shorter, t);
      assert shorter[..t + 1] == trials[..t + 1] && shorter[..t] == trials[..t];
    }
  }

  ghost predicate IdsAreSlots(stages: seq<D.Stage>, reviews: seq<D.Entry>) {
    var slots := D.Slots(reviews);
    |stages| <= |slots| && forall i :: 0 <= i < |stages| ==> stages[i].id == slots[i].id
  }

  lemma OneTrialHasDistinctKeys(release: string, t: Trial, reviews: seq<D.Entry>)
    requires IdsAreSlots(t.stages, reviews)
    ensures DistinctKeys(StageOccurrences(release, t))
    ensures forall o :: o in StageOccurrences(release, t) ==> o.trial == t.name
  {
  }

  lemma KeysJoin(a: seq<Occurrence>, b: seq<Occurrence>)
    requires DistinctKeys(a) && DistinctKeys(b)
    requires forall i, j :: 0 <= i < |a| && 0 <= j < |b| ==> a[i].trial != b[j].trial
    ensures DistinctKeys(a + b)
  {
    var both := a + b;
    forall i, j | 0 <= i < j < |both| ensures KeyOf(both[i]) != KeyOf(both[j]) {
      if j < |a| {
        assert both[i] == a[i] && both[j] == a[j];
      } else if i < |a| {
        assert both[i] == a[i] && both[j] == b[j - |a|];
      } else {
        assert both[i] == b[i - |a|] && both[j] == b[j - |a|];
      }
    }
  }

  ghost predicate Named(trials: seq<Trial>, name: string) {
    exists i :: 0 <= i < |trials| && trials[i].name == name
  }

  /** Trials read from differently named directories never share a key. */
  lemma {:induction false} DiscoveredKeysAreDistinct(release: string, trials: seq<Trial>, reviews: seq<seq<D.Entry>>)
    requires |reviews| == |trials|
    requires forall i, j :: 0 <= i < j < |trials| ==> trials[i].name != trials[j].name
    requires forall i :: 0 <= i < |trials| ==> IdsAreSlots(trials[i].stages, reviews[i])
    ensures DistinctKeys(Occurrences(release, trials))
    ensures forall o :: o in Occurrences(release, trials) ==> Named(trials, o.trial)
  {
    hide IdsAreSlots, StageOccurrences;
    if trials != [] {
      hide DistinctKeys;
      var n := |trials| - 1;
      var earlier, own := Occurrences(release, trials[..n]), StageOccurrences(release, trials[n]);
      DiscoveredKeysAreDistinct(release, trials[..n], reviews[..n]);
      OneTrialHasDistinctKeys(release, trials[n], reviews[n]);
      forall o | o in earlier ensures o.trial != trials[n].name && Named(trials, o.trial) {
        assert Named(trials[..n], o.trial);
        var i :| 0 <= i < n && trials[..n][i].name == o.trial;
        assert trials[i].name == o.trial;
      }
      forall o | o in own ensures Named(trials, o.trial) {
        assert trials[n].name == o.trial;
      }
      KeysJoin(earlier, own);
    }
  }

  // -------------------------------------------------------------------- the cache

  predicate UsableRewards(rewards: Option<Rewards>) {
    rewards.Some? && "reward" in rewards.value && rewards.value["reward"].Number?
  }

  /** A cached record is reusable when it succeeded under the id of its directory with a numeric reward. */
  predicate Reusable(file: ResultFile, id: string) {
    && file.Stored? && file.record.status == "success" && !file.record.fingerprint.NoObject?
    && file.record.fingerprintId == id && UsableRewards(file.record.rewards)
  }

  predicate Offers(disk: Disk, dir: string, id: string)
    ensures Offers(disk, dir, id) ==> (dir, id) in disk && disk[(dir, id)].Stored?
  {
    (dir, id) in disk && Reusable(disk[(dir, id)], id)
  }

  /** The first trial directory that holds a reusable record for the id decides. */
  function Lookup(dirs: seq<string>, disk: Disk, id: string): Option<Record> {
    if dirs == [] then None
    else
      var earlier, dir := Lookup(dirs[..|dirs| - 1], disk, id), dirs[|dirs| - 1];
      if earlier.Some? then earlier
      else if Offers(disk, dir, id) then Some(disk[(dir, id)].record)
      else None
  }

  lemma {:induction false} LookupFinds(dirs: seq<string>, disk: Disk, id: string)
    ensures Lookup(dirs, disk, id).Some? <==> exists d :: d in dirs && Offers(disk, d, id)
    ensures Lookup(dirs, disk, id).Some? ==>
              exists d :: d in dirs && Offers(disk, d, id) && Lookup(dirs, disk, id).value == disk[(d, id)].record
  {
    hide Reusable;
    if dirs != [] {
      var shorter, last := dirs[..|dirs| - 1], dirs[|dirs| - 1];
      LookupFinds(shorter, disk, id);
      assert dirs == shorter + [last];
    }
  }

  function Names(disk: Disk): set<string> { set place | place in disk :: place.1 }

  function Cache(force: bool, dirs: seq<string>, disk: Disk): map<string, Record> {
    if force then map[]
    else map id | id in Names(disk) && Lookup(dirs, disk, id).Some? :: Lookup(dirs, disk, id).value
  }

  /** Add one trial's reusable records under ids not seen before, in whatever order they are listed. */
  method ScanTrial(dir: string, disk: Disk, before: map<string, Record>) returns (cache: map<string, Record>)
    ensures forall id :: id in cache <==> id in before || Offers(disk, dir, id)
    ensures forall id :: id in cache ==>
              if id in before then cache[id] == before[id]
              else Offers(disk, dir, id) && cache[id] == disk[(dir, id)].record
  {
    cache := before;
    var names := set place | place in disk && place.0 == dir :: place.1;
    ghost var listed := names;
    forall id | (dir, id) in disk ensures id in listed {
      assert (dir, id).0 == dir && (dir, id).1 == id;
    }
    while names != {}
      invariant names <= listed && forall id :: id in listed ==> (dir, id) in disk
      invariant forall id :: id in cache <==> id in before || (id !in names && Offers(disk, dir, id))
      invariant forall id :: id in cache ==>
                  cache[id] == if id in before then before[id] else disk[(dir, id)].record
    {
      var name :| name in names;
      if name !in cache && Reusable(disk[(dir, name)], name) {
        cache := cache[name := disk[(dir, name)].record];
      }
      names := names - {name};
    }
  }

  /** Index reusable records by id, the first trial directory winning. */
  method ScanCachedResults(dirs: seq<string>, disk: Disk) returns (cache: map<string, Record>)
    ensures cache == Cache(false, dirs, disk)
  {
    hide Reusable;
    cache := map[];
    for t := 0 to |dirs|
      invariant forall id :: id in cache <==> Lookup(dirs[..t], disk, id).Some?
      invariant forall id :: id in cache ==> Some(cache[id]) == Lookup(dirs[..t], disk, id)
    {
      assert dirs[..t + 1][..t] == dirs[..t];
      cache := ScanTrial(dirs[t], disk, cache);
    }
    assert dirs[..|dirs|] == dirs;
    forall id | id in cache ensures id in Names(disk) {
      LookupFinds(dirs, disk, id);
      var d :| d in dirs && Offers(disk, d, id);
      assert (d, id).1 == id;
    }
  }

  /** A cached record serves a work only when the whole fingerprint agrees. */
  predicate Hit(cache: map<string, Record>, w: Work) {
    w.id in cache && cache[w.id].fingerprint == Known(w.fingerprint)
  }

  function Pending(works: seq<Work>, cache: map<string, Record>): seq<Work> {
    if works == [] then []
    else Pending(works[..|works| - 1], cache)
         + if Hit(cache, works[|works| - 1]) then [] else [works[|works| - 1]]
  }

  lemma PendingUnfolds(works: seq<Work>, cache: map<string, Record>)
    requires works != []
    ensures Pending(works, cache) == Pending(works[..|works| - 1], cache)
            + if Hit(cache, works[|works| - 1]) then [] else [works[|works| - 1]]
  {
  }

  lemma {:induction false} PendingAreTheMisses(works: seq<Work>, cache: map<string, Record>)
    ensures forall w :: w in Pending(works, cache) <==> w in works && !Hit(cache, w)
  {
    if works != [] {
      hide Hit, Pending;
      var shorter, last := works[..|works| - 1], works[|works| - 1];
      PendingAreTheMisses(shorter, cache);
      PendingUnfolds(works, cache);
      assert works == shorter + [last];
    }
  }

  lemma {:induction false} PendingIdsAreDistinct(works: seq<Work>, cache: map<string, Record>)
    requires DistinctIds(works)
    ensures DistinctIds(Pending(works, cache))
  {
    if works != [] {
      hide Hit, Pending;
      var shorter, last := works[..|works| - 1], works[|works| - 1];
      PendingIdsAreDistinct(shorter, cache);
      PendingAreTheMisses(shorter, cache);
      PendingUnfolds(works, cache);
      forall w | w in Pending(shorter, cache) ensures w.id != last.id {
        var i :| 0 <= i < |shorter| && shorter[i] == w;
        assert works[i] == w;
      }
    }
  }

  method SplitPending(works: seq<Work>, cache: map<string, Record>) returns (pending: seq<Work>)
    ensures pending == Pending(works, cache)
  {
    pending := [];
    for i := 0 to |works|
      invariant pending == Pending(works[..i], cache)
    {
      assert works[..i + 1][..i] == works[..i];
      if !Hit(cache, works[i]) {
        pending := pending + [works[i]];
      }
    }
    assert works[..|works|] == works;
  }

  // --------------------------------------------------------------------- the job

  /** The record a work ends up with. */
  function Resolve(cache: map<string, Record>, verify: Verifier, w: Work): Record {
    if Hit(cache, w) then cache[w.id] else RecordOf(w, Alone(verify, w.fingerprint))
  }

  function Scored(o: Occurrence, idOf: IdOf, record: Record, cached: bool): StageScore {
    StageScore(o.fingerprint, idOf(o.fingerprint), record.status, record.rewards, Some(record.sourceTrial), cached)
  }

  /** The work that speaks for an occurrence: the first one with its id. */
  function Representative(works: seq<Work>, o: Occurrence, idOf: IdOf): Work
    requires Find(works, idOf(o.fingerprint)) < |works|
  {
    works[Find(works, idOf(o.fingerprint))]
  }

  ghost predicate OccurrenceScored(scores: map<Key, StageScore>, o: Occurrence, works: seq<Work>, idOf: IdOf,
                                   cache: map<string, Record>, verify: Verifier)
  {
    && Find(works, idOf(o.fingerprint)) < |works|
    && var w := Representative(works, o, idOf);
       && KeyOf(o) in scores
       && scores[KeyOf(o)] == Scored(o, idOf, Resolve(cache, verify, w), Hit(cache, w))
  }

  ghost predicate JobScored(scores: map<Key, StageScore>, occs: seq<Occurrence>, works: seq<Work>, idOf: IdOf,
                            cache: map<string, Record>, verify: Verifier)
  {
    forall o :: o in occs ==> OccurrenceScored(scores, o, works, idOf, cache, verify)
  }

  /** The disk after a job: the pending works' records, everything else as before. */
  ghost predicate DiskAfter(pending: seq<Work>, verify: Verifier, before: Disk, disk: Disk) {
    && (forall w :: w in pending ==>
          Place(w) in disk && disk[Place(w)] == Stored(RecordOf(w, Alone(verify, w.fingerprint))))
    && (forall place :: (forall w :: w in pending ==> Place(w) != place) ==>
          (place in disk <==> place in before) && (place in disk ==> disk[place] == before[place]))
  }

  /** Exactly the pending fingerprints were verified, each with its own attempts and once only. */
  ghost predicate CallsAre(pending: seq<Work>, verify: Verifier, calls: Log) {
    && (forall w :: w in pending ==> CallsFor(calls, w.fingerprint) == UpTo(Attempts(verify, w.fingerprint)))
    && (forall fp :: (forall w :: w in pending ==> w.fingerprint != fp) ==> CallsFor(calls, fp) == [])
  }

  lemma PoolDisk(pending: seq<Work>, verify: Verifier, tasks: seq<Task>, before: Disk, disk: Disk)
    requires |tasks| == |pending| && DiskFits(pending, tasks, before, disk)
    requires forall i :: 0 <= i < |pending| ==> tasks[i].Finished? && tasks[i].verdict == Alone(verify, pending[i].fingerprint)
    ensures DiskAfter(pending, verify, before, disk)
  {
    hide Alone, RecordOf, Place;
    forall w | w in pending
      ensures Place(w) in disk && disk[Place(w)] == Stored(RecordOf(w, Alone(verify, w.fingerprint)))
    {
      var i :| 0 <= i < |pending| && pending[i] == w;
      assert tasks[i].Finished?;
    }
    forall place | Written(pending, tasks, place) ensures exists w :: w in pending && Place(w) == place {
      var i :| 0 <= i < |pending| && tasks[i].Finished? && place == Place(pending[i]);
      assert pending[i] in pending;
    }
  }

  lemma PoolCalls(pending: seq<Work>, verify: Verifier, calls: Log)
    requires forall i :: 0 <= i < |pending| ==>
               CallsFor(calls, pending[i].fingerprint) == UpTo(Attempts(verify, pending[i].fingerprint))
    requires forall fp :: (forall i :: 0 <= i < |pending| ==> pending[i].fingerprint != fp) ==> CallsFor(calls, fp) == []
    ensures CallsAre(pending, verify, calls)
  {
    hide Attempts, CallsFor, UpTo;
    forall fp | forall w :: w in pending ==> w.fingerprint != fp ensures CallsFor(calls, fp) == [] {
      assert forall i :: 0 <= i < |pending| ==> pending[i] in pending;
    }
  }

  /** Each pending work's record, under its id. */
  ghost predicate RecordsFit(records: map<string, Record>, pending: seq<Work>, verify: Verifier) {
    forall w :: w in pending ==> w.id in records && records[w.id] == RecordOf(w, Alone(verify, w.fingerprint))
  }

  method CollectRecords(pending: seq<Work>, ghost verify: Verifier, tasks: seq<Task>) returns (records: map<string, Record>)
    requires |tasks| == |pending| && DistinctIds(pending)
    requires forall i :: 0 <= i < |pending| ==> tasks[i].Finished? && tasks[i].verdict == Alone(verify, pending[i].fingerprint)
    ensures RecordsFit(records, pending, verify)
  {
    hide Alone, RecordOf;
    records := map[];
    for i := 0 to |pending|
      invariant forall j :: 0 <= j < i ==>
                  pending[j].id in records
                  && records[pending[j].id] == RecordOf(pending[j], Alone(verify, pending[j].fingerprint))
    {
      records := records[pending[i].id := RecordOf(pending[i], tasks[i].verdict)];
    }
  }

  method RunPending(pending: seq<Work>, verify: Verifier, concurrency: int, before: Disk)
    returns (records: map<string, Record>, disk: Disk, calls: Log)
    requires Distinct(pending) && DistinctIds(pending)
    ensures DiskAfter(pending, verify, before, disk) && CallsAre(pending, verify, calls)
    ensures RecordsFit(records, pending, verify)
  {
    hide Alone, Attempts, RecordOf, DiskAfter, CallsAre, RecordsFit, LogFits, DiskFits, Distinct, DistinctIds, Holders;
    var pool := new Pool(verify, pending, concurrency, before);
    pool.RunAll();
    disk, calls := pool.disk, pool.calls;
    PoolDisk(pending, verify, pool.tasks, before, disk);
    PoolCalls(pending, verify, calls);
    records := CollectRecords(pending, verify, pool.tasks);
  }

  /** The row of one stage, filled from the work that carries its id. */
  method AttachScore(score: StageScore, ghost o: Occurrence, works: seq<Work>, ghost verify: Verifier,
                     cache: map<string, Record>, records: map<string, Record>, ghost idOf: IdOf)
    returns (filled: StageScore)
    requires score == Unscored(o, idOf) && Find(works, idOf(o.fingerprint)) < |works|
    requires RecordsFit(records, Pending(works, cache), verify)
    ensures var w := Representative(works, o, idOf);
            filled == Scored(o, idOf, Resolve(cache, verify, w), Hit(cache, w))
  {
    hide Find, Alone, RecordOf, Pending;
    PendingAreTheMisses(works, cache);
    var w := works[Find(works, score.id)];
    var cached := Hit(cache, w);
    var record := if cached then cache[w.id] else records[w.id];
    filled := score.(status := record.status, rewards := record.rewards,
                     scoredInTrial := Some(record.sourceTrial), cached := cached);
  }

  lemma KeyNamesOne(occs: seq<Occurrence>, o: Occurrence, o': Occurrence)
    requires DistinctKeys(occs) && o in occs && o' in occs && KeyOf(o) == KeyOf(o')
    ensures o == o'
  {
  }

  /** Every occurrence whose key is no longer waiting has its score. */
  ghost predicate AttachedBut(scores: map<Key, StageScore>, keys: set<Key>, occs: seq<Occurrence>, works: seq<Work>,
                              idOf: IdOf, cache: map<string, Record>, verify: Verifier)
  {
    forall o :: o in occs && KeyOf(o) !in keys ==> OccurrenceScored(scores, o, works, idOf, cache, verify)
  }

  lemma AttachStep(scores: map<Key, StageScore>, keys: set<Key>, occs: seq<Occurrence>, works: seq<Work>,
                   idOf: IdOf, cache: map<string, Record>, verify: Verifier, o: Occurrence, filled: StageScore)
    requires DistinctKeys(occs) && o in occs && KeyOf(o) in keys && keys <= scores.Keys
    requires AttachedBut(scores, keys, occs, works, idOf, cache, verify)
    requires OccurrenceScored(scores[KeyOf(o) := filled], o, works, idOf, cache, verify)
    ensures AttachedBut(scores[KeyOf(o) := filled], keys - {KeyOf(o)}, occs, works, idOf, cache, verify)
  {
    hide Find, KeyOf, DistinctKeys, Representative, Resolve, Hit, Scored;
    forall o' | o' in occs && KeyOf(o') !in keys - {KeyOf(o)}
      ensures OccurrenceScored(scores[KeyOf(o) := filled], o', works, idOf, cache, verify)
    {
      if KeyOf(o') == KeyOf(o) {
        KeyNamesOne(occs, o, o');
      } else {
        assert OccurrenceScored(scores, o', works, idOf, cache, verify);
      }
    }
  }

  /** Copy each work's record onto every stage that shares its id. */
  method AttachScores(scores: map<Key, StageScore>, ghost occs: seq<Occurrence>, works: seq<Work>, ghost verify: Verifier,
                      cache: map<string, Record>, records: map<string, Record>, ghost idOf: IdOf)
    returns (attached: map<Key, StageScore>)
    requires Covers(works, occs, idOf) && TableFits(scores, occs, |occs|, idOf) && DistinctKeys(occs)
    requires RecordsFit(records, Pending(works, cache), verify)
    ensures JobScored(attached, occs, works, idOf, cache, verify)
  {
    hide Find, Pending, Scored, Unscored, RecordsFit, KeyOf, DistinctKeys, Resolve, Hit, AttachedBut;
    attached := scores;
    var keys := scores.Keys;
    NothingAttached(scores, occs, works, idOf, cache, verify);
    while keys != {}
      invariant keys <= scores.Keys == attached.Keys
      invariant forall k :: k in keys ==> attached[k] == scores[k]
      invariant AttachedBut(attached, keys, occs, works, idOf, cache, verify)
    {
      var key :| key in keys;
      ghost var n :| 0 <= n < |occs| && key == KeyOf(occs[n]);
      ghost var o := occs[n];
      var filled := AttachScore(scores[key], o, works, verify, cache, records, idOf);
      AttachStep(attached, keys, occs, works, idOf, cache, verify, o, filled);
      attached := attached[key := filled];
      keys := keys - {key};
    }
    AllAttached(attached, occs, works, idOf, cache, verify);
  }

  lemma NothingAttached(scores: map<Key, StageScore>, occs: seq<Occurrence>, works: seq<Work>, idOf: IdOf,
                        cache: map<string, Record>, verify: Verifier)
    requires TableFits(scores, occs, |occs|, idOf)
    ensures AttachedBut(scores, scores.Keys, occs, works, idOf, cache, verify)
  {
  }

  lemma AllAttached(scores: map<Key, StageScore>, occs: seq<Occurrence>, works: seq<Work>, idOf: IdOf,
                    cache: map<string, Record>, verify: Verifier)
    requires AttachedBut(scores, {}, occs, works, idOf, cache, verify)
    ensures JobScored(scores, occs, works, idOf, cache, verify)
  {
  }

  lemma PendingAreDistinct(occs: seq<Occurrence>, idOf: IdOf, pending: seq<Work>)
    requires DistinctIds(pending)
    requires forall w :: w in pending ==> w in Dedup(occs, idOf)
    ensures Distinct(pending)
  {
    hide Dedup, Find;
    DedupKeepsFirsts(occs, idOf);
    forall w | w in pending ensures w.id == idOf(w.fingerprint) {
      assert IsFirst(w, occs, idOf);
      var i :| FirstAt(w, occs, idOf, i);
    }
    assert forall w :: w in pending ==> w.id == idOf(w.fingerprint);
  }

  // ------------------------------------------------------- agreement with naive scoring

  /** No two fingerprints of the job share an id. */
  ghost predicate NoCollision(occs: seq<Occurrence>, idOf: IdOf) {
    forall o, o' :: o in occs && o' in occs && idOf(o.fingerprint) == idOf(o'.fingerprint) ==>
      o.fingerprint == o'.fingerprint
  }

  /** A reusable record on disk repeats what verifying its fingerprint gives. */
  ghost predicate Truthful(disk: Disk, verify: Verifier) {
    forall dir, id :: Offers(disk, dir, id) && disk[(dir, id)].record.fingerprint.Known? ==>
      var r, alone := disk[(dir, id)].record, Alone(verify, disk[(dir, id)].record.fingerprint.fingerprint);
      r.status == alone.status && r.rewards == alone.rewards
  }

  /** A reusable record filed under the id of one of the job's fingerprints is about that fingerprint. */
  ghost predicate IdsMean(disk: Disk, occs: seq<Occurrence>, idOf: IdOf) {
    forall dir, o :: o in occs && Offers(disk, dir, idOf(o.fingerprint)) ==>
      disk[(dir, idOf(o.fingerprint))].record.fingerprint == Known(o.fingerprint)
  }

  lemma RepresentativeIsFirst(occs: seq<Occurrence>, o: Occurrence, idOf: IdOf)
    requires o in occs
    ensures Find(Dedup(occs, idOf), idOf(o.fingerprint)) < |Dedup(occs, idOf)|
    ensures var w := Representative(Dedup(occs, idOf), o, idOf);
            w in Dedup(occs, idOf) && w.id == idOf(o.fingerprint) && IsFirst(w, occs, idOf)
    ensures NoCollision(occs, idOf) ==>
              Representative(Dedup(occs, idOf), o, idOf).fingerprint == o.fingerprint
  {
    hide Dedup;
    DedupKeepsFirsts(occs, idOf);
    var w := Representative(Dedup(occs, idOf), o, idOf);
    assert w in Dedup(occs, idOf);
    var i :| FirstAt(w, occs, idOf, i);
    assert occs[i] in occs;
  }

  lemma HitIsTruthful(dirs: seq<string>, disk: Disk, force: bool, verify: Verifier, w: Work)
    requires Truthful(disk, verify) && Hit(Cache(force, dirs, disk), w)
    ensures var r, alone := Cache(force, dirs, disk)[w.id], Alone(verify, w.fingerprint);
            r.status == alone.status == "success" && r.rewards == alone.rewards && UsableRewards(alone.rewards)
  {
    hide Alone, Lookup;
    LookupFinds(dirs, disk, w.id);
  }

  /**
   * Deduplication and the cache refine naive scoring: every stage ends with the status and rewards
   * that verifying its own patch alone would give it.
   */
  lemma ScoringIsNaive(occs: seq<Occurrence>, dirs: seq<string>, disk: Disk, force: bool, verify: Verifier, idOf: IdOf,
                       scores: map<Key, StageScore>)
    requires NoCollision(occs, idOf) && Truthful(disk, verify)
    requires JobScored(scores, occs, Dedup(occs, idOf), idOf, Cache(force, dirs, disk), verify)
    ensures forall o :: o in occs ==>
              && KeyOf(o) in scores
              && scores[KeyOf(o)].status == Alone(verify, o.fingerprint).status
              && scores[KeyOf(o)].rewards == Alone(verify, o.fingerprint).rewards
  {
    hide Alone, Lookup, Dedup, Find, Cache, Truthful;
    var cache := Cache(force, dirs, disk);
    forall o | o in occs
      ensures KeyOf(o) in scores
              && scores[KeyOf(o)].status == Alone(verify, o.fingerprint).status
              && scores[KeyOf(o)].rewards == Alone(verify, o.fingerprint).rewards
    {
      RepresentativeIsFirst(occs, o, idOf);
      assert OccurrenceScored(scores, o, Dedup(occs, idOf), idOf, cache, verify);
      var w := Representative(Dedup(occs, idOf), o, idOf);
      if Hit(cache, w) {
        HitIsTruthful(dirs, disk, force, verify, w);
      }
    }
  }

  /** The i-th occurrence is the first one under this id. */
  ghost predicate FirstUnder(id: string, occs: seq<Occurrence>, idOf: IdOf, i: int) {
    0 <= i < |occs| && idOf(occs[i].fingerprint) == id && forall j :: 0 <= j < i ==> idOf(occs[j].fingerprint) != id
  }

  /** Colliding or not, every stage gets the verdict of the first fingerprint under its id. */
  lemma CollisionsShareVerdicts(occs: seq<Occurrence>, dirs: seq<string>, disk: Disk, force: bool, verify: Verifier,
                                idOf: IdOf, scores: map<Key, StageScore>, o: Occurrence, i: nat)
    requires Truthful(disk, verify) && o in occs && FirstUnder(idOf(o.fingerprint), occs, idOf, i)
    requires JobScored(scores, occs, Dedup(occs, idOf), idOf, Cache(force, dirs, disk), verify)
    ensures KeyOf(o) in scores
    ensures scores[KeyOf(o)].status == Alone(verify, occs[i].fingerprint).status
    ensures scores[KeyOf(o)].rewards == Alone(verify, occs[i].fingerprint).rewards
  {
    hide Alone, Dedup, Find, Lookup, Cache, Truthful;
    var cache, w := Cache(force, dirs, disk), Representative(Dedup(occs, idOf), o, idOf);
    RepresentativeIsFirst(occs, o, idOf);
    assert OccurrenceScored(scores, o, Dedup(occs, idOf), idOf, cache, verify);
    var k :| FirstAt(w, occs, idOf, k);
    assert k == i;
    if Hit(cache, w) {
      HitIsTruthful(dirs, disk, force, verify, w);
    }
  }

  // ------------------------------------------------------------------- running again

  /** A verdict whose record a later run will reuse. */
  predicate Keeps(v: Verdict) {
    v.status == "success" && UsableRewards(v.rewards)
  }

  lemma StoredIsReusable(w: Work, v: Verdict)
    ensures Reusable(Stored(RecordOf(w, v)), w.id) <==> Keeps(v)
  {
  }

  /** A job leaves a truthful disk truthful, and ids keep their meaning. */
  lemma JobsKeepTheDiskTruthful(occs: seq<Occurrence>, idOf: IdOf, pending: seq<Work>, verify: Verifier,
                                before: Disk, disk: Disk)
    requires NoCollision(occs, idOf) && Truthful(before, verify) && IdsMean(before, occs, idOf)
    requires forall w :: w in pending ==> w in Dedup(occs, idOf)
    requires DiskAfter(pending, verify, before, disk)
    ensures Truthful(disk, verify) && IdsMean(disk, occs, idOf)
  {
    hide Alone, Dedup, Reusable;
    DedupKeepsFirsts(occs, idOf);
    forall dir, id | Offers(disk, dir, id)
      ensures (Offers(before, dir, id) && disk[(dir, id)] == before[(dir, id)])
              || exists w :: w in pending && w.id == id && disk[(dir, id)] == Stored(RecordOf(w, Alone(verify, w.fingerprint)))
    {
      if w :| w in pending && Place(w) == (dir, id) {
      } else {
        assert forall w :: w in pending ==> Place(w) != (dir, id);
      }
    }
    forall dir, o | o in occs && Offers(disk, dir, idOf(o.fingerprint))
      ensures disk[(dir, idOf(o.fingerprint))].record.fingerprint == Known(o.fingerprint)
    {
      var id := idOf(o.fingerprint);
      if w :| w in pending && w.id == id && disk[(dir, id)] == Stored(RecordOf(w, Alone(verify, w.fingerprint))) {
        assert IsFirst(w, occs, idOf);
        var i :| FirstAt(w, occs, idOf, i);
        assert occs[i] in occs;
      }
    }
  }

  /**
   * In a later unforced run over the same trials, a fingerprint is verified again exactly when its
   * verdict was no success with a numeric reward.
   */
  lemma SecondRunVerifiesIff(occs: seq<Occurrence>, idOf: IdOf, dirs: seq<string>, force: bool, verify: Verifier,
                             before: Disk, disk: Disk, w: Work)
    requires NoCollision(occs, idOf) && Truthful(before, verify) && IdsMean(before, occs, idOf)
    requires forall o :: o in occs ==> o.trial in dirs
    requires DiskAfter(Pending(Dedup(occs, idOf), Cache(force, dirs, before)), verify, before, disk)
    requires w in Dedup(occs, idOf)
    ensures w in Pending(Dedup(occs, idOf), Cache(false, dirs, disk)) <==> !Keeps(Alone(verify, w.fingerprint))
  {
    hide Alone, Dedup, Lookup, Pending, Reusable, Truthful;
    var works, cache, again := Dedup(occs, idOf), Cache(force, dirs, before), Cache(false, dirs, disk);
    var pending := Pending(works, cache);
    PendingAreTheMisses(works, cache);
    PendingAreTheMisses(works, again);
    DedupKeepsFirsts(occs, idOf);
    JobsKeepTheDiskTruthful(occs, idOf, pending, verify, before, disk);
    if Hit(again, w) {
      HitIsTruthful(dirs, disk, false, verify, w);
    }
    if Keeps(Alone(verify, w.fingerprint)) {
      assert IsFirst(w, occs, idOf);
      var i :| FirstAt(w, occs, idOf, i);
      assert occs[i] in occs && w.trial in dirs;
      KeptIsOffered(dirs, before, disk, force, pending, works, verify, w);
      LookupFinds(dirs, disk, w.id);
      assert w.id in Names(disk) by {
        var d :| d in dirs && Offers(disk, d, w.id);
        assert (d, w.id).1 == w.id;
      }
    }
  }

  /** A verifier whose reward is a Boolean. */
  function PassesWithTrue(fp: Fingerprint, attempt: nat): Verdict {
    Verdict("success", Some(map["reward" := Boolean(true)]), false)
  }

  /** Its verdict counts as a reward of one, and yet the same stage is verified again in the next run. */
  lemma BooleanRewardsAreVerifiedAgain(o: Occurrence, idOf: IdOf, disk: Disk)
    requires DiskAfter([WorkFor(o, idOf)], PassesWithTrue, map[], disk)
    ensures Reward(Alone(PassesWithTrue, o.fingerprint).rewards) == Some(1.0)
    ensures Pending(Dedup([o], idOf), Cache(false, [o.trial], disk)) == [WorkFor(o, idOf)]
  {
    hide Lookup, Reusable, Dedup, Pending, DiskAfter;
    OneWork(o, idOf);
    OnePending(WorkFor(o, idOf), Cache(false, [o.trial], map[]));
    OnePending(WorkFor(o, idOf), Cache(false, [o.trial], disk));
    SecondRunVerifiesIff([o], idOf, [o.trial], false, PassesWithTrue, map[], disk, WorkFor(o, idOf));
  }

  lemma OneWork(o: Occurrence, idOf: IdOf)
    ensures Dedup([o], idOf) == [WorkFor(o, idOf)]
  {
    assert [o][..0] == [];
  }

  lemma OnePending(w: Work, cache: map<string, Record>)
    ensures Pending([w], cache) == if Hit(cache, w) then [] else [w]
  {
    assert [w][..0] == [];
  }

  /** After the job some selected trial directory offers a record for every fingerprint whose verdict keeps. */
  lemma KeptIsOffered(dirs: seq<string>, before: Disk, disk: Disk, force: bool, pending: seq<Work>, works: seq<Work>,
                      verify: Verifier, w: Work)
    requires w in works && w.trial in dirs && DistinctIds(works) && Keeps(Alone(verify, w.fingerprint))
    requires pending == Pending(works, Cache(force, dirs, before)) && DiskAfter(pending, verify, before, disk)
    ensures exists d :: d in dirs && Offers(disk, d, w.id)
  {
    hide Alone, Lookup, Pending;
    PendingAreTheMisses(works, Cache(force, dirs, before));
    if w in pending {
      StoredIsReusable(w, Alone(verify, w.fingerprint));
      assert Offers(disk, w.trial, w.id);
    } else {
      LookupFinds(dirs, before, w.id);
      var d :| d in dirs && Offers(before, d, w.id);
      assert forall v :: v in pending ==> v.id != w.id;
      assert Offers(disk, d, w.id);
    }
  }

  // ----------------------------------------------------------------------- deltas

  function Reward(rewards: Option<Rewards>): Option<real> {
    if rewards == None || "reward" !in rewards.value then None
    else
      match rewards.value["reward"]
      case Number(v) => Some(v)
      case Boolean(b) => Some(if b then 1.0 else 0.0)
      case OtherValue => None
  }

  /** The rewards of a trial's stages, by stage id. */
  type RewardOf = D.StageId -> Option<real>

  /** The change of reward over one step, where the stage changed and both ends are rewarded. */
  function StepDelta(s: D.Stage, rewardOf: RewardOf): Option<real> {
    if !s.changed || s.parent == None then None
    else
      var child, parent := rewardOf(s.id), rewardOf(s.parent.value);
      if child == None || parent == None then None else Some(child.value - parent.value)
  }

  function Deltas(stages: seq<D.Stage>, rewardOf: RewardOf): seq<real> {
    if stages == [] then []
    else
      var last := StepDelta(stages[|stages| - 1], rewardOf);
      Deltas(stages[..|stages| - 1], rewardOf) + if last.Some? then [last.value] else []
  }

  method RevisionDeltas(stages: seq<D.Stage>, rewardOf: RewardOf) returns (deltas: seq<real>)
    requires |stages| > 0 && forall i :: 1 <= i < |stages| ==> stages[i].parent.Some?
    ensures deltas == Deltas(stages[1..], rewardOf)
  {
    deltas := [];
    for i := 1 to |stages|
      invariant deltas == Deltas(stages[1..i], rewardOf)
    {
      var s := stages[i];
      assert stages[1..i + 1][..i - 1] == stages[1..i] && stages[1..i + 1][i - 1] == s;
      if !s.changed {
        continue;
      }
      var child, parent := rewardOf(s.id), rewardOf(s.parent.value);
      if child == None || parent == None {
        continue;
      }
      deltas := deltas + [child.value - parent.value];
    }
    assert stages[1..|stages|] == stages[1..];
  }

  /** A stage whose step is a change of reward, recorded as such, or no change at all. */
  ghost predicate StepsChain(stages: seq<D.Stage>, rewardOf: RewardOf) {
    && (forall i :: 0 <= i < |stages| ==> rewardOf(stages[i].id).Some?)
    && (forall i :: 1 <= i < |stages| ==>
          && stages[i].parent == Some(stages[i - 1].id)
          && (!stages[i].changed ==> rewardOf(stages[i].id) == rewardOf(stages[i - 1].id)))
  }

  lemma {:induction false} StepsTelescope(stages: seq<D.Stage>, rewardOf: RewardOf, n: nat)
    requires 1 <= n <= |stages| && StepsChain(stages, rewardOf)
    ensures SumReal(Deltas(stages[1..n], rewardOf)) == rewardOf(stages[n - 1].id).value - rewardOf(stages[0].id).value
  {
    hide SumReal;
    if n == 1 {
      assert SumReal([]) == 0.0 by { SumsOfNothing(); }
    } else {
      StepsTelescope(stages, rewardOf, n - 1);
      var later := stages[1..n];
      assert |later| == n - 1 && later[n - 2] == stages[n - 1];
      assert later[..n - 2] == stages[1..n - 1];
      var last := StepDelta(stages[n - 1], rewardOf);
      if last.Some? {
        SumRealGrows(Deltas(stages[1..n - 1], rewardOf), last.value);
      } else {
        assert Deltas(stages[1..n], rewardOf) == Deltas(stages[1..n - 1], rewardOf);
      }
    }
  }

  /**
   * Per-revision deltas add up to the overall delta when every stage of an accepted trial is
   * rewarded: naive scoring gives equal patches of one trial equal rewards, so a stage that did
   * not change contributes nothing.
   */
  lemma DeltasTelescope(release: string, t: Trial, verify: Verifier, graded: seq<Patch>, reviews: seq<D.Entry>,
                        rewardOf: RewardOf)
    requires |t.stages| > 0 && D.StagesFit(t.stages, graded, D.Slots(reviews))
    requires forall i :: 0 <= i < |t.stages| ==>
               rewardOf(t.stages[i].id) == Reward(Alone(verify, FingerprintOf(release, t, t.stages[i])).rewards)
    requires forall i :: 0 <= i < |t.stages| ==> rewardOf(t.stages[i].id).Some?
    ensures t.stages[0].id == D.Initial && (|t.stages| > 1 ==> t.stages[|t.stages| - 1].id == D.Final)
    ensures SumReal(Deltas(t.stages[1..], rewardOf)) ==
            rewardOf(t.stages[|t.stages| - 1].id).value - rewardOf(D.Initial).value
  {
    hide SumReal, Deltas, Alone, Reward, D.StagesFit, StepsChain;
    StagesChain(release, t, verify, graded, reviews, rewardOf);
    StepsTelescope(t.stages, rewardOf, |t.stages|);
    assert t.stages[1..|t.stages|] == t.stages[1..];
  }

  lemma StagesChain(release: string, t: Trial, verify: Verifier, graded: seq<Patch>, reviews: seq<D.Entry>,
                    rewardOf: RewardOf)
    requires |t.stages| > 0 && D.StagesFit(t.stages, graded, D.Slots(reviews))
    requires forall i :: 0 <= i < |t.stages| ==>
               rewardOf(t.stages[i].id) == Reward(Alone(verify, FingerprintOf(release, t, t.stages[i])).rewards)
    requires forall i :: 0 <= i < |t.stages| ==> rewardOf(t.stages[i].id).Some?
    ensures StepsChain(t.stages, rewardOf)
    ensures t.stages[0].id == D.Initial && (|t.stages| > 1 ==> t.stages[|t.stages| - 1].id == D.Final)
  {
    hide Alone, Reward, D.First;
    var slots := D.Slots(reviews);
    forall i | 0 <= i < |t.stages|
      ensures t.stages[i].id == slots[i].id
      ensures i >= 1 ==> t.stages[i].parent == Some(t.stages[i - 1].id)
      ensures i >= 1 && !t.stages[i].changed ==> t.stages[i].patch == t.stages[i - 1].patch
    {
      assert D.StageFits(t.stages[i], i, graded, slots);
      assert i >= 1 ==> D.StageFits(t.stages[i - 1], i - 1, graded, slots);
    }
  }

  /** The rewards a job gave to one trial's stages. */
  function RewardsIn(scores: map<Key, StageScore>, trial: string): RewardOf {
    (id: D.StageId) => if (trial, id) in scores then Reward(scores[(trial, id)].rewards) else None
  }
}
