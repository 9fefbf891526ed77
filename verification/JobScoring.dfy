/** A whole scoring job, and what it delivers, told over trials, stages and the records on disk alone. */
module JobScoring {
  import opened Git
  import opened Options
  import opened Sums
  import opened VerifierPool
  import D = Discovery
  import S = Scoring

  // ----------------------------------------------------------------- the vocabulary

  ghost predicate IsStage(trials: seq<S.Trial>, t: S.Trial, s: D.Stage) { t in trials && s in t.stages }

  /** What a stage's verification depends on: the scorer, the trial's context and the stage's own patch. */
  function WorkOf(release: string, t: S.Trial, s: D.Stage): Fingerprint { Fingerprint(release, t.context, s.patch) }

  /** No two stages with different contexts or patches share an id. */
  ghost predicate IdsTellApart(release: string, trials: seq<S.Trial>, idOf: S.IdOf) {
    forall t, s, t', s' | IsStage(trials, t, s) && IsStage(trials, t', s') ::
      idOf(WorkOf(release, t, s)) == idOf(WorkOf(release, t', s')) ==> t.context == t'.context && s.patch == s'.patch
  }

  predicate IsRetried(verify: Verifier, fp: Fingerprint) {
    verify(fp, 1).status != "success" && verify(fp, 1).retryable
  }

  /** The verdict that verifying a fingerprint gives: the first, or the second when the first is retried. */
  function Stands(verify: Verifier, fp: Fingerprint): Verdict {
    if IsRetried(verify, fp) then verify(fp, 2) else verify(fp, 1)
  }

  ghost predicate HasNumber(rewards: Option<Rewards>) {
    rewards.Some? && "reward" in rewards.value && exists x :: rewards.value["reward"] == Number(x)
  }

  /** A stored success under its own id, with a fingerprint and a numeric reward. */
  ghost predicate IsReusable(disk: Disk, dir: string, id: string) {
    && (dir, id) in disk && disk[(dir, id)].Stored?
    && var r := disk[(dir, id)].record;
       r.status == "success" && r.fingerprintId == id && r.fingerprint != NoObject && HasNumber(r.rewards)
  }

  /** Every reusable record repeats what verifying its fingerprint gives. */
  ghost predicate TellsTheTruth(disk: Disk, verify: Verifier) {
    forall dir, id :: IsReusable(disk, dir, id) && disk[(dir, id)].record.fingerprint.Known? ==>
      var r := disk[(dir, id)].record;
      r.status == Stands(verify, r.fingerprint.fingerprint).status
      && r.rewards == Stands(verify, r.fingerprint.fingerprint).rewards
  }

  /** The n-th directory is the first with a reusable record under the id, and that record is about the fingerprint. */
  ghost predicate IsHit(dirs: seq<string>, disk: Disk, id: string, fp: Fingerprint, n: nat) {
    && n < |dirs| && IsReusable(disk, dirs[n], id) && disk[(dirs[n], id)].record.fingerprint == Known(fp)
    && forall m :: 0 <= m < n ==> !IsReusable(disk, dirs[m], id)
  }

  ghost predicate IsCached(force: bool, dirs: seq<string>, disk: Disk, id: string, fp: Fingerprint) {
    !force && exists n: nat :: IsHit(dirs, disk, id, fp, n)
  }

  ghost predicate HasWork(release: string, t: S.Trial, fp: Fingerprint) {
    exists s :: s in t.stages && WorkOf(release, t, s) == fp
  }

  /** The first trial with a stage of this fingerprint; its directory gets the record. */
  ghost predicate IsFirstTrial(release: string, trials: seq<S.Trial>, fp: Fingerprint, i: nat) {
    i < |trials| && HasWork(release, trials[i], fp) && forall j :: 0 <= j < i ==> !HasWork(release, trials[j], fp)
  }

  // ------------------------------------------------------------------ what is delivered

  /** The row of a stage holds the verdict on the stage's own patch. */
  ghost predicate IsScored(scores: map<S.Key, S.StageScore>, release: string, t: S.Trial, s: D.Stage, verify: Verifier) {
    && (t.name, s.id) in scores
    && var row, verdict := scores[(t.name, s.id)], Stands(verify, WorkOf(release, t, s));
       row.status == verdict.status && row.rewards == verdict.rewards
  }

  ghost predicate AllScored(scores: map<S.Key, S.StageScore>, release: string, trials: seq<S.Trial>, verify: Verifier) {
    forall t, s :: IsStage(trials, t, s) ==> IsScored(scores, release, t, s, verify)
  }

  /** The row tells where its verdict comes from. */
  ghost predicate IsAccounted(scores: map<S.Key, S.StageScore>, release: string, trials: seq<S.Trial>, t: S.Trial,
                              s: D.Stage, idOf: S.IdOf, force: bool, dirs: seq<string>, disk: Disk)
  {
    && (t.name, s.id) in scores
    && var row, fp, id := scores[(t.name, s.id)], WorkOf(release, t, s), idOf(WorkOf(release, t, s));
       && row.fingerprint == fp && row.id == id && (row.cached <==> IsCached(force, dirs, disk, id, fp))
       && (forall n: nat :: row.cached && IsHit(dirs, disk, id, fp, n) ==>
             row.scoredInTrial == Some(disk[(dirs[n], id)].record.sourceTrial))
       && (forall i: nat :: !row.cached && IsFirstTrial(release, trials, fp, i) ==> row.scoredInTrial == Some(trials[i].name))
  }

  ghost predicate AllAccounted(scores: map<S.Key, S.StageScore>, release: string, trials: seq<S.Trial>, idOf: S.IdOf,
                               force: bool, dirs: seq<string>, disk: Disk)
  {
    forall t, s :: IsStage(trials, t, s) ==> IsAccounted(scores, release, trials, t, s, idOf, force, dirs, disk)
  }

  /** A stage whose patch no directory has a record for is verified once, with its retry, and never otherwise. */
  ghost predicate IsVerifiedOnce(calls: Log, release: string, t: S.Trial, s: D.Stage, idOf: S.IdOf, force: bool,
                                 dirs: seq<string>, disk: Disk, verify: Verifier)
  {
    var fp := WorkOf(release, t, s);
    CallsFor(calls, fp) ==
      if IsCached(force, dirs, disk, idOf(fp), fp) then [] else if IsRetried(verify, fp) then [1, 2] else [1]
  }

  ghost predicate AllVerifiedOnce(calls: Log, release: string, trials: seq<S.Trial>, idOf: S.IdOf, force: bool,
                                  dirs: seq<string>, disk: Disk, verify: Verifier)
  {
    && (forall t, s :: IsStage(trials, t, s) ==> IsVerifiedOnce(calls, release, t, s, idOf, force, dirs, disk, verify))
    && (forall fp :: (forall t :: t in trials ==> !HasWork(release, t, fp)) ==> CallsFor(calls, fp) == [])
  }

  /** The record of a fresh verdict. */
  ghost predicate IsRecorded(disk: Disk, dir: string, id: string, fp: Fingerprint, verify: Verifier) {
    (dir, id) in disk && disk[(dir, id)] ==
      Stored(Record(id, Known(fp), Stands(verify, fp).status, Stands(verify, fp).rewards, dir))
  }

  /** Fresh verdicts are recorded in the first trial that asked for them, and nothing else on disk changes. */
  ghost predicate AllRecorded(before: Disk, disk: Disk, release: string, trials: seq<S.Trial>, idOf: S.IdOf, force: bool,
                              dirs: seq<string>, verify: Verifier)
  {
    && (forall fp, i: nat :: IsFirstTrial(release, trials, fp, i) && !IsCached(force, dirs, before, idOf(fp), fp) ==>
          IsRecorded(disk, trials[i].name, idOf(fp), fp, verify))
    && (forall place :: !IsFresh(before, release, trials, idOf, force, dirs, place) ==>
          (place in disk <==> place in before) && (place in disk ==> disk[place] == before[place]))
  }

  /** The place of a fresh verdict's record. */
  ghost predicate IsFresh(before: Disk, release: string, trials: seq<S.Trial>, idOf: S.IdOf, force: bool, dirs: seq<string>,
                          place: (string, string))
  {
    exists fp, i: nat :: && IsFirstTrial(release, trials, fp, i) && !IsCached(force, dirs, before, idOf(fp), fp)
                         && place == (trials[i].name, idOf(fp))
  }

  // ------------------------------------------------------------------------- proofs

  lemma AloneStands(verify: Verifier, fp: Fingerprint)
    ensures Alone(verify, fp) == Stands(verify, fp)
    ensures UpTo(Attempts(verify, fp)) == if IsRetried(verify, fp) then [1, 2] else [1]
  {
    SecondAttemptIff(verify, fp);
  }

  lemma OffersMean(disk: Disk, dir: string, id: string)
    ensures S.Offers(disk, dir, id) <==> IsReusable(disk, dir, id)
  {
    if S.Offers(disk, dir, id) {
      assert disk[(dir, id)].record.rewards.value["reward"] == Number(disk[(dir, id)].record.rewards.value["reward"].value);
    }
  }

  /** The record that a lookup finds is that of the first directory with a reusable one. */
  lemma {:induction false} LookupIsFirst(dirs: seq<string>, disk: Disk, id: string, fp: Fingerprint)
    ensures var found := S.Lookup(dirs, disk, id);
            && (found.Some? && found.value.fingerprint == Known(fp) <==> exists n: nat :: IsHit(dirs, disk, id, fp, n))
            && (forall n: nat :: IsHit(dirs, disk, id, fp, n) ==> found == Some(disk[(dirs[n], id)].record))
            && (found == None ==> forall n :: 0 <= n < |dirs| ==> !IsReusable(disk, dirs[n], id))
            && (found.Some? ==> exists n: nat :: n < |dirs| && IsReusable(disk, dirs[n], id))
  {
    hide IsReusable, S.Offers;
    if dirs != [] {
      var last := |dirs| - 1;
      var shorter := dirs[..last];
      LookupIsFirst(shorter, disk, id, fp);
      OffersMean(disk, dirs[last], id);
      assert forall n :: 0 <= n < last ==> dirs[n] == shorter[n];
      assert forall n: nat :: n < last ==> (IsHit(dirs, disk, id, fp, n) <==> IsHit(shorter, disk, id, fp, n));
      if S.Lookup(shorter, disk, id) == None {
        assert IsHit(dirs, disk, id, fp, last) <==>
               IsReusable(disk, dirs[last], id) && disk[(dirs[last], id)].record.fingerprint == Known(fp);
      } else {
        var n: nat :| n < |shorter| && IsReusable(disk, shorter[n], id);
        assert !IsHit(dirs, disk, id, fp, last);
      }
    }
  }

  lemma HitsAreCached(force: bool, dirs: seq<string>, disk: Disk, w: Work)
    ensures S.Hit(S.Cache(force, dirs, disk), w) <==> IsCached(force, dirs, disk, w.id, w.fingerprint)
    ensures forall n: nat :: S.Hit(S.Cache(force, dirs, disk), w) && IsHit(dirs, disk, w.id, w.fingerprint, n) ==>
              S.Cache(force, dirs, disk)[w.id] == disk[(dirs[n], w.id)].record
  {
    hide S.Lookup, IsReusable;
    LookupIsFirst(dirs, disk, w.id, w.fingerprint);
    if n: nat :| IsHit(dirs, disk, w.id, w.fingerprint, n) {
      OffersMean(disk, dirs[n], w.id);
      assert (dirs[n], w.id).1 == w.id;
    }
  }

  lemma OneMoreTrial(release: string, trials: seq<S.Trial>)
    requires trials != []
    ensures var last := |trials| - 1;
            S.Occurrences(release, trials) == S.Occurrences(release, trials[..last]) + S.StageOccurrences(release, trials[last])
  {
  }

  /** The occurrences are the stages, each with the fingerprint of its own patch. */
  lemma {:induction false} OccurrencesAreStages(release: string, trials: seq<S.Trial>)
    ensures forall t, s :: IsStage(trials, t, s) ==>
              S.Occurrence(t.name, s.id, WorkOf(release, t, s)) in S.Occurrences(release, trials)
    ensures forall o :: o in S.Occurrences(release, trials) ==>
              exists t, s :: IsStage(trials, t, s) && o == S.Occurrence(t.name, s.id, WorkOf(release, t, s))
  {
    if trials != [] {
      hide S.Occurrences;
      var last := |trials| - 1;
      var earlier := trials[..last];
      OccurrencesAreStages(release, earlier);
      OneMoreTrial(release, trials);
      assert trials == earlier + [trials[last]];
      forall t, s | IsStage(trials, t, s)
        ensures S.Occurrence(t.name, s.id, WorkOf(release, t, s)) in S.Occurrences(release, trials)
      {
        if t in earlier {
          assert IsStage(earlier, t, s);
        } else {
          var k :| 0 <= k < |t.stages| && t.stages[k] == s;
          assert S.StageOccurrences(release, t)[k] == S.Occurrence(t.name, s.id, WorkOf(release, t, s));
        }
      }
      forall o | o in S.Occurrences(release, trials)
        ensures exists t, s :: IsStage(trials, t, s) && o == S.Occurrence(t.name, s.id, WorkOf(release, t, s))
      {
        if o in S.Occurrences(release, earlier) {
          var t, s :| IsStage(earlier, t, s) && o == S.Occurrence(t.name, s.id, WorkOf(release, t, s));
          assert IsStage(trials, t, s);
        } else {
          var own := S.StageOccurrences(release, trials[last]);
          var k :| 0 <= k < |own| && own[k] == o;
          assert IsStage(trials, trials[last], trials[last].stages[k]);
        }
      }
    }
  }

  /** The first occurrence of a fingerprint lies in the first trial that has it. */
  lemma {:induction false} FirstIsInFirstTrial(release: string, trials: seq<S.Trial>, idOf: S.IdOf, w: Work, k: int)
    returns (i: nat)
    requires S.FirstAt(w, S.Occurrences(release, trials), idOf, k)
    ensures IsFirstTrial(release, trials, w.fingerprint, i) && w.trial == trials[i].name
  {
    assert trials != [];
    hide S.Occurrences;
    var last := |trials| - 1;
    var earlier, own := trials[..last], S.StageOccurrences(release, trials[last]);
    var before := S.Occurrences(release, earlier);
    OneMoreTrial(release, trials);
    if k < |before| {
      assert S.FirstAt(w, before, idOf, k) by {
        assert forall j :: 0 <= j < |before| ==> S.Occurrences(release, trials)[j] == before[j];
      }
      i := FirstIsInFirstTrial(release, earlier, idOf, w, k);
    } else {
      i := last;
      var n := k - |before|;
      assert own[n] == S.Occurrences(release, trials)[k];
      assert WorkOf(release, trials[last], trials[last].stages[n]) == w.fingerprint;
      forall m | 0 <= m < |before| ensures before[m].fingerprint != w.fingerprint {
        assert S.Occurrences(release, trials)[m] == before[m];
      }
      forall j | 0 <= j < last && HasWork(release, trials[j], w.fingerprint) ensures false {
        var m := WorkOccurs(release, earlier, w.fingerprint, j);
      }
    }
  }

  lemma WorkOccurs(release: string, trials: seq<S.Trial>, fp: Fingerprint, j: nat) returns (n: nat)
    requires j < |trials| && HasWork(release, trials[j], fp)
    ensures n < |S.Occurrences(release, trials)| && S.Occurrences(release, trials)[n].fingerprint == fp
  {
    hide S.Occurrences;
    OccurrencesAreStages(release, trials);
    var s :| s in trials[j].stages && WorkOf(release, trials[j], s) == fp;
    assert IsStage(trials, trials[j], s);
    n :| 0 <= n < |S.Occurrences(release, trials)|
         && S.Occurrences(release, trials)[n] == S.Occurrence(trials[j].name, s.id, WorkOf(release, trials[j], s));
  }

  lemma FirstTrialHasIt(release: string, trials: seq<S.Trial>, fp: Fingerprint, i: nat)
    requires IsFirstTrial(release, trials, fp, i)
    ensures i < |trials| && trials[i] in trials && HasWork(release, trials[i], fp)
    ensures exists s :: IsStage(trials, trials[i], s) && WorkOf(release, trials[i], s) == fp
  {
    var s :| s in trials[i].stages && WorkOf(release, trials[i], s) == fp;
    assert IsStage(trials, trials[i], s);
  }

  /** Ids that tell stages apart do not collide on occurrences. */
  lemma NothingCollides(release: string, trials: seq<S.Trial>, idOf: S.IdOf)
    requires IdsTellApart(release, trials, idOf)
    ensures S.NoCollision(S.Occurrences(release, trials), idOf)
  {
    hide S.Occurrences;
    var occs := S.Occurrences(release, trials);
    OccurrencesAreStages(release, trials);
    forall o, o' | o in occs && o' in occs && idOf(o.fingerprint) == idOf(o'.fingerprint) ensures o.fingerprint == o'.fingerprint {
      var t, s :| IsStage(trials, t, s) && o == S.Occurrence(t.name, s.id, WorkOf(release, t, s));
      var t', s' :| IsStage(trials, t', s') && o' == S.Occurrence(t'.name, s'.id, WorkOf(release, t', s'));
    }
  }

  lemma TruthIsTruthful(disk: Disk, verify: Verifier)
    requires TellsTheTruth(disk, verify)
    ensures S.Truthful(disk, verify)
  {
    hide IsReusable, Stands, Alone, S.Offers;
    forall dir, id | S.Offers(disk, dir, id) && disk[(dir, id)].record.fingerprint.Known?
      ensures var r, alone := disk[(dir, id)].record, Alone(verify, disk[(dir, id)].record.fingerprint.fingerprint);
              r.status == alone.status && r.rewards == alone.rewards
    {
      OffersMean(disk, dir, id);
      AloneStands(verify, disk[(dir, id)].record.fingerprint.fingerprint);
    }
  }

  /** The work that speaks for a stage: it has the stage's fingerprint and the first trial that has it. */
  lemma WorkOfAStage(release: string, trials: seq<S.Trial>, idOf: S.IdOf, t: S.Trial, s: D.Stage)
    returns (o: S.Occurrence, w: Work, i: nat)
    requires IsStage(trials, t, s) && IdsTellApart(release, trials, idOf)
    ensures var occs, fp := S.Occurrences(release, trials), WorkOf(release, t, s);
            && o == S.Occurrence(t.name, s.id, fp) && o in occs
            && S.Find(S.Dedup(occs, idOf), idOf(fp)) < |S.Dedup(occs, idOf)|
            && w == S.Representative(S.Dedup(occs, idOf), o, idOf) && w in S.Dedup(occs, idOf)
            && i < |trials| && w == Work(idOf(fp), fp, trials[i].name) && IsFirstTrial(release, trials, fp, i)
  {
    hide S.Occurrences, S.Dedup, S.Find, IsFirstTrial, IdsTellApart;
    var occs, fp := S.Occurrences(release, trials), WorkOf(release, t, s);
    OccurrencesAreStages(release, trials);
    NothingCollides(release, trials, idOf);
    o := S.Occurrence(t.name, s.id, fp);
    S.RepresentativeIsFirst(occs, o, idOf);
    w := S.Representative(S.Dedup(occs, idOf), o, idOf);
    var k :| S.FirstAt(w, occs, idOf, k);
    i := FirstIsInFirstTrial(release, trials, idOf, w, k);
    FirstTrialHasIt(release, trials, fp, i);
  }

  lemma JobIsScored(release: string, trials: seq<S.Trial>, idOf: S.IdOf, force: bool, dirs: seq<string>, disk: Disk,
                    verify: Verifier, scores: map<S.Key, S.StageScore>)
    requires IdsTellApart(release, trials, idOf) && TellsTheTruth(disk, verify)
    requires var occs := S.Occurrences(release, trials);
             S.JobScored(scores, occs, S.Dedup(occs, idOf), idOf, S.Cache(force, dirs, disk), verify)
    ensures AllScored(scores, release, trials, verify)
  {
    hide S.Occurrences, S.Dedup, S.Cache, S.JobScored, S.Truthful, S.NoCollision, Alone, Stands;
    NothingCollides(release, trials, idOf);
    TruthIsTruthful(disk, verify);
    S.ScoringIsNaive(S.Occurrences(release, trials), dirs, disk, force, verify, idOf, scores);
    OccurrencesAreStages(release, trials);
    forall t, s | IsStage(trials, t, s) ensures IsScored(scores, release, t, s, verify) {
      AloneStands(verify, WorkOf(release, t, s));
      assert S.KeyOf(S.Occurrence(t.name, s.id, WorkOf(release, t, s))) == (t.name, s.id);
    }
  }

  lemma OneFirstTrial(release: string, trials: seq<S.Trial>, fp: Fingerprint, i: nat, j: nat)
    requires IsFirstTrial(release, trials, fp, i) && IsFirstTrial(release, trials, fp, j)
    ensures i == j
  {
  }

  lemma JobIsAccounted(release: string, trials: seq<S.Trial>, idOf: S.IdOf, force: bool, dirs: seq<string>, disk: Disk,
                       verify: Verifier, scores: map<S.Key, S.StageScore>)
    requires IdsTellApart(release, trials, idOf)
    requires var occs := S.Occurrences(release, trials);
             S.JobScored(scores, occs, S.Dedup(occs, idOf), idOf, S.Cache(force, dirs, disk), verify)
    ensures AllAccounted(scores, release, trials, idOf, force, dirs, disk)
  {
    hide S.Occurrences, S.Dedup, S.Cache, S.Find, S.Hit, Alone, IsFirstTrial, IsCached, IsHit;
    var occs := S.Occurrences(release, trials);
    forall t, s | IsStage(trials, t, s) ensures IsAccounted(scores, release, trials, t, s, idOf, force, dirs, disk) {
      var o, w, first := WorkOfAStage(release, trials, idOf, t, s);
      HitsAreCached(force, dirs, disk, w);
      assert S.OccurrenceScored(scores, o, S.Dedup(occs, idOf), idOf, S.Cache(force, dirs, disk), verify);
      forall i: nat | IsFirstTrial(release, trials, w.fingerprint, i) ensures i == first {
        OneFirstTrial(release, trials, w.fingerprint, i, first);
      }
    }
  }

  /** The pending works, seen from the stages. */
  lemma PendingIsNotCached(release: string, trials: seq<S.Trial>, idOf: S.IdOf, force: bool, dirs: seq<string>, disk: Disk,
                           w: Work)
    requires w in S.Pending(S.Dedup(S.Occurrences(release, trials), idOf), S.Cache(force, dirs, disk))
    ensures w.id == idOf(w.fingerprint) && !IsCached(force, dirs, disk, w.id, w.fingerprint)
    ensures exists i: nat :: i < |trials| && IsFirstTrial(release, trials, w.fingerprint, i) && trials[i].name == w.trial
  {
    hide S.Occurrences, S.Dedup, S.Cache, S.Hit, S.Pending, IsFirstTrial, IsCached;
    var occs := S.Occurrences(release, trials);
    S.PendingAreTheMisses(S.Dedup(occs, idOf), S.Cache(force, dirs, disk));
    S.DedupKeepsFirsts(occs, idOf);
    HitsAreCached(force, dirs, disk, w);
    assert S.IsFirst(w, occs, idOf);
    var k :| S.FirstAt(w, occs, idOf, k);
    var i := FirstIsInFirstTrial(release, trials, idOf, w, k);
    FirstTrialHasIt(release, trials, w.fingerprint, i);
  }

  lemma JobIsVerifiedOnce(release: string, trials: seq<S.Trial>, idOf: S.IdOf, force: bool, dirs: seq<string>, disk: Disk,
                          verify: Verifier, calls: Log)
    requires IdsTellApart(release, trials, idOf)
    requires S.CallsAre(S.Pending(S.Dedup(S.Occurrences(release, trials), idOf), S.Cache(force, dirs, disk)), verify, calls)
    ensures AllVerifiedOnce(calls, release, trials, idOf, force, dirs, disk, verify)
  {
    hide S.Occurrences, S.Dedup, S.Cache, S.Find, S.Hit, S.Pending, Alone, Attempts, CallsFor, UpTo, IsFirstTrial, IsCached,
         IsRetried, IdsTellApart, HasWork;
    var occs, cache := S.Occurrences(release, trials), S.Cache(force, dirs, disk);
    var pending := S.Pending(S.Dedup(occs, idOf), cache);
    forall t, s | IsStage(trials, t, s) ensures IsVerifiedOnce(calls, release, t, s, idOf, force, dirs, disk, verify) {
      var o, w, first := WorkOfAStage(release, trials, idOf, t, s);
      HitsAreCached(force, dirs, disk, w);
      AloneStands(verify, w.fingerprint);
      S.PendingAreTheMisses(S.Dedup(occs, idOf), cache);
      forall v | v in pending && v.fingerprint == w.fingerprint ensures !IsCached(force, dirs, disk, w.id, w.fingerprint) {
        PendingIsNotCached(release, trials, idOf, force, dirs, disk, v);
      }
    }
    forall fp | forall t :: t in trials ==> !HasWork(release, t, fp) ensures CallsFor(calls, fp) == [] {
      forall v | v in pending ensures v.fingerprint != fp {
        PendingIsNotCached(release, trials, idOf, force, dirs, disk, v);
        var i: nat :| i < |trials| && IsFirstTrial(release, trials, v.fingerprint, i) && trials[i].name == v.trial;
        FirstTrialHasIt(release, trials, v.fingerprint, i);
      }
    }
  }

  lemma JobIsRecorded(release: string, trials: seq<S.Trial>, idOf: S.IdOf, force: bool, dirs: seq<string>, before: Disk,
                      verify: Verifier, disk: Disk)
    requires IdsTellApart(release, trials, idOf)
    requires S.DiskAfter(S.Pending(S.Dedup(S.Occurrences(release, trials), idOf), S.Cache(force, dirs, before)), verify, before, disk)
    ensures AllRecorded(before, disk, release, trials, idOf, force, dirs, verify)
  {
    hide S.Occurrences, S.Dedup, S.Cache, S.Find, S.Hit, S.Pending, Alone, IsFirstTrial, IsCached, IdsTellApart, Stands;
    var occs, cache := S.Occurrences(release, trials), S.Cache(force, dirs, before);
    var pending := S.Pending(S.Dedup(occs, idOf), cache);
    forall fp, i: nat | IsFirstTrial(release, trials, fp, i) && !IsCached(force, dirs, before, idOf(fp), fp)
      ensures i < |trials| && IsRecorded(disk, trials[i].name, idOf(fp), fp, verify)
    {
      FirstTrialHasIt(release, trials, fp, i);
      var s :| IsStage(trials, trials[i], s) && WorkOf(release, trials[i], s) == fp;
      var o, w, first := WorkOfAStage(release, trials, idOf, trials[i], s);
      OneFirstTrial(release, trials, fp, i, first);
      HitsAreCached(force, dirs, before, w);
      AloneStands(verify, fp);
      S.PendingAreTheMisses(S.Dedup(occs, idOf), cache);
      assert w in pending;
    }
    forall w | w in pending ensures IsFresh(before, release, trials, idOf, force, dirs, Place(w)) {
      PendingIsNotCached(release, trials, idOf, force, dirs, before, w);
    }
  }

  /**
   * `score_patch_job` without `reuse_final_score`, from discovered trials to scored stages: whatever is
   * shared or cached, every stage gets the verdict on its own patch, and every patch without a usable
   * record is verified once and recorded.
   */
  method ScoreJob(trials: seq<S.Trial>, dirs: seq<string>, before: Disk, release: string, concurrency: int, force: bool,
                  verify: Verifier, idOf: S.IdOf)
    returns (scores: map<S.Key, S.StageScore>, disk: Disk, calls: Log)
    requires S.DistinctKeys(S.Occurrences(release, trials))
    ensures IdsTellApart(release, trials, idOf) ==>
              && (TellsTheTruth(before, verify) ==> AllScored(scores, release, trials, verify))
              && AllAccounted(scores, release, trials, idOf, force, dirs, before)
              && AllVerifiedOnce(calls, release, trials, idOf, force, dirs, before, verify)
              && AllRecorded(before, disk, release, trials, idOf, force, dirs, verify)
    ensures var occs, cache := S.Occurrences(release, trials), S.Cache(force, dirs, before);
            var pending := S.Pending(S.Dedup(occs, idOf), cache);
            && S.JobScored(scores, occs, S.Dedup(occs, idOf), idOf, cache, verify)
            && S.DiskAfter(pending, verify, before, disk)
            && S.CallsAre(pending, verify, calls)
  {
    hide S.Dedup, S.Find, S.Pending, S.JobScored, S.DiskAfter, S.CallsAre, S.TableFits, S.Occurrences, IdsTellApart, TellsTheTruth,
         AllScored, AllAccounted, AllVerifiedOnce, AllRecorded;
    ghost var occs := S.Occurrences(release, trials);
    var unscored, works := S.CollectWork(trials, release, idOf);
    var cache := map[];
    if !force {
      cache := S.ScanCachedResults(dirs, before);
    }
    var pending := S.SplitPending(works, cache);
    S.DedupKeepsFirsts(occs, idOf);
    S.PendingAreTheMisses(works, cache);
    S.PendingIdsAreDistinct(works, cache);
    S.PendingAreDistinct(occs, idOf, pending);
    var records;
    records, disk, calls := S.RunPending(pending, verify, concurrency, before);
    scores := S.AttachScores(unscored, occs, works, verify, cache, records, idOf);
    if IdsTellApart(release, trials, idOf) {
      JobIsAccounted(release, trials, idOf, force, dirs, before, verify, scores);
      JobIsVerifiedOnce(release, trials, idOf, force, dirs, before, verify, calls);
      JobIsRecorded(release, trials, idOf, force, dirs, before, verify, disk);
      if TellsTheTruth(before, verify) {
        JobIsScored(release, trials, idOf, force, dirs, before, verify, scores);
      }
    }
  }

  /** Two stages share one work exactly when their contexts and their patches are the same. */
  lemma StagesShareWorkIff(release: string, trials: seq<S.Trial>, idOf: S.IdOf, t: S.Trial, s: D.Stage, t': S.Trial, s': D.Stage)
    requires IdsTellApart(release, trials, idOf) && IsStage(trials, t, s) && IsStage(trials, t', s')
    ensures var works := S.Dedup(S.Occurrences(release, trials), idOf);
            S.Find(works, idOf(WorkOf(release, t, s))) == S.Find(works, idOf(WorkOf(release, t', s'))) <==>
              t.context == t'.context && s.patch == s'.patch
  {
    hide S.Dedup, S.Find, S.Occurrences, IdsTellApart, IsFirstTrial;
    var o, w, i := WorkOfAStage(release, trials, idOf, t, s);
    var o', w', i' := WorkOfAStage(release, trials, idOf, t', s');
  }

  // ------------------------------------------------------------------- running again

  /** A reusable record filed under a stage's id is about the stage's patch. */
  ghost predicate RecordsMean(disk: Disk, release: string, trials: seq<S.Trial>, idOf: S.IdOf) {
    forall dir, t, s :: IsStage(trials, t, s) && IsReusable(disk, dir, idOf(WorkOf(release, t, s))) ==>
      disk[(dir, idOf(WorkOf(release, t, s)))].record.fingerprint == Known(WorkOf(release, t, s))
  }

  lemma RecordsMeanIds(disk: Disk, release: string, trials: seq<S.Trial>, idOf: S.IdOf)
    requires RecordsMean(disk, release, trials, idOf)
    ensures S.IdsMean(disk, S.Occurrences(release, trials), idOf)
  {
    hide S.Occurrences, IsReusable, S.Offers;
    OccurrencesAreStages(release, trials);
    forall dir, o | o in S.Occurrences(release, trials) && S.Offers(disk, dir, idOf(o.fingerprint))
      ensures disk[(dir, idOf(o.fingerprint))].record.fingerprint == Known(o.fingerprint)
    {
      var t, s :| IsStage(trials, t, s) && o == S.Occurrence(t.name, s.id, WorkOf(release, t, s));
      OffersMean(disk, dir, idOf(WorkOf(release, t, s)));
    }
  }

  /** A later unforced run reuses a stage's verdict exactly when it was a success with a numeric reward. */
  lemma ReusedIff(release: string, trials: seq<S.Trial>, idOf: S.IdOf, dirs: seq<string>, force: bool, verify: Verifier,
                  before: Disk, disk: Disk, t: S.Trial, s: D.Stage)
    requires IdsTellApart(release, trials, idOf) && TellsTheTruth(before, verify) && RecordsMean(before, release, trials, idOf)
    requires (forall trial :: trial in trials ==> trial.name in dirs) && IsStage(trials, t, s)
    requires S.DiskAfter(S.Pending(S.Dedup(S.Occurrences(release, trials), idOf), S.Cache(force, dirs, before)), verify, before, disk)
    ensures var fp := WorkOf(release, t, s);
            IsCached(false, dirs, disk, idOf(fp), fp) <==>
              Stands(verify, fp).status == "success" && HasNumber(Stands(verify, fp).rewards)
  {
    hide S.Occurrences, S.Dedup, S.Find, S.Pending, S.Cache, S.DiskAfter, S.Truthful, S.NoCollision, S.IdsMean, S.Hit, IsCached,
         IdsTellApart, TellsTheTruth, RecordsMean, Stands, IsFirstTrial, Alone;
    var occs, fp := S.Occurrences(release, trials), WorkOf(release, t, s);
    var o, w, i := WorkOfAStage(release, trials, idOf, t, s);
    NothingCollides(release, trials, idOf);
    TruthIsTruthful(before, verify);
    RecordsMeanIds(before, release, trials, idOf);
    OccurrencesAreStages(release, trials);
    S.SecondRunVerifiesIff(occs, idOf, dirs, force, verify, before, disk, w);
    S.PendingAreTheMisses(S.Dedup(occs, idOf), S.Cache(false, dirs, disk));
    HitsAreCached(false, dirs, disk, w);
    AloneStands(verify, fp);
    NumbersKeep(Stands(verify, fp));
  }

  lemma NumbersKeep(v: Verdict)
    ensures S.Keeps(v) <==> v.status == "success" && HasNumber(v.rewards)
  {
    if S.Keeps(v) {
      assert v.rewards.value["reward"] == Number(v.rewards.value["reward"].value);
    }
  }

  // -------------------------------------------------------------------------- deltas

  /** The reward is this number, or a truth value that counts as it. */
  ghost predicate IsReward(rewards: Option<Rewards>, x: real) {
    && rewards.Some? && "reward" in rewards.value
    && var value := rewards.value["reward"];
       value == Number(x) || (value == Boolean(true) && x == 1.0) || (value == Boolean(false) && x == 0.0)
  }

  lemma RewardsMean(rewards: Option<Rewards>, x: real)
    ensures S.Reward(rewards) == Some(x) <==> IsReward(rewards, x)
  {
  }

  /**
   * What a job reports for a trial: the revision deltas add up to the reward of verifying the last
   * stage's patch less the reward of verifying the first one's.
   */
  lemma RevisionsAddUp(scores: map<S.Key, S.StageScore>, release: string, trials: seq<S.Trial>, verify: Verifier,
                       t: S.Trial, graded: seq<Patch>, reviews: seq<D.Entry>, first: real, last: real)
    requires AllScored(scores, release, trials, verify) && t in trials
    requires t.stages != [] && D.StagesFit(t.stages, graded, D.Slots(reviews))
    requires forall k :: 0 <= k < |t.stages| ==> exists x :: IsReward(Stands(verify, WorkOf(release, t, t.stages[k])).rewards, x)
    requires IsReward(Stands(verify, WorkOf(release, t, t.stages[0])).rewards, first)
    requires IsReward(Stands(verify, WorkOf(release, t, t.stages[|t.stages| - 1])).rewards, last)
    ensures SumReal(S.Deltas(t.stages[1..], S.RewardsIn(scores, t.name))) == last - first
  {
    hide SumReal, S.Deltas, Alone, S.Reward, D.StagesFit, Stands, IsReward;
    var rewardOf := S.RewardsIn(scores, t.name);
    forall k | 0 <= k < |t.stages|
      ensures rewardOf(t.stages[k].id) == S.Reward(Alone(verify, S.FingerprintOf(release, t, t.stages[k])).rewards)
      ensures rewardOf(t.stages[k].id) == S.Reward(Stands(verify, WorkOf(release, t, t.stages[k])).rewards)
      ensures rewardOf(t.stages[k].id).Some?
    {
      assert IsStage(trials, t, t.stages[k]) && IsScored(scores, release, t, t.stages[k], verify);
      AloneStands(verify, WorkOf(release, t, t.stages[k]));
      var x :| IsReward(Stands(verify, WorkOf(release, t, t.stages[k])).rewards, x);
      RewardsMean(Stands(verify, WorkOf(release, t, t.stages[k])).rewards, x);
    }
    RewardsMean(Stands(verify, WorkOf(release, t, t.stages[0])).rewards, first);
    RewardsMean(Stands(verify, WorkOf(release, t, t.stages[|t.stages| - 1])).rewards, last);
    S.DeltasTelescope(release, t, verify, graded, reviews, rewardOf);
  }
}
