/** Abstract repository: commits, patches and the checkpoint operations of the collab loop. */
module Git {
  import opened Options

  datatype Path = Path(name: string)
  datatype Content = Blob(bytes: string)
  type Tree = map<Path, Content>

  /** A commit is identified with what its hash covers, so commit equality is hash equality. */
  datatype Commit =
    | Root(tree: Tree)
    | Child(tree: Tree, parent: Commit, message: string)

  // ---------------------------------------------------------------- patches

  datatype Change =
    | Added(post: Content)
    | Deleted(pre: Content)
    | Modified(pre: Content, post: Content)

  type Patch = map<Path, Change>

  const EMPTY_PATCH: Patch := map[]

  /** `git diff --binary from to` */
  function Diff(from: Tree, to: Tree): Patch {
    map p | p in from.Keys + to.Keys && !(p in from && p in to && from[p] == to[p]) ::
      if p !in from then Added(to[p])
      else if p !in to then Deleted(from[p])
      else Modified(from[p], to[p])
  }

  /** `git apply --check`: every hunk finds the preimage it was made against. */
  predicate AppliesTo(base: Tree, patch: Patch) {
    forall p :: p in patch ==>
      match patch[p]
      case Added(_) => p !in base
      case Deleted(pre) => p in base && base[p] == pre
      case Modified(pre, _) => p in base && base[p] == pre
  }

  function Apply(base: Tree, patch: Patch): Tree
    requires AppliesTo(base, patch)
  {
    map p | p in base.Keys + patch.Keys && !(p in patch && patch[p].Deleted?) ::
      if p in patch then patch[p].post else base[p]
  }

  lemma ApplyUndoesDiff(from: Tree, to: Tree)
    ensures AppliesTo(from, Diff(from, to)) && Apply(from, Diff(from, to)) == to
  {
    var patch := Diff(from, to);
    assert AppliesTo(from, patch);
    var result := Apply(from, patch);
    forall p
      ensures p in result <==> p in to
      ensures p in to ==> result[p] == to[p]
    {
      if p in patch {
        assert p in from.Keys + to.Keys;
      } else if p in from || p in to {
        assert p in from.Keys + to.Keys;
      }
    }
  }

  /** For a fixed base the patch determines the tree, so equal patches mean equal work. */
  lemma DiffIsInjective(base: Tree, a: Tree, b: Tree)
    ensures Diff(base, a) == Diff(base, b) <==> a == b
  {
    ApplyUndoesDiff(base, a);
    ApplyUndoesDiff(base, b);
  }

  lemma DiffIsEmptyOnlyForEqualTrees(from: Tree, to: Tree)
    ensures Diff(from, to) == EMPTY_PATCH <==> from == to
  {
    ApplyUndoesDiff(from, to);
    if from == to {
      assert Diff(from, to).Keys == {};
    }
  }

  /** A path neither side tracks cannot appear in the patch. */
  lemma DiffTouchesOnlyTrackedPaths(from: Tree, to: Tree, paths: set<Path>)
    requires from.Keys !! paths && to.Keys !! paths
    ensures Diff(from, to).Keys !! paths
  {
  }

  // ------------------------------------------------------ rollback, as a function

  /** What `git reset --hard` leaves: untracked files stay unless a tracked file takes their place. */
  function HardReset(worktree: Tree, index: Tree, target: Tree): Tree {
    (worktree - index.Keys) + target
  }

  /** What `resetTo` leaves, `listed` being the untracked files git reported after the hard reset. */
  function RolledBack(worktree: Tree, index: Tree, target: Tree, baseline: set<Path>,
                      ignores: Tree -> set<Path>): Tree
  {
    var reset := HardReset(worktree, index, target);
    reset - (reset.Keys - target.Keys - ignores(reset) - baseline)
  }

  /** A hard reset, path by path: the target's files, and of the others those that were never tracked. */
  ghost predicate IsHardReset(reset: Tree, worktree: Tree, index: Tree, target: Tree) {
    forall p {:trigger p in reset} ::
      && (p in reset <==> p in target || (p in worktree && p !in index))
      && (p in reset ==> reset[p] == if p in target then target[p] else worktree[p])
  }

  /**
   * A rollback, path by path: the target's files as they were, and of the others exactly the untracked
   * ones that the baseline lists or that git was hiding behind the hard reset.
   */
  lemma RollbackMeans(worktree: Tree, index: Tree, target: Tree, baseline: set<Path>, ignores: Tree -> set<Path>)
    returns (reset: Tree)
    ensures IsHardReset(reset, worktree, index, target)
    ensures var after := RolledBack(worktree, index, target, baseline, ignores);
            forall p :: && (p in after <==> p in target || (p in worktree && p !in index && (p in baseline || p in ignores(reset))))
                        && (p in after ==> after[p] == if p in target then target[p] else worktree[p])
  {
    reset := HardReset(worktree, index, target);
  }

  predicate SameAt(a: Tree, b: Tree, p: Path) {
    (p in a <==> p in b) && (p in a ==> a[p] == b[p])
  }

  /** The rollback is exact wherever git was looking when it listed the untracked files. */
  lemma RollbackRestores(worktree: Tree, index: Tree, target: Tree, baseline: set<Path>,
                         ignores: Tree -> set<Path>, p: Path)
    requires p !in baseline
    requires p !in ignores(HardReset(worktree, index, target))
    ensures SameAt(RolledBack(worktree, index, target, baseline, ignores), target, p)
  {
  }

  /** Files that survive a rollback because an ignore rule hid them while git listed the tree. */
  function Hidden(worktree: Tree, index: Tree, target: Tree, baseline: set<Path>,
                  ignores: Tree -> set<Path>): set<Path>
  {
    var reset := HardReset(worktree, index, target);
    (reset.Keys - target.Keys - baseline) * ignores(reset)
  }

  ghost predicate CleanRollback(worktree: Tree, index: Tree, target: Tree, baseline: set<Path>,
                                ignores: Tree -> set<Path>)
  {
    var after := RolledBack(worktree, index, target, baseline, ignores);
    forall p {:trigger SameAt(after, target, p)} ::
      p !in baseline && p !in ignores(after) ==> SameAt(after, target, p)
  }

  /**
   * Deleting untracked files can delete an ignore file the failed turn created, which brings files
   * it hid back into view. The rollback is clean exactly when no hidden file loses its rule.
   */
  lemma RollbackIsCleanIff(worktree: Tree, index: Tree, target: Tree, baseline: set<Path>,
                           ignores: Tree -> set<Path>)
    ensures CleanRollback(worktree, index, target, baseline, ignores) <==>
            Hidden(worktree, index, target, baseline, ignores)
              <= ignores(RolledBack(worktree, index, target, baseline, ignores))
  {
    var after := RolledBack(worktree, index, target, baseline, ignores);
    var hidden := Hidden(worktree, index, target, baseline, ignores);
    if CleanRollback(worktree, index, target, baseline, ignores) {
      forall p | p in hidden
        ensures p in ignores(after)
      {
        assert !SameAt(after, target, p);
      }
    }
    if hidden <= ignores(after) {
      forall p | p !in baseline && p !in ignores(after)
        ensures SameAt(after, target, p)
      {
        assert p !in target && p in after ==> p in hidden;
      }
    }
  }

  /** Git reads its ignore rules from certain files of the working tree and from nothing else there. */
  ghost predicate RulesComeFrom(isRule: Path -> bool, ignores: Tree -> set<Path>) {
    forall a, b :: (forall p :: isRule(p) ==> SameAt(a, b, p)) ==> ignores(a) == ignores(b)
  }

  /** The untracked files that git lists after the hard reset and the rollback then deletes. */
  function Listed(worktree: Tree, index: Tree, target: Tree, baseline: set<Path>,
                  ignores: Tree -> set<Path>): set<Path>
  {
    var reset := HardReset(worktree, index, target);
    reset.Keys - target.Keys - ignores(reset) - baseline
  }

  /** The ignore files that are there after the hard reset and that the rollback does not delete. */
  function KeptRules(worktree: Tree, index: Tree, target: Tree, baseline: set<Path>,
                     isRule: Path -> bool, ignores: Tree -> set<Path>): Tree
  {
    var reset := HardReset(worktree, index, target);
    map p | p in reset && isRule(p) && p !in Listed(worktree, index, target, baseline, ignores) :: reset[p]
  }

  /** Before the rollback one can tell: it is clean exactly when the ignore files it keeps still hide what is hidden. */
  lemma RollbackIsCleanIffRulesHide(worktree: Tree, index: Tree, target: Tree, baseline: set<Path>,
                                    isRule: Path -> bool, ignores: Tree -> set<Path>)
    requires RulesComeFrom(isRule, ignores)
    ensures CleanRollback(worktree, index, target, baseline, ignores) <==>
            Hidden(worktree, index, target, baseline, ignores)
              <= ignores(KeptRules(worktree, index, target, baseline, isRule, ignores))
  {
    var after := RolledBack(worktree, index, target, baseline, ignores);
    var kept := KeptRules(worktree, index, target, baseline, isRule, ignores);
    assert forall p :: isRule(p) ==> SameAt(after, kept, p);
    assert ignores(after) == ignores(kept);
    RollbackIsCleanIff(worktree, index, target, baseline, ignores);
  }

  /** So a rollback that is about to delete no ignore file is clean. */
  lemma RollbackIsCleanWithoutNewRules(worktree: Tree, index: Tree, target: Tree, baseline: set<Path>,
                                       isRule: Path -> bool, ignores: Tree -> set<Path>)
    requires RulesComeFrom(isRule, ignores)
    requires forall p :: p in Listed(worktree, index, target, baseline, ignores) ==> !isRule(p)
    ensures CleanRollback(worktree, index, target, baseline, ignores)
  {
    var reset := HardReset(worktree, index, target);
    var kept := KeptRules(worktree, index, target, baseline, isRule, ignores);
    assert forall p :: isRule(p) ==> SameAt(reset, kept, p);
    assert ignores(reset) == ignores(kept);
    RollbackIsCleanIffRulesHide(worktree, index, target, baseline, isRule, ignores);
  }

  const IGNORE_FILE := Path(".gitignore")
  const JUNK := Path("junk")

  /** The ignore file, once it exists, excludes the junk file. */
  const JUNK_RULES: Tree -> set<Path> := tree => if IGNORE_FILE in tree then {JUNK} else {}

  lemma JunkRulesComeFromTheIgnoreFile()
    ensures RulesComeFrom(p => p == IGNORE_FILE, JUNK_RULES)
  {
    forall a: Tree, b: Tree | forall p :: p == IGNORE_FILE ==> SameAt(a, b, p)
      ensures JUNK_RULES(a) == JUNK_RULES(b)
    {
      assert SameAt(a, b, IGNORE_FILE);
    }
  }

  /** A turn that leaves an untracked ignore file behind defeats the rollback of what it hides. */
  lemma RollbackCanLeaveHiddenFiles(rules: Content, data: Content)
    ensures var worktree := map[IGNORE_FILE := rules, JUNK := data];
            && !CleanRollback(worktree, map[], map[], {}, JUNK_RULES)
            && RolledBack(worktree, map[], map[], {}, JUNK_RULES) == map[JUNK := data]
            && RulesComeFrom(p => p == IGNORE_FILE, JUNK_RULES)
            && Listed(worktree, map[], map[], {}, JUNK_RULES) == {IGNORE_FILE}
  {
    JunkRulesComeFromTheIgnoreFile();
    var worktree := map[IGNORE_FILE := rules, JUNK := data];
    var reset := HardReset(worktree, map[], map[]);
    var after := RolledBack(worktree, map[], map[], {}, JUNK_RULES);
    assert IGNORE_FILE in reset && JUNK_RULES(reset) == {JUNK};
    assert |IGNORE_FILE.name| != |JUNK.name|;
    assert after == map[JUNK := data];
    assert JUNK_RULES(after) == {};
    assert !SameAt(after, map[], JUNK);
  }

  // -------------------------------------------------------- staging, as a function

  /** `git ls-files --others --exclude-standard` */
  function UntrackedIn(worktree: Tree, index: Tree, ignores: Tree -> set<Path>): set<Path> {
    worktree.Keys - index.Keys - ignores(worktree)
  }

  /** The index after staging everything but the untracked files of the baseline. */
  function Staged(worktree: Tree, index: Tree, baseline: set<Path>, ignores: Tree -> set<Path>): Tree {
    map p | p in worktree && (p in index || (p !in ignores(worktree) && p !in baseline)) :: worktree[p]
  }

  /** Staging, path by path: what is there and was tracked, or is neither hidden by git nor in the baseline. */
  lemma StagingMeans(worktree: Tree, index: Tree, baseline: set<Path>, ignores: Tree -> set<Path>, p: Path)
    ensures var staged := Staged(worktree, index, baseline, ignores);
            && (p in staged <==> p in worktree && (p in index || (p !in ignores(worktree) && p !in baseline)))
            && (p in staged ==> staged[p] == worktree[p])
    ensures p in UntrackedIn(worktree, index, ignores) <==> p in worktree && p !in index && p !in ignores(worktree)
  {
  }

  /**
   * The baseline lists only what was not ignored at the start. A file that lay there untracked all the
   * same is staged exactly when it still exists and is no longer ignored.
   */
  lemma InitiallyIgnoredIsStagedIff(start: Tree, index: Tree, worktree: Tree, ignores: Tree -> set<Path>, p: Path)
    requires p in start && p !in index && p !in UntrackedIn(start, index, ignores)
    ensures p in ignores(start)
    ensures p in Staged(worktree, index, UntrackedIn(start, index, ignores), ignores) <==>
            p in worktree && p !in ignores(worktree)
  {
  }

  /** A turn that only deletes the tracked ignore file puts a pre-existing untracked file into the index. */
  lemma UnignoredFilesAreStaged(rules: Content, data: Content)
    ensures var start, index := map[IGNORE_FILE := rules, JUNK := data], map[IGNORE_FILE := rules];
            && UntrackedIn(start, index, JUNK_RULES) == {}
            && Staged(start - {IGNORE_FILE}, index, {}, JUNK_RULES) == map[JUNK := data]
  {
    var start, index := map[IGNORE_FILE := rules, JUNK := data], map[IGNORE_FILE := rules];
    assert |IGNORE_FILE.name| != |JUNK.name|;
    assert JUNK_RULES(start) == {JUNK} && UntrackedIn(start, index, JUNK_RULES) == {};
    var after := start - {IGNORE_FILE};
    assert JUNK_RULES(after) == {} && Staged(after, index, {}, JUNK_RULES) == map[JUNK := data];
  }

  // -------------------------------------------------------------- the workspace

  /** A repository at one moment. */
  datatype Repo = Repo(head: Commit, index: Tree, worktree: Tree)

  /** The task repository the modifier works in. */
  class Workspace {
    /** Which paths the ignore files of a working tree exclude. */
    const ignores: Tree -> set<Path>
    var head: Commit
    var index: Tree
    var worktree: Tree

    constructor (head: Commit, index: Tree, worktree: Tree, ignores: Tree -> set<Path>)
      ensures this.head == head && this.index == index && this.worktree == worktree
      ensures this.ignores == ignores
    {
      this.head, this.index, this.worktree, this.ignores := head, index, worktree, ignores;
    }

    ghost function View(): Repo
      reads this
    {
      Repo(head, index, worktree)
    }

    /** Untracked, non-ignored files. */
    function Untracked(): set<Path>
      reads this
    {
      UntrackedIn(worktree, index, ignores)
    }

    predicate HasStagedChanges()
      reads this
    {
      index != head.tree
    }

    /** Stage tracked modifications and untracked files that are not in the baseline. */
    method StageAllExcept(baseline: set<Path>) returns (staged: set<Path>)
      modifies this`index
      ensures staged == old(Untracked()) - baseline
      ensures index == Staged(worktree, old(index), baseline, ignores)
    {
      ghost var before := index;
      index := map p | p in index && p in worktree :: worktree[p];
      assert index.Keys <= before.Keys;
      staged := Untracked() - baseline;
      assert forall p :: p in before && p in worktree ==> p in index;
      index := index + (map p | p in staged && p in worktree :: worktree[p]);
    }

    /** Commit what is staged; None when nothing is. */
    method CommitCheckpoint(message: string) returns (committed: Option<Commit>)
      modifies this`head
      ensures committed.Some? <==> old(index) != old(head).tree
      ensures committed.Some? ==>
                committed.value == head && head == Child(old(index), old(head), message)
      ensures committed.None? ==> head == old(head)
      ensures head.tree == old(index)
    {
      if !HasStagedChanges() {
        return None;
      }
      head := Child(index, head, message);
      return Some(head);
    }

    method DiffBinary(from: Commit) returns (patch: Patch)
      ensures patch == Diff(from.tree, head.tree)
    {
      patch := Diff(from.tree, head.tree);
    }

    /** Return to a checkpoint and delete every listed untracked file outside the baseline. */
    method ResetTo(commit: Commit, baseline: set<Path>)
      modifies this
      ensures head == commit && index == commit.tree
      ensures worktree == RolledBack(old(worktree), old(index), commit.tree, baseline, ignores)
    {
      worktree := HardReset(worktree, index, commit.tree);
      head, index := commit, commit.tree;
      var reset := worktree;
      var todo := Untracked();
      var gone := {};
      while todo != {}
        invariant todo + gone == reset.Keys - commit.tree.Keys - ignores(reset)
        invariant head == commit && index == commit.tree
        invariant worktree == reset - (gone - baseline)
        decreases todo
      {
        var path :| path in todo;
        if path !in baseline {
          worktree := worktree - {path};
        }
        todo, gone := todo - {path}, gone + {path};
      }
      assert gone - baseline == reset.Keys - commit.tree.Keys - ignores(reset) - baseline;
    }

    /**
     * Whether the patch passes `git apply --check` on a pristine checkout of base. The checkout itself
     * may fail for reasons outside the repository, which the caller sees as a failed check.
     */
    method ApplyCheckAgainstBase(base: Commit, patch: Patch, checkoutWorks: bool) returns (ok: bool)
      ensures ok <==> checkoutWorks && AppliesTo(base.tree, patch)
    {
      ok := checkoutWorks && AppliesTo(base.tree, patch);
    }
  }
}
