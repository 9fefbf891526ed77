/** The processes one agent turn left behind: which they are, and in which order they are ended. */
module ProcessCleanup {
  import opened Options

  datatype Process = Process(pid: int, ppid: int, pgid: int, depth: nat)

  type Table = seq<Process>

  function Pids(table: Table): set<int> {
    set i | 0 <= i < |table| :: table[i].pid
  }

  predicate UniquePids(table: Table) {
    forall i, j :: 0 <= i < j < |table| ==> table[i].pid != table[j].pid
  }

  // ----------------------------------------------------------- parent chains

  /** The parent chain of pid reaches root in n steps, without passing root before. */
  ghost predicate Reaches(table: Table, root: int, pid: int, n: nat)
    decreases n
  {
    if n == 0 then pid == root
    else pid != root && exists p :: p in table && p.pid == pid && Reaches(table, root, p.ppid, n - 1)
  }

  ghost predicate Descends(table: Table, root: int, pid: int) {
    exists n: nat :: Reaches(table, root, pid, n)
  }

  ghost function DepthOf(table: Table, root: int, pid: int): (n: nat)
    requires Descends(table, root, pid)
    ensures Reaches(table, root, pid, n)
  {
    var n: nat :| Reaches(table, root, pid, n); n
  }

  /** With unique pids there is one parent chain, so one depth, even when other chains cycle. */
  lemma {:induction false} DepthIsUnique(table: Table, root: int, pid: int, n: nat, m: nat)
    requires UniquePids(table) && Reaches(table, root, pid, n) && Reaches(table, root, pid, m)
    ensures n == m
    decreases n
  {
    if n > 0 && m > 0 {
      var p :| p in table && p.pid == pid && Reaches(table, root, p.ppid, n - 1);
      var q :| q in table && q.pid == pid && Reaches(table, root, q.ppid, m - 1);
      assert p == q;
      DepthIsUnique(table, root, p.ppid, n - 1, m - 1);
    }
  }

  lemma {:induction false} ChainsIgnoreOrder(a: Table, b: Table, root: int, pid: int, n: nat)
    requires forall p :: p in a ==> p in b
    requires Reaches(a, root, pid, n)
    ensures Reaches(b, root, pid, n)
    decreases n
  {
    if n > 0 {
      var p :| p in a && p.pid == pid && Reaches(a, root, p.ppid, n - 1);
      ChainsIgnoreOrder(a, b, root, p.ppid, n - 1);
    }
  }

  // ---------------------------------------------------------------- selection

  ghost predicate IsSelected(table: Table, root: int, excluded: set<int>, p: Process) {
    Descends(table, root, p.pid) && p.pid != root && p.pid > 1 && p.pid !in excluded
  }

  /** The rows that belong to the turn, in table order, with their chain lengths. */
  ghost function Selected(rows: Table, table: Table, root: int, excluded: set<int>): Table
    decreases |rows|
  {
    if rows == [] then []
    else
      (if IsSelected(table, root, excluded, rows[0])
       then [rows[0].(depth := DepthOf(table, root, rows[0].pid))] else [])
      + Selected(rows[1..], table, root, excluded)
  }

  lemma SelectedUnfolds(p: Process, rest: Table, table: Table, root: int, excluded: set<int>)
    ensures Selected([p] + rest, table, root, excluded) ==
            Selected([p], table, root, excluded) + Selected(rest, table, root, excluded)
  {
    hide IsSelected;
    assert ([p] + rest)[1..] == rest && [p][1..] == [];
  }

  lemma {:induction false} SelectedAppends(rows: Table, p: Process, table: Table, root: int, excluded: set<int>)
    ensures Selected(rows + [p], table, root, excluded) ==
            Selected(rows, table, root, excluded) + Selected([p], table, root, excluded)
    decreases |rows|
  {
    hide Selected;
    if rows == [] {
      assert rows + [p] == [p] && Selected([], table, root, excluded) == [] by {
        NothingSelected(table, root, excluded);
      }
    } else {
      var q, rest := rows[0], rows[1..];
      SelectedAppends(rest, p, table, root, excluded);
      SelectedUnfolds(q, rest, table, root, excluded);
      SelectedUnfolds(q, rest + [p], table, root, excluded);
      assert rows == [q] + rest && rows + [p] == [q] + (rest + [p]);
    }
  }

  lemma NothingSelected(table: Table, root: int, excluded: set<int>)
    ensures Selected([], table, root, excluded) == []
  {
  }

  lemma {:induction false} SelectedMembers(rows: Table, table: Table, root: int, excluded: set<int>, q: Process)
    ensures q in Selected(rows, table, root, excluded) <==>
            exists p :: p in rows && IsSelected(table, root, excluded, p)
                        && q == p.(depth := DepthOf(table, root, p.pid))
    decreases |rows|
  {
    hide IsSelected;
    if rows != [] {
      SelectedMembers(rows[1..], table, root, excluded, q);
      assert rows == [rows[0]] + rows[1..];
    }
  }

  lemma {:induction false} ClosureIsComplete(table: Table, root: int, depths: map<int, nat>, pid: int, n: nat)
    requires root in depths
    requires forall p :: p in table && p.ppid in depths ==> p.pid in depths
    requires Reaches(table, root, pid, n)
    ensures pid in depths
    decreases n
  {
    if n > 0 {
      var p :| p in table && p.pid == pid && Reaches(table, root, p.ppid, n - 1);
      ClosureIsComplete(table, root, depths, p.ppid, n - 1);
    }
  }

  /** Every depth recorded so far is the length of a parent chain. */
  ghost predicate Sound(table: Table, root: int, depths: map<int, nat>) {
    && root in depths && depths.Keys <= Pids(table) + {root}
    && forall pid :: pid in depths ==> Reaches(table, root, pid, depths[pid])
  }

  lemma SoundGrows(table: Table, root: int, depths: map<int, nat>, p: Process)
    requires Sound(table, root, depths) && p in table && p.pid !in depths && p.ppid in depths
    ensures Sound(table, root, depths[p.pid := depths[p.ppid] + 1])
  {
    assert Reaches(table, root, p.pid, depths[p.ppid] + 1);
  }

  /** One pass over the table; `changed` tells whether it found anything new. */
  method Sweep(root: int, table: Table, before: map<int, nat>) returns (depths: map<int, nat>, changed: bool)
    requires Sound(table, root, before)
    ensures Sound(table, root, depths)
    ensures before.Keys <= depths.Keys
    ensures changed ==> before.Keys < depths.Keys
    ensures !changed ==> depths == before && forall p :: p in table && p.ppid in depths ==> p.pid in depths
  {
    hide Sound;
    depths, changed := before, false;
    for i := 0 to |table|
      invariant Sound(table, root, depths)
      invariant before.Keys <= depths.Keys
      invariant changed ==> before.Keys < depths.Keys
      invariant !changed ==> depths == before
      invariant !changed ==> (forall j :: 0 <= j < i && table[j].ppid in depths ==> table[j].pid in depths)
    {
      var candidate := table[i];
      if candidate.pid in depths || candidate.ppid !in depths {
        continue;
      }
      SoundGrows(table, root, depths, candidate);
      depths := depths[candidate.pid := depths[candidate.ppid] + 1];
      changed := true;
    }
  }

  /**
   * All descendants of root that are neither system processes nor excluded: found by sweeping the
   * table until nothing changes, which ends for every table, parent cycles included.
   */
  method SelectTurnDescendants(root: int, table: Table, excluded: set<int>) returns (descendants: Table)
    ensures UniquePids(table) ==> descendants == Selected(table, table, root, excluded)
    ensures forall d :: d in descendants ==>
              && d.pid > 1 && d.pid != root && d.pid !in excluded && Reaches(table, root, d.pid, d.depth)
  {
    var depths := map[root := 0];
    var changed := true;
    while changed
      invariant Sound(table, root, depths)
      invariant !changed ==> forall p :: p in table && p.ppid in depths ==> p.pid in depths
      decreases Pids(table) + {root} - depths.Keys, changed
    {
      depths, changed := Sweep(root, table, depths);
    }
    descendants := [];
    for i := 0 to |table|
      invariant UniquePids(table) ==> descendants == Selected(table[..i], table, root, excluded)
      invariant forall d :: d in descendants ==>
                  && d.pid > 1 && d.pid != root && d.pid !in excluded && Reaches(table, root, d.pid, d.depth)
    {
      var candidate := table[i];
      assert table[..i + 1] == table[..i] + [candidate];
      SelectedAppends(table[..i], candidate, table, root, excluded);
      InDepthsIffDescends(table, root, depths, candidate.pid);
      if candidate.pid !in depths || candidate.pid == root || candidate.pid <= 1 || candidate.pid in excluded {
        continue;
      }
      descendants := descendants + [candidate.(depth := depths[candidate.pid])];
    }
    assert table[..|table|] == table;
  }

  lemma InDepthsIffDescends(table: Table, root: int, depths: map<int, nat>, pid: int)
    requires Sound(table, root, depths)
    requires forall p :: p in table && p.ppid in depths ==> p.pid in depths
    ensures pid in depths <==> Descends(table, root, pid)
    ensures pid in depths && UniquePids(table) ==> depths[pid] == DepthOf(table, root, pid)
  {
    if Descends(table, root, pid) {
      ClosureIsComplete(table, root, depths, pid, DepthOf(table, root, pid));
      if UniquePids(table) {
        DepthIsUnique(table, root, pid, depths[pid], DepthOf(table, root, pid));
      }
    }
  }

  /** Which processes are selected, and how deep, does not depend on the order ps lists them in. */
  lemma SelectionIgnoresOrder(a: Table, b: Table, root: int, excluded: set<int>, q: Process)
    requires UniquePids(a) && UniquePids(b) && (forall p :: p in a <==> p in b)
    ensures q in Selected(a, a, root, excluded) <==> q in Selected(b, b, root, excluded)
  {
    SelectedMembers(a, a, root, excluded, q);
    SelectedMembers(b, b, root, excluded, q);
    forall p | p in a
      ensures IsSelected(a, root, excluded, p) <==> IsSelected(b, root, excluded, p)
      ensures IsSelected(a, root, excluded, p) ==> DepthOf(a, root, p.pid) == DepthOf(b, root, p.pid)
    {
      if Descends(a, root, p.pid) {
        ChainsIgnoreOrder(a, b, root, p.pid, DepthOf(a, root, p.pid));
        DepthIsUnique(b, root, p.pid, DepthOf(a, root, p.pid), DepthOf(b, root, p.pid));
      }
      if Descends(b, root, p.pid) {
        ChainsIgnoreOrder(b, a, root, p.pid, DepthOf(b, root, p.pid));
      }
    }
  }

  // ---------------------------------------------------------------- cleanup order

  /** Deeper first, then the larger pid. */
  predicate Precedes(a: Process, b: Process) {
    if a.depth != b.depth then a.depth > b.depth else a.pid >= b.pid
  }

  function Insert(p: Process, sorted: Table): Table {
    if sorted == [] || Precedes(p, sorted[0]) then [p] + sorted
    else [sorted[0]] + Insert(p, sorted[1..])
  }

  function CleanupOrder(processes: Table): Table {
    if processes == [] then [] else Insert(processes[0], CleanupOrder(processes[1..]))
  }

  ghost predicate InOrder(processes: Table) {
    forall i, j :: 0 <= i < j < |processes| ==> Precedes(processes[i], processes[j])
  }

  lemma {:induction false} InsertMembers(p: Process, sorted: Table)
    ensures multiset(Insert(p, sorted)) == multiset(sorted) + multiset{p}
  {
    if sorted == [] || Precedes(p, sorted[0]) {
    } else {
      InsertMembers(p, sorted[1..]);
      assert sorted == [sorted[0]] + sorted[1..];
    }
  }

  lemma {:induction false} InsertKeepsOrder(p: Process, sorted: Table)
    requires InOrder(sorted)
    ensures InOrder(Insert(p, sorted))
  {
    if sorted == [] || Precedes(p, sorted[0]) {
    } else {
      var rest := Insert(p, sorted[1..]);
      InsertKeepsOrder(p, sorted[1..]);
      InsertMembers(p, sorted[1..]);
      forall x | x in rest
        ensures Precedes(sorted[0], x)
      {
        assert x in multiset(rest);
      }
    }
  }

  lemma {:induction false} CleanupOrderSorts(processes: Table)
    ensures InOrder(CleanupOrder(processes))
    ensures multiset(CleanupOrder(processes)) == multiset(processes)
  {
    if processes != [] {
      CleanupOrderSorts(processes[1..]);
      InsertKeepsOrder(processes[0], CleanupOrder(processes[1..]));
      InsertMembers(processes[0], CleanupOrder(processes[1..]));
      assert processes == [processes[0]] + processes[1..];
    }
  }

  /** a is n steps up the parent chain of d, and the chain does not pass root on the way. */
  ghost predicate IsAncestor(table: Table, root: int, a: int, d: int, n: nat)
    decreases n
  {
    if n == 0 then a == d
    else d != root && exists p :: p in table && p.pid == d && IsAncestor(table, root, a, p.ppid, n - 1)
  }

  lemma {:induction false} AncestorsAreShallower(table: Table, root: int, a: int, d: int, n: nat, da: nat, dd: nat)
    requires UniquePids(table) && IsAncestor(table, root, a, d, n)
    requires Reaches(table, root, a, da) && Reaches(table, root, d, dd)
    ensures dd == da + n
    decreases n
  {
    if n == 0 {
      DepthIsUnique(table, root, a, da, dd);
    } else {
      var p :| p in table && p.pid == d && IsAncestor(table, root, a, p.ppid, n - 1);
      var q :| q in table && q.pid == d && Reaches(table, root, q.ppid, dd - 1);
      assert p == q;
      AncestorsAreShallower(table, root, a, p.ppid, n - 1, da, dd - 1);
    }
  }

  /** A freshly captured scope is ended bottom up: nobody goes before one of its captured descendants. */
  lemma ChildrenGoFirst(table: Table, root: int, excluded: set<int>, i: nat, j: nat, n: nat)
    requires UniquePids(table)
    requires var order := CleanupOrder(Selected(table, table, root, excluded));
             i < |order| && j < |order| && n > 0 && IsAncestor(table, root, order[i].pid, order[j].pid, n)
    ensures j < i
  {
    hide CleanupOrder, Selected, IsAncestor, Reaches;
    var order := CleanupOrder(Selected(table, table, root, excluded));
    CleanupOrderSorts(Selected(table, table, root, excluded));
    OrderedAreSelected(table, root, excluded, order[i]);
    OrderedAreSelected(table, root, excluded, order[j]);
    AncestorsAreShallower(table, root, order[i].pid, order[j].pid, n, order[i].depth, order[j].depth);
    assert i < j ==> Precedes(order[i], order[j]);
  }

  lemma OrderedAreSelected(table: Table, root: int, excluded: set<int>, q: Process)
    requires q in CleanupOrder(Selected(table, table, root, excluded))
    ensures Reaches(table, root, q.pid, q.depth)
  {
    hide CleanupOrder, Selected, Reaches;
    var selected := Selected(table, table, root, excluded);
    CleanupOrderSorts(selected);
    assert q in multiset(CleanupOrder(selected));
    assert q in selected;
    SelectedMembers(table, table, root, excluded, q);
  }

  /** No process goes before one that it is the parent of. */
  ghost predicate ParentsLast(order: Table) {
    forall i, j :: 0 <= i < j < |order| ==> order[j].ppid != order[i].pid
  }

  /** The cleanup order puts q behind p. */
  predicate EndsAfter(q: Process, p: Process) {
    q.depth < p.depth || (q.depth == p.depth && q.pid < p.pid)
  }

  ghost predicate NoSelfParents(scope: Table) {
    forall p :: p in scope ==> p.ppid != p.pid
  }

  /** Any scope, fresh or merged, is ended bottom up exactly when its depths put every parent behind its child. */
  lemma BottomUpIff(scope: Table)
    requires UniquePids(scope) && NoSelfParents(scope)
    ensures ParentsLast(CleanupOrder(scope)) <==>
            forall p, q :: p in scope && q in scope && p.ppid == q.pid ==> EndsAfter(q, p)
  {
    hide CleanupOrder;
    var order := CleanupOrder(scope);
    CleanupOrderSorts(scope);
    assert forall p :: p in scope <==> p in multiset(order);
    forall p, q | ParentsLast(order) && p in scope && q in scope && p.ppid == q.pid ensures EndsAfter(q, p) {
      assert p in order && q in order;
      var i :| 0 <= i < |order| && order[i] == p;
      var j :| 0 <= j < |order| && order[j] == q;
      assert i < j ==> Precedes(p, q);
    }
    forall i, j | (forall p, q :: p in scope && q in scope && p.ppid == q.pid ==> EndsAfter(q, p)) && 0 <= i < j < |order|
      ensures order[j].ppid != order[i].pid
    {
      assert order[i] in multiset(order) && order[j] in multiset(order) && Precedes(order[i], order[j]);
    }
  }

  // ------------------------------------------------------------------- merging

  /** A map entry per pid in insertion order; a later identity replaces only a shallower one. */
  function Place(kept: Table, p: Process): Table {
    if kept == [] then [p]
    else if kept[0].pid == p.pid then (if p.depth > kept[0].depth then [p] + kept[1..] else kept)
    else [kept[0]] + Place(kept[1..], p)
  }

  function Merged(all: Table): Table {
    if all == [] then [] else Place(Merged(all[..|all| - 1]), all[|all| - 1])
  }

  /** `mergeTurnProcessScopes`: two captures of one turn, each pid once. */
  method MergeScopes(first: Table, second: Table) returns (merged: Table)
    ensures merged == Merged(first + second)
  {
    var all := first + second;
    merged := [];
    for i := 0 to |all|
      invariant merged == Merged(all[..i])
    {
      assert all[..i + 1][..i] == all[..i];
      merged := Place(merged, all[i]);
    }
    assert all[..|all|] == all;
  }

  /** The identity a pid keeps: the deepest of its captures, and the first of those. */
  function Kept(all: Table, pid: int): Option<Process> {
    if all == [] then None
    else
      var earlier, p := Kept(all[..|all| - 1], pid), all[|all| - 1];
      if p.pid == pid && (earlier == None || p.depth > earlier.value.depth) then Some(p) else earlier
  }

  predicate IsKept(all: Table, p: Process) { Kept(all, p.pid) == Some(p) }

  lemma {:induction false} KeptIsTheDeepest(all: Table, pid: int)
    ensures Kept(all, pid) == None <==> forall p :: p in all ==> p.pid != pid
    ensures Kept(all, pid).Some? ==>
              var kept := Kept(all, pid).value;
              && kept in all && kept.pid == pid
              && (forall p :: p in all && p.pid == pid ==> p.depth <= kept.depth)
  {
    if all != [] {
      var n := |all| - 1;
      KeptIsTheDeepest(all[..n], pid);
      assert all == all[..n] + [all[n]];
    }
  }

  /** Of equally deep captures the first one is kept. */
  lemma {:induction false} KeptIsTheFirst(all: Table, pid: int) returns (i: nat)
    requires exists p :: p in all && p.pid == pid
    ensures i < |all| && Kept(all, pid) == Some(all[i]) && all[i].pid == pid
    ensures forall j :: 0 <= j < |all| && all[j].pid == pid ==> if j < i then all[j].depth < all[i].depth else all[j].depth <= all[i].depth
  {
    var n := |all| - 1;
    assert all == all[..n] + [all[n]];
    KeptIsTheDeepest(all, pid);
    KeptIsTheDeepest(all[..n], pid);
    if Kept(all, pid) == Kept(all[..n], pid) {
      i := KeptIsTheFirst(all[..n], pid);
    } else {
      i := n;
    }
  }

  lemma {:induction false} PlaceMembers(kept: Table, p: Process)
    requires UniquePids(kept)
    ensures UniquePids(Place(kept, p))
    ensures forall q :: q in Place(kept, p) <==>
              || (q in kept && (q.pid == p.pid ==> q.depth >= p.depth))
              || (q == p && forall k :: k in kept && k.pid == p.pid ==> p.depth > k.depth)
  {
    if kept != [] {
      assert kept == [kept[0]] + kept[1..];
      assert forall k :: k in kept[1..] ==> k.pid != kept[0].pid;
      PlaceMembers(kept[1..], p);
      if kept[0].pid != p.pid {
        var rest := Place(kept[1..], p);
        assert forall q :: q in rest ==> q.pid != kept[0].pid;
        assert Place(kept, p) == [kept[0]] + rest;
      }
    }
  }

  /** The merged scope holds exactly the kept identity of every captured pid. */
  lemma {:induction false} MergedAreKept(all: Table)
    ensures UniquePids(Merged(all))
    ensures forall q :: q in Merged(all) <==> IsKept(all, q)
  {
    hide Place;
    if all != [] {
      var n := |all| - 1;
      var merged, p := Merged(all[..n]), all[n];
      MergedAreKept(all[..n]);
      PlaceMembers(merged, p);
      KeptIsTheDeepest(all[..n], p.pid);
      forall q ensures q in Place(merged, p) <==> IsKept(all, q) {
        LastDecides(all, merged, q);
      }
    }
  }

  lemma LastDecides(all: Table, merged: Table, q: Process)
    requires all != []
    requires forall k :: k in merged <==> IsKept(all[..|all| - 1], k)
    ensures var p := all[|all| - 1];
            IsKept(all, q) <==>
              || (q in merged && (q.pid == p.pid ==> q.depth >= p.depth))
              || (q == p && forall k :: k in merged && k.pid == p.pid ==> p.depth > k.depth)
  {
    var p, earlier := all[|all| - 1], Kept(all[..|all| - 1], q.pid);
    KeptIsTheDeepest(all[..|all| - 1], q.pid);
    if earlier.Some? {
      assert earlier.value in merged;
    }
  }

  /**
   * A merged scope is ended bottom up exactly when no kept child has a parent that either capture saw
   * as deep as the child, ties going by pid.
   */
  lemma MergedBottomUpIff(all: Table)
    requires NoSelfParents(all)
    ensures ParentsLast(CleanupOrder(Merged(all))) <==>
            forall p, q :: IsKept(all, p) && q in all && p.ppid == q.pid ==> EndsAfter(q, p)
  {
    hide CleanupOrder, Merged, ParentsLast, Kept;
    var merged := Merged(all);
    MergedAreKept(all);
    forall p ensures p in merged ==> p in all {
      KeptIsTheDeepest(all, p.pid);
    }
    BottomUpIff(merged);
    forall p, q | (forall p, q :: p in merged && q in merged && p.ppid == q.pid ==> EndsAfter(q, p))
                  && IsKept(all, p) && q in all && p.ppid == q.pid
      ensures EndsAfter(q, p)
    {
      KeptIsTheDeepest(all, q.pid);
      var deepest := Kept(all, q.pid).value;
      assert p in merged && deepest in merged;
    }
  }

  /** Within one fresh capture a parent is one step shallower than its child. */
  lemma FreshParentsAreShallower(table: Table, root: int, excluded: set<int>, p: Process, q: Process)
    requires UniquePids(table)
    requires p in Selected(table, table, root, excluded) && q in Selected(table, table, root, excluded)
    requires p.ppid == q.pid
    ensures p.depth == q.depth + 1
  {
    hide Selected, Reaches;
    SelectedMembers(table, table, root, excluded, p);
    SelectedMembers(table, table, root, excluded, q);
    assert IsAncestor(table, root, q.pid, p.ppid, 0);
    assert IsAncestor(table, root, q.pid, p.pid, 1);
    AncestorsAreShallower(table, root, q.pid, p.pid, 1, q.depth, p.depth);
  }

  /** The child and its parent come from different captures. */
  ghost predicate Across(first: Table, second: Table, p: Process, q: Process) {
    (p in first && q in second) || (p in second && q in first)
  }

  /**
   * Two fresh captures merge into a scope that is ended bottom up exactly when no parent was captured,
   * in the other scope, as deep as its kept child.
   */
  lemma FreshScopesMergeBottomUpIff(a: Table, b: Table, root: int, excluded: set<int>)
    requires UniquePids(a) && UniquePids(b)
    ensures var first, second := Selected(a, a, root, excluded), Selected(b, b, root, excluded);
            var all := first + second;
            ParentsLast(CleanupOrder(Merged(all))) <==>
            forall p, q :: IsKept(all, p) && Across(first, second, p, q) && p.ppid == q.pid ==> EndsAfter(q, p)
  {
    hide CleanupOrder, Merged, Selected, ParentsLast, Kept;
    var first, second := Selected(a, a, root, excluded), Selected(b, b, root, excluded);
    var all := first + second;
    forall p: Process, q: Process | p.ppid == q.pid && ((p in first && q in first) || (p in second && q in second))
      ensures p.depth == q.depth + 1
    {
      if p in first && q in first {
        FreshParentsAreShallower(a, root, excluded, p, q);
      } else {
        FreshParentsAreShallower(b, root, excluded, p, q);
      }
    }
    MergedBottomUpIff(all);
    forall p | IsKept(all, p) ensures p in all {
      KeptIsTheDeepest(all, p.pid);
    }
  }

  /** No process was re-parented between the two tables. */
  ghost predicate ParentsStay(a: Table, b: Table) {
    forall p, q :: p in a && q in b && p.pid == q.pid ==> p.ppid == q.ppid
  }

  lemma {:induction false} DepthStays(a: Table, b: Table, root: int, pid: int, n: nat, m: nat)
    requires ParentsStay(a, b) && Reaches(a, root, pid, n) && Reaches(b, root, pid, m)
    ensures n == m
    decreases n
  {
    if n > 0 {
      var p :| p in a && p.pid == pid && Reaches(a, root, p.ppid, n - 1);
      var q :| q in b && q.pid == pid && Reaches(b, root, q.ppid, m - 1);
      DepthStays(a, b, root, p.ppid, n - 1, m - 1);
    }
  }

  lemma StayingParentsAreShallower(a: Table, b: Table, root: int, excluded: set<int>, p: Process, q: Process)
    requires UniquePids(a) && ParentsStay(a, b)
    requires p in Selected(a, a, root, excluded) && q in Selected(b, b, root, excluded) && p.ppid == q.pid
    ensures p.depth == q.depth + 1
  {
    hide Selected;
    SelectedMembers(a, a, root, excluded, p);
    SelectedMembers(b, b, root, excluded, q);
    assert Reaches(a, root, p.pid, p.depth) && Reaches(b, root, q.pid, q.depth);
    var row :| row in a && row.pid == p.pid && Reaches(a, root, row.ppid, p.depth - 1);
    assert row.ppid == p.ppid;
    DepthStays(a, b, root, q.pid, p.depth - 1, q.depth);
  }

  /** Only re-parenting between the captures can break the order. */
  lemma StayingParentsGoLast(a: Table, b: Table, root: int, excluded: set<int>)
    requires UniquePids(a) && UniquePids(b) && ParentsStay(a, b)
    ensures ParentsLast(CleanupOrder(Merged(Selected(a, a, root, excluded) + Selected(b, b, root, excluded))))
  {
    hide CleanupOrder, Merged, Selected, ParentsLast, Kept, Reaches;
    var first, second := Selected(a, a, root, excluded), Selected(b, b, root, excluded);
    forall p, q | Across(first, second, p, q) && p.ppid == q.pid ensures EndsAfter(q, p) {
      if p in first && q in second {
        StayingParentsAreShallower(a, b, root, excluded, p, q);
      } else {
        StayingParentsAreShallower(b, a, root, excluded, p, q);
      }
    }
    FreshScopesMergeBottomUpIff(a, b, root, excluded);
  }

  const BEFORE: Table := [Process(20, 1, 0, 0), Process(21, 20, 0, 0), Process(22, 21, 0, 0)]
  const AFTER: Table := [Process(22, 1, 0, 0), Process(23, 22, 0, 0)]

  lemma SelectedWitness(table: Table, p: Process, n: nat)
    requires UniquePids(table) && p in table && p.pid > 1 && Reaches(table, 1, p.pid, n)
    ensures p.(depth := n) in Selected(table, table, 1, {})
  {
    hide Selected;
    DepthIsUnique(table, 1, p.pid, n, DepthOf(table, 1, p.pid));
    SelectedMembers(table, table, 1, {}, p.(depth := n));
  }

  lemma WitnessDepths()
    ensures Reaches(BEFORE, 1, 22, 3) && Reaches(AFTER, 1, 23, 2)
  {
    assert BEFORE[0] in BEFORE && BEFORE[1] in BEFORE && BEFORE[2] in BEFORE;
    assert Reaches(BEFORE, 1, 20, 1);
    assert Reaches(BEFORE, 1, 21, 2);
    assert AFTER[0] in AFTER && AFTER[1] in AFTER;
    assert Reaches(AFTER, 1, 22, 1);
  }

  /** The pids of a capture are pids of its table. */
  lemma SelectedAreCaptured(table: Table, q: Process)
    requires UniquePids(table) && q in Selected(table, table, 1, {})
    ensures exists p :: p in table && p.pid == q.pid && Reaches(table, 1, q.pid, q.depth)
  {
    hide Selected, Reaches;
    SelectedMembers(table, table, 1, {}, q);
  }

  /**
   * The order can fail. Under a root that is process 1, 20 starts 21 and 21 starts 22; then 20 and 21
   * exit, 22 is re-parented to process 1 and starts 23. The merge keeps 22 at depth three, so it goes
   * before its own child at depth two.
   */
  lemma MergedScopesCanInvert()
    ensures !ParentsLast(CleanupOrder(Merged(Selected(BEFORE, BEFORE, 1, {}) + Selected(AFTER, AFTER, 1, {}))))
  {
    hide CleanupOrder, Merged, Selected, ParentsLast, Kept, Reaches;
    var first, second := Selected(BEFORE, BEFORE, 1, {}), Selected(AFTER, AFTER, 1, {});
    var all := first + second;
    WitnessDepths();
    assert BEFORE[2] in BEFORE && AFTER[1] in AFTER;
    SelectedWitness(BEFORE, BEFORE[2], 3);
    SelectedWitness(AFTER, AFTER[1], 2);
    var child, parent := Process(23, 22, 0, 2), Process(22, 21, 0, 3);
    KeptIsTheDeepest(all, 23);
    var kept := Kept(all, 23).value;
    OnlyCapturedOnce(kept);
    FreshScopesMergeBottomUpIff(BEFORE, AFTER, 1, {});
    assert Across(first, second, child, parent) && !EndsAfter(parent, child);
  }

  lemma OnlyCapturedOnce(kept: Process)
    requires kept.pid == 23
    requires kept in Selected(BEFORE, BEFORE, 1, {}) + Selected(AFTER, AFTER, 1, {})
    ensures kept == Process(23, 22, 0, 2)
  {
    hide Selected, Reaches;
    if kept in Selected(BEFORE, BEFORE, 1, {}) {
      SelectedAreCaptured(BEFORE, kept);
    }
    SelectedMembers(AFTER, AFTER, 1, {}, kept);
    WitnessDepths();
    DepthIsUnique(AFTER, 1, 23, 2, kept.depth);
  }

  // ----------------------------------------------------------------- signalling

  datatype CleanupResult = CleanupResult(
    capturedPids: seq<int>, termSignaledPids: seq<int>, killSignaledPids: seq<int>,
    zombiePids: seq<int>, survivorPids: seq<int>)

  function PidsOf(processes: Table): seq<int> {
    seq(|processes|, i requires 0 <= i < |processes| => processes[i].pid)
  }

  datatype Moment = AtStart | AtTerm | AtKill | AtEnd

  /**
   * The operating system's answers, which may differ from probe to probe: who runs, who is a zombie,
   * and whose signal is delivered.
   */
  datatype Answers = Answers(
    runs: (Moment, int) -> bool, isZombie: int -> bool, delivers: (Moment, int) -> bool)

  /** The pids that pass, in order. */
  function Keep(pids: seq<int>, test: int -> bool): seq<int> {
    if pids == [] then []
    else Keep(pids[..|pids| - 1], test) + if test(pids[|pids| - 1]) then [pids[|pids| - 1]] else []
  }

  method SignalRunning(pids: seq<int>, moment: Moment, os: Answers) returns (signaled: seq<int>)
    ensures signaled == Keep(pids, pid => os.runs(moment, pid) && os.delivers(moment, pid))
  {
    ghost var test := (pid: int) => os.runs(moment, pid) && os.delivers(moment, pid);
    signaled := [];
    for i := 0 to |pids|
      invariant signaled == Keep(pids[..i], test)
    {
      assert pids[..i + 1][..i] == pids[..i];
      if os.runs(moment, pids[i]) {
        if os.delivers(moment, pids[i]) {
          signaled := signaled + [pids[i]];
        }
      }
    }
    assert pids[..|pids|] == pids;
  }

  method Those(pids: seq<int>, test: int -> bool) returns (found: seq<int>)
    ensures found == Keep(pids, test)
  {
    found := [];
    for i := 0 to |pids|
      invariant found == Keep(pids[..i], test)
    {
      assert pids[..i + 1][..i] == pids[..i];
      if test(pids[i]) {
        found := found + [pids[i]];
      }
    }
    assert pids[..|pids|] == pids;
  }

  /**
   * TERM, then KILL, each to exactly the captured processes that still run, bottom up. When nobody
   * runs at the start no signal is sent.
   */
  method CleanupTurnProcessScope(scope: Table, os: Answers) returns (result: CleanupResult)
    ensures var captured := PidsOf(CleanupOrder(scope));
            && result.capturedPids == captured
            && result.zombiePids == Keep(captured, os.isZombie)
            && if exists pid :: pid in captured && os.runs(AtStart, pid) then
                 && result.termSignaledPids == Keep(captured, pid => os.runs(AtTerm, pid) && os.delivers(AtTerm, pid))
                 && result.killSignaledPids == Keep(captured, pid => os.runs(AtKill, pid) && os.delivers(AtKill, pid))
                 && result.survivorPids == Keep(captured, pid => os.runs(AtEnd, pid))
               else result.termSignaledPids == result.killSignaledPids == result.survivorPids == []
  {
    var captured := PidsOf(CleanupOrder(scope));
    var zombies := Those(captured, os.isZombie);
    if !exists pid | pid in captured :: os.runs(AtStart, pid) {
      return CleanupResult(captured, [], [], zombies, []);
    }
    var terminated := SignalRunning(captured, AtTerm, os);
    var killed := SignalRunning(captured, AtKill, os);
    var survivors := Those(captured, pid => os.runs(AtEnd, pid));
    result := CleanupResult(captured, terminated, killed, zombies, survivors);
  }

  /** Some occurrence of x comes before some occurrence of y. */
  ghost predicate ComesBefore(pids: seq<int>, x: int, y: int) {
    exists b :: 0 <= b < |pids| && pids[b] == y && x in pids[..b]
  }

  /** Nobody who passes is skipped, nobody else is kept, and the order stays. */
  lemma {:induction false} KeepIsExact(pids: seq<int>, test: int -> bool)
    ensures forall pid :: pid in Keep(pids, test) <==> pid in pids && test(pid)
    ensures forall i, j :: 0 <= i < j < |Keep(pids, test)| ==>
              ComesBefore(pids, Keep(pids, test)[i], Keep(pids, test)[j])
  {
    if pids != [] {
      var n := |pids| - 1;
      var shorter, last := pids[..n], pids[n];
      var before, kept := Keep(shorter, test), Keep(pids, test);
      KeepIsExact(shorter, test);
      assert pids == shorter + [last];
      forall i, j | 0 <= i < j < |kept| ensures ComesBefore(pids, kept[i], kept[j]) {
        if j < |before| {
          assert ComesBefore(shorter, before[i], before[j]);
          var b :| 0 <= b < |shorter| && shorter[b] == before[j] && before[i] in shorter[..b];
          assert shorter[..b] == pids[..b] && pids[b] == kept[j];
        } else {
          assert kept[i] in before && pids[n] == kept[j];
        }
      }
    }
  }

  /** Of two signalled processes of a fresh scope the descendant got its signal first. */
  lemma SignalsGoBottomUp(table: Table, root: int, excluded: set<int>, test: int -> bool, i: nat, j: nat, n: nat)
    requires UniquePids(table)
    requires var signaled := Keep(PidsOf(CleanupOrder(Selected(table, table, root, excluded))), test);
             i < |signaled| && j < |signaled| && n > 0 && IsAncestor(table, root, signaled[i], signaled[j], n)
    ensures j < i
  {
    hide CleanupOrder, Selected, IsAncestor, Keep;
    var order := CleanupOrder(Selected(table, table, root, excluded));
    var pids := PidsOf(order);
    var signaled := Keep(pids, test);
    KeepIsExact(pids, test);
    assert signaled[i] in signaled && signaled[j] in signaled;
    var a, b := WhereSignaled(pids, signaled[i], signaled[j], i < j);
    ChildrenGoFirst(table, root, excluded, a, b, n);
    assert i == j ==> a == b;
  }

  lemma WhereSignaled(pids: seq<int>, x: int, y: int, ordered: bool) returns (a: nat, b: nat)
    requires x in pids && y in pids && (ordered ==> ComesBefore(pids, x, y))
    ensures a < |pids| && b < |pids| && pids[a] == x && pids[b] == y
    ensures (ordered ==> a < b) && (!ordered && x == y ==> a == b)
  {
    if ordered {
      b :| 0 <= b < |pids| && pids[b] == y && x in pids[..b];
      a :| a < b && pids[..b][a] == x;
    } else {
      a :| a < |pids| && pids[a] == x;
      b :| b < |pids| && pids[b] == y && (x == y ==> b == a);
    }
  }
}
