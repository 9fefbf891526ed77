/** Which trial directories are accepted and what their stages are, told by what lies on disk alone. */
module TrialRules {
  import opened Git
  import opened Options
  import opened Discovery
  import Json

  // ---------------------------------------------------------------------- one round

  predicate IsKindName(word: string) {
    word == "modify" || word == "review" || word == "revise" || word == "final-revision"
  }

  predicate IsNumbered(prefix: string, number: nat) {
    && |prefix| == 2 && '0' <= prefix[0] <= '9' && '0' <= prefix[1] <= '9'
    && number == (prefix[0] as int - '0' as int) * 10 + (prefix[1] as int - '0' as int)
  }

  /** Two digits, a dash and a word; a line end behind the word is tolerated. */
  ghost predicate IsRoundName(name: string, number: nat, word: string) {
    exists digits :: IsNumbered(digits, number) && (name == digits + "-" + word || name == digits + "-" + word + "\n")
  }

  ghost predicate IsRound(c: Child, number: nat, word: string) {
    c.isDir && IsKindName(word) && IsRoundName(c.name, number, word)
  }

  ghost predicate HasNumber(c: Child, number: nat) { exists word :: IsRound(c, number, word) }
  ghost predicate IsReviewDir(c: Child) { exists number: nat :: IsRound(c, number, "review") }
  ghost predicate IsRevisionDir(c: Child) {
    exists number: nat :: IsRound(c, number, "revise") || IsRound(c, number, "final-revision")
  }

  ghost predicate HasRole(c: Child, role: string) { exists attempts :: c.metadata == Metadata(Some(role), attempts) }

  /** The last attempt that the metadata records has the status "success". */
  ghost predicate Succeeds(c: Child) {
    exists role, earlier :: c.metadata == Metadata(role, Some(earlier + [Some("success")]))
  }

  ghost predicate ShowsWork(c: Child) { exists patch :: c.patch == Some(patch) && patch != EMPTY_PATCH }

  /** No round has a larger number. */
  ghost predicate IsLast(children: seq<Child>, c: Child) {
    exists number: nat :: HasNumber(c, number) && forall d, m: nat :: d in children && HasNumber(d, m) ==> m <= number
  }

  function WordOf(kind: Kind): string {
    match kind
    case Modify => "modify"
    case Review => "review"
    case Revise => "revise"
    case FinalRevision => "final-revision"
  }

  lemma KindsMean(word: string)
    ensures forall kind :: KindOf(word) == Some(kind) <==> word == WordOf(kind)
    ensures KindOf(word).Some? <==> IsKindName(word)
  {
    assert |"modify"| == |"review"| == |"revise"| == 6 && |"final-revision"| == 14;
    assert "modify"[0] == 'm' && "review"[0] == "revise"[0] == 'r' && "review"[4] == 'e' && "revise"[4] == 's';
  }

  lemma WordsNameKinds()
    ensures forall kind :: IsKindName(WordOf(kind))
    ensures forall word :: IsKindName(word) ==> exists kind :: word == WordOf(kind)
    ensures forall a, b :: WordOf(a) == WordOf(b) ==> a == b
  {
    forall word | IsKindName(word) ensures exists kind :: word == WordOf(kind) {
      KindsMean(word);
      assert word == WordOf(KindOf(word).value);
    }
    forall a, b | WordOf(a) == WordOf(b) ensures a == b {
      KindsMean(WordOf(a));
      assert KindOf(WordOf(a)) == Some(a) && KindOf(WordOf(a)) == Some(b);
    }
  }

  lemma KindNamesEndInLetters(word: string)
    requires IsKindName(word)
    ensures word != "" && word[|word| - 1] != '\n'
  {
    assert "modify"[5] == 'y' && "review"[5] == 'w' && "revise"[5] == 'e' && |"final-revision"| == 14 && "final-revision"[13] == 'n';
  }

  /** A name is split into its digits and what is behind the dash, less one line end. */
  lemma NamesSplit(name: string, number: nat, word: string)
    requires IsKindName(word)
    ensures IsRoundName(name, number, word) <==>
              && |name| >= 3 && IsNumbered(name[..2], number) && name[2] == '-'
              && word == (if name[3..] != "" && name[|name| - 1] == '\n' then name[3..|name| - 1] else name[3..])
  {
    hide IsNumbered, IsKindName;
    KindNamesEndInLetters(word);
    if IsRoundName(name, number, word) {
      var digits :| IsNumbered(digits, number) && (name == digits + "-" + word || name == digits + "-" + word + "\n");
      assert |digits| == 2 by { DigitsAreTwo(digits, number); }
      assert name[..2] == digits;
      if name == digits + "-" + word {
        assert name[3..] == word && name[|name| - 1] == word[|word| - 1];
      } else {
        assert name[3..|name| - 1] == word && name[3..] == word + "\n";
      }
    } else if |name| >= 3 && IsNumbered(name[..2], number) && name[2] == '-' {
      assert name == name[..2] + "-" + name[3..];
      if name[3..] != "" && name[|name| - 1] == '\n' {
        assert name == name[..2] + "-" + name[3..|name| - 1] + "\n";
      }
    }
  }

  lemma DigitsAreTwo(digits: string, number: nat)
    requires IsNumbered(digits, number)
    ensures |digits| == 2
  {
  }

  /** What the reader takes a name for. */
  lemma NamesMean(name: string)
    ensures forall number: nat, kind :: ParseRoundName(name) == Some((number, kind)) <==> IsRoundName(name, number, WordOf(kind))
    ensures ParseRoundName(name).Some? <==> exists number: nat, word :: IsKindName(word) && IsRoundName(name, number, word)
  {
    hide KindOf, IsRoundName, IsKindName, WordOf;
    WordsNameKinds();
    forall number: nat, word | IsKindName(word)
      ensures IsRoundName(name, number, word) <==>
                ParseRoundName(name).Some? && ParseRoundName(name).value.0 == number && word == WordOf(ParseRoundName(name).value.1)
    {
      NamesSplit(name, number, word);
      KindsMean(word);
      if |name| >= 3 {
        var rest := name[3..];
        assert rest != "" ==> rest[..|rest| - 1] == name[3..|name| - 1] && rest[|rest| - 1] == name[|name| - 1];
        KindsMean(if rest != "" && rest[|rest| - 1] == '\n' then rest[..|rest| - 1] else rest);
      }
    }
    if ParseRoundName(name).Some? {
      var parsed := ParseRoundName(name).value;
      assert IsRoundName(name, parsed.0, WordOf(parsed.1));
    }
  }

  /** A child is listed as an entry exactly when it is a round, with its number and its kind. */
  lemma ChildrenMean(c: Child)
    ensures forall number: nat, kind :: EntryOf(c) == [Entry(number, kind, c)] <==> IsRound(c, number, WordOf(kind))
    ensures EntryOf(c) == [] <==> forall number: nat, word :: !IsRound(c, number, word)
    ensures |EntryOf(c)| <= 1 && forall e :: e in EntryOf(c) ==> e.dir == c
    ensures forall e :: e in EntryOf(c) ==>
              && (IsReview(e) <==> IsReviewDir(c)) && (IsRevision(e) <==> IsRevisionDir(c))
              && (forall number: nat :: HasNumber(c, number) <==> number == e.number)
  {
    hide ParseRoundName, IsRoundName, IsKindName;
    WordsNameKinds();
    NamesMean(c.name);
    forall e | e in EntryOf(c)
      ensures (IsReview(e) <==> IsReviewDir(c)) && (IsRevision(e) <==> IsRevisionDir(c))
      ensures forall number: nat :: HasNumber(c, number) <==> number == e.number
    {
      var parsed := ParseRoundName(c.name).value;
      assert forall number: nat, kind :: IsRound(c, number, WordOf(kind)) <==> number == parsed.0 && kind == parsed.1;
      assert IsRound(c, parsed.0, WordOf(parsed.1));
      assert forall number: nat, word :: IsRound(c, number, word) ==> exists kind :: word == WordOf(kind);
      assert WordOf(Review) == "review" && WordOf(Revise) == "revise" && WordOf(FinalRevision) == "final-revision";
    }
  }

  lemma RolesMean(c: Child, role: string)
    ensures HasRole(c, role) <==> Role(c) == Some(role)
  {
    if Role(c) == Some(role) {
      assert c.metadata == Metadata(Some(role), c.metadata.attempts);
    }
  }

  lemma SuccessesMean(c: Child)
    ensures Succeeds(c) <==> RoundSucceeded(c)
  {
    if Succeeds(c) {
      var role, earlier :| c.metadata == Metadata(role, Some(earlier + [Some("success")]));
      assert c.metadata.attempts.value[|earlier|] == Some("success");
    }
    if RoundSucceeded(c) {
      var attempts := c.metadata.attempts.value;
      assert attempts == attempts[..|attempts| - 1] + [Some("success")];
      assert c.metadata == Metadata(c.metadata.role, Some(attempts[..|attempts| - 1] + [Some("success")]));
    }
  }

  lemma WorkMeans(c: Child)
    ensures ShowsWork(c) <==> HasPatch(c)
  {
    if HasPatch(c) {
      assert c.patch == Some(c.patch.value);
    }
  }

  // --------------------------------------------------------------- places in a listing

  /** These places, in ascending order. */
  ghost predicate Ascends(places: seq<nat>) { forall j, k :: 0 <= j < k < |places| ==> places[j] < places[k] }

  ghost predicate AreEntriesAt(children: seq<Child>, places: seq<nat>) {
    var entries := Entries(children);
    && |places| == |entries| && Ascends(places)
    && (forall k :: 0 <= k < |places| ==> places[k] < |children| && EntryOf(children[places[k]]) == [entries[k]])
    && (forall i :: 0 <= i < |children| && EntryOf(children[i]) != [] ==> i in places)
  }

  lemma {:induction false} EntriesHavePlaces(children: seq<Child>) returns (places: seq<nat>)
    ensures AreEntriesAt(children, places)
  {
    hide EntryOf, Entries;
    EntriesUnfold(children);
    if children == [] {
      places := [];
    } else {
      var n := |children| - 1;
      var shorter, last := children[..n], children[n];
      places := EntriesHavePlaces(shorter);
      assert children == shorter + [last];
      EntriesOfConcat(shorter, [last]);
      EntriesOfOne(last);
      if EntryOf(last) != [] {
        places := places + [n];
      }
    }
  }

  lemma EntriesOfOne(c: Child)
    ensures Entries([c]) == EntryOf(c) && |EntryOf(c)| <= 1
  {
    hide ParseRoundName;
    assert [c][1..] == [];
  }

  /** A sort by number, and by place where numbers agree. */
  ghost predicate IsStableSort(entries: seq<Entry>, sorted: seq<Entry>, places: seq<nat>) {
    && |places| == |sorted| == |entries|
    && (forall k :: 0 <= k < |places| ==> places[k] < |entries| && sorted[k] == entries[places[k]])
    && (forall i :: 0 <= i < |entries| ==> i in places)
    && (forall j, k :: 0 <= j < k < |places| ==> IsBefore(entries, places[j], places[k]))
  }

  predicate IsBefore(entries: seq<Entry>, i: nat, j: nat) {
    i < |entries| && j < |entries| &&
    (entries[i].number < entries[j].number || (entries[i].number == entries[j].number && i < j))
  }

  lemma {:induction false} InsertHasAPlace(e: Entry, sorted: seq<Entry>) returns (n: nat)
    requires Ascending(sorted)
    ensures n <= |sorted| && Insert(e, sorted) == sorted[..n] + [e] + sorted[n..]
    ensures forall k :: 0 <= k < n ==> sorted[k].number < e.number
    ensures forall k :: n <= k < |sorted| ==> e.number <= sorted[k].number
  {
    if sorted == [] || e.number <= sorted[0].number {
      n := 0;
    } else {
      var m := InsertHasAPlace(e, sorted[1..]);
      n := m + 1;
      assert sorted == [sorted[0]] + sorted[1..];
      assert forall k :: 0 < k < |sorted| ==> sorted[k] == sorted[1..][k - 1];
      assert sorted[..n] == [sorted[0]] + sorted[1..][..m] && sorted[n..] == sorted[1..][m..];
    }
  }

  function Behind(places: seq<nat>): seq<nat> { seq(|places|, k requires 0 <= k < |places| => places[k] + 1) }

  /** The places once a new first entry is put in front of the n-th. */
  function PlacesWith(places: seq<nat>, n: nat): seq<nat>
    requires n <= |places|
  {
    Behind(places)[..n] + [0] + Behind(places)[n..]
  }

  lemma PlacesWithAt(places: seq<nat>, n: nat)
    requires n <= |places|
    ensures |PlacesWith(places, n)| == |places| + 1
    ensures forall k :: 0 <= k < n ==> PlacesWith(places, n)[k] == places[k] + 1
    ensures PlacesWith(places, n)[n] == 0
    ensures forall k :: n < k <= |places| ==> PlacesWith(places, n)[k] == places[k - 1] + 1
  {
  }

  lemma PlacesCover(rest: seq<Entry>, places: seq<nat>, n: nat, i: nat)
    requires n <= |places| && i <= |rest| && forall j :: 0 <= j < |rest| ==> j in places
    ensures i in PlacesWith(places, n)
  {
    hide PlacesWith;
    var spots := PlacesWith(places, n);
    PlacesWithAt(places, n);
    if i == 0 {
      assert spots[n] == 0;
    } else {
      assert i - 1 in places;
      var k :| 0 <= k < |places| && places[k] == i - 1;
      assert spots[if k < n then k else k + 1] == i;
    }
  }

  lemma InsertIsStable(e: Entry, rest: seq<Entry>, sorted: seq<Entry>, places: seq<nat>, n: nat)
    requires IsStableSort(rest, sorted, places) && n <= |sorted|
    requires forall k :: 0 <= k < n ==> sorted[k].number < e.number
    requires forall k :: n <= k < |sorted| ==> e.number <= sorted[k].number
    ensures IsStableSort([e] + rest, sorted[..n] + [e] + sorted[n..], PlacesWith(places, n))
  {
    hide PlacesWith, IsBefore;
    var all, result, spots := [e] + rest, sorted[..n] + [e] + sorted[n..], PlacesWith(places, n);
    assert |spots| == |places| + 1 by { PlacesWithAt(places, n); }
    forall k | 0 <= k < |spots| ensures spots[k] < |all| && result[k] == all[spots[k]] {
      SpotsHoldTheSame(e, rest, sorted, places, n, k);
    }
    forall i | 0 <= i < |all| ensures i in spots {
      PlacesCover(rest, places, n, i);
    }
    forall j, k | 0 <= j < k < |spots| ensures IsBefore(all, spots[j], spots[k]) {
      SpotsAreInOrder(e, rest, sorted, places, n, j, k);
    }
  }

  lemma SpotsHoldTheSame(e: Entry, rest: seq<Entry>, sorted: seq<Entry>, places: seq<nat>, n: nat, k: nat)
    requires |places| == |sorted| == |rest| && n <= |sorted| && k <= |places|
    requires forall k :: 0 <= k < |places| ==> places[k] < |rest| && sorted[k] == rest[places[k]]
    ensures |PlacesWith(places, n)| == |places| + 1 && PlacesWith(places, n)[k] < |rest| + 1
    ensures (sorted[..n] + [e] + sorted[n..])[k] == ([e] + rest)[PlacesWith(places, n)[k]]
  {
    hide PlacesWith;
    PlacesWithAt(places, n);
  }

  lemma SpotsAreInOrder(e: Entry, rest: seq<Entry>, sorted: seq<Entry>, places: seq<nat>, n: nat, j: nat, k: nat)
    requires IsStableSort(rest, sorted, places) && n <= |sorted| && j < k <= |places|
    requires forall k :: 0 <= k < n ==> sorted[k].number < e.number
    requires forall k :: n <= k < |sorted| ==> e.number <= sorted[k].number
    ensures |PlacesWith(places, n)| == |places| + 1 && IsBefore([e] + rest, PlacesWith(places, n)[j], PlacesWith(places, n)[k])
  {
    hide PlacesWith;
    PlacesWithAt(places, n);
    if j != n && k != n {
      var j', k' := if j < n then j else j - 1, if k < n then k else k - 1;
      assert IsBefore(rest, places[j'], places[k']);
    } else if j == n {
      assert sorted[k - 1] == rest[places[k - 1]];
    } else {
      assert sorted[j] == rest[places[j]];
    }
  }

  lemma {:induction false} SortIsStable(entries: seq<Entry>) returns (places: seq<nat>)
    ensures IsStableSort(entries, SortByNumber(entries), places)
  {
    hide Insert, IsStableSort, PlacesWith;
    if entries == [] {
      places := [];
      NothingIsSorted();
    } else {
      var e, rest := entries[0], entries[1..];
      var earlier := SortIsStable(rest);
      SortByNumberSorts(rest);
      var n := InsertHasAPlace(e, SortByNumber(rest));
      StableSortsAreAsLong(rest, SortByNumber(rest), earlier);
      InsertIsStable(e, rest, SortByNumber(rest), earlier, n);
      places := PlacesWith(earlier, n);
      assert entries == [e] + rest;
    }
  }

  lemma NothingIsSorted()
    ensures IsStableSort([], [], [])
  {
  }

  lemma StableSortsAreAsLong(entries: seq<Entry>, sorted: seq<Entry>, places: seq<nat>)
    requires IsStableSort(entries, sorted, places)
    ensures |places| == |sorted| == |entries|
  {
  }

  /** The kept entries and where they stood. */
  ghost predicate AreKept(entries: seq<Entry>, keep: Entry -> bool, places: seq<nat>) {
    var kept := Filter(entries, keep);
    && |places| == |kept| && Ascends(places)
    && (forall k :: 0 <= k < |places| ==> places[k] < |entries| && kept[k] == entries[places[k]] && keep(kept[k]))
    && (forall i :: 0 <= i < |entries| && keep(entries[i]) ==> i in places)
  }

  lemma KeptGrows(entries: seq<Entry>, e: Entry, keep: Entry -> bool, places: seq<nat>)
    requires AreKept(entries, keep, places)
    ensures AreKept(entries + [e], keep, if keep(e) then places + [|entries|] else places)
  {
    hide Filter;
    FilterAppends(entries, e, keep);
    var all, more := entries + [e], if keep(e) then places + [|entries|] else places;
    assert forall i :: 0 <= i < |entries| ==> all[i] == entries[i];
    forall i | 0 <= i < |all| && keep(all[i]) ensures i in more {
      if i < |entries| {
        assert i in places;
      } else {
        assert more[|places|] == i;
      }
    }
  }

  lemma NothingIsKept(keep: Entry -> bool)
    ensures AreKept([], keep, [])
  {
  }

  lemma {:induction false} FilterHasPlaces(entries: seq<Entry>, keep: Entry -> bool) returns (places: seq<nat>)
    ensures AreKept(entries, keep, places)
  {
    hide AreKept;
    if entries == [] {
      NothingIsKept(keep);
      places := [];
    } else {
      var n := |entries| - 1;
      var earlier := FilterHasPlaces(entries[..n], keep);
      assert entries == entries[..n] + [entries[n]];
      KeptGrows(entries[..n], entries[n], keep, earlier);
      places := if keep(entries[n]) then earlier + [n] else earlier;
    }
  }

  /** One child comes before another: a smaller number, or the same number and an earlier place. */
  ghost predicate Precedes(children: seq<Child>, i: nat, j: nat) {
    exists n: nat, m: nat ::
      i < |children| && j < |children| && HasNumber(children[i], n) && HasNumber(children[j], m) && (n < m || (n == m && i < j))
  }

  /** The places of the children of one kind, in the order of their numbers. */
  ghost predicate IsListOf(children: seq<Child>, kind: Child -> bool, places: seq<nat>) {
    && (forall k :: 0 <= k < |places| ==> places[k] < |children| && kind(children[places[k]]))
    && (forall i :: 0 <= i < |children| && kind(children[i]) ==> i in places)
    && (forall j, k :: 0 <= j < k < |places| ==> Precedes(children, places[j], places[k]))
  }

  /** The kept rounds are the children of this kind, in order. */
  ghost predicate AreThose(children: seq<Child>, kind: Child -> bool, kept: seq<Entry>, places: seq<nat>) {
    && IsListOf(children, kind, places) && |kept| == |places|
    && forall k :: 0 <= k < |kept| ==> EntryOf(children[places[k]]) == [kept[k]]
  }

  /** A kind of entry and a kind of child that mean the same. */
  ghost predicate Means(keep: Entry -> bool, kind: Child -> bool) {
    forall c :: kind(c) <==> EntryOf(c) != [] && keep(EntryOf(c)[0])
  }

  function Compose(outer: seq<nat>, inner: seq<nat>): seq<nat>
    requires forall k :: 0 <= k < |inner| ==> inner[k] < |outer|
  {
    seq(|inner|, k requires 0 <= k < |inner| => outer[inner[k]])
  }

  /** From the listing to the kept rounds: entries, sorted, chosen. */
  ghost predicate IsThrough(children: seq<Child>, keep: Entry -> bool, at: seq<nat>, order: seq<nat>, chosen: seq<nat>) {
    var entries := Entries(children);
    && AreEntriesAt(children, at) && IsStableSort(entries, SortByNumber(entries), order)
    && AreKept(SortByNumber(entries), keep, chosen)
  }

  lemma ThroughAt(children: seq<Child>, keep: Entry -> bool, at: seq<nat>, order: seq<nat>, chosen: seq<nat>, k: nat)
    requires IsThrough(children, keep, at, order, chosen) && k < |chosen|
    ensures var entries, kept := Entries(children), Filter(SortByNumber(Entries(children)), keep);
            && |at| == |order| == |entries| && |kept| == |chosen| && chosen[k] < |order| && order[chosen[k]] < |at|
            && at[order[chosen[k]]] < |children| && kept[k] == entries[order[chosen[k]]] && keep(kept[k])
            && EntryOf(children[at[order[chosen[k]]]]) == [kept[k]]
  {
    hide Entries, SortByNumber, Filter, EntryOf, Ascends, IsBefore;
  }

  lemma ThroughCovers(children: seq<Child>, keep: Entry -> bool, at: seq<nat>, order: seq<nat>, chosen: seq<nat>, i: nat)
    returns (k: nat)
    requires IsThrough(children, keep, at, order, chosen)
    requires i < |children| && EntryOf(children[i]) != [] && keep(EntryOf(children[i])[0])
    ensures k < |chosen| && chosen[k] < |order| && order[chosen[k]] < |at| && at[order[chosen[k]]] == i
  {
    hide Entries, SortByNumber, Filter, EntryOf, Ascends, IsBefore;
    var sorted := SortByNumber(Entries(children));
    var n :| 0 <= n < |at| && at[n] == i;
    assert n in order;
    var m :| 0 <= m < |order| && order[m] == n;
    assert keep(sorted[m]) && m in chosen;
    k :| 0 <= k < |chosen| && chosen[k] == m;
  }

  lemma ThroughOrder(children: seq<Child>, keep: Entry -> bool, at: seq<nat>, order: seq<nat>, chosen: seq<nat>, j: nat, k: nat)
    requires IsThrough(children, keep, at, order, chosen) && j < k < |chosen|
    ensures chosen[j] < |order| && order[chosen[j]] < |at| && chosen[k] < |order| && order[chosen[k]] < |at|
    ensures Precedes(children, at[order[chosen[j]]], at[order[chosen[k]]])
  {
    hide Entries, SortByNumber, Filter, EntryOf, HasNumber;
    ThroughAt(children, keep, at, order, chosen, j);
    ThroughAt(children, keep, at, order, chosen, k);
    assert IsBefore(Entries(children), order[chosen[j]], order[chosen[k]]);
    var kept := Filter(SortByNumber(Entries(children)), keep);
    var a, b := children[at[order[chosen[j]]]], children[at[order[chosen[k]]]];
    ChildrenMean(a);
    ChildrenMean(b);
    assert kept[j] in EntryOf(a) && kept[k] in EntryOf(b);
    assert HasNumber(a, kept[j].number) && HasNumber(b, kept[k].number);
  }

  lemma RoundsHavePlaces(children: seq<Child>, keep: Entry -> bool, kind: Child -> bool) returns (places: seq<nat>)
    requires Means(keep, kind)
    ensures AreThose(children, kind, Filter(SortByNumber(Entries(children)), keep), places)
  {
    hide Entries, SortByNumber, Filter, EntryOf, Precedes, AreEntriesAt, IsStableSort, AreKept;
    var at := EntriesHavePlaces(children);
    var order := SortIsStable(Entries(children));
    var chosen := FilterHasPlaces(SortByNumber(Entries(children)), keep);
    assert IsThrough(children, keep, at, order, chosen);
    var kept := Filter(SortByNumber(Entries(children)), keep);
    assert |kept| == |chosen| by { AsManyAsKept(SortByNumber(Entries(children)), keep, chosen); }
    forall k | 0 <= k < |chosen| ensures chosen[k] < |order| && order[chosen[k]] < |at| {
      ThroughAt(children, keep, at, order, chosen, k);
    }
    places := Compose(at, Compose(order, chosen));
    forall k | 0 <= k < |kept|
      ensures places[k] < |children| && EntryOf(children[places[k]]) == [kept[k]] && keep(kept[k])
    {
      ThroughAt(children, keep, at, order, chosen, k);
    }
    forall i | 0 <= i < |children| && kind(children[i]) ensures i in places {
      var k := ThroughCovers(children, keep, at, order, chosen, i);
      assert places[k] == i;
    }
    forall j, k | 0 <= j < k < |places| ensures Precedes(children, places[j], places[k]) {
      ThroughOrder(children, keep, at, order, chosen, j, k);
    }
  }

  lemma AsManyAsKept(entries: seq<Entry>, keep: Entry -> bool, places: seq<nat>)
    requires AreKept(entries, keep, places)
    ensures |places| == |Filter(entries, keep)|
  {
  }

  /** How many children are of this kind. */
  ghost function CountOf(children: seq<Child>, kind: Child -> bool): nat {
    |set i: nat | i < |children| && kind(children[i])|
  }

  lemma PrecedingIsDistinct(children: seq<Child>, i: nat, j: nat)
    requires Precedes(children, i, j)
    ensures i != j
  {
    hide IsRound;
    if i < |children| {
      ChildrenMean(children[i]);
    }
  }

  function Members(places: seq<nat>): set<nat> { set i | i in places }

  lemma {:induction false} DistinctPlaces(places: seq<nat>)
    requires forall j, k :: 0 <= j < k < |places| ==> places[j] != places[k]
    ensures |Members(places)| == |places|
  {
    if places == [] {
      assert Members(places) == {};
    } else {
      var n := |places| - 1;
      var earlier := Members(places[..n]);
      DistinctPlaces(places[..n]);
      assert places == places[..n] + [places[n]];
      assert Members(places) == earlier + {places[n]} && places[n] !in earlier;
      assert |earlier + {places[n]}| == |earlier| + 1;
    }
  }

  lemma ListsAreComplete(children: seq<Child>, kind: Child -> bool, places: seq<nat>)
    requires IsListOf(children, kind, places)
    ensures CountOf(children, kind) == |places|
  {
    hide Precedes;
    forall j, k | 0 <= j < k < |places| ensures places[j] != places[k] {
      PrecedingIsDistinct(children, places[j], places[k]);
    }
    DistinctPlaces(places);
    assert (set i: nat | i < |children| && kind(children[i])) == Members(places);
  }

  // ------------------------------------------------------------------- the kinds of rounds

  ghost predicate IsAnyRound(c: Child) { exists number: nat, word :: IsRound(c, number, word) }
  ghost predicate IsFinished(c: Child) { IsRevisionDir(c) && Succeeds(c) }
  ghost predicate IsUnfinished(c: Child) { IsRevisionDir(c) && !Succeeds(c) }

  predicate AnyEntry(e: Entry) { true }
  predicate FinishedEntry(e: Entry) { IsRevision(e) && Completed(e) }
  predicate UnfinishedEntry(e: Entry) { IsRevision(e) && Interrupted(e) }

  lemma KindsAreMeant()
    ensures Means(IsReview, IsReviewDir) && Means(IsRevision, IsRevisionDir) && Means(AnyEntry, IsAnyRound)
    ensures Means(FinishedEntry, IsFinished) && Means(UnfinishedEntry, IsUnfinished)
  {
    hide IsRound, EntryOf, Succeeds, RoundSucceeded, IsReview, IsRevision, IsRevisionDir, IsReviewDir, HasNumber;
    forall c
      ensures IsReviewDir(c) <==> EntryOf(c) != [] && IsReview(EntryOf(c)[0])
      ensures IsRevisionDir(c) <==> EntryOf(c) != [] && IsRevision(EntryOf(c)[0])
      ensures IsAnyRound(c) <==> EntryOf(c) != []
      ensures EntryOf(c) != [] ==> EntryOf(c)[0].dir == c && (Succeeds(c) <==> RoundSucceeded(EntryOf(c)[0].dir))
    {
      ChildrenMean(c);
      SuccessesMean(c);
      OnlyRoundsAreKinds(c);
      if EntryOf(c) != [] {
        assert EntryOf(c)[0] in EntryOf(c);
      }
    }
  }

  lemma OnlyRoundsAreKinds(c: Child)
    ensures IsReviewDir(c) || IsRevisionDir(c) ==> IsAnyRound(c)
  {
    hide IsRound;
  }

  lemma {:induction false} FilterTwice(xs: seq<Entry>, p: Entry -> bool, q: Entry -> bool, both: Entry -> bool)
    requires forall x :: both(x) <==> p(x) && q(x)
    ensures Filter(Filter(xs, p), q) == Filter(xs, both)
  {
    hide Filter;
    if xs == [] {
      NothingIsFiltered(p, q, both);
    } else {
      FilterTwice(xs[1..], p, q, both);
      var x, rest := xs[0], Filter(xs[1..], p);
      FilterUnfolds(xs, p);
      FilterUnfolds(xs, both);
      if p(x) {
        FilterUnfolds([x] + rest, q);
        assert ([x] + rest)[1..] == rest;
      } else {
        assert [] + rest == rest;
      }
    }
  }

  lemma NothingIsFiltered(p: Entry -> bool, q: Entry -> bool, both: Entry -> bool)
    ensures Filter([], p) == [] && Filter([], q) == [] && Filter([], both) == []
  {
  }

  lemma FilterUnfolds(xs: seq<Entry>, keep: Entry -> bool)
    requires xs != []
    ensures Filter(xs, keep) == (if keep(xs[0]) then [xs[0]] else []) + Filter(xs[1..], keep)
  {
  }

  // ------------------------------------------------------------------ acceptance

  /** The first child with the number 0 is the modify round. */
  ghost predicate StartsWithModify(children: seq<Child>, i: nat) {
    i < |children| && IsRound(children[i], 0, "modify") && forall j :: 0 <= j < i ==> !HasNumber(children[j], 0)
  }

  /** Every directory is a round, and the rounds, if any, start with the modify round of number 0. */
  ghost predicate IsListing(listing: Option<seq<Child>>) {
    && listing.Some?
    && (forall c :: c in listing.value && c.isDir ==> IsAnyRound(c))
    && ((forall c :: c in listing.value ==> !IsAnyRound(c)) || exists i: nat :: StartsWithModify(listing.value, i))
  }

  predicate IsNothing(file: FileRef) { file == Missing || file == File(EMPTY_PATCH) }

  ghost predicate ClaimsNothing(children: seq<Child>, final: FileRef, model: FileRef) {
    (forall c :: c in children ==> !IsReviewDir(c) && !IsRevisionDir(c)) && IsNothing(final) && IsNothing(model)
  }

  /** A review has a patch and a reviewer; only the last round of a degraded trial may lack metadata. */
  ghost predicate IsSoundReview(children: seq<Child>, c: Child, degraded: bool) {
    ShowsWork(c) && if c.metadata == NoMetadata then degraded && IsLast(children, c) else HasRole(c, "reviewer")
  }

  /** The patch of the k-th state: what the k-th review saw, and behind the reviews the final patch. */
  function StateOf(children: seq<Child>, places: seq<nat>, final: Patch, k: nat): Option<Patch>
    requires k <= |places| && forall i :: 0 <= i < |places| ==> places[i] < |children|
  {
    if k < |places| then children[places[k]].patch else Some(final)
  }

  predicate MovesAt(children: seq<Child>, places: seq<nat>, final: Patch, k: nat)
    requires 1 <= k <= |places| && forall i :: 0 <= i < |places| ==> places[i] < |children|
  {
    StateOf(children, places, final, k) != StateOf(children, places, final, k - 1)
  }

  /** The states that differ from the one before. */
  function Steps(children: seq<Child>, places: seq<nat>, final: Patch): set<nat>
    requires forall i :: 0 <= i < |places| ==> places[i] < |children|
  {
    set k: nat | 1 <= k <= |places| && MovesAt(children, places, final, k)
  }

  ghost predicate StepsFit(children: seq<Child>, final: Patch, most: int) {
    exists places :: IsListOf(children, IsReviewDir, places) && |Steps(children, places, final)| <= most
  }

  /** The rounds and the patches agree with the summary. */
  ghost predicate AgreesWith(children: seq<Child>, final: FileRef, model: FileRef, summary: SummaryResult)
    requires summary.reviewCount.Some? && summary.revisionCount.Some?
  {
    && final.File? && model == final && final.patch != EMPTY_PATCH
    && summary.outcome in {"approved", "max_reviews_reached", "degraded"}
    && (exists c :: c in children && IsReviewDir(c))
    && (forall c :: c in children && IsReviewDir(c) ==> IsSoundReview(children, c, summary.degradedReason.Some?))
    && (forall c :: c in children && IsRevisionDir(c) ==> HasRole(c, "modifier"))
    && summary.reviewCount.value <= CountOf(children, IsReviewDir) <= summary.reviewCount.value + 1
    && CountOf(children, IsFinished) == summary.revisionCount.value
    && CountOf(children, IsUnfinished) <= 1
    && (forall c :: c in children && IsUnfinished(c) ==> IsLast(children, c))
    && StepsFit(children, final.patch, summary.revisionCount.value)
  }

  ghost predicate IsAcceptable(t: Trial) {
    && t.resultJson.Parsed? && t.resultJson.value.config.Some? && t.summaryJson.Parsed? && t.summaryJson.value.Some?
    && var config, summary := t.resultJson.value.config.value, t.summaryJson.value.value;
    && config.topology == "collab" && config.taskDirAvailable && t.resultJson.value.taskChecksum != ""
    && summary.baseCommit != "" && summary.reviewCount.Some? && summary.revisionCount.Some?
    && IsListing(t.children) && t.final != Escapes && t.model != Escapes
    && if summary.checkpoints == 0 then ClaimsNothing(t.children.value, t.final, t.model)
       else AgreesWith(t.children.value, t.final, t.model, summary)
  }

  /** The kept rounds are exactly the directories of their kind. */
  lemma KeptAreTheKind(children: seq<Child>, kind: Child -> bool, kept: seq<Entry>, places: seq<nat>)
    requires AreThose(children, kind, kept, places)
    ensures forall e :: e in kept ==> e.dir in children && kind(e.dir) && EntryOf(e.dir) == [e]
    ensures forall c :: c in children && kind(c) ==> exists e :: e in kept && e.dir == c
    ensures |kept| == CountOf(children, kind)
  {
    hide Precedes, CountOf, EntryOf, HasNumber, IsRound;
    ListsAreComplete(children, kind, places);
    forall e | e in kept ensures e.dir in children && kind(e.dir) && EntryOf(e.dir) == [e] {
      var k :| 0 <= k < |kept| && kept[k] == e;
      EntryTells(children[places[k]], e);
    }
    forall c | c in children && kind(c) ensures exists e :: e in kept && e.dir == c {
      var i :| 0 <= i < |children| && children[i] == c;
      assert i in places;
      var k :| 0 <= k < |places| && places[k] == i;
      EntryTells(c, kept[k]);
    }
  }

  lemma AllAreKept(entries: seq<Entry>)
    ensures Filter(entries, AnyEntry) == entries
  {
    if entries != [] {
      AllAreKept(entries[1..]);
    }
  }

  lemma ListingsMean(listing: Option<seq<Child>>)
    ensures RoundsReadable(listing) <==> IsListing(listing)
  {
    hide SortByNumber, Entries, EntryOf, ParseRoundName, IsRound, Means;
    if listing.Some? {
      var children := listing.value;
      var entries := SortByNumber(Entries(children));
      KindsAreMeant();
      AllAreKept(entries);
      var places := RoundsHavePlaces(children, AnyEntry, IsAnyRound);
      KeptAreTheKind(children, IsAnyRound, entries, places);
      forall c | c in children && c.isDir ensures ParseRoundName(c.name).Some? <==> IsAnyRound(c) {
        NamedAreRounds(c);
      }
      if entries != [] {
        FirstIsTheStart(children, entries, places);
      }
    }
  }

  lemma NamedAreRounds(c: Child)
    requires c.isDir
    ensures ParseRoundName(c.name).Some? <==> IsAnyRound(c)
  {
    hide ParseRoundName;
    NamesMean(c.name);
    if ParseRoundName(c.name).Some? {
      var number, word :| IsKindName(word) && IsRoundName(c.name, number, word);
      assert IsRound(c, number, word);
    }
  }

  lemma EntryTells(c: Child, e: Entry)
    requires EntryOf(c) == [e]
    ensures e.dir == c && (e.number == 0 && e.kind == Modify <==> IsRound(c, 0, "modify"))
    ensures forall number: nat :: HasNumber(c, number) <==> number == e.number
  {
    hide EntryOf, IsRound, HasNumber;
    ChildrenMean(c);
    assert e in EntryOf(c) && WordOf(Modify) == "modify" && e == Entry(e.number, e.kind, e.dir);
    assert EntryOf(c) == [Entry(0, Modify, c)] <==> IsRound(c, 0, WordOf(Modify));
  }

  /** A second child of number 0 stands behind the first one. */
  lemma ZeroesFollow(children: seq<Child>, entries: seq<Entry>, places: seq<nat>, j: nat)
    requires AreThose(children, IsAnyRound, entries, places) && entries != []
    requires j < |children| && HasNumber(children[j], 0) && j != places[0]
    ensures entries[0].number == 0 && places[0] < j
  {
    hide EntryOf, IsRound;
    assert IsAnyRound(children[j]) && j in places;
    var k :| 0 <= k < |places| && places[k] == j;
    EntryTells(children[places[0]], entries[0]);
    EntryTells(children[j], entries[k]);
    assert Precedes(children, places[0], places[k]);
  }

  lemma FirstIsTheStart(children: seq<Child>, entries: seq<Entry>, places: seq<nat>)
    requires AreThose(children, IsAnyRound, entries, places) && entries != []
    ensures entries[0].number == 0 && entries[0].kind == Modify <==> exists i: nat :: StartsWithModify(children, i)
  {
    hide EntryOf, IsRound, HasNumber, IsListOf;
    PlacesAreInside(children, entries, places);
    EntryTells(children[places[0]], entries[0]);
    if i: nat :| StartsWithModify(children, i) {
      ModifyHasNumberZero(children[i]);
      if i != places[0] {
        ZeroesFollow(children, entries, places, i);
      }
    }
    if entries[0].number == 0 && entries[0].kind == Modify {
      forall j | 0 <= j < places[0] ensures !HasNumber(children[j], 0) {
        if HasNumber(children[j], 0) {
          ZeroesFollow(children, entries, places, j);
        }
      }
      assert StartsWithModify(children, places[0]);
    }
  }

  lemma PlacesAreInside(children: seq<Child>, entries: seq<Entry>, places: seq<nat>)
    requires AreThose(children, IsAnyRound, entries, places)
    ensures |places| == |entries| && forall k :: 0 <= k < |places| ==> places[k] < |children|
  {
  }

  lemma ModifyHasNumberZero(c: Child)
    requires IsRound(c, 0, "modify")
    ensures HasNumber(c, 0)
  {
  }

  lemma {:induction false} MaxIsLargest(entries: seq<Entry>)
    ensures forall e :: e in entries ==> e.number <= MaxNumber(entries)
    ensures entries != [] ==> exists e :: e in entries && e.number == MaxNumber(entries)
  {
    if entries != [] {
      MaxIsLargest(entries[1..]);
      assert entries == [entries[0]] + entries[1..];
      if entries[0].number <= MaxNumber(entries[1..]) {
        var e :| e in entries[1..] && e.number == MaxNumber(entries[1..]);
        assert e in entries;
      } else {
        assert entries[0] in entries;
      }
    }
  }

  /** A round has the largest number exactly when it is the last one. */
  lemma LastMeans(children: seq<Child>, rounds: seq<Entry>, places: seq<nat>, e: Entry)
    requires AreThose(children, IsAnyRound, rounds, places) && e in rounds
    ensures e.number == MaxNumber(rounds) <==> IsLast(children, e.dir)
  {
    hide EntryOf, HasNumber, IsRound, MaxNumber, AreThose, IsAnyRound;
    KeptAreTheKind(children, IsAnyRound, rounds, places);
    MaxIsLargest(rounds);
    EntryTells(e.dir, e);
    forall d, m: nat | d in children && HasNumber(d, m) ensures m <= MaxNumber(rounds) {
      NumberedIsRound(d, m);
      var x :| x in rounds && x.dir == d;
      EntryTells(d, x);
    }
    assert e.dir in children && HasNumber(e.dir, e.number) by { EntryTells(e.dir, e); }
    if IsLast(children, e.dir) {
      var x :| x in rounds && x.number == MaxNumber(rounds);
      EntryTells(x.dir, x);
      assert HasNumber(x.dir, x.number) && x.dir in children;
    }
  }

  lemma NumberedIsRound(c: Child, m: nat)
    requires HasNumber(c, m)
    ensures IsAnyRound(c)
  {
  }

  lemma PrecedingIsOneWay(children: seq<Child>, i: nat, j: nat)
    requires Precedes(children, i, j)
    ensures !Precedes(children, j, i)
  {
    hide IsRound, HasNumber;
    ChildrenHaveOneNumber(children[i]);
    ChildrenHaveOneNumber(children[j]);
  }

  lemma ChildrenHaveOneNumber(c: Child)
    ensures forall n: nat, m: nat :: HasNumber(c, n) && HasNumber(c, m) ==> n == m
  {
    hide EntryOf, HasNumber, IsRound;
    ChildrenMean(c);
    if n: nat :| HasNumber(c, n) {
      HasNumberHasEntry(c, n);
      assert EntryOf(c)[0] in EntryOf(c);
    }
  }

  lemma HasNumberHasEntry(c: Child, n: nat)
    requires HasNumber(c, n)
    ensures EntryOf(c) != []
  {
    hide IsRound, EntryOf;
    ChildrenMean(c);
  }

  /** There is only one list of a kind. */
  lemma ListsAreUnique(children: seq<Child>, kind: Child -> bool, a: seq<nat>, b: seq<nat>)
    requires IsListOf(children, kind, a) && IsListOf(children, kind, b)
    ensures a == b
  {
    hide Precedes, CountOf;
    ListsAreComplete(children, kind, a);
    ListsAreComplete(children, kind, b);
    var k := 0;
    while k < |a|
      invariant k <= |a| && a[..k] == b[..k]
    {
      if a[k] != b[k] {
        NextIsSame(children, kind, a, b, k);
        PrecedingIsOneWay(children, b[k], a[k]);
        NextIsSame(children, kind, b, a, k);
      }
      assert a[..k + 1] == a[..k] + [a[k]] && b[..k + 1] == b[..k] + [b[k]];
      k := k + 1;
    }
    assert a[..|a|] == a && b[..|b|] == b;
  }

  lemma NextIsSame(children: seq<Child>, kind: Child -> bool, a: seq<nat>, b: seq<nat>, k: nat)
    requires IsListOf(children, kind, a) && IsListOf(children, kind, b)
    requires k < |a| && k < |b| && a[..k] == b[..k] && a[k] != b[k]
    ensures Precedes(children, b[k], a[k])
  {
    hide Precedes;
    assert a[k] in b;
    var m :| 0 <= m < |b| && b[m] == a[k];
    if m < k {
      assert a[m] == a[..k][m] == b[..k][m] == b[m];
      PrecedingIsDistinct(children, a[m], a[k]);
    }
  }

  // ----------------------------------------------------------------------- changes

  lemma {:induction false} ChangesAppend(graded: seq<Patch>, p: Patch)
    ensures Changes(graded + [p]) == Changes(graded) + if graded != [] && p != graded[|graded| - 1] then 1 else 0
  {
    var longer := graded + [p];
    if |graded| >= 2 {
      ChangesAppend(graded[1..], p);
      assert longer[1..] == graded[1..] + [p];
    } else if |graded| == 1 {
      assert longer[1..] == [p];
    }
  }

  predicate DiffersAt(graded: seq<Patch>, k: nat)
    requires 1 <= k < |graded|
  {
    graded[k] != graded[k - 1]
  }

  function Differences(graded: seq<Patch>): set<nat> { set k: nat | 1 <= k < |graded| && DiffersAt(graded, k) }

  lemma DifferencesAppend(graded: seq<Patch>, p: Patch)
    requires graded != []
    ensures Differences(graded + [p]) ==
            if p != graded[|graded| - 1] then Differences(graded) + {|graded|} else Differences(graded)
    ensures |graded| !in Differences(graded)
  {
    var longer := graded + [p];
    forall k: nat | 1 <= k < |longer| ensures DiffersAt(longer, k) <==> if k < |graded| then DiffersAt(graded, k) else p != graded[k - 1] {
    }
  }

  lemma {:induction false} ChangesAreCounted(graded: seq<Patch>)
    ensures Changes(graded) == |Differences(graded)|
  {
    if |graded| < 2 {
      assert Differences(graded) == {};
    } else {
      var shorter, p := graded[..|graded| - 1], graded[|graded| - 1];
      ChangesAreCounted(shorter);
      assert graded == shorter + [p];
      ChangesAppend(shorter, p);
      DifferencesAppend(shorter, p);
    }
  }

  lemma StepsAreDifferences(children: seq<Child>, places: seq<nat>, final: Patch, graded: seq<Patch>)
    requires forall i :: 0 <= i < |places| ==> places[i] < |children|
    requires |graded| == |places| + 1 && forall k :: 0 <= k <= |places| ==> StateOf(children, places, final, k) == Some(graded[k])
    ensures Steps(children, places, final) == Differences(graded)
  {
    hide StateOf;
    forall k: nat | 1 <= k <= |places| ensures MovesAt(children, places, final, k) <==> DiffersAt(graded, k) {
    }
  }

  // ----------------------------------------------------------------- the two accounts agree

  /** The rounds of a listing in reading order, and where they stand. */
  ghost predicate AreRounds(children: seq<Child>, rounds: seq<Entry>, places: seq<nat>) {
    rounds == SortByNumber(Entries(children)) && AreThose(children, IsAnyRound, rounds, places)
  }

  lemma ReviewMeans(children: seq<Child>, rounds: seq<Entry>, places: seq<nat>, e: Entry, degraded: bool)
    requires AreRounds(children, rounds, places) && e in rounds
    ensures ReviewFits(e, degraded, MaxNumber(rounds)) <==> IsSoundReview(children, e.dir, degraded)
  {
    hide HasRole, Role, ShowsWork, HasPatch, IsLast, MaxNumber, AreThose, SortByNumber, Entries;
    LastMeans(children, rounds, places, e);
    RolesMean(e.dir, "reviewer");
    WorkMeans(e.dir);
  }

  lemma ReviewsMean(children: seq<Child>, rounds: seq<Entry>, places: seq<nat>, degraded: bool)
    returns (own: seq<nat>)
    requires AreRounds(children, rounds, places)
    ensures var reviews := Filter(rounds, IsReview);
            && AreThose(children, IsReviewDir, reviews, own) && |reviews| == CountOf(children, IsReviewDir)
            && (reviews != [] <==> exists c :: c in children && IsReviewDir(c))
            && ((forall e :: e in reviews ==> ReviewFits(e, degraded, MaxNumber(rounds))) <==>
                forall c :: c in children && IsReviewDir(c) ==> IsSoundReview(children, c, degraded))
  {
    hide AreThose, CountOf, ReviewFits, IsSoundReview, Means, SortByNumber, Entries, MaxNumber, IsReview, IsReviewDir, EntryOf, Filter;
    KindsAreMeant();
    var reviews := Filter(rounds, IsReview);
    own := RoundsHavePlaces(children, IsReview, IsReviewDir);
    KeptAreTheKind(children, IsReviewDir, reviews, own);
    FilterKeepsMembers(rounds, IsReview);
    forall e | e in reviews ensures ReviewFits(e, degraded, MaxNumber(rounds)) <==> IsSoundReview(children, e.dir, degraded) {
      ReviewMeans(children, rounds, places, e, degraded);
    }
    assert reviews != [] ==> reviews[0] in reviews;
  }

  lemma RevisionsMean(children: seq<Child>, rounds: seq<Entry>, places: seq<nat>)
    requires AreRounds(children, rounds, places)
    ensures var revisions := Filter(rounds, IsRevision);
            && ((forall e :: e in revisions ==> RevisionFits(e)) <==>
                forall c :: c in children && IsRevisionDir(c) ==> HasRole(c, "modifier"))
            && |Filter(revisions, Completed)| == CountOf(children, IsFinished)
            && |Filter(revisions, Interrupted)| == CountOf(children, IsUnfinished)
  {
    hide AreThose, CountOf, Means, SortByNumber, Entries, IsRevision, IsRevisionDir, EntryOf, Filter, HasRole, Role, RoundSucceeded;
    KindsAreMeant();
    var own := RoundsHavePlaces(children, IsRevision, IsRevisionDir);
    KeptAreTheKind(children, IsRevisionDir, Filter(rounds, IsRevision), own);
    forall e | e in Filter(rounds, IsRevision) ensures RevisionFits(e) <==> HasRole(e.dir, "modifier") {
      RolesMean(e.dir, "modifier");
    }
    var finished := RoundsHavePlaces(children, FinishedEntry, IsFinished);
    KeptAreTheKind(children, IsFinished, Filter(rounds, FinishedEntry), finished);
    FilterTwice(rounds, IsRevision, Completed, FinishedEntry);
    var unfinished := RoundsHavePlaces(children, UnfinishedEntry, IsUnfinished);
    KeptAreTheKind(children, IsUnfinished, Filter(rounds, UnfinishedEntry), unfinished);
    FilterTwice(rounds, IsRevision, Interrupted, UnfinishedEntry);
  }

  /** The one interrupted revision has the largest number exactly when every unfinished revision is the last round. */
  lemma InterruptedMeans(children: seq<Child>, rounds: seq<Entry>, places: seq<nat>)
    requires AreRounds(children, rounds, places)
    ensures var interrupted := Filter(Filter(rounds, IsRevision), Interrupted);
            |interrupted| <= 1 ==>
              ((|interrupted| == 1 ==> interrupted[0].number == MaxNumber(rounds)) <==>
               forall c :: c in children && IsUnfinished(c) ==> IsLast(children, c))
  {
    hide AreThose, CountOf, Means, SortByNumber, Entries, IsRevision, EntryOf, Filter, IsUnfinished, IsLast, MaxNumber, Interrupted;
    KindsAreMeant();
    var own := RoundsHavePlaces(children, UnfinishedEntry, IsUnfinished);
    var kept := Filter(rounds, UnfinishedEntry);
    KeptAreTheKind(children, IsUnfinished, kept, own);
    FilterTwice(rounds, IsRevision, Interrupted, UnfinishedEntry);
    FilterKeepsMembers(rounds, UnfinishedEntry);
    if |kept| == 1 {
      assert kept[0] in kept;
      LastMeans(children, rounds, places, kept[0]);
      assert forall e :: e in kept ==> e == kept[0];
    }
  }

  /** Graded states are what the listed reviews saw and then the final patch. */
  lemma GradedAreTheStates(children: seq<Child>, reviews: seq<Entry>, places: seq<nat>, final: Patch)
    requires AreThose(children, IsReviewDir, reviews, places) && forall e :: e in reviews ==> e.dir.patch.Some?
    ensures var graded := Graded(reviews, final);
            && |graded| == |places| + 1 == |reviews| + 1
            && (forall i :: 0 <= i < |places| ==> places[i] < |children| && children[places[i]] == reviews[i].dir)
            && (forall k :: 0 <= k <= |places| ==> StateOf(children, places, final, k) == Some(graded[k]))
            && Changes(graded) == |Steps(children, places, final)|
  {
    hide EntryOf, Precedes, Graded, Changes, Steps;
    GradedAt(reviews, final);
    forall i | 0 <= i < |places| ensures children[places[i]] == reviews[i].dir {
      EntryTells(children[places[i]], reviews[i]);
    }
    ChangesAreCounted(Graded(reviews, final));
    StepsAreDifferences(children, places, final, Graded(reviews, final));
  }

  lemma StepsAreOne(children: seq<Child>, places: seq<nat>, final: Patch, most: int)
    requires IsListOf(children, IsReviewDir, places)
    ensures StepsFit(children, final, most) <==> |Steps(children, places, final)| <= most
  {
    hide Precedes, Steps, IsReviewDir;
    if StepsFit(children, final, most) {
      var other :| IsListOf(children, IsReviewDir, other) && |Steps(children, other, final)| <= most;
      ListsAreUnique(children, IsReviewDir, places, other);
    }
  }

  lemma AgreementMeans(t: Trial)
    requires Judgeable(t) && EnvelopeFits(t) && t.children.Some?
    ensures RoundsFit(t) <==> AgreesWith(t.children.value, t.final, t.model, t.summaryJson.value.value)
  {
    hide SortByNumber, Entries, Filter, EntryOf, Graded, Changes, Steps, MaxNumber, ReviewFits, IsSoundReview, CountOf, IsListOf,
         StepsFit, IsReview, IsRevision, IsReviewDir, IsRevisionDir, RoundsReadable, RevisionFits, HasRole, IsLast, IsUnfinished,
         Interrupted, Completed, Means;
    var children, summary, rounds := t.children.value, t.summaryJson.value.value, RoundsOf(t);
    var places := RoundsOfTheListing(children);
    var own := ReviewsMean(children, rounds, places, summary.degradedReason.Some?);
    RevisionsMean(children, rounds, places);
    InterruptedMeans(children, rounds, places);
    var reviews := Filter(rounds, IsReview);
    if t.final.File? && forall e :: e in reviews ==> e.dir.patch.Some? {
      GradedAreTheStates(children, reviews, own, t.final.patch);
      StepsAreOne(children, own, t.final.patch, summary.revisionCount.value);
    }
    SoundReviewsHavePatches(children, own, reviews, summary.degradedReason.Some?);
  }

  lemma RoundsOfTheListing(children: seq<Child>) returns (places: seq<nat>)
    ensures AreRounds(children, SortByNumber(Entries(children)), places)
  {
    hide SortByNumber, Entries, Filter, EntryOf, Means, AreThose;
    KindsAreMeant();
    AllAreKept(SortByNumber(Entries(children)));
    places := RoundsHavePlaces(children, AnyEntry, IsAnyRound);
  }

  lemma SoundReviewsHavePatches(children: seq<Child>, places: seq<nat>, reviews: seq<Entry>, degraded: bool)
    requires AreThose(children, IsReviewDir, reviews, places)
    ensures (forall c :: c in children && IsReviewDir(c) ==> IsSoundReview(children, c, degraded)) ==>
              forall e :: e in reviews ==> e.dir.patch.Some?
  {
    hide AreThose, IsReviewDir, EntryOf, IsLast, HasRole, CountOf;
    KeptAreTheKind(children, IsReviewDir, reviews, places);
  }

  lemma NothingClaimedMeans(t: Trial)
    requires Judgeable(t) && EnvelopeFits(t) && t.children.Some?
    ensures NothingClaimed(t) <==> ClaimsNothing(t.children.value, t.final, t.model)
  {
    hide SortByNumber, Entries, Filter, EntryOf, IsReview, IsRevision, IsReviewDir, IsRevisionDir, RoundsReadable, Means, AreThose,
         CountOf;
    var children, rounds := t.children.value, RoundsOf(t);
    KindsAreMeant();
    var reviews := RoundsHavePlaces(children, IsReview, IsReviewDir);
    var revisions := RoundsHavePlaces(children, IsRevision, IsRevisionDir);
    KeptAreTheKind(children, IsReviewDir, Filter(rounds, IsReview), reviews);
    KeptAreTheKind(children, IsRevisionDir, Filter(rounds, IsRevision), revisions);
    assert Filter(rounds, IsReview) != [] ==> Filter(rounds, IsReview)[0] in Filter(rounds, IsReview);
    assert Filter(rounds, IsRevision) != [] ==> Filter(rounds, IsRevision)[0] in Filter(rounds, IsRevision);
  }

  lemma ReadableIsThere(listing: Option<seq<Child>>)
    requires RoundsReadable(listing)
    ensures listing.Some?
  {
  }

  /** A trial is accepted exactly when its files say so. */
  lemma AcceptableIff(t: Trial)
    ensures Acceptable(t) <==> IsAcceptable(t)
  {
    hide RoundsReadable, IsListing, RoundsFit, AgreesWith, NothingClaimed, ClaimsNothing;
    ListingsMean(t.children);
    if Judgeable(t) && EnvelopeFits(t) {
      assert t.children.Some? by { ReadableIsThere(t.children); }
      AgreementMeans(t);
      NothingClaimedMeans(t);
    }
  }

  // -------------------------------------------------------------------------- stages

  /** The first stage that shows this patch. */
  ghost predicate IsFirstShowing(stages: seq<Stage>, patch: Patch, k: nat) {
    k < |stages| && stages[k].patch == patch && forall j :: 0 <= j < k ==> stages[j].patch != patch
  }

  /** Stage k: named by its place, showing its state, compared with the stages before it. */
  ghost predicate IsStage(stages: seq<Stage>, k: nat, children: seq<Child>, places: seq<nat>, final: Patch)
    requires k < |stages| == |places| + 1
  {
    var s, n := stages[k], |places|;
    && s.id == (if k == 0 then Initial else if k == n then Final else Revision(k))
    && s.ordinal == k
    && (if k < n then
          && places[k] < |children| && s.originRound == Some(children[places[k]].name)
          && children[places[k]].patch == Some(s.patch)
        else s.originRound == None && s.patch == final)
    && (if k == 0 then s.parent == None && s.changed
        else s.parent == Some(stages[k - 1].id) && (s.changed <==> s.patch != stages[k - 1].patch))
    && (forall j: nat :: IsFirstShowing(stages, s.patch, j) ==> s.aliasOf == if j < k then Some(stages[j].id) else None)
  }

  /** What an accepted trial with a checkpoint becomes. */
  ghost predicate IsReadAs(set_: PatchSet, children: seq<Child>, final: Patch, outcome: string) {
    && (exists places ::
          && IsListOf(children, IsReviewDir, places) && |set_.stages| == |places| + 1
          && forall k :: 0 <= k <= |places| ==> IsStage(set_.stages, k, children, places, final))
    && (set_.completedProtocol <==>
          && outcome in {"approved", "max_reviews_reached"}
          && forall c :: c in children && (IsReviewDir(c) || IsRevisionDir(c)) ==> Succeeds(c))
  }

  lemma FirstShowingIsFirst(stages: seq<Stage>, graded: seq<Patch>, patch: Patch, k: nat)
    requires |stages| == |graded| && forall i :: 0 <= i < |graded| ==> stages[i].patch == graded[i]
    requires IsFirstShowing(stages, patch, k)
    ensures First(graded, patch) == k
  {
    hide First;
    var first := First(graded, patch);
    assert first < |graded| ==> stages[first].patch == graded[first];
  }

  lemma StagesMean(stages: seq<Stage>, children: seq<Child>, reviews: seq<Entry>, places: seq<nat>, final: Patch, k: nat)
    requires AreThose(children, IsReviewDir, reviews, places) && reviews != []
    requires forall e :: e in reviews ==> e.dir.patch.Some?
    requires StagesFit(stages, Graded(reviews, final), Slots(reviews)) && k < |stages|
    ensures |stages| == |places| + 1 && IsStage(stages, k, children, places, final)
  {
    hide Graded, First, AreThose;
    var graded := Graded(reviews, final);
    GradedAreTheStates(children, reviews, places, final);
    GradedAt(reviews, final);
    assert StageFits(stages[k], k, graded, Slots(reviews));
    assert forall i :: 0 <= i < |stages| ==> StageFits(stages[i], i, graded, Slots(reviews)) && stages[i].patch == graded[i];
    forall j: nat | IsFirstShowing(stages, stages[k].patch, j)
      ensures stages[k].aliasOf == if j < k then Some(stages[j].id) else None
    {
      FirstShowingIsFirst(stages, graded, stages[k].patch, j);
    }
  }

  /** The stages of an accepted trial are what its review directories saw, in order, and then the final patch. */
  lemma AcceptedTrialsAreTheirFiles(t: Trial, set_: PatchSet)
    requires Acceptable(t) && Describes(set_, t) && set_.eligible
    ensures t.children.Some? && t.final.File?
    ensures IsReadAs(set_, t.children.value, t.final.patch, t.summaryJson.value.value.outcome)
  {
    hide RoundsReadable, SortByNumber, Entries, Filter, StagesFit, IsListOf, IsReview, IsRevision, IsReviewDir, IsRevisionDir,
         RoundSucceeded, Succeeds, Means, IsStage, EntryOf, AreThose, CountOf, IsSoundReview, ReviewFits, Graded, Slots, Changes;
    assert t.children.Some? by { ReadableIsThere(t.children); }
    var children, rounds, final := t.children.value, RoundsOf(t), t.final.patch;
    var reviews, revisions := Filter(rounds, IsReview), Filter(rounds, IsRevision);
    KindsAreMeant();
    var places := RoundsHavePlaces(children, IsReview, IsReviewDir);
    forall k | 0 <= k < |set_.stages|
      ensures |set_.stages| == |places| + 1 && IsStage(set_.stages, k, children, places, final)
    {
      StagesMean(set_.stages, children, reviews, places, final, k);
    }
    StagesAreThere(set_.stages, reviews, final);
    AreThoseIsAList(children, reviews, places);
    var others := RoundsHavePlaces(children, IsRevision, IsRevisionDir);
    KeptAreTheKind(children, IsReviewDir, reviews, places);
    KeptAreTheKind(children, IsRevisionDir, revisions, others);
    FilterKeepsMembers(rounds, IsReview);
    FilterKeepsMembers(rounds, IsRevision);
    forall c ensures Succeeds(c) <==> RoundSucceeded(c) {
      SuccessesMean(c);
    }
    assert (forall e :: e in rounds && (IsReview(e) || IsRevision(e)) ==> RoundSucceeded(e.dir)) <==>
           forall c :: c in children && (IsReviewDir(c) || IsRevisionDir(c)) ==> Succeeds(c);
  }

  lemma StagesAreThere(stages: seq<Stage>, reviews: seq<Entry>, final: Patch)
    requires forall e :: e in reviews ==> e.dir.patch.Some?
    requires StagesFit(stages, Graded(reviews, final), Slots(reviews))
    ensures |stages| == |reviews| + 1
  {
    GradedAt(reviews, final);
  }

  lemma AreThoseIsAList(children: seq<Child>, reviews: seq<Entry>, places: seq<nat>)
    requires AreThose(children, IsReviewDir, reviews, places)
    ensures IsListOf(children, IsReviewDir, places) && |places| == |reviews|
  {
  }
}
