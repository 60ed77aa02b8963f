/** The maintenance script `cleanupDuplicateSubjects`: read every subject
    oldest first, group them by the string key "classId:name", and for each
    group with more than one member keep the first, re-point the chat
    sessions of the others to it and delete the others. The console
    report is left out; the count it prints is returned. */
module CleanupDuplicates {
  import opened Wrappers
  import opened Seqs
  import opened Sorting
  import opened Schema

  /** The map key built for a subject. */
  function GroupKey(s: Subject): string {
    s.classId + ":" + s.name
  }

  function KeyIs(k: string): Subject -> bool {
    (s: Subject) => GroupKey(s) == k
  }

  /** `orderBy: { createdAt: 'asc' }`. */
  function CreatedKey(s: Subject): Key {
    Key(s.createdAt, "")
  }

  function IdKey(s: Subject): Key {
    Key(0, s.id)
  }

  /** One entry of the `subjectGroups` map: its key and its members in the
      order they were pushed. */
  datatype Group = Group(key: string, members: seq<Subject>)

  predicate HasKey(gs: seq<Group>, k: string) {
    exists i :: 0 <= i < |gs| && gs[i].key == k
  }

  /** `if (!has(key)) set(key, []); get(key).push(subject)`: an existing
      key keeps its place, a new key goes last. */
  function Push(gs: seq<Group>, s: Subject): seq<Group> {
    var k := GroupKey(s);
    if HasKey(gs, k) then
      seq(|gs|, i requires 0 <= i < |gs| => if gs[i].key == k then Group(k, gs[i].members + [s]) else gs[i])
    else gs + [Group(k, [s])]
  }

  /** The map after pushing every subject of `all` in turn. */
  function GroupAll(all: seq<Subject>): seq<Group> {
    if all == [] then [] else Push(GroupAll(all[..|all| - 1]), all[|all| - 1])
  }

  /** What the grouping loop builds: one entry per key occurring in
      `all`, holding exactly the subjects with that key in their order in
      `all`, with no key twice. */
  predicate GroupsOf(gs: seq<Group>, all: seq<Subject>) {
    (forall i :: 0 <= i < |gs| ==> gs[i].members == Filter(all, KeyIs(gs[i].key)) && gs[i].members != []) &&
    (forall i, j :: 0 <= i < j < |gs| ==> gs[i].key != gs[j].key) &&
    (forall s :: s in all ==> HasKey(gs, GroupKey(s)))
  }

  /** Pushing one more subject keeps the groups exact. */
  lemma PushGroups(gs: seq<Group>, prefix: seq<Subject>, s: Subject)
    requires GroupsOf(gs, prefix)
    ensures GroupsOf(Push(gs, s), prefix + [s])
  {
    var r := Push(gs, s);
    forall i | 0 <= i < |r|
      ensures r[i].members == Filter(prefix + [s], KeyIs(r[i].key)) && r[i].members != []
    {
      PushMembers(gs, prefix, s, i);
    }
    PushCovers(gs, prefix, s);
    PushKeysDistinct(gs, s);
  }

  lemma PushMembers(gs: seq<Group>, prefix: seq<Subject>, s: Subject, i: int)
    requires GroupsOf(gs, prefix)
    requires 0 <= i < |Push(gs, s)|
    ensures var g := Push(gs, s)[i]; g.members == Filter(prefix + [s], KeyIs(g.key)) && g.members != []
  {
    var r := Push(gs, s);
    var p := KeyIs(r[i].key);
    FilterConcat(prefix, [s], p);
    assert Filter([s], p) == if p(s) then [s] else [];
    if i < |gs| {
      assert r[i].key == gs[i].key;
    } else {
      assert Filter(prefix, p) == [];
    }
  }

  lemma PushCovers(gs: seq<Group>, prefix: seq<Subject>, s: Subject)
    requires GroupsOf(gs, prefix)
    ensures forall t :: t in prefix + [s] ==> HasKey(Push(gs, s), GroupKey(t))
  {
    var r := Push(gs, s);
    forall t | t in prefix + [s]
      ensures HasKey(r, GroupKey(t))
    {
      if HasKey(gs, GroupKey(t)) {
        var i :| 0 <= i < |gs| && gs[i].key == GroupKey(t);
        assert r[i].key == gs[i].key;
      } else {
        assert t == s;
        assert r[|gs|].key == GroupKey(s);
      }
    }
  }

  lemma PushKeysDistinct(gs: seq<Group>, s: Subject)
    requires forall i, j :: 0 <= i < j < |gs| ==> gs[i].key != gs[j].key
    ensures var r := Push(gs, s); forall i, j :: 0 <= i < j < |r| ==> r[i].key != r[j].key
  {
    var r := Push(gs, s);
    if !HasKey(gs, GroupKey(s)) {
      forall i, j | 0 <= i < j < |r|
        ensures r[i].key != r[j].key
      {
        if j == |gs| {
          assert r[i] == gs[i];
        }
      }
    }
  }

  lemma {:induction false} GroupAllGroups(all: seq<Subject>)
    ensures GroupsOf(GroupAll(all), all)
    decreases |all|
  {
    if all != [] {
      var prefix := all[..|all| - 1];
      GroupAllGroups(prefix);
      PushGroups(GroupAll(prefix), prefix, all[|all| - 1]);
      assert prefix + [all[|all| - 1]] == all;
    }
  }

  /** The first loop of the script. */
  method GroupSubjects(all: seq<Subject>) returns (groups: seq<Group>)
    ensures groups == GroupAll(all)
  {
    groups := [];
    for i := 0 to |all|
      invariant groups == GroupAll(all[..i])
    {
      assert all[..i + 1][..i] == all[..i];
      groups := Push(groups, all[i]);
    }
    assert all[..|all|] == all;
  }

  /** `Array.from(subjectGroups.entries()).filter(... length > 1)`. */
  function DuplicateGroups(gs: seq<Group>): seq<Group> {
    Filter(gs, (g: Group) => |g.members| > 1)
  }

  /** Every group built by the grouping loop has a member, so its first
      member, the one kept, exists. */
  predicate NonEmptyGroups(gs: seq<Group>) {
    forall g :: g in gs ==> g.members != []
  }

  function KeepId(g: Group): string
    requires g.members != []
  {
    g.members[0].id
  }

  /** `duplicates.map(s => s.id)` for `[keepSubject, ...duplicates]`. */
  function DupIds(g: Group): (r: seq<string>)
    requires g.members != []
    ensures |r| == |g.members| - 1
    ensures forall i :: 0 <= i < |r| ==> r[i] == g.members[i + 1].id
  {
    seq(|g.members| - 1, i requires 0 <= i < |g.members| - 1 => g.members[i + 1].id)
  }

  /** `chatSession.updateMany({ where: { subjectId: from }, data: { subjectId: to } })`. */
  function Repoint(sessions: seq<Session>, from: string, to: string): (r: seq<Session>)
    ensures |r| == |sessions|
    ensures forall i :: 0 <= i < |r| ==>
      r[i] == if sessions[i].subjectId == Some(from) then sessions[i].(subjectId := Some(to)) else sessions[i]
  {
    seq(|sessions|, i requires 0 <= i < |sessions| =>
      if sessions[i].subjectId == Some(from) then sessions[i].(subjectId := Some(to)) else sessions[i])
  }

  /** One `updateMany` per duplicate id, in order. */
  function RepointAll(sessions: seq<Session>, ids: seq<string>, to: string): seq<Session>
    decreases |ids|
  {
    if ids == [] then sessions else RepointAll(Repoint(sessions, ids[0], to), ids[1..], to)
  }

  /** `subject.deleteMany({ where: { id: { in: ids } } })`. */
  function DeleteIds(subjects: seq<Subject>, ids: seq<string>): seq<Subject> {
    Filter(subjects, IdNotIn(ids))
  }

  function IdNotIn(ids: seq<string>): Subject -> bool {
    (s: Subject) => s.id !in ids
  }

  /** The tables and the running `totalDeleted`. */
  datatype State = State(subjects: seq<Subject>, sessions: seq<Session>, deleted: int)

  /** One iteration of the cleanup loop: re-point, then delete and count. */
  function CleanGroup(st: State, g: Group): State
    requires g.members != []
  {
    var ids := DupIds(g);
    var remaining := DeleteIds(st.subjects, ids);
    State(remaining, RepointAll(st.sessions, ids, KeepId(g)), st.deleted + (|st.subjects| - |remaining|))
  }

  function CleanAll(st: State, gs: seq<Group>): State
    requires NonEmptyGroups(gs)
    decreases |gs|
  {
    if gs == [] then st else CleanAll(CleanGroup(st, gs[0]), gs[1..])
  }

  /** `cleanupDuplicateSubjects()` on the subject and session tables; the
      result is the printed `totalDeleted`. */
  method Cleanup(db: Db) returns (totalDeleted: int)
    requires db.Valid()
    modifies db`subjects, db`sessions
    ensures db.Valid()
    ensures var gs := DuplicateGroups(GroupAll(SortBy(old(db.subjects), CreatedKey, false)));
      NonEmptyGroups(gs) &&
      State(db.subjects, db.sessions, totalDeleted) == CleanAll(State(old(db.subjects), old(db.sessions), 0), gs)
  {
    var allSubjects := SortBy(db.subjects, CreatedKey, false);
    var subjectGroups := GroupSubjects(allSubjects);
    GroupAllGroups(allSubjects);
    var duplicateGroups := DuplicateGroups(subjectGroups);
    assert NonEmptyGroups(duplicateGroups);
    ghost var goal := CleanAll(State(db.subjects, db.sessions, 0), duplicateGroups);
    if |duplicateGroups| == 0 {
      return 0;
    }
    totalDeleted := 0;
    for i := 0 to |duplicateGroups|
      invariant db.Valid()
      invariant CleanAll(State(db.subjects, db.sessions, totalDeleted), duplicateGroups[i..]) == goal
    {
      assert duplicateGroups[i] in duplicateGroups;
      totalDeleted := CleanOne(db, duplicateGroups[i], totalDeleted);
      assert duplicateGroups[i..][1..] == duplicateGroups[i + 1..];
    }
  }

  /** The body of the cleanup loop for one group. */
  method CleanOne(db: Db, group: Group, totalDeleted: int) returns (total: int)
    requires db.Valid() && group.members != []
    modifies db`subjects, db`sessions
    ensures db.Valid()
    ensures State(db.subjects, db.sessions, total) ==
      CleanGroup(State(old(db.subjects), old(db.sessions), totalDeleted), group)
  {
    var keepSubject := group.members[0];
    var duplicateIds := DupIds(group);
    RepointSessions(db, duplicateIds, keepSubject.id);
    var before := db.subjects;
    IdsValidFilter(db.subjects, SubjectId, IdNotIn(duplicateIds));
    db.subjects := DeleteIds(db.subjects, duplicateIds);
    total := totalDeleted + (|before| - |db.subjects|);
  }

  /** The inner loop: one `updateMany` per duplicate id. */
  method RepointSessions(db: Db, ids: seq<string>, to: string)
    requires db.Valid()
    modifies db`sessions
    ensures db.Valid()
    ensures db.sessions == RepointAll(old(db.sessions), ids, to)
  {
    for j := 0 to |ids|
      invariant db.Valid()
      invariant RepointAll(db.sessions, ids[j..], to) == RepointAll(old(db.sessions), ids, to)
    {
      assert ids[j..][1..] == ids[j + 1..];
      db.sessions := Repoint(db.sessions, ids[j], to);
    }
    assert ids[|ids|..] == [];
  }

  /** Every `updateMany` of a group points at the same kept id, so the
      order of the calls does not matter: a session of any duplicate ends
      at the kept subject, every other session is untouched. */
  lemma {:induction false} RepointAllEffect(sessions: seq<Session>, ids: seq<string>, to: string)
    ensures var r := RepointAll(sessions, ids, to);
      |r| == |sessions| &&
      forall k :: 0 <= k < |r| ==>
        r[k] == if sessions[k].subjectId.Some? && sessions[k].subjectId.value in ids
                then sessions[k].(subjectId := Some(to)) else sessions[k]
    decreases |ids|
  {
    if ids != [] {
      RepointAllEffect(Repoint(sessions, ids[0], to), ids[1..], to);
    }
  }

  /** The duplicate ids of all groups, group by group. */
  function AllDupIds(gs: seq<Group>): seq<string>
    requires NonEmptyGroups(gs)
  {
    if gs == [] then [] else DupIds(gs[0]) + AllDupIds(gs[1..])
  }

  lemma {:induction false} InAllDupIds(gs: seq<Group>, x: string)
    requires NonEmptyGroups(gs)
    ensures x in AllDupIds(gs) <==> exists g :: g in gs && x in DupIds(g)
  {
    if gs != [] {
      InAllDupIds(gs[1..], x);
      assert forall g :: g in gs <==> g == gs[0] || g in gs[1..];
    }
  }

  /** The deletions of all groups together remove exactly the subjects
      whose id is a duplicate id of some group. */
  lemma {:induction false} CleanAllSubjects(st: State, gs: seq<Group>)
    requires NonEmptyGroups(gs)
    ensures CleanAll(st, gs).subjects == Filter(st.subjects, IdNotIn(AllDupIds(gs)))
    decreases |gs|
  {
    if gs == [] {
      FilterAll(st.subjects, IdNotIn(AllDupIds(gs)));
    } else {
      var p := IdNotIn(DupIds(gs[0]));
      var q := IdNotIn(AllDupIds(gs[1..]));
      CleanAllSubjects(CleanGroup(st, gs[0]), gs[1..]);
      FilterBoth(st.subjects, p, q, IdNotIn(AllDupIds(gs)));
    }
  }

  /** `totalDeleted` is the number of rows the deletions removed. */
  lemma {:induction false} CleanAllDeleted(st: State, gs: seq<Group>)
    requires NonEmptyGroups(gs)
    ensures CleanAll(st, gs).deleted == st.deleted + |st.subjects| - |CleanAll(st, gs).subjects|
    decreases |gs|
  {
    if gs != [] {
      CleanAllDeleted(CleanGroup(st, gs[0]), gs[1..]);
    }
  }

  /** Where a subject id points after the cleanup: the kept id of the
      first group listing it as a duplicate, otherwise itself. */
  function Redirect(gs: seq<Group>, x: string): string
    requires NonEmptyGroups(gs)
  {
    if gs == [] then x else if x in DupIds(gs[0]) then KeepId(gs[0]) else Redirect(gs[1..], x)
  }

  /** No kept subject is a duplicate in any group. */
  predicate WellGrouped(gs: seq<Group>) {
    NonEmptyGroups(gs) && forall g, h :: g in gs && h in gs ==> KeepId(g) !in DupIds(h)
  }

  lemma {:induction false} RedirectOther(gs: seq<Group>, x: string)
    requires NonEmptyGroups(gs)
    requires forall h :: h in gs ==> x !in DupIds(h)
    ensures Redirect(gs, x) == x
  {
    if gs != [] {
      RedirectOther(gs[1..], x);
    }
  }

  /** The re-pointing of all groups together. */
  lemma {:induction false} CleanAllSessions(st: State, gs: seq<Group>)
    requires WellGrouped(gs)
    ensures var r := CleanAll(st, gs).sessions;
      |r| == |st.sessions| &&
      forall k :: 0 <= k < |r| ==>
        r[k] == if st.sessions[k].subjectId.Some?
                then st.sessions[k].(subjectId := Some(Redirect(gs, st.sessions[k].subjectId.value)))
                else st.sessions[k]
    decreases |gs|
  {
    if gs != [] {
      var g := gs[0];
      var st1 := CleanGroup(st, g);
      assert WellGrouped(gs[1..]);
      CleanAllSessions(st1, gs[1..]);
      RepointAllEffect(st.sessions, DupIds(g), KeepId(g));
      RedirectOther(gs[1..], KeepId(g));
    } else {
      forall k | 0 <= k < |st.sessions| && st.sessions[k].subjectId.Some?
        ensures st.sessions[k].(subjectId := Some(st.sessions[k].subjectId.value)) == st.sessions[k]
      {
      }
    }
  }

  /** The subject kept for `s`'s key: the first one with that key in
      creation order. */
  function Keeper(all: seq<Subject>, s: Subject): Option<Subject> {
    FindFirst(all, KeyIs(GroupKey(s)))
  }

  predicate IsKept(all: seq<Subject>, s: Subject) {
    Keeper(all, s) == Some(s)
  }

  function Kept(all: seq<Subject>): Subject -> bool {
    (s: Subject) => IsKept(all, s)
  }

  /** Where a session points afterwards, stated on the tables before: a
      session of a subject that is not kept points at the kept subject of
      the same key; every other session is as it was. */
  function Retarget(all: seq<Subject>, session: Session): Session {
    if session.subjectId.None? then session
    else match FindById(all, SubjectId, session.subjectId.value)
      case None => session
      case Some(t) =>
        match Keeper(all, t)
        case Some(k) => if k == t then session else session.(subjectId := Some(k.id))
        case None => session
  }

  lemma SameIdSame(all: seq<Subject>, a: Subject, b: Subject)
    requires UniqueKeys(all, IdKey) && a in all && b in all && a.id == b.id
    ensures a == b
  {
    var i :| 0 <= i < |all| && all[i] == a;
    var j :| 0 <= j < |all| && all[j] == b;
    assert IdKey(all[i]) == IdKey(all[j]);
  }

  /** Every member of a group has that group's first member as keeper. */
  lemma GroupHead(groups: seq<Group>, all: seq<Subject>, i: int, s: Subject)
    requires GroupsOf(groups, all) && 0 <= i < |groups| && s in groups[i].members
    ensures Keeper(all, s) == Some(groups[i].members[0])
  {
    FindFirstIsFilterHead(all, KeyIs(groups[i].key));
  }

  /** A member of a group listed as a duplicate is that subject itself,
      and it is not its own keeper. */
  lemma DupMember(groups: seq<Group>, all: seq<Subject>, i: int, s: Subject)
    requires GroupsOf(groups, all) && UniqueKeys(all, IdKey) && 0 <= i < |groups|
    requires s in all && s.id in DupIds(groups[i])
    ensures s in groups[i].members && Keeper(all, s) == Some(groups[i].members[0]) && !IsKept(all, s)
  {
    var ms := groups[i].members;
    var j :| 0 <= j < |DupIds(groups[i])| && DupIds(groups[i])[j] == s.id;
    var m := ms[j + 1];
    assert m in ms;
    SameIdSame(all, m, s);
    GroupHead(groups, all, i, s);
    UniqueKeysFilter(all, KeyIs(groups[i].key), IdKey);
    assert IdKey(ms[0]) != IdKey(ms[j + 1]);
  }

  lemma InDuplicateGroups(groups: seq<Group>, g: Group) returns (i: int)
    requires g in DuplicateGroups(groups)
    ensures 0 <= i < |groups| && groups[i] == g && |g.members| > 1
  {
    i :| 0 <= i < |groups| && groups[i] == g;
  }

  /** A subject's id is a duplicate id of some group exactly when the
      subject is not the one kept for its key. */
  lemma DupMeaning(groups: seq<Group>, all: seq<Subject>, s: Subject)
    requires GroupsOf(groups, all) && UniqueKeys(all, IdKey) && s in all
    ensures (exists g :: g in DuplicateGroups(groups) && s.id in DupIds(g)) <==> !IsKept(all, s)
  {
    DupIsDropped(groups, all, s);
    DroppedIsDup(groups, all, s);
  }

  lemma DupIsDropped(groups: seq<Group>, all: seq<Subject>, s: Subject)
    requires GroupsOf(groups, all) && UniqueKeys(all, IdKey) && s in all
    ensures (exists g :: g in DuplicateGroups(groups) && s.id in DupIds(g)) ==> !IsKept(all, s)
  {
    if g :| g in DuplicateGroups(groups) && s.id in DupIds(g) {
      var i := InDuplicateGroups(groups, g);
      DupMember(groups, all, i, s);
    }
  }

  lemma DroppedIsDup(groups: seq<Group>, all: seq<Subject>, s: Subject)
    requires GroupsOf(groups, all) && UniqueKeys(all, IdKey) && s in all
    ensures !IsKept(all, s) ==> exists g :: g in DuplicateGroups(groups) && s.id in DupIds(g)
  {
    if !IsKept(all, s) {
      var i :| 0 <= i < |groups| && groups[i].key == GroupKey(s);
      var ms := groups[i].members;
      assert s in ms;
      GroupHead(groups, all, i, s);
      var j :| 0 <= j < |ms| && ms[j] == s;
      assert j != 0;
      assert DupIds(groups[i])[j - 1] == s.id;
      assert groups[i] in DuplicateGroups(groups);
    }
  }

  lemma {:induction false} RedirectFound(gs: seq<Group>, x: string, k: string)
    requires NonEmptyGroups(gs)
    requires exists g :: g in gs && x in DupIds(g)
    requires forall h :: h in gs && x in DupIds(h) ==> KeepId(h) == k
    ensures Redirect(gs, x) == k
  {
    if x !in DupIds(gs[0]) {
      var g :| g in gs && x in DupIds(g);
      assert g in gs[1..];
      RedirectFound(gs[1..], x, k);
    }
  }

  /** A duplicate's id is redirected to its keeper. */
  lemma DupRedirect(groups: seq<Group>, all: seq<Subject>, s: Subject)
    requires GroupsOf(groups, all) && UniqueKeys(all, IdKey) && s in all && !IsKept(all, s)
    ensures NonEmptyGroups(DuplicateGroups(groups))
    ensures Keeper(all, s).Some? && Redirect(DuplicateGroups(groups), s.id) == Keeper(all, s).value.id
  {
    var gs := DuplicateGroups(groups);
    DupMeaning(groups, all, s);
    forall h | h in gs && s.id in DupIds(h)
      ensures KeepId(h) == Keeper(all, s).value.id
    {
      var i := InDuplicateGroups(groups, h);
      DupMember(groups, all, i, s);
    }
    RedirectFound(gs, s.id, Keeper(all, s).value.id);
  }

  /** The duplicate groups never list a kept subject as a duplicate. */
  lemma DuplicatesWellGrouped(groups: seq<Group>, all: seq<Subject>)
    requires GroupsOf(groups, all) && UniqueKeys(all, IdKey)
    ensures WellGrouped(DuplicateGroups(groups))
  {
    var gs := DuplicateGroups(groups);
    forall g, h | g in gs && h in gs
      ensures KeepId(g) !in DupIds(h)
    {
      var i := InDuplicateGroups(groups, g);
      var j := InDuplicateGroups(groups, h);
      var m := g.members[0];
      assert m in g.members;
      if KeepId(g) in DupIds(h) {
        DupMember(groups, all, j, m);
        GroupHead(groups, all, i, m);
      }
    }
  }

  /** Subjects with unique ids still have unique ids once sorted. */
  lemma SortedIds(subjects: seq<Subject>)
    requires IdsValid(subjects, SubjectId)
    ensures UniqueKeys(SortBy(subjects, CreatedKey, false), IdKey)
    ensures forall s :: s in SortBy(subjects, CreatedKey, false) <==> s in subjects
  {
    assert UniqueKeys(subjects, IdKey) by {
      forall i, j | 0 <= i < j < |subjects|
        ensures IdKey(subjects[i]) != IdKey(subjects[j])
      {
        assert SubjectId(subjects[i]) != SubjectId(subjects[j]);
      }
    }
    UniqueKeysPermutation(subjects, SortBy(subjects, CreatedKey, false), IdKey);
    SortByMembers(subjects, CreatedKey, false);
  }

  /** The whole cleanup, stated on the tables before it: exactly the
      subjects kept for their key remain, in table order; `totalDeleted`
      is the number of subjects removed; every session of a removed
      subject points at the kept one and every other session is as it
      was. */
  lemma CleanupResult(subjects: seq<Subject>, sessions: seq<Session>)
    requires IdsValid(subjects, SubjectId)
    ensures var all := SortBy(subjects, CreatedKey, false);
      var gs := DuplicateGroups(GroupAll(all));
      NonEmptyGroups(gs) &&
      var r := CleanAll(State(subjects, sessions, 0), gs);
      r.subjects == Filter(subjects, Kept(all)) &&
      r.deleted == |subjects| - |r.subjects| &&
      |r.sessions| == |sessions| &&
      forall k :: 0 <= k < |sessions| ==> r.sessions[k] == Retarget(all, sessions[k])
  {
    var all := SortBy(subjects, CreatedKey, false);
    var groups := GroupAll(all);
    var gs := DuplicateGroups(groups);
    GroupAllGroups(all);
    SortedIds(subjects);
    DuplicatesWellGrouped(groups, all);
    var st := State(subjects, sessions, 0);
    CleanAllSubjects(st, gs);
    CleanAllDeleted(st, gs);
    CleanupRemaining(groups, all, subjects);
    CleanAllSessions(st, gs);
    forall k | 0 <= k < |sessions|
      ensures CleanAll(st, gs).sessions[k] == Retarget(all, sessions[k])
    {
      CleanupRetargets(groups, all, sessions[k]);
    }
  }

  lemma CleanupRemaining(groups: seq<Group>, all: seq<Subject>, subjects: seq<Subject>)
    requires GroupsOf(groups, all) && UniqueKeys(all, IdKey)
    requires forall s :: s in all <==> s in subjects
    ensures NonEmptyGroups(DuplicateGroups(groups))
    ensures Filter(subjects, IdNotIn(AllDupIds(DuplicateGroups(groups)))) == Filter(subjects, Kept(all))
  {
    var gs := DuplicateGroups(groups);
    forall s | s in subjects
      ensures IdNotIn(AllDupIds(gs))(s) <==> Kept(all)(s)
    {
      InAllDupIds(gs, s.id);
      DupMeaning(groups, all, s);
    }
    FilterExt(subjects, IdNotIn(AllDupIds(gs)), Kept(all));
  }

  lemma CleanupRetargets(groups: seq<Group>, all: seq<Subject>, session: Session)
    requires GroupsOf(groups, all) && UniqueKeys(all, IdKey)
    ensures NonEmptyGroups(DuplicateGroups(groups))
    ensures Retarget(all, session) ==
      if session.subjectId.Some?
      then session.(subjectId := Some(Redirect(DuplicateGroups(groups), session.subjectId.value)))
      else session
  {
    var gs := DuplicateGroups(groups);
    if session.subjectId.Some? {
      var d := session.subjectId.value;
      if exists g :: g in gs && d in DupIds(g) {
        var g :| g in gs && d in DupIds(g);
        RetargetDuplicate(groups, all, session, g);
      } else {
        RedirectOther(gs, d);
        match FindById(all, SubjectId, d)
        case None =>
        case Some(t) =>
          DupMeaning(groups, all, t);
      }
    }
  }

  lemma RetargetDuplicate(groups: seq<Group>, all: seq<Subject>, session: Session, g: Group)
    requires GroupsOf(groups, all) && UniqueKeys(all, IdKey)
    requires session.subjectId.Some? && g in DuplicateGroups(groups) && session.subjectId.value in DupIds(g)
    ensures NonEmptyGroups(DuplicateGroups(groups))
    ensures Retarget(all, session) ==
      session.(subjectId := Some(Redirect(DuplicateGroups(groups), session.subjectId.value)))
  {
    var d := session.subjectId.value;
    var i := InDuplicateGroups(groups, g);
    var j :| 0 <= j < |DupIds(g)| && DupIds(g)[j] == d;
    var m := g.members[j + 1];
    assert m in g.members;
    DupMember(groups, all, i, m);
    SameIdSame(all, FindById(all, SubjectId, d).value, m);
    DupRedirect(groups, all, m);
  }

  lemma {:induction false} FindFirstIndex<T(!new)>(rows: seq<T>, p: T -> bool) returns (i: int)
    requires FindFirst(rows, p).Some?
    ensures 0 <= i < |rows| && rows[i] == FindFirst(rows, p).value
    ensures forall j :: 0 <= j < i ==> !p(rows[j])
  {
    if p(rows[0]) {
      i := 0;
    } else {
      var k := FindFirstIndex(rows[1..], p);
      i := k + 1;
      forall j | 0 <= j < i
        ensures !p(rows[j])
      {
        if j > 0 {
          assert rows[j] == rows[1..][j - 1];
        }
      }
    }
  }

  /** The subject kept for a key is an oldest one with that key. */
  lemma KeptIsOldest(subjects: seq<Subject>, s: Subject, t: Subject)
    requires IsKept(SortBy(subjects, CreatedKey, false), s)
    requires t in subjects && GroupKey(t) == GroupKey(s)
    ensures s.createdAt <= t.createdAt
  {
    var all := SortBy(subjects, CreatedKey, false);
    SortByMembers(subjects, CreatedKey, false);
    var i := FindFirstIndex(all, KeyIs(GroupKey(s)));
    var q :| 0 <= q < |all| && all[q] == t;
    if q != i {
      assert q > i;
      assert Before(CreatedKey(all[i]), CreatedKey(all[q]), false);
    }
  }

  /** Keyed by the string the script groups on. */
  function GroupKeyKey(s: Subject): Key {
    Key(0, GroupKey(s))
  }

  /** Afterwards no two subjects share a group key, and every key that
      had a subject before still has its kept subject. */
  lemma CleanupLeavesOnePerKey(subjects: seq<Subject>, sessions: seq<Session>)
    requires IdsValid(subjects, SubjectId)
    ensures var all := SortBy(subjects, CreatedKey, false);
      var gs := DuplicateGroups(GroupAll(all));
      NonEmptyGroups(gs) &&
      var r := CleanAll(State(subjects, sessions, 0), gs).subjects;
      UniqueKeys(r, GroupKeyKey) &&
      forall s :: s in subjects ==> Keeper(all, s).Some? && Keeper(all, s).value in r
  {
    var all := SortBy(subjects, CreatedKey, false);
    CleanupResult(subjects, sessions);
    SortedIds(subjects);
    var r := Filter(subjects, Kept(all));
    IdsValidFilterDistinct(subjects, SubjectId, Kept(all));
    forall i, j | 0 <= i < j < |r|
      ensures GroupKeyKey(r[i]) != GroupKeyKey(r[j])
    {
      assert r[i] in r && r[j] in r;
      assert SubjectId(r[i]) != SubjectId(r[j]);
    }
    forall s | s in subjects
      ensures Keeper(all, s).Some? && Keeper(all, s).value in r
    {
      assert s in all;
      var k := Keeper(all, s).value;
      assert GroupKey(k) == GroupKey(s);
      assert Keeper(all, k) == Keeper(all, s);
    }
  }

  /** With no two subjects sharing a key there is no duplicate group, so
      the script changes nothing and reports 0. */
  lemma NoDuplicatesNoChange(subjects: seq<Subject>, sessions: seq<Session>)
    requires UniqueKeys(subjects, GroupKeyKey)
    ensures var gs := DuplicateGroups(GroupAll(SortBy(subjects, CreatedKey, false)));
      gs == [] && CleanAll(State(subjects, sessions, 0), gs) == State(subjects, sessions, 0)
  {
    var all := SortBy(subjects, CreatedKey, false);
    UniqueKeysPermutation(subjects, all, GroupKeyKey);
    SingletonGroups(all);
    NoDuplicateGroups(GroupAll(all));
  }

  lemma NoDuplicateGroups(gs: seq<Group>)
    requires forall g :: g in gs ==> |g.members| <= 1
    ensures DuplicateGroups(gs) == []
  {
    FilterNone(gs, (g: Group) => |g.members| > 1);
  }

  /** Without a shared key every group has a single member. */
  lemma SingletonGroups(all: seq<Subject>)
    requires UniqueKeys(all, GroupKeyKey)
    ensures forall g :: g in GroupAll(all) ==> |g.members| <= 1
  {
    var groups := GroupAll(all);
    GroupAllGroups(all);
    forall i | 0 <= i < |groups|
      ensures |groups[i].members| <= 1
    {
      var m := groups[i].members;
      UniqueKeysFilter(all, KeyIs(groups[i].key), GroupKeyKey);
      assert |m| > 1 ==> GroupKeyKey(m[0]) != GroupKeyKey(m[1]);
    }
  }

  /** Running the cleanup a second time changes nothing. */
  lemma CleanupIdempotent(subjects: seq<Subject>, sessions: seq<Session>)
    requires IdsValid(subjects, SubjectId)
    ensures var gs := DuplicateGroups(GroupAll(SortBy(subjects, CreatedKey, false)));
      NonEmptyGroups(gs) &&
      var r := CleanAll(State(subjects, sessions, 0), gs);
      var gs' := DuplicateGroups(GroupAll(SortBy(r.subjects, CreatedKey, false)));
      gs' == [] && CleanAll(State(r.subjects, r.sessions, 0), gs') == State(r.subjects, r.sessions, 0)
  {
    CleanupLeavesOnePerKey(subjects, sessions);
    var gs := DuplicateGroups(GroupAll(SortBy(subjects, CreatedKey, false)));
    var r := CleanAll(State(subjects, sessions, 0), gs);
    NoDuplicatesNoChange(r.subjects, r.sessions);
  }
}
