/**
 Listing scraps page by page. A page is the scraps below a cursor, newest first, and one row more than
 fits tells whether another page follows. Rows may change between one page and the next.
 */
module Paging {
  import opened Common

  datatype ScrapType = VOCAB | GRAMMAR

  datatype Row = Row(user: int, kind: ScrapType, isActive: bool, course: Option<int>)

  /** A scrap as listed, with the course of its section, if it has one. */
  datatype Scrap = Scrap(id: nat, course: Option<int>)

  datatype Group = Group(course: int, items: seq<Scrap>)

  datatype Page = Page(items: seq<nat>, next: Option<nat>)

  /** A row of the user's list of this kind: made by that user, of that kind, and switched on. */
  predicate Shown(r: Row, user: int, kind: ScrapType) {
    r.isActive && r.kind == kind && r.user == user
  }

  function Active(rows: map<nat, Row>, user: int, kind: ScrapType): set<nat> {
    set id | id in rows && rows[id].user == user && rows[id].kind == kind && rows[id].isActive
  }

  function Below(ids: set<nat>, cursor: Option<nat>): set<nat> {
    if cursor.None? then ids else set id | id in ids && id < cursor.value
  }

  /** The query: the active scraps of a user and type below the cursor, descending, at most `take`. */
  function FindMany(ids: set<nat>, cursor: Option<nat>, take: nat): seq<nat> {
    var rows := NewestFirst(Below(ids, cursor), take);
    NewestFirstSelects(Below(ids, cursor), take);
    assert forall i | 0 <= i < |rows| :: rows[i] in rows;
    rows
  }

  function PageOf(ids: set<nat>, cursor: Option<nat>, limit: nat): Page
    requires limit >= 1
  {
    var rows := FindMany(ids, cursor, limit + 1);
    if |rows| > limit then Page(rows[..limit], Some(rows[limit - 1])) else Page(rows, None)
  }

  predicate Descends(s: seq<int>) {
    forall i, j | 0 <= i < j < |s| :: s[j] < s[i]
  }

  /** A page holds members below the cursor, strictly descending; what it leaves is below its next cursor. */
  lemma PageIsSound(ids: set<nat>, cursor: Option<nat>, limit: nat)
    requires limit >= 1
    ensures var p := PageOf(ids, cursor, limit);
            && Descends(p.items) && |p.items| == Min(|Below(ids, cursor)|, limit)
            && (forall id | id in p.items :: id in Below(ids, cursor))
            && (p.next.None? ==> forall id | id in Below(ids, cursor) :: id in p.items)
            && (p.next.Some? ==>
                  && p.next.value in p.items
                  && (forall id | id in p.items :: p.next.value <= id)
                  && (forall id | id in Below(ids, cursor) :: id in p.items || id < p.next.value))
  {
    hide NewestFirst, Below, LeavesSmaller, Descends;
    var below := Below(ids, cursor);
    var rows := FindMany(ids, cursor, limit + 1);
    FindManySelects(ids, cursor, limit + 1);
    if |rows| > limit {
      CutOff(below, rows);
    } else {
      SameMembers(below, rows);
    }
  }

  /** Whatever a listing leaves out is smaller than all it has. */
  ghost predicate LeavesSmaller(s: set<nat>, rows: seq<int>) {
    forall d, e | d in s && d !in rows && e in rows :: d < e
  }

  lemma FindManySelects(ids: set<nat>, cursor: Option<nat>, take: nat)
    ensures var below, rows := Below(ids, cursor), FindMany(ids, cursor, take);
            && |rows| == Min(|below|, take) && Descends(rows) && LeavesSmaller(below, rows)
            && (forall id | id in rows :: id in below)
  {
    hide NewestFirst, Below;
    NewestFirstSelects(Below(ids, cursor), take);
    NewestFirstDescends(Below(ids, cursor), take);
  }

  /** The last of the rows a query returns marks off what the rows before it leave out. */
  lemma CutOff(s: set<nat>, rows: seq<int>)
    requires |rows| >= 2 && Descends(rows) && LeavesSmaller(s, rows)
    ensures var n := |rows| - 1;
            && Descends(rows[..n]) && rows[n - 1] in rows[..n]
            && (forall id | id in rows[..n] :: rows[n - 1] <= id && id in rows)
            && forall id | id in s :: id in rows[..n] || id < rows[n - 1]
  {
    var n := |rows| - 1;
    assert rows[..n][n - 1] == rows[n - 1];
    assert rows == rows[..n] + [rows[n]];
    assert rows[n - 1] in rows;
  }

  lemma SameMembers(s: set<nat>, rows: seq<int>)
    requires |rows| == |s| && Descends(rows) && forall r | r in rows :: r in s
    ensures forall e | e in s :: e in rows
  {
    MembersCount(rows);
    SubsetOfSameSize(Members(rows), s);
  }

  function Members(rows: seq<int>): set<int> {
    set r | r in rows
  }

  lemma {:induction false} MembersCount(rows: seq<int>)
    requires Descends(rows)
    ensures |Members(rows)| == |rows|
  {
    if rows != [] {
      var last := rows[|rows| - 1];
      MembersCount(rows[..|rows| - 1]);
      assert rows == rows[..|rows| - 1] + [last];
      assert Members(rows) == Members(rows[..|rows| - 1]) + {last};
      assert last !in rows[..|rows| - 1];
    }
  }

  // ---- Following the cursors ----

  /** All scraps listed from the i-th page on, when the active scraps at the time of page i are `at(i)`. */
  function Walk(at: nat -> set<nat>, i: nat, cursor: Option<nat>, limit: nat): seq<nat>
    requires limit >= 1
    decreases if cursor.None? then 1 else 0, if cursor.None? then 0 else cursor.value
  {
    var p := PageOf(at(i), cursor, limit);
    PageIsSound(at(i), cursor, limit);
    if p.next.None? then p.items else p.items + Walk(at, i + 1, p.next, limit)
  }

  /** Nothing is listed twice, and only what is below the cursor and active at some page. */
  lemma {:induction false} WalkDescends(at: nat -> set<nat>, i: nat, cursor: Option<nat>, limit: nat)
    requires limit >= 1
    ensures Descends(Walk(at, i, cursor, limit))
    ensures forall id | id in Walk(at, i, cursor, limit) ::
              (cursor.Some? ==> id < cursor.value) && exists j :: j >= i && id in at(j)
    decreases if cursor.None? then 1 else 0, if cursor.None? then 0 else cursor.value
  {
    PageIsSound(at(i), cursor, limit);
    var p := PageOf(at(i), cursor, limit);
    if p.next.Some? {
      WalkDescends(at, i + 1, p.next, limit);
      Joined(p.items, Walk(at, i + 1, p.next, limit), p.next.value);
    }
  }

  lemma Joined(s: seq<int>, t: seq<int>, bound: int)
    requires Descends(s) && Descends(t) && (forall x | x in s :: bound <= x) && (forall x | x in t :: x < bound)
    ensures Descends(s + t)
  {
    forall i, j | 0 <= i < j < |s + t| ensures (s + t)[j] < (s + t)[i] {
      if i < |s| <= j {
        assert s[i] in s && t[j - |s|] in t;
      }
    }
  }

  /** Every scrap that is active throughout is listed, whatever comes and goes around it. */
  lemma {:induction false} WalkIsComplete(at: nat -> set<nat>, i: nat, cursor: Option<nat>, limit: nat, id: nat)
    requires limit >= 1 && (cursor.Some? ==> id < cursor.value) && forall j :: j >= i ==> id in at(j)
    ensures id in Walk(at, i, cursor, limit)
    decreases if cursor.None? then 1 else 0, if cursor.None? then 0 else cursor.value
  {
    PageIsSound(at(i), cursor, limit);
    var p := PageOf(at(i), cursor, limit);
    assert id in Below(at(i), cursor);
    if id !in p.items {
      WalkIsComplete(at, i + 1, p.next, limit, id);
    }
  }

  /** When nothing changes, the pages together are the one full listing, whatever the limit. */
  lemma WalkOfFixedSet(ids: set<nat>, limit: nat)
    requires limit >= 1
    ensures Walk(_ => ids, 0, None, limit) == NewestFirst(ids, |ids|)
  {
    var at: nat -> set<nat> := _ => ids;
    var walk, all := Walk(at, 0, None, limit), NewestFirst(ids, |ids|);
    WalkDescends(at, 0, None, limit);
    NewestFirstDescends(ids, |ids|);
    NewestFirstSelects(ids, |ids|);
    forall id ensures id in Members(walk) <==> id in Members(all) {
      if id in all {
        WalkIsComplete(at, 0, None, limit, id);
      }
      if id in walk {
        SameMembers(ids, all);
      }
    }
    DescendingListingsAgree(walk, all);
    assert Walk(_ => ids, 0, None, limit) == walk;
  }

  lemma {:induction false} DescendingListingsAgree(s: seq<int>, t: seq<int>)
    requires Descends(s) && Descends(t) && Members(s) == Members(t)
    ensures s == t
  {
    MembersTail(s);
    MembersTail(t);
    if s != [] && t != [] {
      assert s[0] in Members(t) && t[0] in Members(s);
      assert s[0] == t[0];
      DescendingListingsAgree(s[1..], t[1..]);
    }
  }

  lemma MembersTail(s: seq<int>)
    requires Descends(s)
    ensures Members(s) == {} <==> s == []
    ensures s != [] ==> s[0] in Members(s) && Members(s[1..]) == Members(s) - {s[0]}
  {
    if s != [] {
      assert s[0] in Members(s);
      assert s == [s[0]] + s[1..];
    }
  }

  // ---- The listings ----

  function Listed(rows: map<nat, Row>, ids: seq<nat>): seq<Scrap>
    requires forall id | id in ids :: id in rows
  {
    seq(|ids|, i requires 0 <= i < |ids| => assert ids[i] in ids; Scrap(ids[i], rows[ids[i]].course))
  }

  method ListPage(rows: map<nat, Row>, user: int, kind: ScrapType, cursor: Option<nat>, limit: nat)
    returns (items: seq<Scrap>, nextCursor: Option<nat>)
    requires limit >= 1
    ensures var p := PageOf(Active(rows, user, kind), cursor, limit);
            && (forall id | id in p.items :: id in rows)
            && items == Listed(rows, p.items) && nextCursor == p.next
    ensures NewerFirst(items) && |items| <= limit && (nextCursor.Some? ==> Lists(items, nextCursor.value))
    ensures forall s | s in items :: DueBelow(rows, user, kind, cursor, s.id) && s.course == rows[s.id].course
    ensures forall id: nat | DueBelow(rows, user, kind, cursor, id) :: Lists(items, id) || (nextCursor.Some? && id < nextCursor.value)
  {
    var ids := Active(rows, user, kind);
    PageLists(rows, user, kind, cursor, limit);
    hide NewestFirst, Active, Below, DueBelow, Lists, Listed, NewerFirst;
    var found := FindMany(ids, cursor, limit + 1);
    var hasNext := |found| > limit;
    var kept := if hasNext then found[..limit] else found;
    nextCursor := if hasNext then Some(kept[|kept| - 1]) else None;
    items := Listed(rows, kept);
  }

  predicate Lists(items: seq<Scrap>, id: nat) {
    exists s :: s in items && s.id == id
  }

  /** A row that the pages below a cursor are to show. */
  predicate DueBelow(rows: map<nat, Row>, user: int, kind: ScrapType, cursor: Option<nat>, id: nat) {
    id in rows && Shown(rows[id], user, kind) && (cursor.Some? ==> id < cursor.value)
  }

  lemma PageLists(rows: map<nat, Row>, user: int, kind: ScrapType, cursor: Option<nat>, limit: nat)
    requires limit >= 1
    ensures var p := PageOf(Active(rows, user, kind), cursor, limit);
            && (forall id | id in p.items :: id in rows)
            && var items := Listed(rows, p.items);
            && NewerFirst(items) && |items| <= limit && (p.next.Some? ==> Lists(items, p.next.value))
            && (forall s | s in items :: DueBelow(rows, user, kind, cursor, s.id) && s.course == rows[s.id].course)
            && (forall id: nat | DueBelow(rows, user, kind, cursor, id) :: Lists(items, id) || (p.next.Some? && id < p.next.value))
  {
    var ids := Active(rows, user, kind);
    var p := PageOf(ids, cursor, limit);
    PageIsSound(ids, cursor, limit);
    assert forall id: nat :: id in Below(ids, cursor) <==> DueBelow(rows, user, kind, cursor, id);
    assert forall id | id in p.items :: id in rows;
    hide PageOf, Active, Below, DueBelow;
    ListedMembers(rows, p.items);
    hide Listed;
  }

  /** The listing of ids shows each of them, once, in their order. */
  lemma ListedMembers(rows: map<nat, Row>, ids: seq<nat>)
    requires Descends(ids) && forall id | id in ids :: id in rows
    ensures NewerFirst(Listed(rows, ids))
    ensures forall s | s in Listed(rows, ids) :: s.id in ids && s.course == rows[s.id].course
    ensures forall id | id in ids :: Lists(Listed(rows, ids), id)
  {
    var items := Listed(rows, ids);
    forall id | id in ids ensures Lists(items, id) {
      var i :| 0 <= i < |ids| && ids[i] == id;
      assert items[i] in items && items[i].id == id;
    }
    forall s | s in items ensures s.id in ids && s.course == rows[s.id].course {
      var i :| 0 <= i < |items| && items[i] == s;
      assert ids[i] in ids;
    }
  }

  /** Scraps without a section are listed under course 0. */
  function CourseOf(s: Scrap): int {
    if s.course.Some? then s.course.value else 0
  }

  lemma CoursesOfScraps(id: nat, course: int)
    ensures CourseOf(Scrap(id, Some(course))) == course && CourseOf(Scrap(id, None)) == 0
  {
  }

  function OfCourse(items: seq<Scrap>, course: int): seq<Scrap> {
    if items == [] then []
    else
      var n := |items| - 1;
      OfCourse(items[..n], course) + if CourseOf(items[n]) == course then [items[n]] else []
  }

  /** The courses in the order in which the items first name them. */
  function Courses(items: seq<Scrap>): seq<int> {
    if items == [] then []
    else
      var n := |items| - 1;
      var before := Courses(items[..n]);
      if CourseOf(items[n]) in before then before else before + [CourseOf(items[n])]
  }

  /** The groups of a page, and nothing else of it. */
  predicate Grouped(groups: seq<Group>, items: seq<Scrap>) {
    && |groups| == |Courses(items)|
    && forall g | 0 <= g < |groups| :: groups[g] == Group(Courses(items)[g], OfCourse(items, Courses(items)[g]))
  }

  method ListVocabGrouped(rows: map<nat, Row>, user: int, cursor: Option<nat>, limit: nat)
    returns (groups: seq<Group>, nextCursor: Option<nat>)
    requires limit >= 1
    ensures var p := PageOf(Active(rows, user, VOCAB), cursor, limit);
            && (forall id | id in p.items :: id in rows)
            && nextCursor == p.next && Grouped(groups, Listed(rows, p.items))
  {
    var items;
    items, nextCursor := ListPage(rows, user, VOCAB, cursor, limit);
    groups := GroupByCourse(items);
  }

  method GroupByCourse(items: seq<Scrap>) returns (groups: seq<Group>)
    ensures Grouped(groups, items)
  {
    assert Courses(items[..0]) == [];
    hide Courses, OfCourse;
    var keys: seq<int>, filed: map<int, seq<Scrap>> := [], map[];
    for i := 0 to |items|
      invariant keys == Courses(items[..i])
      invariant filed.Keys == Members(keys)
      invariant forall c | c in filed :: filed[c] == OfCourse(items[..i], c)
    {
      keys, filed := File(items[..i], items[i], keys, filed);
      assert items[..i + 1] == items[..i] + [items[i]];
    }
    assert items[..|items|] == items;
    groups := [];
    for g := 0 to |keys|
      invariant |groups| == g
      invariant forall k | 0 <= k < g :: groups[k] == Group(keys[k], OfCourse(items, keys[k]))
    {
      assert keys[g] in Members(keys);
      groups := groups + [Group(keys[g], filed[keys[g]])];
    }
  }

  /** One turn of the grouping loop; the map remembers the order of its keys. */
  method File(ghost before: seq<Scrap>, s: Scrap, keys: seq<int>, filed: map<int, seq<Scrap>>)
    returns (keys': seq<int>, filed': map<int, seq<Scrap>>)
    requires keys == Courses(before) && filed.Keys == Members(keys)
    requires forall c | c in filed :: filed[c] == OfCourse(before, c)
    ensures keys' == Courses(before + [s]) && filed'.Keys == Members(keys')
    ensures forall c | c in filed' :: filed'[c] == OfCourse(before + [s], c)
  {
    assert (before + [s])[..|before|] == before;
    keys', filed' := keys, filed;
    var course := CourseOf(s);
    if course !in filed {
      UnseenCourse(before, course);
      keys' := keys + [course];
      filed' := filed[course := []];
    }
    filed' := filed'[course := filed'[course] + [s]];
  }

  lemma {:induction false} UnseenCourse(items: seq<Scrap>, course: int)
    requires course !in Courses(items)
    ensures OfCourse(items, course) == []
  {
    if items != [] {
      UnseenCourse(items[..|items| - 1], course);
    }
  }

  /** Each course has one group, and exactly the courses of the items have one. */
  lemma {:induction false} CoursesDistinct(items: seq<Scrap>)
    ensures forall i, j | 0 <= i < j < |Courses(items)| :: Courses(items)[i] != Courses(items)[j]
    ensures forall c :: c in Courses(items) <==> exists s :: s in items && CourseOf(s) == c
  {
    if items != [] {
      var n := |items| - 1;
      CoursesDistinct(items[..n]);
      assert items == items[..n] + [items[n]];
    }
  }

  /** The groups split the page: each item stands as often in the group of its course as on the page, and in no other. */
  lemma {:induction false} GroupsPartition(items: seq<Scrap>, course: int, s: Scrap)
    ensures multiset(OfCourse(items, course))[s] == if CourseOf(s) == course then multiset(items)[s] else 0
  {
    if items != [] {
      var n := |items| - 1;
      GroupsPartition(items[..n], course, s);
      assert items == items[..n] + [items[n]];
    }
  }

  predicate NewerFirst(items: seq<Scrap>) {
    forall i, j | 0 <= i < j < |items| :: items[j].id < items[i].id
  }

  /** A group keeps the order of the page. */
  lemma {:induction false} GroupsKeepOrder(items: seq<Scrap>, course: int)
    requires NewerFirst(items)
    ensures NewerFirst(OfCourse(items, course))
    ensures forall s | s in OfCourse(items, course) :: s in items
  {
    if items != [] {
      var n := |items| - 1;
      GroupsKeepOrder(items[..n], course);
      assert items == items[..n] + [items[n]];
      var before := OfCourse(items[..n], course);
      forall i | 0 <= i < |before| ensures items[n].id < before[i].id {
        assert before[i] in items[..n];
      }
    }
  }

  /** A course has a group, whose newest item is the first. */
  predicate HeadedBy(items: seq<Scrap>, course: int, head: Scrap) {
    OfCourse(items, course) != [] && OfCourse(items, course)[0] == head
  }

  /** One more item, older than the rest, leaves the heads of the groups alone and may head a new one. */
  lemma OneMoreItem(items: seq<Scrap>, s: Scrap, course: int, head: Scrap)
    ensures HeadedBy(items, course, head) ==> HeadedBy(items + [s], course, head)
    ensures CourseOf(s) !in Courses(items) ==> HeadedBy(items + [s], CourseOf(s), s)
    ensures Courses(items + [s]) == if CourseOf(s) in Courses(items) then Courses(items) else Courses(items) + [CourseOf(s)]
  {
    assert (items + [s])[..|items|] == items;
    if CourseOf(s) !in Courses(items) {
      UnseenCourse(items, CourseOf(s));
    }
  }

  /** Groups come in the order of their newest items. */
  lemma {:induction false} GroupsByNewest(items: seq<Scrap>) returns (heads: seq<Scrap>)
    requires NewerFirst(items)
    ensures NewerFirst(heads) && |heads| == |Courses(items)|
    ensures forall g | 0 <= g < |heads| :: heads[g] in items && HeadedBy(items, Courses(items)[g], heads[g])
  {
    heads := [];
    if items != [] {
      var n := |items| - 1;
      var before, last := items[..n], items[n];
      heads := GroupsByNewest(before);
      assert items == before + [last];
      hide Courses, HeadedBy, CourseOf;
      OneMoreItem(before, last, CourseOf(last), last);
      forall g | 0 <= g < |heads| ensures HeadedBy(items, Courses(before)[g], heads[g]) && last.id < heads[g].id {
        OneMoreItem(before, last, Courses(before)[g], heads[g]);
        assert heads[g] in before;
      }
      if CourseOf(last) !in Courses(before) {
        heads := heads + [last];
      }
    }
  }
}
