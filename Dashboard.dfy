/** The project listing (components/Dashboard.tsx): the search and department
    filter, the department menu, and the alert-tag subscriptions. */
module Dashboard {
  import opened GigTypes
  import opened Sequences

  /** The department-menu entry that disables the department filter. */
  const ALL_DEPARTMENTS := "All"

  // ---------------------------------------------------------------------------
  // Case-insensitive search
  // ---------------------------------------------------------------------------

  /** `toLowerCase` on one character, restricted to ASCII letters. */
  function LowerChar(c: char): char {
    if 'A' <= c <= 'Z' then (c as int + 32) as char else c
  }

  /** `toLowerCase` on a string, character by character: the result has the same
      length and no capital letter; each capital becomes its own small letter, and
      every other character stays where it was. */
  function Lower(s: string): (r: string)
    ensures |r| == |s|
    ensures forall i :: 0 <= i < |r| ==> !('A' <= r[i] <= 'Z')
    ensures forall i :: 0 <= i < |s| && 'A' <= s[i] <= 'Z' ==> r[i] as int == s[i] as int + 32
    ensures forall i :: 0 <= i < |s| && !('A' <= s[i] <= 'Z') ==> r[i] == s[i]
  {
    seq(|s|, i requires 0 <= i < |s| => LowerChar(s[i]))
  }

  /** Lowercasing twice is lowercasing once, and a string without capitals is its own lowercase. */
  lemma LowerIdempotent(s: string)
    ensures Lower(Lower(s)) == Lower(s)
    ensures (forall i :: 0 <= i < |s| ==> !('A' <= s[i] <= 'Z')) ==> Lower(s) == s
  {
  }

  /** Two characters that are equal, or an ASCII capital and its own small letter. */
  predicate SameCharIgnoringCase(x: char, y: char) {
    || x == y
    || ('A' <= x <= 'Z' && y as int == x as int + 32)
    || ('A' <= y <= 'Z' && x as int == y as int + 32)
  }

  /** Two strings that differ at most in the case of their ASCII letters. */
  predicate SameIgnoringCase(a: string, b: string) {
    |a| == |b| && forall i :: 0 <= i < |a| ==> SameCharIgnoringCase(a[i], b[i])
  }

  /** Two strings have the same lowercase exactly when they differ only in case. */
  lemma LowerEqualIffSameIgnoringCase(a: string, b: string)
    ensures Lower(a) == Lower(b) <==> SameIgnoringCase(a, b)
  {
  }

  /** The search ignores case: in the term, in the title and in the description. */
  lemma MatchesSearchIgnoresCase(p: Project, q: Project, searchTerm: string, otherTerm: string)
    requires SameIgnoringCase(searchTerm, otherTerm)
    requires SameIgnoringCase(p.title, q.title) && SameIgnoringCase(p.description, q.description)
    ensures MatchesSearch(p, searchTerm) <==> MatchesSearch(q, otherTerm)
  {
    LowerEqualIffSameIgnoringCase(searchTerm, otherTerm);
    LowerEqualIffSameIgnoringCase(p.title, q.title);
    LowerEqualIffSameIgnoringCase(p.description, q.description);
  }

  /** `hay.includes(needle)`: `needle` occurs in `hay` at some offset. */
  predicate Includes(hay: string, needle: string) {
    exists i :: 0 <= i <= |hay| && needle <= hay[i..]
  }

  lemma IncludesEmpty(hay: string)
    ensures Includes(hay, "")
  {
    assert "" <= hay[0..];
  }

  /** The search half of the filter: title or description contains the term, ignoring case. */
  predicate MatchesSearch(p: Project, searchTerm: string) {
    Includes(Lower(p.title), Lower(searchTerm)) || Includes(Lower(p.description), Lower(searchTerm))
  }

  /** The department half of the filter. */
  predicate MatchesDept(p: Project, filterDept: string) {
    filterDept == ALL_DEPARTMENTS || p.department == filterDept
  }

  predicate Keeps(p: Project, searchTerm: string, filterDept: string) {
    MatchesSearch(p, searchTerm) && MatchesDept(p, filterDept)
  }

  /** `filteredProjects`: the projects that pass both halves of the filter, in list order. */
  function FilterProjects(ps: seq<Project>, searchTerm: string, filterDept: string): (r: seq<Project>)
    ensures |r| <= |ps|
    ensures forall p :: p in r ==> Keeps(p, searchTerm, filterDept)
    decreases |ps|
  {
    if ps == [] then []
    else (if Keeps(ps[0], searchTerm, filterDept) then [ps[0]] else [])
         + FilterProjects(ps[1..], searchTerm, filterDept)
  }

  /** The result keeps the list order: it is a subsequence of the input. */
  lemma {:induction false} FilterIsSubsequence(ps: seq<Project>, searchTerm: string, filterDept: string)
    ensures IsSubsequence(FilterProjects(ps, searchTerm, filterDept), ps)
    decreases |ps|
  {
    if ps != [] {
      var rest := FilterProjects(ps[1..], searchTerm, filterDept);
      FilterIsSubsequence(ps[1..], searchTerm, filterDept);
      var r := FilterProjects(ps, searchTerm, filterDept);
      if Keeps(ps[0], searchTerm, filterDept) {
        assert r == [ps[0]] + rest;
        assert r[0] == ps[0] && r[1..] == rest;
      } else {
        assert r == rest;
      }
    }
  }

  /** A project is shown exactly when it is listed and passes both halves of the filter. */
  lemma {:induction false} FilterMembership(ps: seq<Project>, searchTerm: string, filterDept: string, p: Project)
    ensures p in FilterProjects(ps, searchTerm, filterDept) <==> p in ps && Keeps(p, searchTerm, filterDept)
    decreases |ps|
  {
    if ps != [] {
      FilterMembership(ps[1..], searchTerm, filterDept, p);
      assert ps == [ps[0]] + ps[1..];
    }
  }

  /** Each project is shown as many times as it is listed if it passes, and not at all otherwise. */
  lemma {:induction false} FilterCount(ps: seq<Project>, searchTerm: string, filterDept: string, p: Project)
    ensures multiset(FilterProjects(ps, searchTerm, filterDept))[p]
            == if Keeps(p, searchTerm, filterDept) then multiset(ps)[p] else 0
    decreases |ps|
  {
    if ps != [] {
      FilterCount(ps[1..], searchTerm, filterDept, p);
      assert ps == [ps[0]] + ps[1..];
      assert multiset(ps) == multiset([ps[0]]) + multiset(ps[1..]);
    }
  }

  /** When every project passes, the filter shows the whole list. */
  lemma {:induction false} FilterKeepsAll(ps: seq<Project>, searchTerm: string, filterDept: string)
    requires forall p :: p in ps ==> Keeps(p, searchTerm, filterDept)
    ensures FilterProjects(ps, searchTerm, filterDept) == ps
    decreases |ps|
  {
    if ps != [] {
      assert ps[0] in ps;
      assert forall p :: p in ps[1..] ==> p in ps;
      FilterKeepsAll(ps[1..], searchTerm, filterDept);
      assert ps == [ps[0]] + ps[1..];
    }
  }

  /** The initial search state (empty term, "All") shows every project. */
  lemma FilterInitialShowsAll(ps: seq<Project>)
    ensures FilterProjects(ps, "", ALL_DEPARTMENTS) == ps
  {
    forall p | p in ps ensures Keeps(p, "", ALL_DEPARTMENTS) {
      assert Lower("") == "";
      IncludesEmpty(Lower(p.title));
    }
    FilterKeepsAll(ps, "", ALL_DEPARTMENTS);
  }

  /** Filtering a filtered list again with the same inputs changes nothing. */
  lemma FilterIdempotent(ps: seq<Project>, searchTerm: string, filterDept: string)
    ensures var once := FilterProjects(ps, searchTerm, filterDept);
            FilterProjects(once, searchTerm, filterDept) == once
  {
    FilterKeepsAll(FilterProjects(ps, searchTerm, filterDept), searchTerm, filterDept);
  }

  // ---------------------------------------------------------------------------
  // The department menu
  // ---------------------------------------------------------------------------

  /** `projects.map(p => p.department)`. */
  function DepartmentsOf(ps: seq<Project>): seq<string> {
    seq(|ps|, i requires 0 <= i < |ps| => ps[i].department)
  }

  /** `Array.from(new Set(s))`: each element once, at the place it first occurs. */
  function Dedup(s: seq<string>): (r: seq<string>)
    decreases |s|
  {
    if s == [] then []
    else
      var r := Dedup(s[..|s| - 1]);
      if s[|s| - 1] in r then r else r + [s[|s| - 1]]
  }

  /** The position of the first occurrence of `x` in `s`. */
  function FirstIndex(s: seq<string>, x: string): (k: nat)
    requires x in s
    ensures k < |s| && s[k] == x && x !in s[..k]
    decreases |s|
  {
    if x in s[..|s| - 1] then
      var k := FirstIndex(s[..|s| - 1], x);
      assert s[..|s| - 1][..k] == s[..k];
      k
    else
      assert s == s[..|s| - 1] + [s[|s| - 1]];
      |s| - 1
  }

  lemma {:induction false} DedupMembership(s: seq<string>, x: string)
    ensures x in Dedup(s) <==> x in s
    decreases |s|
  {
    if s != [] {
      DedupMembership(s[..|s| - 1], x);
      assert s == s[..|s| - 1] + [s[|s| - 1]];
    }
  }

  lemma {:induction false} DedupNoDup(s: seq<string>)
    ensures NoDup(Dedup(s))
    decreases |s|
  {
    if s != [] {
      DedupNoDup(s[..|s| - 1]);
    }
  }

  /** The de-duplicated list is in first-occurrence order. */
  lemma {:induction false} DedupFirstOccurrenceOrder(s: seq<string>)
    ensures forall x :: x in Dedup(s) ==> x in s
    ensures forall i, j :: 0 <= i < j < |Dedup(s)| ==>
              FirstIndex(s, Dedup(s)[i]) < FirstIndex(s, Dedup(s)[j])
    decreases |s|
  {
    forall x ensures x in Dedup(s) ==> x in s { DedupMembership(s, x); }
    if s != [] {
      var init := s[..|s| - 1];
      var r0 := Dedup(init);
      DedupFirstOccurrenceOrder(init);
      assert s == init + [s[|s| - 1]];
      forall x | x in init ensures FirstIndex(s, x) == FirstIndex(init, x) {
        FirstIndexOfPrefix(s, |s| - 1, x);
      }
      if s[|s| - 1] !in r0 {
        DedupMembership(init, s[|s| - 1]);
        assert FirstIndex(s, s[|s| - 1]) == |s| - 1;
      }
    }
  }

  /** The first occurrence of an element of a prefix lies in that prefix. */
  lemma FirstIndexOfPrefix(s: seq<string>, n: nat, x: string)
    requires n <= |s| && x in s[..n]
    ensures FirstIndex(s, x) == FirstIndex(s[..n], x)
  {
  }

  /** `departments`: "All" followed by each department of the list once, in first-occurrence order. */
  function Departments(ps: seq<Project>): (r: seq<string>)
    ensures |r| >= 1 && r[0] == ALL_DEPARTMENTS
  {
    [ALL_DEPARTMENTS] + Dedup(DepartmentsOf(ps))
  }

  /** The menu after "All" names every project department, each once, in first-occurrence order. */
  lemma DepartmentsMenu(ps: seq<Project>)
    ensures var rest := Departments(ps)[1..];
            && NoDup(rest)
            && (forall p :: p in ps ==> p.department in rest)
            && (forall d :: d in rest ==> exists p :: p in ps && p.department == d)
            && (forall i, j :: 0 <= i < j < |rest| ==>
                  rest[i] in DepartmentsOf(ps) && rest[j] in DepartmentsOf(ps) &&
                  FirstIndex(DepartmentsOf(ps), rest[i]) < FirstIndex(DepartmentsOf(ps), rest[j]))
  {
    var names := DepartmentsOf(ps);
    var rest := Departments(ps)[1..];
    assert rest == Dedup(names);
    DedupNoDup(names);
    DedupFirstOccurrenceOrder(names);
    forall p | p in ps ensures p.department in rest {
      var k :| 0 <= k < |ps| && ps[k] == p;
      assert names[k] == p.department;
      DedupMembership(names, p.department);
    }
    forall d | d in rest ensures exists p :: p in ps && p.department == d {
      var k :| 0 <= k < |names| && names[k] == d;
      assert ps[k] in ps;
    }
  }

  // ---------------------------------------------------------------------------
  // Alert tags
  // ---------------------------------------------------------------------------

  /** `tags.filter(t => t !== tag)`. */
  function RemoveAll(tags: seq<string>, tag: string): (r: seq<string>)
    decreases |tags|
  {
    if tags == [] then []
    else (if tags[0] == tag then [] else [tags[0]]) + RemoveAll(tags[1..], tag)
  }

  lemma {:induction false} RemoveAllMembership(tags: seq<string>, tag: string, u: string)
    ensures u in RemoveAll(tags, tag) <==> u in tags && u != tag
    decreases |tags|
  {
    if tags != [] {
      RemoveAllMembership(tags[1..], tag, u);
      assert tags == [tags[0]] + tags[1..];
    }
  }

  lemma {:induction false} RemoveAllNoDup(tags: seq<string>, tag: string)
    requires NoDup(tags)
    ensures NoDup(RemoveAll(tags, tag))
    decreases |tags|
  {
    if tags != [] {
      RemoveAllNoDup(tags[1..], tag);
      RemoveAllMembership(tags[1..], tag, tags[0]);
    }
  }

  lemma {:induction false} RemoveAllAppended(tags: seq<string>, tag: string)
    requires tag !in tags
    ensures RemoveAll(tags + [tag], tag) == tags
    decreases |tags|
  {
    if tags == [] {
      assert RemoveAll([tag], tag) == [] + RemoveAll([], tag);
    } else {
      RemoveAllAppended(tags[1..], tag);
      assert (tags + [tag])[1..] == tags[1..] + [tag];
      assert tags == [tags[0]] + tags[1..];
    }
  }

  /** `toggleTag`: drop every occurrence of a subscribed tag; append an unsubscribed one. */
  function Toggled(tags: seq<string>, tag: string): seq<string> {
    if tag in tags then RemoveAll(tags, tag) else tags + [tag]
  }

  /** Toggling flips the toggled tag's membership and no other tag's. */
  lemma ToggleFlips(tags: seq<string>, tag: string)
    ensures tag in Toggled(tags, tag) <==> tag !in tags
    ensures forall u :: u != tag ==> (u in Toggled(tags, tag) <==> u in tags)
  {
    RemoveAllMembership(tags, tag, tag);
    forall u | u != tag ensures u in Toggled(tags, tag) <==> u in tags {
      RemoveAllMembership(tags, tag, u);
    }
  }

  lemma ToggleKeepsNoDup(tags: seq<string>, tag: string)
    requires NoDup(tags)
    ensures NoDup(Toggled(tags, tag))
  {
    if tag in tags {
      RemoveAllNoDup(tags, tag);
    }
  }

  /** Subscribing to a new tag and then toggling it again restores the list. */
  lemma ToggleTwiceAbsent(tags: seq<string>, tag: string)
    requires tag !in tags
    ensures Toggled(Toggled(tags, tag), tag) == tags
  {
    RemoveAllAppended(tags, tag);
  }

  /** Unsubscribing and resubscribing moves the tag to the end. */
  lemma ToggleTwicePresent(tags: seq<string>, tag: string)
    requires tag in tags
    ensures Toggled(Toggled(tags, tag), tag) == RemoveAll(tags, tag) + [tag]
  {
    RemoveAllMembership(tags, tag, tag);
  }

  // ---------------------------------------------------------------------------
  // The listing's own state
  // ---------------------------------------------------------------------------

  /** The Dashboard component's state fields that the model covers. */
  class DashboardState {
    var searchTerm: string
    var filterDept: string
    var subscribedTags: seq<string>

    /** The initial state shows every project and subscribes to "Python". */
    constructor ()
      ensures searchTerm == "" && filterDept == ALL_DEPARTMENTS && subscribedTags == ["Python"]
      ensures forall ps :: Visible(ps) == ps
    {
      searchTerm := "";
      filterDept := ALL_DEPARTMENTS;
      subscribedTags := ["Python"];
      new;
      forall ps ensures Visible(ps) == ps {
        FilterInitialShowsAll(ps);
      }
    }

    /** The projects the listing shows for the current search state. */
    function Visible(ps: seq<Project>): seq<Project>
      reads this
    {
      FilterProjects(ps, searchTerm, filterDept)
    }

    method SetSearchTerm(term: string)
      modifies this`searchTerm
      ensures searchTerm == term
    {
      searchTerm := term;
    }

    method SetFilterDept(dept: string)
      modifies this`filterDept
      ensures filterDept == dept
    {
      filterDept := dept;
    }

    method ToggleTag(tag: string)
      modifies this`subscribedTags
      ensures subscribedTags == Toggled(old(subscribedTags), tag)
      ensures tag in subscribedTags <==> tag !in old(subscribedTags)
      ensures forall u :: u != tag ==> (u in subscribedTags <==> u in old(subscribedTags))
      ensures NoDup(old(subscribedTags)) ==> NoDup(subscribedTags)
    {
      ToggleFlips(subscribedTags, tag);
      if NoDup(subscribedTags) {
        ToggleKeepsNoDup(subscribedTags, tag);
      }
      if tag in subscribedTags {
        subscribedTags := RemoveAll(subscribedTags, tag);
      } else {
        subscribedTags := subscribedTags + [tag];
      }
    }
  }
}
