/**
 * The grouping and ordering behind `display_summary`: the inventory's records
 * are grouped by status, groups in the order their status first appears, and
 * each group is listed sorted by `post_date`, else `draft_updated_at`, else ''.
 * The printed lines themselves are not modelled; the sections they are
 * printed from are.
 */
module PostSummary {
  import opened Wrappers
  import opened Json
  import opened OrderedDict
  import opened PostStatus
  import opened Posts
  import opened StableSort

  /** `by_status`: each status seen, with the records of that status. */
  type Groups = Dict<Status, seq<PostInfo>>

  /** The records with status `s`, in input order. */
  function WithStatus(posts: seq<PostInfo>, s: Status): (r: seq<PostInfo>)
    ensures forall i :: 0 <= i < |r| ==> r[i].status == s
    ensures forall p :: p in posts && p.status == s ==> p in r
  {
    if posts == [] then []
    else
      var init := posts[..|posts| - 1];
      assert posts == init + [posts[|posts| - 1]];
      WithStatus(init, s) + (if posts[|posts| - 1].status == s then [posts[|posts| - 1]] else [])
  }

  /** `by_status[s]`, or the empty list about to be put there. */
  function GroupOf(g: Groups, s: Status): seq<PostInfo> {
    match Get(g, s)
    case Some(l) => l
    case None => []
  }

  /** The groups after appending every record to the list of its status. */
  function Grouped(posts: seq<PostInfo>): Groups {
    if posts == [] then []
    else
      var g := Grouped(posts[..|posts| - 1]);
      var post := posts[|posts| - 1];
      Put(g, post.status, GroupOf(g, post.status) + [post])
  }

  /** The grouping loop of `display_summary`. */
  method GroupByStatus(posts: seq<PostInfo>) returns (byStatus: Groups)
    ensures byStatus == Grouped(posts)
  {
    byStatus := [];
    for i := 0 to |posts|
      invariant byStatus == Grouped(posts[..i])
    {
      assert posts[..i + 1][..i] == posts[..i];
      ghost var before := byStatus;
      var post := posts[i];
      var status := post.status;
      if Get(byStatus, status).None? {
        byStatus := Put(byStatus, status, []);
        PutPut(before, status, [], [post]);
      }
      PutSpec(before, status, []);
      var group := Get(byStatus, status).value;
      byStatus := Put(byStatus, status, group + [post]);
    }
    assert posts[..|posts|] == posts;
  }

  /** Every status has exactly the group of its records, and a status no record has has no group. */
  lemma {:induction false} GroupedContents(posts: seq<PostInfo>, s: Status)
    ensures Get(Grouped(posts), s) == if WithStatus(posts, s) == [] then None else Some(WithStatus(posts, s))
  {
    if posts != [] {
      var init := posts[..|posts| - 1];
      var post := posts[|posts| - 1];
      var g := Grouped(init);
      assert posts == init + [post];
      assert WithStatus(posts, s) == WithStatus(init, s) + (if post.status == s then [post] else []);
      GroupedContents(init, s);
      PutSpec(g, post.status, GroupOf(g, post.status) + [post]);
      assert Grouped(posts) == Put(g, post.status, GroupOf(g, post.status) + [post]);
      if post.status == s {
        assert GroupOf(g, s) == WithStatus(init, s);
        assert Get(Grouped(posts), s) == Some(WithStatus(init, s) + [post]);
      } else {
        assert Get(Grouped(posts), s) == Get(g, s);
        assert WithStatus(posts, s) == WithStatus(init, s);
      }
    }
  }

  /** The statuses of `posts`, each once, in the order of their first appearance. */
  function StatusOrder(posts: seq<PostInfo>): seq<Status> {
    if posts == [] then []
    else
      var order := StatusOrder(posts[..|posts| - 1]);
      var s := posts[|posts| - 1].status;
      if s in order then order else order + [s]
  }

  /** Some record has status `s`. */
  predicate Occurs(posts: seq<PostInfo>, s: Status) {
    exists p :: 0 <= p < |posts| && posts[p].status == s
  }

  /** Status `a` occurs before the first occurrence of status `b`. */
  predicate OccursBefore(posts: seq<PostInfo>, a: Status, b: Status) {
    exists p :: 0 <= p < |posts| && posts[p].status == a && forall q :: 0 <= q <= p ==> posts[q].status != b
  }

  /** A status occurs in the records with one appended iff it occurs before or is the appended one's. */
  lemma OccursAppend(posts: seq<PostInfo>, a: Status)
    requires posts != []
    ensures Occurs(posts, a) <==> Occurs(posts[..|posts| - 1], a) || posts[|posts| - 1].status == a
  {
    var init := posts[..|posts| - 1];
    if Occurs(posts, a) {
      var p :| 0 <= p < |posts| && posts[p].status == a;
      if p < |init| {
        assert init[p].status == a;
      }
    }
    if Occurs(init, a) {
      var p :| 0 <= p < |init| && init[p].status == a;
      assert posts[p].status == a;
    }
  }

  /** Appending a record keeps `a` before `b`, and puts an occurring `a` before a `b` that did not occur. */
  lemma OccursBeforeAppend(posts: seq<PostInfo>, a: Status, b: Status)
    requires posts != []
    ensures OccursBefore(posts[..|posts| - 1], a, b) ==> OccursBefore(posts, a, b)
    ensures Occurs(posts[..|posts| - 1], a) && !Occurs(posts[..|posts| - 1], b) ==> OccursBefore(posts, a, b)
  {
    var init := posts[..|posts| - 1];
    if OccursBefore(init, a, b) {
      var p :| 0 <= p < |init| && init[p].status == a && forall q :: 0 <= q <= p ==> init[q].status != b;
      forall q | 0 <= q <= p
        ensures posts[q].status != b
      {
        assert init[q] == posts[q];
      }
      assert posts[p].status == a;
    }
    if Occurs(init, a) && !Occurs(init, b) {
      var p :| 0 <= p < |init| && init[p].status == a;
      assert forall q :: 0 <= q <= p ==> init[q].status != b;
      assert OccursBefore(init, a, b);
    }
  }

  /**
   * StatusOrder lists exactly the statuses that occur, none twice, and each
   * occurs before the first occurrence of every status listed after it.
   */
  lemma {:induction false} StatusOrderMeaning(posts: seq<PostInfo>)
    ensures forall s :: s in StatusOrder(posts) <==> Occurs(posts, s)
    ensures forall i, j :: 0 <= i < j < |StatusOrder(posts)| ==> StatusOrder(posts)[i] != StatusOrder(posts)[j]
    ensures forall i, j :: 0 <= i < j < |StatusOrder(posts)| ==>
              OccursBefore(posts, StatusOrder(posts)[i], StatusOrder(posts)[j])
  {
    if posts != [] {
      var init := posts[..|posts| - 1];
      var last := posts[|posts| - 1].status;
      var order := StatusOrder(init);
      StatusOrderMeaning(init);
      forall s
        ensures s in StatusOrder(posts) <==> Occurs(posts, s)
      {
        OccursAppend(posts, s);
      }
      var o := StatusOrder(posts);
      forall i, j | 0 <= i < j < |o|
        ensures OccursBefore(posts, o[i], o[j])
      {
        OccursBeforeAppend(posts, o[i], o[j]);
        if j < |order| {
          assert OccursBefore(init, order[i], order[j]);
        } else {
          assert o[j] == last && last !in order;
          assert order[i] in order;
        }
      }
    }
  }

  /** The groups, and so the printed sections, come in the order in which their statuses first appear. */
  lemma {:induction false} GroupedOrder(posts: seq<PostInfo>)
    ensures Keys(Grouped(posts)) == StatusOrder(posts)
  {
    if posts != [] {
      var init := posts[..|posts| - 1];
      var post := posts[|posts| - 1];
      var g := Grouped(init);
      GroupedOrder(init);
      PutSpec(g, post.status, GroupOf(g, post.status) + [post]);
    }
  }

  /** No status has two groups. */
  lemma {:induction false} GroupedDistinct(posts: seq<PostInfo>)
    ensures DistinctKeys(Grouped(posts))
  {
    if posts != [] {
      var init := posts[..|posts| - 1];
      var post := posts[|posts| - 1];
      GroupedDistinct(init);
      PutSpec(Grouped(init), post.status, GroupOf(Grouped(init), post.status) + [post]);
    }
  }

  /** A record is in the group of its own status and in no other. */
  lemma InItsGroup(posts: seq<PostInfo>, i: nat, s: Status)
    requires i < |posts|
    ensures posts[i] in GroupOf(Grouped(posts), posts[i].status)
    ensures posts[i] in GroupOf(Grouped(posts), s) ==> s == posts[i].status
  {
    GroupedContents(posts, posts[i].status);
    GroupedContents(posts, s);
  }

  /** The number of records over all groups. */
  function Total(g: Groups): nat {
    if g == [] then 0 else Total(g[..|g| - 1]) + |g[|g| - 1].1|
  }

  lemma {:induction false} TotalUpdate(g: Groups, i: nat, group: seq<PostInfo>)
    requires i < |g|
    ensures Total(g[i := (g[i].0, group)]) + |g[i].1| == Total(g) + |group|
  {
    var h := g[i := (g[i].0, group)];
    if i < |g| - 1 {
      assert h[..|h| - 1] == g[..|g| - 1][i := (g[i].0, group)];
      TotalUpdate(g[..|g| - 1], i, group);
    } else {
      assert h[..|h| - 1] == g[..|g| - 1];
    }
  }

  /** Appending one record to the group of its status adds one to the total. */
  lemma TotalAppend(g: Groups, post: PostInfo)
    ensures Total(Put(g, post.status, GroupOf(g, post.status) + [post])) == Total(g) + 1
  {
    match Find(g, post.status) {
      case Some(i) =>
        TotalUpdate(g, i, g[i].1 + [post]);
      case None =>
        var h := g + [(post.status, [post])];
        assert h[..|h| - 1] == g;
    }
  }

  /** The group sizes add up to the number of records. */
  lemma {:induction false} GroupSizes(posts: seq<PostInfo>)
    ensures Total(Grouped(posts)) == |posts|
  {
    if posts != [] {
      GroupSizes(posts[..|posts| - 1]);
      TotalAppend(Grouped(posts[..|posts| - 1]), posts[|posts| - 1]);
    }
  }

  /** `x.get('post_date') or x.get('draft_updated_at') or ''`. */
  function SortKey(p: PostInfo): Json {
    if Truthy(p.postDate) then p.postDate
    else if Truthy(p.draftUpdatedAt) then p.draftUpdatedAt
    else Str("")
  }

  /** The sort key as a string; a non-string key is excluded where the records are sorted. */
  function KeyText(p: PostInfo): string {
    match SortKey(p)
    case Str(s) => s
    case _ => ""
  }

  /** One printed section: a status and its records in the order they are listed. */
  datatype Section = Section(status: Status, posts: seq<PostInfo>)

  /** The sections `display_summary` prints, in order: one per group, its records sorted by key. */
  method DisplaySummary(allPosts: Inventory) returns (sections: seq<Section>)
    requires forall j :: 0 <= j < |allPosts| ==> SortKey(allPosts[j].1).Str?
    ensures var groups := Grouped(Values(allPosts));
            |sections| == |groups| &&
            forall i :: 0 <= i < |groups| ==> sections[i] == Section(groups[i].0, SortBy(groups[i].1, KeyText))
  {
    var byStatus := GroupByStatus(Values(allPosts));
    sections := [];
    for i := 0 to |byStatus|
      invariant |sections| == i
      invariant forall j :: 0 <= j < i ==> sections[j] == Section(byStatus[j].0, SortBy(byStatus[j].1, KeyText))
    {
      var (status, posts) := byStatus[i];
      var section := Section(status, SortBy(posts, KeyText));
      sections := sections + [section];
      assert sections[i] == section;
    }
  }

  /**
   * Each section holds exactly the records of its status, sorted by key,
   * records with equal keys in inventory order; no status has two sections.
   */
  lemma SectionContents(posts: seq<PostInfo>, i: nat, k: string)
    requires i < |Grouped(posts)|
    ensures var (s, group) := Grouped(posts)[i];
            && multiset(SortBy(group, KeyText)) == multiset(WithStatus(posts, s))
            && SortedBy(SortBy(group, KeyText), KeyText)
            && WithKey(SortBy(group, KeyText), KeyText, k) == WithKey(WithStatus(posts, s), KeyText, k)
    ensures forall j :: 0 <= j < |Grouped(posts)| && j != i ==> Grouped(posts)[j].0 != Grouped(posts)[i].0
  {
    var g := Grouped(posts);
    var (s, group) := g[i];
    GroupedDistinct(posts);
    GetDistinct(g, s, i);
    GroupedContents(posts, s);
    SortBySorted(group, KeyText);
    SortByStable(group, KeyText, k);
  }
}
