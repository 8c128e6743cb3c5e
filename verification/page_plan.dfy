/**
 * The page plan the build script registers with the site generator, as
 * functions of the posts the page query returns (already newest-first):
 * the tag groups, the list of tags, the tag pages, the post pages with
 * their neighbour links, and all of it in emission order.
 */
module PagePlan {
  import opened StringOrder

  datatype Option<T> = None | Some(value: T)

  /** The front matter fields the page query selects for each post. */
  datatype Frontmatter = Frontmatter(
    title: string,
    date: string,
    path: string,
    tags: Option<seq<string>>,
    excerpt: string,
    slug: string)

  /** One edge of the query result; the build reads only its node's front matter. */
  datatype Post = Post(frontmatter: Frontmatter)

  /** The page templates, kept opaque: only which one a page uses matters here. */
  datatype Template = AllTagsTemplate | TagTemplate | BlogPostTemplate

  datatype Context =
    | AllTagsContext(tags: seq<string>)
    | TagContext(posts: seq<Post>, tagName: string)
    | PostContext(path: string, next: Option<Frontmatter>, prev: Option<Frontmatter>)

  /** The argument of one `createPage` call: route, template and context. */
  datatype Page = Page(path: string, component: Template, context: Context)

  // ---------------------------------------------------------------------------
  // Tag grouping

  /** The tags a post lists; a post without a tag list lists none. */
  function TagsOf(p: Post): seq<string>
  {
    if p.frontmatter.tags.Some? then p.frontmatter.tags.value else []
  }

  function Occurrences(tags: seq<string>, t: string): nat
  {
    if tags == [] then 0
    else Occurrences(tags[..|tags| - 1], t) + (if tags[|tags| - 1] == t then 1 else 0)
  }

  function Repeat(p: Post, n: nat): seq<Post>
  {
    if n == 0 then [] else Repeat(p, n - 1) + [p]
  }

  /** The group of `t`: the posts in input order, each once for every time it lists `t`. */
  function GroupOf(posts: seq<Post>, t: string): seq<Post>
  {
    if posts == [] then []
    else
      var p := posts[|posts| - 1];
      GroupOf(posts[..|posts| - 1], t) + Repeat(p, Occurrences(TagsOf(p), t))
  }

  /** Reads the group of `t` from the tag dictionary; a tag never added has none. */
  function Lookup(postsByTag: map<string, seq<Post>>, t: string): seq<Post>
  {
    if t in postsByTag then postsByTag[t] else []
  }

  /** The inner loop of the grouping: pushes `post` onto the group of each tag in `tags`. */
  function AddTags(groups: map<string, seq<Post>>, post: Post, tags: seq<string>): map<string, seq<Post>>
  {
    if tags == [] then groups
    else
      var m := AddTags(groups, post, tags[..|tags| - 1]);
      var tag := tags[|tags| - 1];
      m[tag := Lookup(m, tag) + [post]]
  }

  /** The dictionary the grouping pass builds: the posts pushed one after the other. */
  function Groups(posts: seq<Post>): map<string, seq<Post>>
  {
    if posts == [] then map[]
    else AddTags(Groups(posts[..|posts| - 1]), posts[|posts| - 1], TagsOf(posts[|posts| - 1]))
  }

  /** Appends each tag not yet present, in the order met: how an object records new keys. */
  function AddKeys(keys: seq<string>, tags: seq<string>): seq<string>
  {
    if tags == [] then keys
    else
      var k := AddKeys(keys, tags[..|tags| - 1]);
      if tags[|tags| - 1] in k then k else k + [tags[|tags| - 1]]
  }

  /** The keys of the tag dictionary in the order they were first added. */
  function KeyOrder(posts: seq<Post>): seq<string>
  {
    if posts == [] then []
    else AddKeys(KeyOrder(posts[..|posts| - 1]), TagsOf(posts[|posts| - 1]))
  }

  /** The tags that occur in some post. */
  function DistinctTags(posts: seq<Post>): set<string>
  {
    set i, t | 0 <= i < |posts| && t in TagsOf(posts[i]) :: t
  }

  /** The payload of the all-tags page: the dictionary's keys, sorted. */
  function TagList(posts: seq<Post>): seq<string>
  {
    SortStrings(KeyOrder(posts))
  }

  // ---------------------------------------------------------------------------
  // Pages

  /** The all-tags page, listing `tags`. */
  function AllTagsPage(tags: seq<string>): Page
  {
    Page("/tags", AllTagsTemplate, AllTagsContext(tags))
  }

  function TagPage(posts: seq<Post>, t: string): Page
  {
    Page("/tags/" + t, TagTemplate, TagContext(GroupOf(posts, t), t))
  }

  /** One tag page per entry of `tags`, in that order. */
  function TagPages(posts: seq<Post>, tags: seq<string>): seq<Page>
  {
    if tags == [] then []
    else TagPages(posts, tags[..|tags| - 1]) + [TagPage(posts, tags[|tags| - 1])]
  }

  /** The all-tags page listing `tags`, then one page per entry of `tags`. */
  function TagPlanOf(posts: seq<Post>, tags: seq<string>): seq<Page>
  {
    [AllTagsPage(tags)] + TagPages(posts, tags)
  }

  /** Everything the tag step emits: the all-tags page, then the tag pages in sorted order. */
  function TagPlan(posts: seq<Post>): seq<Page>
  {
    TagPlanOf(posts, TagList(posts))
  }

  /** The newer neighbour of post `i`: none for the first post. */
  function NextOf(posts: seq<Post>, i: nat): (r: Option<Frontmatter>)
    requires i < |posts|
    ensures r.None? <==> i == 0
    ensures r.Some? ==> r.value == posts[i - 1].frontmatter && PrevOf(posts, i - 1) == Some(posts[i].frontmatter)
  {
    if i == 0 then None else Some(posts[i - 1].frontmatter)
  }

  /** The older neighbour of post `i`: none for the last post. */
  function PrevOf(posts: seq<Post>, i: nat): Option<Frontmatter>
    requires i < |posts|
  {
    if i == |posts| - 1 then None else Some(posts[i + 1].frontmatter)
  }

  function PostPage(posts: seq<Post>, i: nat): Page
    requires i < |posts|
  {
    var path := posts[i].frontmatter.path;
    Page(path, BlogPostTemplate, PostContext(path, NextOf(posts, i), PrevOf(posts, i)))
  }

  /** The pages of the first `n` posts, in input order. */
  function PostPages(posts: seq<Post>, n: nat): seq<Page>
    requires n <= |posts|
  {
    if n == 0 then [] else PostPages(posts, n - 1) + [PostPage(posts, n - 1)]
  }

  /** Every page one build registers, in the order it registers them. */
  function Plan(posts: seq<Post>): seq<Page>
  {
    TagPlan(posts) + PostPages(posts, |posts|)
  }

  // ---------------------------------------------------------------------------
  // Properties of the grouping

  lemma {:induction false} OccurrencesPositive(tags: seq<string>, t: string)
    ensures Occurrences(tags, t) > 0 <==> t in tags
  {
    if tags != [] {
      OccurrencesPositive(tags[..|tags| - 1], t);
      assert tags == tags[..|tags| - 1] + [tags[|tags| - 1]];
    }
  }

  lemma {:induction false} OccurrencesOfDistinct(tags: seq<string>, t: string)
    requires Distinct(tags)
    ensures Occurrences(tags, t) <= 1
  {
    if tags != [] {
      var front := tags[..|tags| - 1];
      OccurrencesOfDistinct(front, t);
      if tags[|tags| - 1] == t {
        OccurrencesPositive(front, t);
      }
    }
  }

  lemma {:induction false} RepeatContents(p: Post, n: nat)
    ensures |Repeat(p, n)| == n
    ensures forall k :: 0 <= k < n ==> Repeat(p, n)[k] == p
    ensures forall q :: multiset(Repeat(p, n))[q] == if q == p then n else 0
  {
    if n > 0 {
      RepeatContents(p, n - 1);
    }
  }

  /** A post is in the group of `t` exactly when it is one of the posts and lists `t`. */
  lemma {:induction false} GroupMembers(posts: seq<Post>, t: string, p: Post)
    ensures p in GroupOf(posts, t) <==> p in posts && t in TagsOf(p)
  {
    if posts != [] {
      var front, last := posts[..|posts| - 1], posts[|posts| - 1];
      GroupMembers(front, t, p);
      RepeatContents(last, Occurrences(TagsOf(last), t));
      OccurrencesPositive(TagsOf(last), t);
      assert posts == front + [last];
      if p == last && t in TagsOf(p) {
        assert Repeat(last, Occurrences(TagsOf(last), t))[0] == p;
      }
    }
  }

  /**
   * The push is unconditional: each post appears in the group of `t` once
   * for every time it occurs among the posts and every time it lists `t`.
   */
  lemma {:induction false} GroupMultiplicity(posts: seq<Post>, t: string, p: Post)
    ensures multiset(GroupOf(posts, t))[p] == multiset(posts)[p] * Occurrences(TagsOf(p), t)
  {
    if posts != [] {
      var front, last := posts[..|posts| - 1], posts[|posts| - 1];
      var n := Occurrences(TagsOf(last), t);
      var o := Occurrences(TagsOf(p), t);
      var c := multiset(front)[p];
      assert multiset(posts)[p] == c + if last == p then 1 else 0 by {
        assert posts == front + [last];
        SnocCount(front, last, p);
      }
      assert multiset(GroupOf(posts, t))[p] == c * o + if last == p then o else 0 by {
        GroupMultiplicity(front, t, p);
        RepeatContents(last, n);
      }
      Distribute(c, o, last == p);
    }
  }

  lemma SnocCount(front: seq<Post>, last: Post, p: Post)
    ensures multiset(front + [last])[p] == multiset(front)[p] + if last == p then 1 else 0
  {
  }

  lemma Distribute(c: nat, o: nat, same: bool)
    ensures c * o + (if same then o else 0) == (c + if same then 1 else 0) * o
  {
  }

  /**
   * A post whose tag list is missing and one whose tag list is empty change
   * nothing: no group, no key.
   */
  lemma UntaggedPostChangesNothing(posts: seq<Post>, p: Post, t: string)
    requires p.frontmatter.tags.None? || p.frontmatter.tags == Some([])
    ensures Groups(posts + [p]) == Groups(posts)
    ensures KeyOrder(posts + [p]) == KeyOrder(posts)
    ensures GroupOf(posts + [p], t) == GroupOf(posts, t)
  {
    var s := posts + [p];
    assert s[..|s| - 1] == posts && s[|s| - 1] == p;
    assert TagsOf(p) == [];
    assert Repeat(p, Occurrences(TagsOf(p), t)) == [];
  }

  /** No group is empty, and there is a group for every tag that occurs. */
  lemma GroupNonEmptyIff(posts: seq<Post>, t: string)
    ensures GroupOf(posts, t) != [] <==> t in DistinctTags(posts)
  {
    if GroupOf(posts, t) != [] {
      GroupMembers(posts, t, GroupOf(posts, t)[0]);
    }
    if t in DistinctTags(posts) {
      var i :| 0 <= i < |posts| && t in TagsOf(posts[i]);
      GroupMembers(posts, t, posts[i]);
    }
  }

  /** `a` is `b` with some elements left out, the rest in order. */
  predicate IsSubsequence(a: seq<Post>, b: seq<Post>)
    decreases |b|
  {
    if a == [] then true
    else if b == [] then false
    else (a[|a| - 1] == b[|b| - 1] && IsSubsequence(a[..|a| - 1], b[..|b| - 1]))
         || IsSubsequence(a, b[..|b| - 1])
  }

  /** No post lists the same tag twice. */
  predicate NoRepeatedTags(posts: seq<Post>)
  {
    forall i :: 0 <= i < |posts| ==> Distinct(TagsOf(posts[i]))
  }

  /** When no post repeats a tag, the group of `t` keeps the input order of the posts. */
  lemma {:induction false} GroupIsSubsequence(posts: seq<Post>, t: string)
    requires NoRepeatedTags(posts)
    ensures IsSubsequence(GroupOf(posts, t), posts)
  {
    if posts != [] {
      var front, last := posts[..|posts| - 1], posts[|posts| - 1];
      assert NoRepeatedTags(front) by {
        forall i | 0 <= i < |front| ensures Distinct(TagsOf(front[i])) {
          assert front[i] == posts[i];
        }
      }
      GroupIsSubsequence(front, t);
      OccurrencesOfDistinct(TagsOf(last), t);
      var n := Occurrences(TagsOf(last), t);
      var g := GroupOf(posts, t);
      if n == 0 {
        assert g == GroupOf(front, t);
        if g != [] {
          assert IsSubsequence(g, front);
        }
      } else {
        assert Repeat(last, n) == [last];
        assert g == GroupOf(front, t) + [last];
        assert g[..|g| - 1] == GroupOf(front, t);
      }
    }
  }

  /** Posts in newest-first order by `date`. */
  predicate NewestFirst(s: seq<Post>, date: Frontmatter -> int)
  {
    forall i, j :: 0 <= i < j < |s| ==> date(s[j].frontmatter) <= date(s[i].frontmatter)
  }

  /** Given newest-first posts, every tag page lists its posts newest-first too. */
  lemma {:induction false} GroupNewestFirst(posts: seq<Post>, t: string, date: Frontmatter -> int)
    requires NewestFirst(posts, date)
    ensures NewestFirst(GroupOf(posts, t), date)
  {
    if posts != [] {
      var front, last := posts[..|posts| - 1], posts[|posts| - 1];
      GroupNewestFirst(front, t, date);
      var g := GroupOf(front, t);
      var n := Occurrences(TagsOf(last), t);
      var r := Repeat(last, n);
      RepeatContents(last, n);
      var gr: seq<Post> := g + r;
      assert GroupOf(posts, t) == gr;
      forall i, j | 0 <= i < j < |gr|
        ensures date(gr[j].frontmatter) <= date(gr[i].frontmatter)
      {
        if |g| <= j {
          assert gr[j] == last;
          if i < |g| {
            GroupMembers(front, t, g[i]);
            var m :| 0 <= m < |front| && front[m] == g[i];
            assert posts[m] == g[i];
          }
        }
      }
    }
  }

  // ---------------------------------------------------------------------------
  // Properties of the tag list

  lemma {:induction false} AddKeysContents(keys: seq<string>, tags: seq<string>)
    ensures Distinct(keys) ==> Distinct(AddKeys(keys, tags))
    ensures forall t :: t in AddKeys(keys, tags) <==> t in keys || t in tags
  {
    if tags != [] {
      AddKeysContents(keys, tags[..|tags| - 1]);
      assert tags == tags[..|tags| - 1] + [tags[|tags| - 1]];
    }
  }

  lemma DistinctTagsOfSnoc(posts: seq<Post>)
    requires posts != []
    ensures forall t :: t in DistinctTags(posts) <==>
      t in DistinctTags(posts[..|posts| - 1]) || t in TagsOf(posts[|posts| - 1])
  {
    var front := posts[..|posts| - 1];
    forall t | t in DistinctTags(posts)
      ensures t in DistinctTags(front) || t in TagsOf(posts[|posts| - 1])
    {
      var i :| 0 <= i < |posts| && t in TagsOf(posts[i]);
      if i < |front| {
        assert front[i] == posts[i];
      }
    }
    forall t | t in DistinctTags(front)
      ensures t in DistinctTags(posts)
    {
      var i :| 0 <= i < |front| && t in TagsOf(front[i]);
      assert posts[i] == front[i];
    }
  }

  /** The dictionary's keys are each tag that occurs in some post, once. */
  lemma {:induction false} KeyOrderContents(posts: seq<Post>)
    ensures Distinct(KeyOrder(posts))
    ensures forall t :: t in KeyOrder(posts) <==> t in DistinctTags(posts)
  {
    if posts != [] {
      KeyOrderContents(posts[..|posts| - 1]);
      AddKeysContents(KeyOrder(posts[..|posts| - 1]), TagsOf(posts[|posts| - 1]));
      DistinctTagsOfSnoc(posts);
    }
  }

  lemma DistinctHasSingleCounts(s: seq<string>)
    requires Distinct(s)
    ensures forall x :: multiset(s)[x] <= 1
  {
    if s != [] {
      var front := s[..|s| - 1];
      DistinctHasSingleCounts(front);
      assert s == front + [s[|s| - 1]];
    }
  }

  lemma SingleCountsAreDistinct(s: seq<string>)
    requires forall x :: multiset(s)[x] <= 1
    ensures Distinct(s)
  {
    forall i, j | 0 <= i < j < |s|
      ensures s[i] != s[j]
    {
      assert s == s[..j] + s[j..];
      assert s[..j][i] == s[i] && s[j..][0] == s[j];
      assert multiset(s)[s[j]] == multiset(s[..j])[s[j]] + multiset(s[j..])[s[j]];
    }
  }

  lemma {:induction false} DistinctCardinality(s: seq<string>)
    requires Distinct(s)
    ensures |set x | x in s| == |s|
  {
    if s != [] {
      var front := s[..|s| - 1];
      DistinctCardinality(front);
      assert (set x | x in s) == (set x | x in front) + {s[|s| - 1]};
    }
  }

  /** Pushing `post` under each of `tags` extends the group of `t` by one copy per listing. */
  lemma {:induction false} AddTagsLookup(groups: map<string, seq<Post>>, post: Post, tags: seq<string>, t: string)
    ensures Lookup(AddTags(groups, post, tags), t) == Lookup(groups, t) + Repeat(post, Occurrences(tags, t))
  {
    if tags != [] {
      var front, tag := tags[..|tags| - 1], tags[|tags| - 1];
      AddTagsLookup(groups, post, front, t);
      var m, n := AddTags(groups, post, front), Occurrences(front, t);
      assert AddTags(groups, post, tags) == m[tag := Lookup(m, tag) + [post]];
      var before := Lookup(groups, t);
      if tag == t {
        assert Lookup(AddTags(groups, post, tags), t) == (before + Repeat(post, n)) + [post];
        assert Occurrences(tags, t) == n + 1;
        assert Repeat(post, n + 1) == Repeat(post, n) + [post];
      } else {
        assert Lookup(AddTags(groups, post, tags), t) == before + Repeat(post, n);
        assert Occurrences(tags, t) == n;
      }
    }
  }

  /** Pushing `post` under each of `tags` adds exactly those tags as keys. */
  lemma {:induction false} AddTagsKeys(groups: map<string, seq<Post>>, post: Post, tags: seq<string>, t: string)
    ensures t in AddTags(groups, post, tags) <==> t in groups || t in tags
  {
    if tags != [] {
      var front := tags[..|tags| - 1];
      AddTagsKeys(groups, post, front, t);
      assert tags == front + [tags[|tags| - 1]];
    }
  }

  /**
   * The dictionary holds, under each tag that occurs in some post and under
   * no other key, the group of that tag.
   */
  lemma {:induction false} GroupsHoldGroupOf(posts: seq<Post>, t: string)
    ensures Lookup(Groups(posts), t) == GroupOf(posts, t)
    ensures t in Groups(posts) <==> t in DistinctTags(posts)
  {
    if posts != [] {
      var front, last := posts[..|posts| - 1], posts[|posts| - 1];
      GroupsHoldGroupOf(front, t);
      AddTagsLookup(Groups(front), last, TagsOf(last), t);
      AddTagsKeys(Groups(front), last, TagsOf(last), t);
      DistinctTagsOfSnoc(posts);
    }
  }

  /**
   * The all-tags payload is sorted, lists every tag that occurs in some
   * post and nothing else, and lists each of them exactly once.
   */
  lemma TagListContents(posts: seq<Post>)
    ensures StrictlyAscending(TagList(posts))
    ensures forall t :: t in TagList(posts) <==> t in DistinctTags(posts)
    ensures |TagList(posts)| == |DistinctTags(posts)|
  {
    var keys := KeyOrder(posts);
    var tags := TagList(posts);
    KeyOrderContents(posts);
    DistinctHasSingleCounts(keys);
    assert forall x :: multiset(tags)[x] == multiset(keys)[x];
    SingleCountsAreDistinct(tags);
    AscendingDistinctIsStrict(tags);
    assert forall t :: t in tags <==> t in multiset(keys);
    DistinctCardinality(tags);
    assert (set x | x in tags) == DistinctTags(posts);
  }

  /**
   * The sort erases the order in which the dictionary lists its keys: any
   * arrangement of the same keys (an engine lists integer-like keys first)
   * gives the same all-tags payload.
   */
  lemma TagListIgnoresKeyOrder(posts: seq<Post>, keys: seq<string>)
    requires multiset(keys) == multiset(KeyOrder(posts))
    ensures SortStrings(keys) == TagList(posts)
  {
    AscendingUnique(SortStrings(keys), TagList(posts));
  }

  // ---------------------------------------------------------------------------
  // Properties of the plan

  lemma {:induction false} TagPagesAt(posts: seq<Post>, tags: seq<string>)
    ensures |TagPages(posts, tags)| == |tags|
    ensures forall k :: 0 <= k < |tags| ==> TagPages(posts, tags)[k] == TagPage(posts, tags[k])
  {
    if tags != [] {
      TagPagesAt(posts, tags[..|tags| - 1]);
    }
  }

  lemma {:induction false} PostPagesAt(posts: seq<Post>, n: nat)
    requires n <= |posts|
    ensures |PostPages(posts, n)| == n
    ensures forall i :: 0 <= i < n ==> PostPages(posts, n)[i] == PostPage(posts, i)
  {
    if n > 0 {
      PostPagesAt(posts, n - 1);
    }
  }

  /**
   * One all-tags page, one page per distinct tag and one page per post:
   * the all-tags page comes first, with route `/tags` and the sorted tags.
   */
  lemma PlanLayout(posts: seq<Post>)
    ensures |Plan(posts)| == 1 + |DistinctTags(posts)| + |posts|
    ensures Plan(posts)[0] == Page("/tags", AllTagsTemplate, AllTagsContext(TagList(posts)))
  {
    TagListContents(posts);
    TagPagesAt(posts, TagList(posts));
    PostPagesAt(posts, |posts|);
  }

  /** The pages after the first are the tag pages, in sorted tag order. */
  lemma PlanTagPage(posts: seq<Post>, k: nat)
    requires k < |TagList(posts)|
    ensures 1 + k < |Plan(posts)|
    ensures var t := TagList(posts)[k];
      Plan(posts)[1 + k] == Page("/tags/" + t, TagTemplate, TagContext(GroupOf(posts, t), t))
  {
    TagPagesAt(posts, TagList(posts));
  }

  /** The last pages are the post pages, in input order, linked to their neighbours by index. */
  lemma PlanPostPage(posts: seq<Post>, i: nat)
    requires i < |posts|
    ensures PostPageIndex(posts, i) < |Plan(posts)|
    ensures var page := Plan(posts)[PostPageIndex(posts, i)];
      && page.path == posts[i].frontmatter.path
      && page.component == BlogPostTemplate
      && page.context.PostContext?
      && page.context.path == posts[i].frontmatter.path
      && page.context.next == (if i == 0 then None else Some(posts[i - 1].frontmatter))
      && page.context.prev == (if i == |posts| - 1 then None else Some(posts[i + 1].frontmatter))
  {
    TagPagesAt(posts, TagList(posts));
    PostPagesAt(posts, |posts|);
  }

  /** With no posts the build still registers the all-tags page, with no tags. */
  lemma EmptyPlan()
    ensures Plan([]) == [Page("/tags", AllTagsTemplate, AllTagsContext([]))]
  {
  }

  /** The page registered for post `i`: after the all-tags page and the tag pages. */
  function PostPageIndex(posts: seq<Post>, i: nat): nat
  {
    1 + |TagList(posts)| + i
  }

  /** A lone post's page has neither a newer nor an older neighbour. */
  lemma SinglePostHasNoNeighbours(p: Post)
    ensures PostPageIndex([p], 0) < |Plan([p])|
    ensures var page := Plan([p])[PostPageIndex([p], 0)];
      page.context.PostContext? && page.context.next == None && page.context.prev == None
  {
    PlanPostPage([p], 0);
  }

  /**
   * The pages of neighbouring posts link to each other: the `prev` of the
   * newer one and the `next` of the older one are the front matter of the
   * post registered beside it.
   */
  lemma NeighboursAreMutual(posts: seq<Post>, i: nat)
    requires i + 1 < |posts|
    ensures PostPageIndex(posts, i + 1) < |Plan(posts)|
    ensures var newer, older := Plan(posts)[PostPageIndex(posts, i)], Plan(posts)[PostPageIndex(posts, i + 1)];
      && newer.context.PostContext? && older.context.PostContext?
      && newer.context.prev == Some(posts[i + 1].frontmatter) && newer.context.prev.value.path == older.path
      && older.context.next == Some(posts[i].frontmatter) && older.context.next.value.path == newer.path
  {
    PlanPostPage(posts, i);
    PlanPostPage(posts, i + 1);
  }

  /** Given newest-first posts, a post page's `next` is never older and its `prev` never newer than its post. */
  lemma NeighboursFollowDate(posts: seq<Post>, i: nat, date: Frontmatter -> int)
    requires NewestFirst(posts, date) && i < |posts|
    ensures PostPageIndex(posts, i) < |Plan(posts)|
    ensures var ctx := Plan(posts)[PostPageIndex(posts, i)].context;
      && ctx.PostContext?
      && (ctx.next.Some? ==> date(posts[i].frontmatter) <= date(ctx.next.value))
      && (ctx.prev.Some? ==> date(ctx.prev.value) <= date(posts[i].frontmatter))
  {
    PlanPostPage(posts, i);
  }

  /** Three newest-first posts tagged x; x and y; y. */
  lemma ThreePostPlan(a: Frontmatter, b: Frontmatter, c: Frontmatter)
    requires a.tags == Some(["x"]) && b.tags == Some(["x", "y"]) && c.tags == Some(["y"])
    ensures var posts := [Post(a), Post(b), Post(c)];
      Plan(posts) == [
        Page("/tags", AllTagsTemplate, AllTagsContext(["x", "y"])),
        Page("/tags/x", TagTemplate, TagContext([Post(a), Post(b)], "x")),
        Page("/tags/y", TagTemplate, TagContext([Post(b), Post(c)], "y")),
        Page(a.path, BlogPostTemplate, PostContext(a.path, None, Some(b))),
        Page(b.path, BlogPostTemplate, PostContext(b.path, Some(a), Some(c))),
        Page(c.path, BlogPostTemplate, PostContext(c.path, Some(b), None))]
  {
    ThreePostTagPlan(a, b, c);
    ThreePostPostPages(a, b, c);
  }

  lemma ThreePostTagPlan(a: Frontmatter, b: Frontmatter, c: Frontmatter)
    requires a.tags == Some(["x"]) && b.tags == Some(["x", "y"]) && c.tags == Some(["y"])
    ensures TagPlan([Post(a), Post(b), Post(c)]) == [
        Page("/tags", AllTagsTemplate, AllTagsContext(["x", "y"])),
        Page("/tags/x", TagTemplate, TagContext([Post(a), Post(b)], "x")),
        Page("/tags/y", TagTemplate, TagContext([Post(b), Post(c)], "y"))]
  {
    ThreePostTags(a, b, c);
    ThreePostTagPages(a, b, c);
  }

  lemma ThreePostTagPages(a: Frontmatter, b: Frontmatter, c: Frontmatter)
    requires a.tags == Some(["x"]) && b.tags == Some(["x", "y"]) && c.tags == Some(["y"])
    ensures TagPages([Post(a), Post(b), Post(c)], ["x", "y"]) == [
        Page("/tags/x", TagTemplate, TagContext([Post(a), Post(b)], "x")),
        Page("/tags/y", TagTemplate, TagContext([Post(b), Post(c)], "y"))]
  {
    var posts := [Post(a), Post(b), Post(c)];
    ThreePostGroups(a, b, c);
    TagPagesAt(posts, ["x", "y"]);
    assert "/tags/" + "x" == "/tags/x" && "/tags/" + "y" == "/tags/y";
  }

  lemma ThreePostPostPages(a: Frontmatter, b: Frontmatter, c: Frontmatter)
    ensures PostPages([Post(a), Post(b), Post(c)], 3) == [
        Page(a.path, BlogPostTemplate, PostContext(a.path, None, Some(b))),
        Page(b.path, BlogPostTemplate, PostContext(b.path, Some(a), Some(c))),
        Page(c.path, BlogPostTemplate, PostContext(c.path, Some(b), None))]
  {
    var posts := [Post(a), Post(b), Post(c)];
    PostPagesAt(posts, 3);
    assert PostPages(posts, 3) == [PostPage(posts, 0), PostPage(posts, 1), PostPage(posts, 2)];
  }

  lemma ThreePostTags(a: Frontmatter, b: Frontmatter, c: Frontmatter)
    requires a.tags == Some(["x"]) && b.tags == Some(["x", "y"]) && c.tags == Some(["y"])
    ensures TagList([Post(a), Post(b), Post(c)]) == ["x", "y"]
  {
    ThreePostKeyOrder(a, b, c);
    SortedTagPair();
  }

  lemma SortedTagPair()
    ensures SortStrings(["x", "y"]) == ["x", "y"]
  {
    assert ["x", "y"][..1] == ["x"] && ["x"][..0] == [];
    assert SortStrings(["x"]) == ["x"];
    assert Less("x", "y");
  }

  lemma ThreePostKeyOrder(a: Frontmatter, b: Frontmatter, c: Frontmatter)
    requires a.tags == Some(["x"]) && b.tags == Some(["x", "y"]) && c.tags == Some(["y"])
    ensures KeyOrder([Post(a), Post(b), Post(c)]) == ["x", "y"]
  {
    var posts := [Post(a), Post(b), Post(c)];
    var xs, xys, ys := TagsOf(Post(a)), TagsOf(Post(b)), TagsOf(Post(c));
    assert KeyOrder([Post(a)]) == ["x"] by {
      assert [Post(a)][..0] == [] && xs == ["x"] && xs[..0] == [];
      assert AddKeys([], xs[..0]) == [];
    }
    assert KeyOrder(posts[..2]) == ["x", "y"] by {
      assert posts[..2] == [Post(a), Post(b)] && posts[..2][..1] == [Post(a)];
      assert xys == ["x", "y"] && xys[..1] == ["x"] && ["x"][..0] == [];
      assert AddKeys(["x"], xys[..1]) == ["x"];
    }
    assert ys == ["y"] && ys[..0] == [];
    assert AddKeys(["x", "y"], ys[..0]) == ["x", "y"];
  }

  lemma ThreePostGroups(a: Frontmatter, b: Frontmatter, c: Frontmatter)
    requires a.tags == Some(["x"]) && b.tags == Some(["x", "y"]) && c.tags == Some(["y"])
    ensures GroupOf([Post(a), Post(b), Post(c)], "x") == [Post(a), Post(b)]
    ensures GroupOf([Post(a), Post(b), Post(c)], "y") == [Post(b), Post(c)]
  {
    var posts := [Post(a), Post(b), Post(c)];
    assert posts[..2] == [Post(a), Post(b)] && posts[..2][..1] == [Post(a)] && [Post(a)][..0] == [];
    var xs, xys, ys := TagsOf(Post(a)), TagsOf(Post(b)), TagsOf(Post(c));
    assert xs == ["x"] && xys == ["x", "y"] && ys == ["y"];
    assert xys[..1] == xs && xs[..0] == [] && ys[..0] == [];
    assert Repeat(Post(a), 1) == [Post(a)] && Repeat(Post(b), 1) == [Post(b)] && Repeat(Post(c), 1) == [Post(c)];
    assert Occurrences(xs, "x") == 1 && Occurrences(xs, "y") == 0;
    assert Occurrences(xys, "x") == 1 && Occurrences(xys, "y") == 1;
    assert Occurrences(ys, "x") == 0 && Occurrences(ys, "y") == 1;
    assert GroupOf([Post(a)], "x") == [Post(a)] && GroupOf([Post(a)], "y") == [];
    assert [Post(a), Post(b)][..1] == [Post(a)];
    assert GroupOf([Post(a), Post(b)], "x") == [Post(a), Post(b)];
    assert GroupOf([Post(a), Post(b)], "y") == [Post(b)];
  }
}
