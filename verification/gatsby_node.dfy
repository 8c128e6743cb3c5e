/**
 * The build-time page generation of `gatsby-node.js`: the tag step groups the
 * posts by tag in a dictionary, sorts the tag names in place and registers the
 * all-tags page and one page per tag; the post step registers one page per
 * post linked to its neighbours. Each registration goes through `createPage`,
 * modelled as appending to the site's list of pages.
 */
module GatsbyNode {
  import opened StringOrder
  import opened PagePlan

  /** The site generator's page registry, seen through its `createPage` action. */
  class Site {
    var pages: seq<Page>

    constructor ()
      ensures pages == []
    {
      pages := [];
    }

    /** `createPage`: registers one page after those already registered. */
    method CreatePage(page: Page)
      modifies this
      ensures pages == old(pages) + [page]
    {
      pages := pages + [page];
    }
  }

  /** What the page query hands back: its error list, if any, and the post edges. */
  datatype QueryResult = QueryResult(errors: Option<seq<string>>, edges: seq<Post>)

  /** What a build can be rejected with: a name that is not bound, or a call of a property that is not a function. */
  datatype JsError = ReferenceError(name: string) | TypeError(notAFunction: string)

  /** How the promise returned to the site generator settles. */
  datatype BuildOutcome = Resolved | Rejected(error: JsError)

  /**
   * The inner loop of the grouping: pushes `post` onto the group of each tag
   * it lists, creating the group first for a tag not seen before, and records
   * each new key.
   */
  method AddToGroups(postsByTag: map<string, seq<Post>>, keys: seq<string>, post: Post, postTags: seq<string>)
    returns (postsByTag': map<string, seq<Post>>, keys': seq<string>)
    requires forall t :: t in postsByTag <==> t in keys
    ensures postsByTag' == AddTags(postsByTag, post, postTags)
    ensures keys' == AddKeys(keys, postTags)
    ensures forall t :: t in postsByTag' <==> t in keys'
  {
    postsByTag', keys' := postsByTag, keys;
    var j := 0;
    while j < |postTags|
      invariant 0 <= j <= |postTags|
      invariant postsByTag' == AddTags(postsByTag, post, postTags[..j])
      invariant keys' == AddKeys(keys, postTags[..j])
      invariant forall t :: t in postsByTag' <==> t in keys'
    {
      var tag := postTags[j];
      assert postTags[..j + 1][..j] == postTags[..j];
      if tag !in postsByTag' {
        postsByTag' := postsByTag'[tag := []];
        keys' := keys' + [tag];
      }
      postsByTag' := postsByTag'[tag := postsByTag'[tag] + [post]];
      j := j + 1;
    }
    assert postTags[..|postTags|] == postTags;
  }

  /**
   * The grouping pass: the dictionary from each tag to its group, and its
   * keys in the order they were added.
   */
  method GroupPosts(posts: seq<Post>) returns (postsByTag: map<string, seq<Post>>, keys: seq<string>)
    ensures postsByTag == Groups(posts)
    ensures keys == KeyOrder(posts)
  {
    postsByTag, keys := map[], [];
    var i := 0;
    while i < |posts|
      invariant 0 <= i <= |posts|
      invariant postsByTag == Groups(posts[..i])
      invariant keys == KeyOrder(posts[..i])
      invariant forall t :: t in postsByTag <==> t in keys
    {
      var post := posts[i];
      assert posts[..i + 1][..i] == posts[..i];
      if post.frontmatter.tags.Some? {
        postsByTag, keys := AddToGroups(postsByTag, keys, post, post.frontmatter.tags.value);
      }
      i := i + 1;
    }
    assert posts[..|posts|] == posts;
  }

  /**
   * `createTagPages`: registers the all-tags page and then one page per tag,
   * in sorted tag order, each listing the tag's group.
   */
  method CreateTagPages(site: Site, posts: seq<Post>)
    modifies site
    ensures site.pages == old(site.pages) + TagPlan(posts)
  {
    var postsByTag, keys := GroupPosts(posts);
    var tags := SortedKeys(keys);
    assert tags[..] == TagList(posts);
    TagListIsGrouped(posts, postsByTag);
    EmitTagPlan(site, posts, postsByTag, tags);
  }

  /** `Object.keys(postsByTag)` copied into a fresh array, then `tags.sort()` in place. */
  method SortedKeys(keys: seq<string>) returns (tags: array<string>)
    ensures fresh(tags)
    ensures tags[..] == SortStrings(keys)
  {
    tags := new string[|keys|](k requires 0 <= k < |keys| => keys[k]);
    assert tags[..] == keys;
    SortInPlace(tags);
  }

  /** Each of `tags` is a key of `postsByTag`, mapped to the group of that tag. */
  ghost predicate HoldsGroups(posts: seq<Post>, postsByTag: map<string, seq<Post>>, tags: seq<string>)
  {
    forall k :: 0 <= k < |tags| ==> tags[k] in postsByTag && postsByTag[tags[k]] == GroupOf(posts, tags[k])
  }

  /** Every sorted tag names a group of the dictionary the grouping pass built. */
  lemma TagListIsGrouped(posts: seq<Post>, postsByTag: map<string, seq<Post>>)
    requires postsByTag == Groups(posts)
    ensures HoldsGroups(posts, postsByTag, TagList(posts))
  {
    forall k | 0 <= k < |TagList(posts)|
      ensures TagList(posts)[k] in postsByTag && postsByTag[TagList(posts)[k]] == GroupOf(posts, TagList(posts)[k])
    {
      var t := TagList(posts)[k];
      TagListContents(posts);
      GroupsHoldGroupOf(posts, t);
      assert t in DistinctTags(posts);
      assert Lookup(postsByTag, t) == GroupOf(posts, t);
    }
  }

  /** The two `createPage` steps of `createTagPages`: the all-tags page, then the tag pages. */
  method EmitTagPlan(site: Site, posts: seq<Post>, postsByTag: map<string, seq<Post>>, tags: array<string>)
    requires HoldsGroups(posts, postsByTag, tags[..])
    modifies site
    ensures site.pages == old(site.pages) + TagPlanOf(posts, tags[..])
  {
    site.CreatePage(Page("/tags", AllTagsTemplate, AllTagsContext(tags[..])));
    EmitTagPages(site, posts, postsByTag, tags);
  }

  /** The `tags.forEach` of `createTagPages`: one page per tag, in the array's order. */
  method EmitTagPages(site: Site, posts: seq<Post>, postsByTag: map<string, seq<Post>>, tags: array<string>)
    requires HoldsGroups(posts, postsByTag, tags[..])
    modifies site
    ensures site.pages == old(site.pages) + TagPages(posts, tags[..])
  {
    var k := 0;
    while k < tags.Length
      invariant 0 <= k <= tags.Length
      invariant site.pages == old(site.pages) + TagPages(posts, tags[..k])
    {
      assert tags[k] == tags[..][k];
      var tagName := tags[k];
      var group := postsByTag[tagName];
      site.CreatePage(Page("/tags/" + tagName, TagTemplate, TagContext(group, tagName)));
      assert tags[..k + 1][..k] == tags[..k];
      k := k + 1;
    }
    assert tags[..tags.Length] == tags[..];
  }

  /**
   * `createPages`: when the query reports errors the build is rejected before
   * any page is registered (the rejection names the misspelt `results`, so it
   * carries a reference error, not the query's errors); otherwise the tag
   * pages are registered and then one page per post.
   */
  method CreatePages(site: Site, result: QueryResult) returns (outcome: BuildOutcome)
    modifies site
    ensures result.errors.Some? ==>
      outcome == Rejected(ReferenceError("results")) && site.pages == old(site.pages)
    ensures result.errors.None? ==>
      outcome == Resolved && site.pages == old(site.pages) + Plan(result.edges)
  {
    if result.errors.Some? {
      return Rejected(ReferenceError("results"));
    }
    var posts := result.edges;
    CreateTagPages(site, posts);
    var i := 0;
    while i < |posts|
      invariant 0 <= i <= |posts|
      invariant site.pages == old(site.pages) + TagPlan(posts) + PostPages(posts, i)
    {
      var path := posts[i].frontmatter.path;
      var next := if i == 0 then None else Some(posts[i - 1].frontmatter);
      var prev := if i == |posts| - 1 then None else Some(posts[i + 1].frontmatter);
      site.CreatePage(Page(path, BlogPostTemplate, PostContext(path, next, prev)));
      i := i + 1;
    }
    outcome := Resolved;
  }
}
