# Page generation of a Gatsby blog, in Dafny

This project models the build-time page generation of a small Gatsby blog,
the two functions of `gatsby-node.js`:

- `createTagPages` groups the posts by tag in a dictionary. It takes the
  dictionary's keys, sorts them in place with `Array.prototype.sort()`, and
  registers the all-tags page (route `/tags`, listing the sorted tags). It
  then registers one page per tag (route `/tags/<tag>`, listing the posts
  that carry the tag).
- `createPages` runs the page query. When the query reports errors, the build
  is rejected before any page is registered. Otherwise it registers the tag
  pages, then one page per post. Each post page is linked to its neighbours:
  `next` is the newer post (none for the first), `prev` is the older post
  (none for the last).

The project has four modules:

- `StringOrder` (`string_order.dfy`):
  - the order in which `sort()` with no comparator puts strings,
    lexicographic by character, proved to be a strict total order;
  - a functional insertion sort, `SortStrings`, the reference definition of
    sorting;
  - the in-place sort on an `array<string>`, proved to leave exactly
    `SortStrings` of the old contents.
- `PagePlan` (`page_plan.dfy`):
  - the pages one build registers, as functions of the posts the query
    returns: the group of a tag (`GroupOf`), the dictionary built by the
    grouping pass (`Groups`), its keys in insertion order (`KeyOrder`), the
    sorted tag list (`TagList`), the tag pages and the post pages, and the
    whole plan in registration order (`Plan`);
  - the lemmas about these functions.
- `GatsbyNode` (`gatsby_node.dfy`):
  - the imperative model. `Site` is the page registry, and its `CreatePage`
    appends one page to `pages`.
  - the grouping loops (`GroupPosts`, `AddToGroups`), which build the
    dictionary as a `map` and record its keys in insertion order;
  - the copy of the keys into a fresh array, sorted in place;
  - the two registration loops, and `CreatePages` with its error branch.
  - Each method is proved against the functions of `PagePlan`: when the
    query reports no errors, `CreatePages` leaves the registry holding
    exactly the old pages followed by `Plan(posts)`; when it reports
    errors, the build is rejected and the registry is unchanged.
- `ObjectLookup` (`object_lookup.dfy`): the dictionary as the object
  literal `{}` that it is, with the names every object inherits from
  `Object.prototype`, and the whole build as written (`BuildAsWritten`).
  - It exhibits the defect listed under Findings: a post that lists such a
    name makes the build reject with a TypeError before any page is
    registered.
  - It proves that, when no tag is such a name, the code as written builds
    exactly the dictionary of the model and registers exactly the pages
    that `CreatePages` promises.

The methods of `GatsbyNode` model the corrected dictionary, one without
inherited entries (see Findings and "Left out"). Everywhere else, where the
written code and the intended design part ways, the model follows the code:

- The error branch calls `reject(results.errors)`. `results` is undefined,
  so the callback throws a `ReferenceError` before any page is registered,
  and the build's promise settles with that error, not with the query's
  errors. `CreatePages` returns `Rejected(ReferenceError("results"))` and
  leaves the registry unchanged.
- Two posts with the same `path` are not rejected. The code has no such
  check, so both post pages are registered.

The posts come from the page query sorted newest-first by `date`, and the
code relies on that order without checking it. Lemmas that depend on the
order take the date as a key function `date: Frontmatter -> int` and assume
`NewestFirst(posts, date)` (no date is later than an earlier post's date).

## Model

| member | source | states |
|---|---|---|
| GatsbyNode.Site.CreatePage | gatsby-node.js:23-29 | registering a page appends it after every page already registered and changes nothing else |
| GatsbyNode.AddToGroups | gatsby-node.js:11-17 | for each tag of the post, creates the tag's group when missing and pushes the post onto it; the resulting dictionary is `AddTags` of the old one, the keys gain exactly the new tags in first-seen order, and the keys always list exactly the dictionary's entries |
| GatsbyNode.GroupPosts | gatsby-node.js:7-19 | the grouping pass over all posts (a post without tags is skipped) builds exactly `Groups(posts)`, with keys `KeyOrder(posts)` |
| GatsbyNode.SortedKeys | gatsby-node.js:21-27 | `Object.keys` copied into a fresh array, then sorted in place, holds `SortStrings` of the keys |
| GatsbyNode.TagListIsGrouped | gatsby-node.js:31-32 | every tag of the sorted list is a key of the dictionary, and it maps to that tag's group |
| GatsbyNode.EmitTagPages | gatsby-node.js:31-42 | the `forEach` over the sorted tags registers, in array order, one page per tag: route `/tags/<tag>`, the tag template, the tag's group and name |
| GatsbyNode.EmitTagPlan | gatsby-node.js:23-42 | registers the `/tags` page with the sorted tag list, then the tag pages in that order |
| GatsbyNode.CreateTagPages | gatsby-node.js:3-43 | `createTagPages` appends exactly `TagPlan(posts)`: the all-tags page, then one page per distinct tag in sorted order |
| GatsbyNode.CreatePages | gatsby-node.js:70-92 | with query errors: the build is rejected with a `ReferenceError` on `results` and no page is registered; otherwise it resolves, and the registry gains exactly `Plan(posts)`: the tag pages, then the post pages in input order with their `next`/`prev` links |
| StringOrder.Less | gatsby-node.js:27 | the comparator of `sort()` with no comparator: a proper prefix sorts first, and differing first characters decide the order |
| StringOrder.LessIsFirstDifference | gatsby-node.js:27 | `Less(a, b)` holds exactly when `a` is a proper prefix of `b`, or when at the first position where they differ `a` has the smaller character: the string comparison of ECMA-262 |
| StringOrder.LessIrreflexive | gatsby-node.js:27 | no string sorts before itself |
| StringOrder.LessAsymmetric | gatsby-node.js:27 | two strings are never each before the other |
| StringOrder.LessTransitive | gatsby-node.js:27 | the default sort order is transitive |
| StringOrder.LessTotal | gatsby-node.js:27 | any two different strings are ordered one way or the other |
| StringOrder.AscendingDistinctIsStrict | gatsby-node.js:27 | a sorted list without repeats is strictly increasing |
| StringOrder.SortStrings | gatsby-node.js:27 | the reference sort returns a sorted permutation of its input |
| StringOrder.AscendingUnique | gatsby-node.js:27 | a sorted permutation is unique: two sorted arrangements of the same strings are equal |
| StringOrder.SinkInto | gatsby-node.js:27 | one insertion step extends the sorted prefix by one element, leaves everything after position `i` unchanged, and permutes the array |
| StringOrder.SortInPlace | gatsby-node.js:27 | `tags.sort()` rearranges the array in place into exactly `SortStrings` of its old contents |
| PagePlan.UntaggedPostChangesNothing | gatsby-node.js:10 | a post with a missing tag list and a post with an empty one both leave every group and the key order unchanged |
| PagePlan.NextOf | gatsby-node.js:85 | the first post has no `next`; any other post's `next` is the previous post's front matter, and that post's `prev` is this post's front matter |
| PagePlan.AddKeysContents | gatsby-node.js:12-13 | adding keys keeps them free of repeats, and afterwards the keys are the old keys plus the new tags |
| PagePlan.AddTagsLookup | gatsby-node.js:11-17 | the inner loop extends the group of each tag by one copy of the post per time the post lists that tag, and leaves every other group unchanged |
| PagePlan.AddTagsKeys | gatsby-node.js:11-17 | afterwards the dictionary's keys are its old keys plus the post's tags |
| PagePlan.GroupsHoldGroupOf | gatsby-node.js:9-19 | the dictionary holds each tag's group, and its keys are exactly the tags that occur in some post |
| PagePlan.GroupMembers | gatsby-node.js:9-19 | a post is in the group of `t` if and only if it is one of the posts and lists `t` |
| PagePlan.GroupMultiplicity | gatsby-node.js:9-19 | a post appears in the group of `t` (count in the input) × (times it lists `t`) times |
| PagePlan.GroupNonEmptyIff | gatsby-node.js:9-21 | the group of `t` is non-empty if and only if `t` occurs in some post, so no tag page lists no posts |
| PagePlan.GroupIsSubsequence | gatsby-node.js:9-19 | when no post repeats a tag, each group keeps the posts in input order |
| PagePlan.GroupNewestFirst | gatsby-node.js:9-19 | given newest-first posts, every group is newest-first too |
| PagePlan.KeyOrderContents | gatsby-node.js:21 | `Object.keys` lists each tag that occurs in some post exactly once, and nothing else |
| PagePlan.TagListContents | gatsby-node.js:21-27 | the all-tags payload is strictly increasing, contains exactly the distinct tags, and is as long as the set of distinct tags |
| PagePlan.TagListIgnoresKeyOrder | gatsby-node.js:21-27 | any arrangement of the same keys gives the same sorted payload, so the order in which the engine lists keys does not matter |
| PagePlan.PlanLayout | gatsby-node.js:23-42 | one build registers 1 + (distinct tags) + (posts) pages, and the first is `/tags` with the sorted tags |
| PagePlan.PlanTagPage | gatsby-node.js:31-42 | page 1 + k is the page of the k-th sorted tag, with that tag's group |
| PagePlan.PlanPostPage | gatsby-node.js:79-90 | after the tag pages come the post pages in input order: route and context path are the post's path; `next` is the previous post (none for the first); `prev` is the following post (none for the last) |
| PagePlan.EmptyPlan | gatsby-node.js:21-29 | with no posts the only page is `/tags`, listing no tags |
| PagePlan.SinglePostHasNoNeighbours | gatsby-node.js:79-90 | the registered page of a lone post has neither `next` nor `prev` |
| PagePlan.NeighboursAreMutual | gatsby-node.js:79-90 | for neighbouring posts, the newer page's `prev` and the older page's `next` are the front matter of the other, whose path is the route the other page is registered under |
| PagePlan.NeighboursFollowDate | gatsby-node.js:54-90 | given newest-first posts, on every registered post page `next` is never older and `prev` is never newer than the page's post |
| PagePlan.ThreePostPlan | gatsby-node.js:3-90 | worked example: posts tagged `x`, `x y` and `y` give `/tags` with `[x, y]`, `/tags/x` with the first two posts, `/tags/y` with the last two, then three linked post pages |
| ObjectLookup.AddTagsAsWritten | gatsby-node.js:11-17 | the inner loop as written: it throws only for a listed inherited name that is not yet a key; otherwise its keys are the old keys plus the post's tags |
| ObjectLookup.GroupAsWritten | gatsby-node.js:9-19 | the grouping pass as written: it throws only for an inherited name that some post lists; otherwise its keys are exactly the tags that occur |
| ObjectLookup.BuildAsWritten | gatsby-node.js:70-92 | `createPages` as written: a rejected build registers no page, and a rejection of an error-free query is the TypeError from `push`, caused by an inherited name some post lists |
| ObjectLookup.InheritedTagRejectsBuild | gatsby-node.js:9-23 | as written, an error-free build whose posts list an inherited name is rejected with the TypeError before the first `createPage`, so no page is registered |
| ObjectLookup.BuildAsWrittenAgrees | gatsby-node.js:45-96 | when no tag is an inherited name, the build as written settles as `CreatePages` does: with query errors it is rejected with the ReferenceError and registers nothing; otherwise it resolves and registers exactly `Plan(posts)` |
| ObjectLookup.ConstructorPostBuild | gatsby-node.js:12-16 | one post tagged `constructor`: as written the build is rejected and registers no page, while the corrected plan has three pages, the second being `/tags/constructor` listing the post |
| ObjectLookup.AddTagsAsWrittenThrows | gatsby-node.js:11-17 | as written, a post that lists an inherited property name makes the inner loop throw |
| ObjectLookup.InheritedTagThrows | gatsby-node.js:9-19 | as written, when any post lists an inherited property name, the grouping pass throws |
| ObjectLookup.ConstructorTagThrows | gatsby-node.js:12-16 | one post tagged `constructor` makes the code as written throw, while the intended dictionary maps `constructor` to that post |
| ObjectLookup.AddTagsAsWrittenAgrees | gatsby-node.js:11-17 | when no tag is an inherited name, the inner loop as written builds the same dictionary as the model |
| ObjectLookup.GroupAsWrittenAgrees | gatsby-node.js:9-19 | when no tag is an inherited name, the grouping pass as written builds the same dictionary as the model |

## Left out

- The GraphQL page query (`gatsby-node.js:51-69`) is a call into the site generator. Its result is a parameter of `CreatePages`. Its sorting by date and its date formatting are not modelled; the input order is taken as given.
- The `Promise` wrapper and `resolve`/`reject` plumbing (`gatsby-node.js:49-95`) are reduced to the `BuildOutcome` that `CreatePages` returns.
- The templates resolved with `path.resolve` are the three opaque `Template` constants.
- `result.data` being missing or null is not modelled: `QueryResult` always carries its edges.
- GatsbyNode.CreatePages: `result.errors` is modelled as present or absent. Any present error list, even an empty one, is truthy and takes the error branch, which matches the code.
- StringOrder.SortInPlace: JavaScript compares strings by UTF-16 code units, while the model compares Dafny characters. The two orders differ only for characters outside the Basic Multilingual Plane, compared against characters at or above U+E000.
- StringOrder.SortInPlace: the engine's sort algorithm is not specified, and the model uses insertion sort. Any correct sort gives the same result (`StringOrder.AscendingUnique`).
- PagePlan.KeyOrder: an engine lists integer-like keys first, in numeric order. The model keeps plain insertion order. The sort erases the difference (`PagePlan.TagListIgnoresKeyOrder`).
- GatsbyNode.CreatePages: models the corrected dictionary. For posts that list an inherited `Object.prototype` name (`constructor`, `toString`, `__proto__`, …), the code as written rejects the build with a TypeError and registers no page, while this method resolves and registers `Plan(posts)`. The as-written outcome is `ObjectLookup.BuildAsWritten`; the two agree on every other input (`ObjectLookup.BuildAsWrittenAgrees`).
- GatsbyNode.CreateTagPages: models the corrected dictionary. For a post listing an inherited name, the code as written throws before its first `createPage`, while this method registers `TagPlan(posts)`.
- GatsbyNode.GroupPosts: models the corrected dictionary. For a post listing an inherited name, the code as written throws (`ObjectLookup.GroupAsWritten`), while this method returns `Groups(posts)`.
- GatsbyNode.AddToGroups: models the corrected test "is the tag an own key". The code as written tests `!postsByTag[tag]`, which is false for an inherited name, and then throws from `push` (`ObjectLookup.AddTagsAsWritten`).
- GatsbyNode.Site.CreatePage records each registration in order. How the site generator resolves two registrations of the same route is not part of this model. Two posts with the same `path` therefore both register pages, as in the code.
- The presentation code under `src/` (templates, components, the comment widget) and `gatsby-config.js` are not part of this model.

## Findings

| source | as written | input that shows it | evidently intended | confidence | as-written member | corrected member |
|---|---|---|---|---|---|---|
| gatsby-node.js:12-16 | `postsByTag` is the object literal `{}`. For a tag that names an inherited property (`constructor`, `toString`, `__proto__`, …), `postsByTag[tag]` is truthy, so no group is created, and `push` is not a function: the build throws a TypeError, so the build is rejected and registers no page | one post whose front matter lists the tags `["constructor"]` | the post is grouped under `constructor`, and a `/tags/constructor` page lists it | high; not executed | ObjectLookup.ConstructorPostBuild | PagePlan.GroupsHoldGroupOf |
