/**
 * The tag dictionary of the build script as the object literal `{}` it is.
 * Reading `postsByTag[tag]` finds not only the groups the script created but
 * also the properties every object inherits from `Object.prototype`. For such
 * a tag the "create the group if missing" test sees a truthy value, no group
 * is created, and the following `push` is not a function: the build fails
 * with a TypeError. The rest of the model uses a dictionary without inherited
 * entries, which is what the script evidently means.
 */
module ObjectLookup {
  import opened PagePlan
  import opened GatsbyNode

  /** The properties an object literal inherits; each is truthy and none has a `push` method. */
  const InheritedNames: set<string> := {
    "constructor", "hasOwnProperty", "isPrototypeOf", "propertyIsEnumerable",
    "toLocaleString", "toString", "valueOf", "__proto__",
    "__defineGetter__", "__defineSetter__", "__lookupGetter__", "__lookupSetter__"
  }

  /** The grouping pass either completes or throws from `push` on the named tag. */
  datatype Grouping = Grouped(groups: map<string, seq<Post>>) | PushNotAFunction(tag: string)

  /** The inner loop as written, with inherited properties visible through `postsByTag[tag]`. */
  function AddTagsAsWritten(groups: map<string, seq<Post>>, post: Post, tags: seq<string>): (r: Grouping)
    ensures r.PushNotAFunction? ==> r.tag in InheritedNames && r.tag in tags && r.tag !in groups
    ensures r.Grouped? ==> forall t :: t in r.groups <==> t in groups || t in tags
  {
    if tags == [] then Grouped(groups)
    else
      assert tags == tags[..|tags| - 1] + [tags[|tags| - 1]];
      match AddTagsAsWritten(groups, post, tags[..|tags| - 1])
      case PushNotAFunction(t) => PushNotAFunction(t)
      case Grouped(m) =>
        var tag := tags[|tags| - 1];
        if tag in m then Grouped(m[tag := m[tag] + [post]])
        else if tag in InheritedNames then PushNotAFunction(tag)
        else Grouped(m[tag := [post]])
  }

  /** The grouping pass as written. */
  function GroupAsWritten(posts: seq<Post>): (r: Grouping)
    ensures r.PushNotAFunction? ==> r.tag in InheritedNames && r.tag in DistinctTags(posts)
    ensures r.Grouped? ==> forall t :: t in r.groups <==> t in DistinctTags(posts)
  {
    if posts == [] then Grouped(map[])
    else
      DistinctTagsOfSnoc(posts);
      match GroupAsWritten(posts[..|posts| - 1])
      case PushNotAFunction(t) => PushNotAFunction(t)
      case Grouped(m) => AddTagsAsWritten(m, posts[|posts| - 1], TagsOf(posts[|posts| - 1]))
  }

  predicate NoInheritedKeys(m: map<string, seq<Post>>)
  {
    forall t :: t in m ==> t !in InheritedNames
  }

  lemma {:induction false} AddTagsAsWrittenThrows(groups: map<string, seq<Post>>, post: Post, tags: seq<string>, t: string)
    requires NoInheritedKeys(groups)
    ensures AddTagsAsWritten(groups, post, tags).Grouped? ==>
      NoInheritedKeys(AddTagsAsWritten(groups, post, tags).groups)
    ensures t in tags && t in InheritedNames ==> AddTagsAsWritten(groups, post, tags).PushNotAFunction?
  {
    if tags != [] {
      var front := tags[..|tags| - 1];
      AddTagsAsWrittenThrows(groups, post, front, t);
      assert tags == front + [tags[|tags| - 1]];
    }
  }

  /** As written, any post listing an inherited name makes the whole grouping pass throw. */
  lemma {:induction false} InheritedTagThrows(posts: seq<Post>, t: string)
    requires t in InheritedNames && t in DistinctTags(posts)
    ensures GroupAsWritten(posts).PushNotAFunction?
  {
    GroupAsWrittenKeys(posts);
    var front := posts[..|posts| - 1];
    DistinctTagsOfSnoc(posts);
    if t in DistinctTags(front) {
      InheritedTagThrows(front, t);
    } else {
      match GroupAsWritten(front)
      case PushNotAFunction(_) =>
      case Grouped(m) =>
        GroupAsWrittenKeys(front);
        AddTagsAsWrittenThrows(m, posts[|posts| - 1], TagsOf(posts[|posts| - 1]), t);
    }
  }

  lemma {:induction false} GroupAsWrittenKeys(posts: seq<Post>)
    ensures GroupAsWritten(posts).Grouped? ==> NoInheritedKeys(GroupAsWritten(posts).groups)
  {
    if posts != [] {
      var front := posts[..|posts| - 1];
      GroupAsWrittenKeys(front);
      match GroupAsWritten(front)
      case PushNotAFunction(_) =>
      case Grouped(m) =>
        AddTagsAsWrittenThrows(m, posts[|posts| - 1], TagsOf(posts[|posts| - 1]), "");
    }
  }

  /** The smallest input that shows it: one post tagged `constructor`. */
  lemma ConstructorTagThrows(p: Post)
    requires TagsOf(p) == ["constructor"]
    ensures GroupAsWritten([p]) == PushNotAFunction("constructor")
    ensures "constructor" in Groups([p]) && Groups([p])["constructor"] == [p]
  {
    var tags := TagsOf(p);
    assert [p][..0] == [] && tags[..0] == [];
    assert GroupAsWritten([]) == Grouped(map[]);
    assert AddTagsAsWritten(map[], p, []) == Grouped(map[]);
    assert "constructor" in InheritedNames;
    assert AddTagsAsWritten(map[], p, tags) == PushNotAFunction("constructor");
    ConstructorTagGroup(p);
  }

  lemma ConstructorTagGroup(p: Post)
    requires TagsOf(p) == ["constructor"]
    ensures "constructor" in Groups([p]) && Groups([p])["constructor"] == [p]
  {
    var tags := TagsOf(p);
    assert [p][..0] == [] && tags[..0] == [];
    assert Groups([]) == map[];
    assert AddTags(map[], p, []) == map[];
    assert Lookup(map[], "constructor") + [p] == [p];
    assert AddTags(map[], p, tags) == map["constructor" := [p]];
  }

  lemma {:induction false} AddTagsAsWrittenAgrees(groups: map<string, seq<Post>>, post: Post, tags: seq<string>)
    requires forall t :: t in tags ==> t !in InheritedNames
    ensures AddTagsAsWritten(groups, post, tags) == Grouped(AddTags(groups, post, tags))
  {
    if tags != [] {
      var front := tags[..|tags| - 1];
      assert tags == front + [tags[|tags| - 1]];
      var tag := tags[|tags| - 1];
      assert tag !in InheritedNames;
      AddTagsAsWrittenAgrees(groups, post, front);
      var m := AddTags(groups, post, front);
      assert AddTags(groups, post, tags) == m[tag := Lookup(m, tag) + [post]];
      if tag !in m {
        assert Lookup(m, tag) + [post] == [post];
      }
    }
  }

  /** Where no tag is an inherited name, the code as written builds exactly the dictionary of the model. */
  lemma {:induction false} GroupAsWrittenAgrees(posts: seq<Post>)
    requires forall t :: t in DistinctTags(posts) ==> t !in InheritedNames
    ensures GroupAsWritten(posts) == Grouped(Groups(posts))
  {
    if posts != [] {
      var front, last := posts[..|posts| - 1], posts[|posts| - 1];
      DistinctTagsOfSnoc(posts);
      GroupAsWrittenAgrees(front);
      AddTagsAsWrittenAgrees(Groups(front), last, TagsOf(last));
    }
  }

  /** How one build settles and the pages it registers. */
  datatype Build = Build(outcome: BuildOutcome, pages: seq<Page>)

  /**
   * `createPages` as written: the misspelt rejection when the query reports
   * errors; otherwise the grouping pass, which throws before the first page
   * is registered when `push` is not a function; otherwise every page of the
   * plan.
   */
  function BuildAsWritten(result: QueryResult): (b: Build)
    ensures b.outcome.Rejected? ==> b.pages == []
    ensures b.outcome.Rejected? && result.errors.None? ==>
      b.outcome.error == TypeError("push") && exists t :: t in InheritedNames && t in DistinctTags(result.edges)
  {
    if result.errors.Some? then Build(Rejected(ReferenceError("results")), [])
    else
      match GroupAsWritten(result.edges)
      case PushNotAFunction(_) => Build(Rejected(TypeError("push")), [])
      case Grouped(_) => Build(Resolved, Plan(result.edges))
  }

  /** As written, a build whose posts list an inherited name is rejected with a TypeError and registers no page. */
  lemma InheritedTagRejectsBuild(result: QueryResult, t: string)
    requires result.errors.None? && t in InheritedNames && t in DistinctTags(result.edges)
    ensures BuildAsWritten(result) == Build(Rejected(TypeError("push")), [])
  {
    InheritedTagThrows(result.edges, t);
  }

  /**
   * Where no tag is an inherited name, the build as written settles and
   * registers exactly what the model's `CreatePages` promises.
   */
  lemma BuildAsWrittenAgrees(result: QueryResult)
    requires forall t :: t in DistinctTags(result.edges) ==> t !in InheritedNames
    ensures result.errors.Some? ==> BuildAsWritten(result) == Build(Rejected(ReferenceError("results")), [])
    ensures result.errors.None? ==> BuildAsWritten(result) == Build(Resolved, Plan(result.edges))
  {
    GroupAsWrittenAgrees(result.edges);
  }

  /**
   * The smallest build that shows the defect: one post tagged `constructor`.
   * As written nothing is registered; the corrected dictionary gives the
   * all-tags page, the `constructor` tag page and the post page.
   */
  lemma ConstructorPostBuild(p: Post)
    requires TagsOf(p) == ["constructor"]
    ensures BuildAsWritten(QueryResult(None, [p])) == Build(Rejected(TypeError("push")), [])
    ensures |Plan([p])| == 3 && Plan([p])[1] == Page("/tags/" + "constructor", TagTemplate, TagContext([p], "constructor"))
  {
    ConstructorTagThrows(p);
    ConstructorPostPlan(p);
  }

  lemma ConstructorPostPlan(p: Post)
    requires TagsOf(p) == ["constructor"]
    ensures |Plan([p])| == 3 && Plan([p])[1] == Page("/tags/" + "constructor", TagTemplate, TagContext([p], "constructor"))
  {
    ConstructorTagList(p);
    PlanLayout([p]);
    PlanTagPage([p], 0);
    assert GroupOf([p], "constructor") == [p] by {
      ConstructorTagGroup(p);
      GroupsHoldGroupOf([p], "constructor");
    }
  }

  lemma ConstructorTagList(p: Post)
    requires TagsOf(p) == ["constructor"]
    ensures TagList([p]) == ["constructor"] && |DistinctTags([p])| == 1
  {
    assert DistinctTags([p]) == {"constructor"} by {
      assert "constructor" in TagsOf([p][0]);
    }
    TagListContents([p]);
    assert |TagList([p])| == 1;
    assert TagList([p])[0] in TagList([p]);
  }
}
