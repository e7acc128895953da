/** `createPages` (gatsby-node.js:263-350): from the sorted module and lesson
    lists returned by the query, one page per module and per lesson, each
    linked to its neighbours in its own list, then the course page. */
module PagePlanner {
  import opened Wrappers

  /** One entry of `allMdxModule.edges` (the fields the planner reads). */
  datatype ModuleEdge = ModuleEdge(id: string, slug: string, moduleNumber: int)

  /** One entry of `allMdxLesson.edges` (the fields the planner reads). */
  datatype LessonEdge = LessonEdge(id: string, slug: string, moduleNumber: int, lessonNumber: int)

  /** The query result. `errors` is present when the query failed; an
      error list that is present but empty is still truthy. */
  datatype QueryResult = QueryResult(errors: Option<seq<string>>, modules: seq<ModuleEdge>, lessons: seq<LessonEdge>)

  datatype Template = CourseTemplate | ModuleTemplate | LessonTemplate

  /** The `context` bag of a page; `None` stands for `undefined`. */
  datatype PageContext =
    | EmptyContext
    | ModuleContext(id: string, slug: string, moduleNumber: int,
                    previousId: Option<string>, nextId: Option<string>)
    | LessonContext(id: string, slug: string, moduleNumber: int, lessonNumber: int,
                    previousId: Option<string>, nextId: Option<string>)

  /** The argument of one `createPage` call. */
  datatype PageRequest = PageRequest(path: string, component: Template, context: PageContext)

  /** The id of the entry before index `i`: none exactly for the first. */
  function PreviousId(ids: seq<string>, i: nat): (r: Option<string>)
    requires i < |ids|
    ensures r.None? <==> i == 0
    ensures r.Some? ==> r.value == ids[i - 1]
  {
    if i == 0 then None else Some(ids[i - 1])
  }

  /** The id of the entry after index `i`: none exactly for the last. */
  function NextId(ids: seq<string>, i: nat): (r: Option<string>)
    requires i < |ids|
    ensures r.None? <==> i == |ids| - 1
    ensures r.Some? ==> r.value == ids[i + 1]
  {
    if i == |ids| - 1 then None else Some(ids[i + 1])
  }

  function ModuleIds(ms: seq<ModuleEdge>): seq<string>
  {
    seq(|ms|, i requires 0 <= i < |ms| => ms[i].id)
  }

  function LessonIds(ls: seq<LessonEdge>): seq<string>
  {
    seq(|ls|, i requires 0 <= i < |ls| => ls[i].id)
  }

  /** The page of the module at index `i`, at its slug, linked to its
      neighbours in the module list. */
  function ModulePage(ms: seq<ModuleEdge>, i: nat): PageRequest
    requires i < |ms|
  {
    var ids := ModuleIds(ms);
    PageRequest(ms[i].slug, ModuleTemplate,
      ModuleContext(ms[i].id, ms[i].slug, ms[i].moduleNumber, PreviousId(ids, i), NextId(ids, i)))
  }

  /** The page of the lesson at index `i`, at its slug, linked to its
      neighbours in the lesson list. */
  function LessonPage(ls: seq<LessonEdge>, i: nat): PageRequest
    requires i < |ls|
  {
    var ids := LessonIds(ls);
    PageRequest(ls[i].slug, LessonTemplate,
      LessonContext(ls[i].id, ls[i].slug, ls[i].moduleNumber, ls[i].lessonNumber,
                    PreviousId(ids, i), NextId(ids, i)))
  }

  /** The course page, at `basePath`, with an empty context. */
  function CoursePage(basePath: string): PageRequest
  {
    PageRequest(basePath, CourseTemplate, EmptyContext)
  }

  /** The pages, in order: every module page in list order, then every
      lesson page in list order, then the course page. */
  ghost predicate PlannedPages(pages: seq<PageRequest>, ms: seq<ModuleEdge>, ls: seq<LessonEdge>, basePath: string)
  {
    && |pages| == |ms| + |ls| + 1
    && (forall i :: 0 <= i < |ms| ==> pages[i] == ModulePage(ms, i))
    && (forall k :: |ms| <= k < |ms| + |ls| ==> pages[k] == LessonPage(ls, k - |ms|))
    && pages[|ms| + |ls|] == CoursePage(basePath)
  }

  /** gatsby-node.js:263-350: the `createPage` calls of one build. A query
      that reports errors (even an empty list of them) aborts with those
      errors before any page is requested; otherwise the pages are exactly
      the planned ones. */
  method CreatePages(result: QueryResult, basePath: string) returns (outcome: Result<seq<PageRequest>, seq<string>>)
    ensures outcome.Failure? <==> result.errors.Some?
    ensures outcome.Failure? ==> outcome.error == result.errors.value
    ensures outcome.Success? ==> PlannedPages(outcome.value, result.modules, result.lessons, basePath)
  {
    if result.errors.Some? {
      return Failure(result.errors.value);
    }
    var modules, lessons := result.modules, result.lessons;
    var pages: seq<PageRequest> := [];

    for index := 0 to |modules|
      invariant |pages| == index
      invariant forall i :: 0 <= i < index ==> pages[i] == ModulePage(modules, i)
    {
      var node := modules[index];
      var next := if index == |modules| - 1 then None else Some(modules[index + 1]);
      var previous := if index == 0 then None else Some(modules[index - 1]);
      var previousId := if previous.Some? then Some(previous.value.id) else None;
      var nextId := if next.Some? then Some(next.value.id) else None;
      pages := pages + [PageRequest(node.slug, ModuleTemplate,
                          ModuleContext(node.id, node.slug, node.moduleNumber, previousId, nextId))];
    }

    for index := 0 to |lessons|
      invariant |pages| == |modules| + index
      invariant forall i :: 0 <= i < |modules| ==> pages[i] == ModulePage(modules, i)
      invariant forall k :: |modules| <= k < |modules| + index ==> pages[k] == LessonPage(lessons, k - |modules|)
    {
      var node := lessons[index];
      var next := if index == |lessons| - 1 then None else Some(lessons[index + 1]);
      var previous := if index == 0 then None else Some(lessons[index - 1]);
      var previousId := if previous.Some? then Some(previous.value.id) else None;
      var nextId := if next.Some? then Some(next.value.id) else None;
      pages := pages + [PageRequest(node.slug, LessonTemplate,
                          LessonContext(node.id, node.slug, node.moduleNumber, node.lessonNumber, previousId, nextId))];
    }

    pages := pages + [CoursePage(basePath)];
    return Success(pages);
  }

  /** The number of requests in `pages` that use template `t`. */
  function CountTemplate(pages: seq<PageRequest>, t: Template): nat
  {
    if pages == [] then 0
    else CountTemplate(pages[..|pages| - 1], t) + (if pages[|pages| - 1].component == t then 1 else 0)
  }

  /** How many of the first `k` planned pages use each template. */
  lemma {:induction false} PlannedPrefixCounts(pages: seq<PageRequest>, ms: seq<ModuleEdge>, ls: seq<LessonEdge>,
                                              basePath: string, k: nat)
    requires PlannedPages(pages, ms, ls, basePath)
    requires k <= |pages|
    ensures CountTemplate(pages[..k], ModuleTemplate) == if k <= |ms| then k else |ms|
    ensures CountTemplate(pages[..k], LessonTemplate) ==
      if k <= |ms| then 0 else if k <= |ms| + |ls| then k - |ms| else |ls|
    ensures CountTemplate(pages[..k], CourseTemplate) == if k <= |ms| + |ls| then 0 else 1
  {
    if k > 0 {
      PlannedPrefixCounts(pages, ms, ls, basePath, k - 1);
      assert pages[..k][..k - 1] == pages[..k - 1];
      if k - 1 < |ms| {
        assert pages[k - 1] == ModulePage(ms, k - 1);
      } else if k - 1 < |ms| + |ls| {
        assert pages[k - 1] == LessonPage(ls, k - 1 - |ms|);
      }
    }
  }

  /** gatsby-node.js:308-349: one module page per module, one lesson page
      per lesson and exactly one course page. */
  lemma PlannedCounts(pages: seq<PageRequest>, ms: seq<ModuleEdge>, ls: seq<LessonEdge>, basePath: string)
    requires PlannedPages(pages, ms, ls, basePath)
    ensures CountTemplate(pages, ModuleTemplate) == |ms|
    ensures CountTemplate(pages, LessonTemplate) == |ls|
    ensures CountTemplate(pages, CourseTemplate) == 1
  {
    PlannedPrefixCounts(pages, ms, ls, basePath, |pages|);
    assert pages[..|pages|] == pages;
  }

  /** Each module or lesson page is served at that entry's slug and names
      that entry; the last page is the course page at `basePath` with an
      empty context. */
  lemma PlannedPaths(pages: seq<PageRequest>, ms: seq<ModuleEdge>, ls: seq<LessonEdge>, basePath: string)
    requires PlannedPages(pages, ms, ls, basePath)
    ensures forall i :: 0 <= i < |ms| ==>
      && pages[i].path == ms[i].slug && pages[i].component == ModuleTemplate
      && pages[i].context.ModuleContext? && pages[i].context.id == ms[i].id
      && pages[i].context.moduleNumber == ms[i].moduleNumber
    ensures forall k :: |ms| <= k < |ms| + |ls| ==>
      && pages[k].path == ls[k - |ms|].slug && pages[k].component == LessonTemplate
      && pages[k].context.LessonContext? && pages[k].context.id == ls[k - |ms|].id
      && pages[k].context.moduleNumber == ls[k - |ms|].moduleNumber
      && pages[k].context.lessonNumber == ls[k - |ms|].lessonNumber
    ensures pages[|pages| - 1].path == basePath && pages[|pages| - 1].context == EmptyContext
  {
  }

  /** gatsby-node.js:309-310, 319-320, 326-327, 338-339: within each list,
      `previousId` is undefined exactly on the first page and `nextId`
      exactly on the last; otherwise they are the ids of the entries just
      before and just after. */
  lemma NeighbourEnds(pages: seq<PageRequest>, ms: seq<ModuleEdge>, ls: seq<LessonEdge>, basePath: string)
    requires PlannedPages(pages, ms, ls, basePath)
    ensures forall i :: 0 <= i < |ms| ==>
      && pages[i].context.ModuleContext?
      && (pages[i].context.previousId.None? <==> i == 0)
      && (pages[i].context.nextId.None? <==> i == |ms| - 1)
      && (i > 0 ==> pages[i].context.previousId == Some(ms[i - 1].id))
      && (i < |ms| - 1 ==> pages[i].context.nextId == Some(ms[i + 1].id))
    ensures forall k :: |ms| <= k < |ms| + |ls| ==>
      && pages[k].context.LessonContext?
      && (pages[k].context.previousId.None? <==> k == |ms|)
      && (pages[k].context.nextId.None? <==> k == |ms| + |ls| - 1)
      && (k > |ms| ==> pages[k].context.previousId == Some(ls[k - |ms| - 1].id))
      && (k < |ms| + |ls| - 1 ==> pages[k].context.nextId == Some(ls[k - |ms| + 1].id))
  {
  }

  /** No two entries share an id. */
  ghost predicate DistinctIds(ids: seq<string>)
  {
    forall i, j :: 0 <= i < j < |ids| ==> ids[i] != ids[j]
  }

  /** With distinct ids, `previousId` and `nextId` are inverse links: page
      `i` names page `j` as its next exactly when page `j` names page `i` as
      its previous, and then `j == i + 1`. */
  lemma PreviousNextInverse(ids: seq<string>, i: nat, j: nat)
    requires DistinctIds(ids)
    requires i < |ids| && j < |ids|
    ensures NextId(ids, i) == Some(ids[j]) <==> PreviousId(ids, j) == Some(ids[i])
    ensures NextId(ids, i) == Some(ids[j]) ==> j == i + 1
  {
  }

  /** gatsby-node.js:308, 325: the two chains are independent. The module
      pages depend only on the module list, and the lesson pages only on the
      lesson list, whatever the other list and the base path are. */
  lemma ChainsIndependent(p1: seq<PageRequest>, ms1: seq<ModuleEdge>, ls1: seq<LessonEdge>, b1: string,
                          p2: seq<PageRequest>, ms2: seq<ModuleEdge>, ls2: seq<LessonEdge>, b2: string)
    requires PlannedPages(p1, ms1, ls1, b1) && PlannedPages(p2, ms2, ls2, b2)
    ensures ms1 == ms2 ==> p1[..|ms1|] == p2[..|ms2|]
    ensures ls1 == ls2 ==> p1[|ms1|..|ms1| + |ls1|] == p2[|ms2|..|ms2| + |ls2|]
  {
  }

  /** The order `allMdxLesson` is sorted in: by module number, then lesson number. */
  predicate LessonBefore(a: LessonEdge, b: LessonEdge)
  {
    a.moduleNumber < b.moduleNumber || (a.moduleNumber == b.moduleNumber && a.lessonNumber < b.lessonNumber)
  }

  /** The lesson list is sorted with no two lessons sharing a (module, lesson) pair. */
  ghost predicate LessonsSorted(ls: seq<LessonEdge>)
  {
    forall i, j :: 0 <= i < j < |ls| ==> LessonBefore(ls[i], ls[j])
  }

  /** The module list is sorted with no two modules sharing a number. */
  ghost predicate ModulesSorted(ms: seq<ModuleEdge>)
  {
    forall i, j :: 0 <= i < j < |ms| ==> ms[i].moduleNumber < ms[j].moduleNumber
  }

  /** On a sorted lesson list, the `previousId` of a lesson page names the
      closest lesson before it in (module, lesson) order, and its `nextId`
      the closest lesson after it. */
  lemma LessonNeighboursAreClosest(ls: seq<LessonEdge>, j: nat)
    requires LessonsSorted(ls) && j < |ls|
    ensures var c := LessonPage(ls, j).context;
      && c.LessonContext?
      && (j > 0 ==>
        && c.previousId == Some(ls[j - 1].id)
        && LessonBefore(ls[j - 1], ls[j])
        && forall k :: 0 <= k < |ls| && LessonBefore(ls[k], ls[j]) ==>
             ls[k] == ls[j - 1] || LessonBefore(ls[k], ls[j - 1]))
      && (j < |ls| - 1 ==>
        && c.nextId == Some(ls[j + 1].id)
        && LessonBefore(ls[j], ls[j + 1])
        && forall k :: 0 <= k < |ls| && LessonBefore(ls[j], ls[k]) ==>
             ls[k] == ls[j + 1] || LessonBefore(ls[j + 1], ls[k]))
  {
  }

  /** On a sorted module list, the `previousId` of a module page names the
      module with the largest smaller number, and its `nextId` the module
      with the smallest larger number. */
  lemma ModuleNeighboursAreClosest(ms: seq<ModuleEdge>, i: nat)
    requires ModulesSorted(ms) && i < |ms|
    ensures var c := ModulePage(ms, i).context;
      && c.ModuleContext?
      && (i > 0 ==>
        && c.previousId == Some(ms[i - 1].id)
        && ms[i - 1].moduleNumber < ms[i].moduleNumber
        && forall k :: 0 <= k < |ms| && ms[k].moduleNumber < ms[i].moduleNumber ==>
             ms[k].moduleNumber <= ms[i - 1].moduleNumber)
      && (i < |ms| - 1 ==>
        && c.nextId == Some(ms[i + 1].id)
        && ms[i].moduleNumber < ms[i + 1].moduleNumber
        && forall k :: 0 <= k < |ms| && ms[i].moduleNumber < ms[k].moduleNumber ==>
             ms[i + 1].moduleNumber <= ms[k].moduleNumber)
  {
  }

  /** Three lessons (1,1), (1,2), (2,1): the lesson (1,2) has (1,1) as its
      previous and (2,1) as its next lesson. */
  lemma ThreeLessonsExample(pages: seq<PageRequest>, ms: seq<ModuleEdge>, basePath: string)
    requires PlannedPages(pages, ms,
      [LessonEdge("a", "/a/", 1, 1), LessonEdge("b", "/b/", 1, 2), LessonEdge("c", "/c/", 2, 1)], basePath)
    ensures pages[|ms| + 1].path == "/b/" && pages[|ms| + 1].context.LessonContext?
    ensures pages[|ms| + 1].context.previousId == Some("a")
    ensures pages[|ms| + 1].context.nextId == Some("c")
  {
  }
}
