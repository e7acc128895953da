# gatsby-theme-course, modelled in Dafny

This project models the two pieces of logic in the course theme's
`gatsby-node.js`.

- **`onCreateNode`** is the classifier. It ignores every node that is not an
  `Mdx` node, and every MDX node whose file was not found by the filesystem
  source named `coursePath`. For every other node it chooses a URL slug. An
  absolute frontmatter slug is used as written. A relative one is resolved
  against `basePath`. Without a frontmatter slug, the file path is resolved
  against `basePath`. The trailing run of `/` is then replaced by exactly one
  `/`. The node then becomes exactly one derived node:
  - `MdxModule`: the file is `index` and the frontmatter module number is truthy.
  - `MdxCourse`: the file is `index` and the module number is missing or 0.
  - `MdxLesson`: any other file.

  The derived node is created as a child of the MDX node and then linked to it.
- **`createPages`** is the page planner. It takes the module list and the
  lesson list that the query returns, already sorted. It requests one page per
  module and one per lesson, each at the entry's slug. Each page carries
  `previousId`/`nextId`, the ids of the entries beside it in the same list.
  Then it requests one course page at `basePath` with an empty context. If the
  query reports errors, it panics before requesting any page.

Layout:

- `wrappers.dfy` (`Wrappers`): `Option` stands for a value that may be
  `undefined`. `Result` stands for a step that may fail.
- `content.dfy` (`Content`): the input records (MDX node, frontmatter, file
  node) and the theme options. It also holds the framework helpers
  `urlResolve`, `createFilePath` and `createNodeId`, as function-typed fields
  of `Framework`, and JavaScript truthiness for optional strings and numbers.
- `slugs.dfy` (`Slugs`): how the slug is chosen, and the trailing-slash
  normalisation with its properties.
- `classifier.dfy` (`Classifier`): `onCreateNode`. It returns the list of
  `createNode` / `createParentChildLink` calls it makes, or the failure of a
  missing file node.
- `page_planner.dfy` (`PagePlanner`): `createPages`. This is a method with the
  source's two loops. It returns the list of `createPage` requests, or the
  query's errors.

Modelling choices:

- The calls into the framework's node store and page store are modelled as
  the sequences of requests they receive, in order.
- `path.isAbsolute` is "starts with `/`" (POSIX).
- `frontmatter.slug` is truthy when present and non-empty.
- `frontmatter.module` is truthy when present and non-zero.
- `result.errors` aborts whenever it is present, even if the list is empty,
  because an empty JavaScript array is truthy.
- `getNode(node.parent)` may return nothing. The source then throws when it
  reads the file node's fields. The model returns `MissingFileNode` for this.
  The type test comes first, so a non-MDX node never fails.

## Model

| member | source | states |
|---|---|---|
| `Slugs.StripTrailingSeps` | gatsby-theme-course/gatsby-node.js:181 | the result is a prefix of the input that does not end in `/`, and only `/` characters were removed after it |
| `Slugs.NormalizeTrailingSlash` | gatsby-theme-course/gatsby-node.js:181 | the normalised slug ends in exactly one `/`; the part before it is a prefix of the input and everything dropped from the input was `/` |
| `Slugs.NormalizeReplacesLeftmostMatch` | gatsby-theme-course/gatsby-node.js:181 | the replaced run starts at the leftmost position from which the input is all `/` to its end, as the non-global regex replace does |
| `Slugs.NormalizeSepRun` | gatsby-theme-course/gatsby-node.js:181 | a prefix not ending in `/`, followed by any number of `/`, normalises to that prefix plus one `/` |
| `Slugs.NormalizeAppendsWhenMissing` | gatsby-theme-course/gatsby-node.js:180-181 | a slug with no trailing `/` gets exactly one appended |
| `Slugs.NormalizeEmptySlug` | gatsby-theme-course/gatsby-node.js:180-181 | the empty slug becomes `"/"` |
| `Slugs.NormalizeIdempotent` | gatsby-theme-course/gatsby-node.js:181 | normalising a normalised slug leaves it unchanged |
| `Slugs.NormalizeFixedPoint` | gatsby-theme-course/gatsby-node.js:181 | normalisation leaves a slug unchanged exactly when the slug already ends in exactly one `/` |
| `Slugs.IsAbsolute` | gatsby-theme-course/gatsby-node.js:163 | defines `path.isAbsolute` on a POSIX path: the slug starts with `/` |
| `Slugs.NormalizeKeepsAbsolute` | gatsby-theme-course/gatsby-node.js:163-181 | an absolute slug is still absolute after normalisation, even when it is all `/` |
| `Content.IsTruthyString` | gatsby-theme-course/gatsby-node.js:162 | defines the truthiness test on `frontmatter.slug`: present and not `""` |
| `Content.IsTruthyNumber` | gatsby-theme-course/gatsby-node.js:186 | defines the truthiness test on `frontmatter.module`: present and not 0 |
| `Slugs.SelectSlug` | gatsby-theme-course/gatsby-node.js:161-179 | a truthy absolute frontmatter slug is used verbatim; a truthy relative one is resolved against `basePath`; otherwise the file path from `createFilePath` (with `coursePath`) is resolved against `basePath` |
| `Slugs.DocumentSlug` | gatsby-theme-course/gatsby-node.js:161-181 | the slug a module or lesson carries always ends in exactly one `/` |
| `Slugs.AbsoluteSlugIsVerbatim` | gatsby-theme-course/gatsby-node.js:162-165 | an absolute frontmatter slug does not depend on the options, the file or the framework helpers, and is kept verbatim when it already ends in one `/` |
| `Slugs.FilePathOnlyAsFallback` | gatsby-theme-course/gatsby-node.js:162-178 | with a truthy frontmatter slug, neither the file node nor `createFilePath` affects the slug |
| `Classifier.Accepted` | gatsby-theme-course/gatsby-node.js:147-158 | defines the filter: the node's type is `Mdx`, its file node exists, and the file's `sourceInstanceName` is `coursePath` |
| `Classifier.NodeIdSeed` | gatsby-theme-course/gatsby-node.js:187-240 | the seed `${node.id} >>> <type>` passed to `createNodeId` at lines 187, 210 and 240; the source id, the marker and the type name can each be read back from it |
| `Classifier.Derive` | gatsby-theme-course/gatsby-node.js:184-255 | the derived node is a module iff the file is `index` with a truthy module number, the course iff `index` without one, and a lesson iff the file is not `index`; its parent is the MDX node's id, its children are empty, and its id is `createNodeId` of the source id and its type |
| `Classifier.OnCreateNode` | gatsby-theme-course/gatsby-node.js:142-256 | non-MDX nodes and nodes of another source produce no call; an MDX node whose file node is missing fails; an accepted node produces exactly one `createNode` of its derived node followed by the link from the MDX node to that node's id |
| `Classifier.DerivedFieldsFromFrontmatter` | gatsby-theme-course/gatsby-node.js:184-238 | a module carries the (non-zero) frontmatter module number, title, description and a one-`/` slug; a course carries only title and description; a lesson carries title, lesson and module numbers, description and a one-`/` slug |
| `Classifier.NodeIdSeedInjective` | gatsby-theme-course/gatsby-node.js:187-240 | two `createNodeId` seeds are equal only for the same source id and the same node type |
| `Classifier.DerivedIdsDistinct` | gatsby-theme-course/gatsby-node.js:187-240 | if `createNodeId` is injective, MDX nodes with different ids get derived nodes with different ids |
| `PagePlanner.PreviousId` | gatsby-theme-course/gatsby-node.js:310-319 | `previousId` is undefined exactly at index 0, and otherwise it is the id at index i-1 |
| `PagePlanner.NextId` | gatsby-theme-course/gatsby-node.js:309-320 | `nextId` is undefined exactly at the last index, and otherwise it is the id at index i+1 |
| `PagePlanner.ModulePage` | gatsby-theme-course/gatsby-node.js:308-323 | defines the `createPage` argument for the module at index i: its slug as path, the module template, and a context with its id, slug, module number and neighbour ids in the module list |
| `PagePlanner.LessonPage` | gatsby-theme-course/gatsby-node.js:325-342 | defines the `createPage` argument for the lesson at index i: its slug as path, the lesson template, and a context with its id, slug, module and lesson numbers and neighbour ids in the lesson list |
| `PagePlanner.CoursePage` | gatsby-theme-course/gatsby-node.js:345-349 | defines the course page: path `basePath`, the course template and an empty context |
| `PagePlanner.CreatePages` | gatsby-theme-course/gatsby-node.js:263-350 | it fails with the query's errors, and requests no page, exactly when errors are reported; otherwise it requests the module pages in list order, then the lesson pages in list order, then the course page, each with its neighbour ids |
| `PagePlanner.PlannedPrefixCounts` | gatsby-theme-course/gatsby-node.js:308-349 | among the first k requests, the module, lesson and course pages number as the three-phase order implies |
| `PagePlanner.PlannedCounts` | gatsby-theme-course/gatsby-node.js:308-349 | there are exactly one page per module, one per lesson and one course page |
| `PagePlanner.PlannedPaths` | gatsby-theme-course/gatsby-node.js:312-349 | each module or lesson page is at that entry's slug, uses that entry's template and carries its id and numbers; the last page is at `basePath` with an empty context |
| `PagePlanner.NeighbourEnds` | gatsby-theme-course/gatsby-node.js:308-341 | within each list, `previousId` is undefined exactly on the first page and `nextId` exactly on the last; otherwise they are the ids of the adjacent entries of the same list |
| `PagePlanner.PreviousNextInverse` | gatsby-theme-course/gatsby-node.js:309-320 | with distinct ids, page i names page j as next exactly when page j names page i as previous, and then j = i + 1 |
| `PagePlanner.ChainsIndependent` | gatsby-theme-course/gatsby-node.js:308-342 | the module pages depend only on the module list, and the lesson pages only on the lesson list |
| `PagePlanner.LessonNeighboursAreClosest` | gatsby-theme-course/gatsby-node.js:284-339 | on a list sorted by (module, lesson), a lesson page's `previousId` names the closest lesson before it in that order, and its `nextId` the closest lesson after it |
| `PagePlanner.ModuleNeighboursAreClosest` | gatsby-theme-course/gatsby-node.js:269-320 | on a list sorted by module number, a module page's `previousId` names the module with the largest smaller number, and its `nextId` the module with the smallest larger number |
| `PagePlanner.ThreeLessonsExample` | gatsby-theme-course/gatsby-node.js:325-342 | for lessons (1,1), (1,2), (2,1), lesson (1,2) links back to (1,1) and forward to (2,1) |

## Left out

- `onPreBootstrap` (gatsby-node.js:8-19) is left out. It only creates directories on the filesystem.
- `createSchemaCustomization` and `mdxResolverPassthrough` (gatsby-node.js:21-140) are left out. They declare GraphQL types and forward `body` to the framework's MDX renderer, so they hold no logic of the theme.
- `internal.contentDigest`, `internal.content` and `internal.description` of derived nodes are left out. They are `createContentDigest` and `JSON.stringify` of the fields, or a constant string, and both helpers belong to the framework.
- `urlResolve`, `createFilePath` and `createNodeId` are parameters with no behaviour assumed. `createNodeId` is taken to be injective only where a lemma says so.
- `withDefaults`: `utils/default-options` is not part of this model. The options are given with defaults already merged.
- Frontmatter values of other JavaScript types are not modelled. This covers a string or `NaN` as a module number, and a non-string slug. Slugs are strings and numbers are integers.
- The GraphQL sort (gatsby-node.js:269, 284) is done by the framework's query engine. Sortedness, with no two equal keys, is a precondition of the ordering lemmas. `CreatePages` itself works on any order, as the source does.
- The fields the query fetches but the planner never reads (`description`, `parent.fileAbsolutePath`) are not modelled.
- `reporter.panic` ends the process. The model returns the errors instead, with no page requested.
- The node store and page store are not modelled as mutable state. The effects are the ordered lists of calls, and `getNode(mdxModuleId)` is taken to return the node just created.
- `await`/`async` are not modelled, because each call is modelled in isolation.
- The templates and React components under `src/` are left out. They are query strings and rendering code.
