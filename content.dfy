/** The records the theme receives from the host framework: an MDX document
    node, the file node it was read from, the theme options, and the
    framework helpers the theme calls without knowing their internals. */
module Content {
  import opened Wrappers

  /** The frontmatter fields the theme reads. Each one may be absent in the
      document, hence `Option`. `module` is a Dafny keyword, so the module
      and lesson numbers are called `moduleNumber` and `lessonNumber`. */
  datatype Frontmatter = Frontmatter(
    title: Option<string>,
    description: Option<string>,
    slug: Option<string>,
    moduleNumber: Option<int>,
    lessonNumber: Option<int>)

  /** A node handed to `onCreateNode`: its id, its `internal.type`, the id of
      its parent (the file node) and its frontmatter. */
  datatype MdxNode = MdxNode(
    id: string,
    internalType: string,
    parent: string,
    frontmatter: Frontmatter)

  /** The file node an MDX node was transformed from: the name of the
      filesystem source that found it and the file name without extension. */
  datatype FileNode = FileNode(
    id: string,
    sourceInstanceName: string,
    name: string,
    relativePath: string)

  /** The theme options after defaults have been merged in. */
  datatype Options = Options(coursePath: string, basePath: string)

  /** Helpers of the host framework that the theme calls as black boxes:
      `urlResolve(base, path)`, `createFilePath({node, basePath})` and
      `createNodeId(seed)`. */
  datatype Framework = Framework(
    urlResolve: (string, string) -> string,
    createFilePath: (FileNode, string) -> string,
    createNodeId: string -> string)

  /** The node type the theme reacts to. */
  const MdxType: string := "Mdx"

  /** JavaScript truthiness of an optional string: `undefined` and `""` are falsy. */
  predicate IsTruthyString(v: Option<string>)
  {
    v.Some? && v.value != ""
  }

  /** JavaScript truthiness of an optional number: `undefined` and `0` are falsy. */
  predicate IsTruthyNumber(v: Option<int>)
  {
    v.Some? && v.value != 0
  }

  /** A node-id generator that never maps two seeds to the same id. */
  ghost predicate Injective(f: string -> string)
  {
    forall x, y :: f(x) == f(y) ==> x == y
  }
}
