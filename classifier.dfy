/** `onCreateNode` (gatsby-node.js:142-256): every MDX node read from the
    course's filesystem source becomes exactly one MdxModule, MdxCourse or
    MdxLesson node, created as a child of the MDX node and linked to it. */
module Classifier {
  import opened Wrappers
  import opened Content
  import opened Slugs

  /** The fields of a derived node (its `fieldData`), by node type. */
  datatype DerivedFields =
    | ModuleFields(title: Option<string>, moduleNumber: int, description: Option<string>, slug: string)
    | CourseFields(title: Option<string>, description: Option<string>)
    | LessonFields(title: Option<string>, slug: string, lessonNumber: Option<int>,
                   inModule: Option<int>, description: Option<string>)
  {
    /** The `internal.type` of a node with these fields. */
    function TypeName(): string
    {
      match this
      case ModuleFields(_, _, _, _) => "MdxModule"
      case CourseFields(_, _) => "MdxCourse"
      case LessonFields(_, _, _, _, _) => "MdxLesson"
    }
  }

  /** A node passed to `createNode`. The content digest and the JSON content
      are functions of `fields` computed by the framework. */
  datatype DerivedNode = DerivedNode(id: string, parent: string, children: seq<string>, fields: DerivedFields)

  /** The calls `onCreateNode` makes on the framework's node store. */
  datatype Action =
    | CreateNode(node: DerivedNode)
    | CreateParentChildLink(parent: string, child: string)

  /** `getNode(node.parent)` found nothing, so reading its fields throws. */
  datatype NodeError = MissingFileNode(parent: string)

  /** The file name that marks a landing page (course or module). */
  const IndexName: string := "index"

  /** The seed passed to `createNodeId` for a derived node: the source id,
      the marker `" >>> "` and the type name, each readable back from it. */
  function NodeIdSeed(sourceId: string, typeName: string): (seed: string)
    ensures |seed| == |sourceId| + 5 + |typeName|
    ensures seed[..|sourceId|] == sourceId
    ensures seed[|sourceId|..|sourceId| + 5] == " >>> "
    ensures seed[|sourceId| + 5..] == typeName
  {
    sourceId + " >>> " + typeName
  }

  /** gatsby-node.js:184-255: the derived node of an accepted MDX node. An
      `index` file is a module landing page when its frontmatter module
      number is truthy and the course landing page otherwise; every other
      file is a lesson. The node is a fresh child of the MDX node. */
  function Derive(node: MdxNode, file: FileNode, opts: Options, fw: Framework): (d: DerivedNode)
    ensures d.parent == node.id && d.children == []
    ensures d.id == fw.createNodeId(NodeIdSeed(node.id, d.fields.TypeName()))
    ensures d.fields.ModuleFields? <==> file.name == IndexName && IsTruthyNumber(node.frontmatter.moduleNumber)
    ensures d.fields.CourseFields? <==> file.name == IndexName && !IsTruthyNumber(node.frontmatter.moduleNumber)
    ensures d.fields.LessonFields? <==> file.name != IndexName
  {
    var fm := node.frontmatter;
    var slug := DocumentSlug(fm, file, opts, fw);
    var fields :=
      if file.name == IndexName then
        if IsTruthyNumber(fm.moduleNumber) then
          ModuleFields(fm.title, fm.moduleNumber.value, fm.description, slug)
        else
          CourseFields(fm.title, fm.description)
      else
        LessonFields(fm.title, slug, fm.lessonNumber, fm.moduleNumber, fm.description);
    DerivedNode(fw.createNodeId(NodeIdSeed(node.id, fields.TypeName())), node.id, [], fields)
  }

  /** gatsby-node.js:147-158: the node is an MDX node read by the filesystem
      source named `coursePath`. */
  predicate Accepted(node: MdxNode, files: map<string, FileNode>, opts: Options)
  {
    node.internalType == MdxType && node.parent in files
    && files[node.parent].sourceInstanceName == opts.coursePath
  }

  /** gatsby-node.js:142-256: the calls made on the node store for one node.
      Non-MDX nodes and nodes of another source produce none; an MDX node
      whose file node is missing fails; an accepted node produces exactly
      one `createNode` of a child of that node followed by the link from
      the node to that child. */
  function OnCreateNode(node: MdxNode, files: map<string, FileNode>, opts: Options, fw: Framework)
    : (r: Result<seq<Action>, NodeError>)
    ensures node.internalType != MdxType ==> r == Success([])
    ensures node.internalType == MdxType && node.parent !in files ==> r == Failure(MissingFileNode(node.parent))
    ensures r.Failure? ==> node.internalType == MdxType && node.parent !in files
    ensures r.Success? && r.value != [] <==> Accepted(node, files, opts)
    ensures Accepted(node, files, opts) ==>
      && |r.value| == 2
      && r.value[0] == CreateNode(Derive(node, files[node.parent], opts, fw))
      && r.value[1] == CreateParentChildLink(node.id, r.value[0].node.id)
  {
    if node.internalType != MdxType then Success([])
    else if node.parent !in files then Failure(MissingFileNode(node.parent))
    else
      var file := files[node.parent];
      if file.sourceInstanceName != opts.coursePath then Success([])
      else
        var d := Derive(node, file, opts, fw);
        Success([CreateNode(d), CreateParentChildLink(node.id, d.id)])
  }

  /** A module node carries the (non-zero) frontmatter module number and a
      slug ending in exactly one separator; a course node carries only the
      title and description; a lesson node carries the frontmatter's title,
      lesson and module numbers and description as given, and a normalised
      slug. */
  lemma DerivedFieldsFromFrontmatter(node: MdxNode, file: FileNode, opts: Options, fw: Framework)
    ensures var d := Derive(node, file, opts, fw); var fm := node.frontmatter;
      match d.fields
      case ModuleFields(title, m, description, slug) =>
        fm.moduleNumber == Some(m) && m != 0 && title == fm.title && description == fm.description
        && slug == DocumentSlug(fm, file, opts, fw) && EndsWithOneSep(slug)
      case CourseFields(title, description) =>
        title == fm.title && description == fm.description
      case LessonFields(title, slug, l, m, description) =>
        title == fm.title && l == fm.lessonNumber && m == fm.moduleNumber && description == fm.description
        && slug == DocumentSlug(fm, file, opts, fw) && EndsWithOneSep(slug)
  {
  }

  /** Seeds of different source ids, or of different node types, differ. */
  lemma {:induction false} NodeIdSeedInjective(a: string, fa: DerivedFields, b: string, fb: DerivedFields)
    requires NodeIdSeed(a, fa.TypeName()) == NodeIdSeed(b, fb.TypeName())
    ensures a == b && fa.TypeName() == fb.TypeName()
  {
    var sa, sb := NodeIdSeed(a, fa.TypeName()), NodeIdSeed(b, fb.TypeName());
    assert |fa.TypeName()| == |fb.TypeName()| == 9;
    assert |a| == |b|;
    assert a == sa[..|a|];
    assert b == sb[..|b|];
    assert fa.TypeName() == sa[|a| + 5..];
    assert fb.TypeName() == sb[|b| + 5..];
  }

  /** When `createNodeId` is injective, the derived nodes of two MDX nodes
      with different ids have different ids. */
  lemma DerivedIdsDistinct(n1: MdxNode, f1: FileNode, n2: MdxNode, f2: FileNode, opts: Options, fw: Framework)
    requires Injective(fw.createNodeId)
    requires n1.id != n2.id
    ensures Derive(n1, f1, opts, fw).id != Derive(n2, f2, opts, fw).id
  {
    var d1, d2 := Derive(n1, f1, opts, fw), Derive(n2, f2, opts, fw);
    if d1.id == d2.id {
      NodeIdSeedInjective(n1.id, d1.fields, n2.id, d2.fields);
    }
  }
}
