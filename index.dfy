/**
 * The vault index of internal/index/index.go: a walk over a directory tree
 * that turns every markdown file into a `Doc`, prunes tool directories, stops
 * at the first error and sorts the documents by relative path.
 *
 * The file system is an abstract tree: each directory carries the outcome of
 * listing it, each file the outcomes of reading it and of asking for its
 * modification time. Children are given in the order the listing returns
 * them (sorted by name).
 */
module DocIndex {
  import opened Wrappers
  import opened Text
  import opened Sorting
  import MarkdownParse

  /** One indexed note. */
  datatype Doc = Doc(
    pathRel: string,
    pathAbs: string,
    fileName: string,
    title: string,
    headings: seq<string>,
    tags: seq<string>,
    contentLower: string,
    modTime: int)

  /** The documents of one vault root. */
  datatype Index = Index(root: string, docs: seq<Doc>)

  /** A node of the directory tree, with the outcomes of the system calls about it. */
  datatype Entry =
    | Dir(name: string, listError: Option<string>, children: seq<Entry>)
    | File(name: string, content: Result<string, string>, info: Result<int, string>)

  /** What the walk callback decides for one node: a document, a request to prune, or an error. */
  datatype Visit = Visit(doc: Option<Doc>, skipDir: bool, err: Option<string>)

  // --------------------------------------------------------- pure decisions

  const SkippedDirs: set<string> := {".obsidian", ".trash", "node_modules", ".git"}

  /** `shouldSkipDir`. */
  predicate ShouldSkipDir(base: string)
  {
    base in SkippedDirs
  }

  /** The extension filter: the extension, lowercased, is `.md`. */
  predicate IsMarkdown(name: string)
  {
    ToLower(Ext(name)) == ".md"
  }

  /** The name without its extension: the fallback title. */
  function FileBase(name: string): string
  {
    TrimSuffix(name, Ext(name))
  }

  /**
   * `validateRoot`: the error for a root that cannot be looked up or is not a
   * directory. `stat` is the outcome of looking the root up.
   */
  function ValidateRoot(root: string, stat: Result<Entry, string>): (r: Option<string>)
    ensures r.None? <==> stat.Ok? && stat.value.Dir?
    ensures stat.Err? ==> r == Some(stat.error)
    ensures stat.Ok? && stat.value.File? ==> r == Some("vault path is not a directory: " + root)
  {
    match stat
    case Err(e) => Some(e)
    case Ok(File(_, _, _)) => Some("vault path is not a directory: " + root)
    case Ok(Dir(_, _, _)) => None
  }

  /** The document a readable markdown file gives. */
  function DocFor(rel: string, path: string, name: string, content: string, modTime: int): Doc
  {
    Doc(rel, path, name,
        MarkdownParse.Title(content, FileBase(name)),
        MarkdownParse.Headings(content),
        MarkdownParse.Tags(content),
        ToLower(content),
        modTime)
  }

  /**
   * `buildDoc` for the node `d` at `path` (relative path `rel`), with the walk
   * error `werr` the walker passes for it.
   */
  function BuildDoc(path: string, rel: string, d: Entry, werr: Option<string>): Visit
  {
    if werr.Some? then Visit(None, false, werr)
    else if d.Dir? then Visit(None, ShouldSkipDir(Base(path)), None)
    else if !IsMarkdown(d.name) then Visit(None, false, None)
    else if d.content.Err? then Visit(None, false, Some("read " + path + ": " + d.content.error))
    else if d.info.Err? then Visit(None, false, Some("stat " + path + ": " + d.info.error))
    else Visit(Some(DocFor(rel, path, d.name, d.content.value, d.info.value)), false, None)
  }

  /**
   * The callback fails exactly on a walk error or an unreadable markdown file,
   * prunes exactly the tool directories, and makes a document exactly of a
   * readable markdown file.
   */
  lemma BuildDocDecides(path: string, rel: string, d: Entry, werr: Option<string>)
    ensures var v := BuildDoc(path, rel, d, werr);
      && (v.err.Some? <==> werr.Some? || (d.File? && IsMarkdown(d.name) && (d.content.Err? || d.info.Err?)))
      && (werr.Some? ==> v.err == werr)
      && (v.skipDir <==> werr.None? && d.Dir? && ShouldSkipDir(Base(path)))
      && (v.doc.Some? <==> werr.None? && d.File? && IsMarkdown(d.name) && d.content.Ok? && d.info.Ok?)
      && (v.doc.Some? ==> v.doc.value == DocFor(rel, path, d.name, d.content.value, d.info.value))
  {
  }

  /** The slash-separated path of a child relative to the root; the root itself is `.`. */
  function ChildRel(rel: string, name: string): string
  {
    if rel == "." then name else rel + "/" + name
  }

  // ------------------------------------------------------- walk specification

  /** `r` with `acc` put in front of its documents. */
  function Prepend(acc: seq<Doc>, r: Result<seq<Doc>, string>): Result<seq<Doc>, string>
  {
    if r.Err? then r else Ok(acc + r.value)
  }

  /**
   * The documents that walking the node `e` at `path` appends, or the error
   * that stops the walk. A directory is first shown to the callback (which
   * may prune it), then listed, then its children are walked in order.
   */
  function WalkSpec(e: Entry, path: string, rel: string): Result<seq<Doc>, string>
    decreases e, if e.Dir? then |e.children| + 1 else 0
  {
    var v := BuildDoc(path, rel, e, None);
    if v.err.Some? then Err(v.err.value)
    else if e.File? then Ok(if v.doc.Some? then [v.doc.value] else [])
    else if v.skipDir then Ok([])
    else if e.listError.Some? then Err(BuildDoc(path, rel, e, e.listError).err.value)
    else WalkChildren(e, path, rel, 0)
  }

  /** The walk of the children of directory `e` from the `i`-th on. */
  function WalkChildren(e: Entry, path: string, rel: string, i: nat): Result<seq<Doc>, string>
    requires e.Dir? && i <= |e.children|
    decreases e, |e.children| - i
  {
    if i == |e.children| then Ok([])
    else
      var c := e.children[i];
      var r := WalkSpec(c, JoinPath(path, c.name), ChildRel(rel, c.name));
      if r.Err? then r else Prepend(r.value, WalkChildren(e, path, rel, i + 1))
  }

  /** The sort key of `sort.Slice` in `Build`: the relative path. */
  function PathKey(d: Doc): Key
  {
    Key(0, d.pathRel, "")
  }

  /** `Build`: the index of the vault at `root`, whose lookup gave `stat`. */
  function BuildSpec(root: string, stat: Result<Entry, string>): Result<Index, string>
  {
    var verr := ValidateRoot(root, stat);
    if verr.Some? then Err(verr.value)
    else
      match WalkSpec(stat.value, root, ".")
      case Err(e) => Err(e)
      case Ok(docs) => Ok(Index(root, SortBy(docs, PathKey)))
  }

  // ------------------------------------------------------------ the methods

  /** One step of the walk over the children: the walk of child `i` followed by the rest. */
  lemma WalkChildrenStep(e: Entry, path: string, rel: string, i: nat, acc: seq<Doc>, r: Result<seq<Doc>, string>)
    requires e.Dir? && i < |e.children|
    requires r == WalkSpec(e.children[i], JoinPath(path, e.children[i].name), ChildRel(rel, e.children[i].name))
    ensures r.Err? ==> Prepend(acc, WalkChildren(e, path, rel, i)) == r
    ensures r.Ok? ==>
      Prepend(acc, WalkChildren(e, path, rel, i)) == Prepend(acc + r.value, WalkChildren(e, path, rel, i + 1))
  {
    if r.Ok? {
      var rest := WalkChildren(e, path, rel, i + 1);
      if rest.Ok? {
        assert acc + (r.value + rest.value) == acc + r.value + rest.value;
      }
    }
  }

  /**
   * `filepath.WalkDir` with the callback of `Build`: walks `e`, appending its
   * documents to `docs`, and stops at the first error.
   */
  method Walk(e: Entry, path: string, rel: string, docs: seq<Doc>) returns (docs': seq<Doc>, err: Option<string>)
    ensures WalkSpec(e, path, rel).Err? ==> err == Some(WalkSpec(e, path, rel).error)
    ensures WalkSpec(e, path, rel).Ok? ==> err.None? && docs' == docs + WalkSpec(e, path, rel).value
    decreases e
  {
    var v := BuildDoc(path, rel, e, None);
    if v.err.Some? {
      return docs, v.err;
    }
    if v.skipDir {
      return docs, None;
    }
    if e.File? {
      docs' := docs;
      if v.doc.Some? {
        docs' := docs + [v.doc.value];
      }
      return docs', None;
    }
    if e.listError.Some? {
      var v2 := BuildDoc(path, rel, e, e.listError);
      return docs, v2.err;
    }
    assert WalkSpec(e, path, rel) == WalkChildren(e, path, rel, 0);
    docs' := docs;
    var i := 0;
    while i < |e.children|
      invariant 0 <= i <= |e.children|
      invariant Prepend(docs', WalkChildren(e, path, rel, i)) == Prepend(docs, WalkChildren(e, path, rel, 0))
    {
      var c := e.children[i];
      var before := docs';
      var childErr;
      docs', childErr := Walk(c, JoinPath(path, c.name), ChildRel(rel, c.name), docs');
      WalkChildrenStep(e, path, rel, i, before, WalkSpec(c, JoinPath(path, c.name), ChildRel(rel, c.name)));
      if childErr.Some? {
        return docs', childErr;
      }
      i := i + 1;
    }
    assert WalkChildren(e, path, rel, i) == Ok([]);
    assert docs' + [] == docs';
    err := None;
  }

  /** `Build`. */
  method Build(root: string, stat: Result<Entry, string>) returns (r: Result<Index, string>)
    ensures r == BuildSpec(root, stat)
  {
    var verr := ValidateRoot(root, stat);
    if verr.Some? {
      return Err(verr.value);
    }
    var docs, err := Walk(stat.value, root, ".", []);
    if err.Some? {
      return Err(err.value);
    }
    assert docs == WalkSpec(stat.value, root, ".").value;
    docs := SortBy(docs, PathKey);
    return Ok(Index(root, docs));
  }

  // -------------------------------------------- the walk as a pre-order list

  /** A node the walk reaches, with its path and its path relative to the root. */
  datatype Node = Node(path: string, rel: string, entry: Entry)

  /**
   * The nodes the walk shows to the callback when nothing fails, in walk
   * order: a pruned directory is not shown and nothing beneath it is, a
   * directory that cannot be listed is shown but has no children.
   */
  function Visible(e: Entry, path: string, rel: string): seq<Node>
    decreases e, if e.Dir? then |e.children| + 1 else 0
  {
    if e.Dir? && ShouldSkipDir(Base(path)) then []
    else if e.File? || e.listError.Some? then [Node(path, rel, e)]
    else [Node(path, rel, e)] + VisibleFrom(e, path, rel, 0)
  }

  function VisibleFrom(e: Entry, path: string, rel: string, i: nat): seq<Node>
    requires e.Dir? && i <= |e.children|
    decreases e, |e.children| - i
  {
    if i == |e.children| then []
    else
      var c := e.children[i];
      Visible(c, JoinPath(path, c.name), ChildRel(rel, c.name)) + VisibleFrom(e, path, rel, i + 1)
  }

  /** A markdown file that can be read and stat-ed. */
  predicate ReadableMarkdown(n: Node)
  {
    n.entry.File? && IsMarkdown(n.entry.name) && n.entry.content.Ok? && n.entry.info.Ok?
  }

  /** A node that stops the walk: an unlistable directory or an unreadable markdown file. */
  predicate Fails(n: Node)
  {
    || (n.entry.Dir? && n.entry.listError.Some?)
    || (n.entry.File? && IsMarkdown(n.entry.name) && (n.entry.content.Err? || n.entry.info.Err?))
  }

  /** The document of a readable markdown file. */
  function NodeDoc(n: Node): Doc
    requires ReadableMarkdown(n)
  {
    DocFor(n.rel, n.path, n.entry.name, n.entry.content.value, n.entry.info.value)
  }

  /** The error a failing node stops the walk with. */
  function FailError(n: Node): string
    requires Fails(n)
  {
    if n.entry.Dir? then n.entry.listError.value
    else if n.entry.content.Err? then "read " + n.path + ": " + n.entry.content.error
    else "stat " + n.path + ": " + n.entry.info.error
  }

  /** What the callback and the listing give for one shown node. */
  function NodeResult(n: Node): Result<seq<Doc>, string>
  {
    if Fails(n) then Err(FailError(n))
    else Ok(if ReadableMarkdown(n) then [NodeDoc(n)] else [])
  }

  /** The fail-fast fold of the node results over a list of nodes. */
  function Outcome(ns: seq<Node>): Result<seq<Doc>, string>
  {
    if ns == [] then Ok([])
    else
      var r := NodeResult(ns[0]);
      if r.Err? then r else Prepend(r.value, Outcome(ns[1..]))
  }

  /** The fail-fast fold of `f` over `xs`: the first error, or all the documents in order. */
  function FailFast<A>(xs: seq<A>, f: A -> Result<seq<Doc>, string>): Result<seq<Doc>, string>
  {
    if xs == [] then Ok([])
    else
      var r := f(xs[0]);
      if r.Err? then r else Prepend(r.value, FailFast(xs[1..], f))
  }

  lemma {:induction false} FailFastAppend<A>(a: seq<A>, b: seq<A>, f: A -> Result<seq<Doc>, string>)
    ensures FailFast(a + b, f) == if FailFast(a, f).Err? then FailFast(a, f) else Prepend(FailFast(a, f).value, FailFast(b, f))
  {
    if a == [] {
      assert a + b == b;
      if FailFast(b, f).Ok? {
        assert [] + FailFast(b, f).value == FailFast(b, f).value;
      }
    } else {
      assert (a + b)[0] == a[0];
      assert (a + b)[1..] == a[1..] + b;
      FailFastAppend(a[1..], b, f);
      var r := f(a[0]);
      if r.Ok? && FailFast(a[1..], f).Ok? && FailFast(b, f).Ok? {
        assert r.value + (FailFast(a[1..], f).value + FailFast(b, f).value)
            == (r.value + FailFast(a[1..], f).value) + FailFast(b, f).value;
      }
    }
  }

  lemma {:induction false} OutcomeIsFailFast(ns: seq<Node>)
    ensures Outcome(ns) == FailFast(ns, NodeResult)
  {
    if ns != [] {
      OutcomeIsFailFast(ns[1..]);
    }
  }

  lemma OutcomeAppend(a: seq<Node>, b: seq<Node>)
    ensures Outcome(a + b) == if Outcome(a).Err? then Outcome(a) else Prepend(Outcome(a).value, Outcome(b))
  {
    OutcomeIsFailFast(a + b);
    OutcomeIsFailFast(a);
    OutcomeIsFailFast(b);
    FailFastAppend(a, b, NodeResult);
  }



  /** The recursive walk is the fail-fast fold over the shown nodes. */
  lemma {:induction false} WalkIsOutcome(e: Entry, path: string, rel: string)
    ensures WalkSpec(e, path, rel) == Outcome(Visible(e, path, rel))
    decreases e, if e.Dir? then |e.children| + 1 else 0
  {
    var n := Node(path, rel, e);
    BuildDocDecides(path, rel, e, None);
    if e.Dir? && ShouldSkipDir(Base(path)) {
      assert Visible(e, path, rel) == [];
    } else if e.File? || e.listError.Some? {
      if e.Dir? {
        BuildDocDecides(path, rel, e, e.listError);
      }
      assert Visible(e, path, rel) == [n];
      assert [n][1..] == [];
      var r := NodeResult(n);
      if r.Ok? {
        assert r.value + [] == r.value;
      }
    } else {
      WalkChildrenIsOutcome(e, path, rel, 0);
      assert ([n] + VisibleFrom(e, path, rel, 0))[1..] == VisibleFrom(e, path, rel, 0);
      var r := Outcome(VisibleFrom(e, path, rel, 0));
      if r.Ok? {
        assert [] + r.value == r.value;
      }
    }
  }

  lemma {:induction false} WalkChildrenIsOutcome(e: Entry, path: string, rel: string, i: nat)
    requires e.Dir? && i <= |e.children|
    ensures WalkChildren(e, path, rel, i) == Outcome(VisibleFrom(e, path, rel, i))
    decreases e, |e.children| - i
  {
    if i < |e.children| {
      var c := e.children[i];
      WalkIsOutcome(c, JoinPath(path, c.name), ChildRel(rel, c.name));
      WalkChildrenIsOutcome(e, path, rel, i + 1);
      OutcomeAppend(Visible(c, JoinPath(path, c.name), ChildRel(rel, c.name)), VisibleFrom(e, path, rel, i + 1));
    }
  }

  /** The fold fails exactly when a node fails, and then with the first failing node's error. */
  lemma {:induction false} OutcomeFailsFirst(ns: seq<Node>)
    ensures Outcome(ns).Err? <==> exists k :: 0 <= k < |ns| && Fails(ns[k])
    ensures Outcome(ns).Err? ==>
      exists k :: 0 <= k < |ns| && Fails(ns[k]) && Outcome(ns) == NodeResult(ns[k])
        && forall j :: 0 <= j < k ==> !Fails(ns[j])
  {
    if ns != [] {
      OutcomeFailsFirst(ns[1..]);
      if !Fails(ns[0]) {
        if exists k :: 0 <= k < |ns| && Fails(ns[k]) {
          var k :| 0 <= k < |ns| && Fails(ns[k]);
          assert ns[1..][k - 1] == ns[k];
        }
        if Outcome(ns).Err? {
          var k :| 0 <= k < |ns[1..]| && Fails(ns[1..][k]) && Outcome(ns[1..]) == NodeResult(ns[1..][k])
            && forall j :: 0 <= j < k ==> !Fails(ns[1..][j]);
          assert ns[k + 1] == ns[1..][k];
          forall j | 0 <= j < k + 1 ensures !Fails(ns[j]) {
            if j > 0 { assert ns[j] == ns[1..][j - 1]; }
          }
        }
      }
    }
  }

  /** The document a shown node contributes when nothing fails: one for a readable markdown file. */
  function NodeDocs(n: Node): seq<Doc>
  {
    if ReadableMarkdown(n) then [NodeDoc(n)] else []
  }

  /** The concatenation of `f` over `xs`. */
  function FlatMap<A, B>(xs: seq<A>, f: A -> seq<B>): seq<B>
  {
    if xs == [] then [] else f(xs[0]) + FlatMap(xs[1..], f)
  }

  /** The documents of the readable markdown files among `ns`, in walk order. */
  function DocsOf(ns: seq<Node>): seq<Doc>
  {
    FlatMap(ns, NodeDocs)
  }

  lemma {:induction false} FlatMapMembers<A, B>(xs: seq<A>, f: A -> seq<B>, b: B)
    ensures b in FlatMap(xs, f) <==> exists k :: 0 <= k < |xs| && b in f(xs[k])
  {
    if xs != [] {
      FlatMapMembers(xs[1..], f, b);
      if b in FlatMap(xs[1..], f) {
        var k :| 0 <= k < |xs[1..]| && b in f(xs[1..][k]);
        assert xs[k + 1] == xs[1..][k];
      }
      if exists k :: 0 <= k < |xs| && b in f(xs[k]) {
        var k :| 0 <= k < |xs| && b in f(xs[k]);
        if k > 0 { assert xs[1..][k - 1] == xs[k]; }
      }
    }
  }

  lemma {:induction false} OutcomeDocs(ns: seq<Node>)
    requires Outcome(ns).Ok?
    ensures Outcome(ns).value == DocsOf(ns)
  {
    if ns != [] {
      OutcomeDocs(ns[1..]);
      if !ReadableMarkdown(ns[0]) {
        assert [] + DocsOf(ns[1..]) == DocsOf(ns[1..]);
      }
    }
  }

  /** The documents are exactly those of the readable markdown files. */
  lemma DocsOfFiles(ns: seq<Node>, d: Doc)
    ensures d in DocsOf(ns) <==> exists k :: 0 <= k < |ns| && ReadableMarkdown(ns[k]) && d == NodeDoc(ns[k])
  {
    FlatMapMembers(ns, NodeDocs, d);
  }

  /** No shown node is a pruned directory: pruning removes a directory with everything beneath it. */
  lemma {:induction false} NothingPrunedIsShown(e: Entry, path: string, rel: string)
    ensures forall n :: n in Visible(e, path, rel) ==> !(n.entry.Dir? && ShouldSkipDir(Base(n.path)))
    decreases e, if e.Dir? then |e.children| + 1 else 0
  {
    if e.Dir? && !ShouldSkipDir(Base(path)) && e.listError.None? {
      NothingPrunedIsShownFrom(e, path, rel, 0);
    }
  }

  lemma {:induction false} NothingPrunedIsShownFrom(e: Entry, path: string, rel: string, i: nat)
    requires e.Dir? && i <= |e.children|
    ensures forall n :: n in VisibleFrom(e, path, rel, i) ==> !(n.entry.Dir? && ShouldSkipDir(Base(n.path)))
    decreases e, |e.children| - i
  {
    if i < |e.children| {
      var c := e.children[i];
      NothingPrunedIsShown(c, JoinPath(path, c.name), ChildRel(rel, c.name));
      NothingPrunedIsShownFrom(e, path, rel, i + 1);
    }
  }

  // ------------------------------------------ what lies beneath a pruned directory

  /** A name a directory listing can return: not empty, not `.` or `..`, without `/`. */
  predicate EntryName(name: string)
  {
    name != "" && name != "." && name != ".." && '/' !in name
  }

  /** Every entry beneath `e` has a name a directory listing can return. */
  predicate WellNamed(e: Entry)
    decreases e
  {
    e.Dir? ==> forall i :: 0 <= i < |e.children| ==> EntryName(e.children[i].name) && WellNamed(e.children[i])
  }

  /** The relative path of the node reached through the entries named `segs` below the root. */
  function RelOf(segs: seq<string>): string
  {
    if segs == [] then "." else Join(segs, "/")
  }

  /** A child's relative path is its parent's with the child's name added. */
  lemma ChildRelOf(segs: seq<string>, name: string)
    requires forall k :: 0 <= k < |segs| ==> EntryName(segs[k])
    ensures ChildRel(RelOf(segs), name) == RelOf(segs + [name])
  {
    if segs != [] {
      JoinSnoc(segs, name, "/");
      if |segs| > 1 {
        assert RelOf(segs) == segs[0] + "/" + Join(segs[1..], "/");
        assert |RelOf(segs)| >= 2;
      }
    }
  }

  /** Neither `n` nor any directory above it is a pruned one. */
  predicate OutsidePrunedDirs(n: Node)
  {
    var parts := Split(n.rel, '/');
    forall k :: 0 <= k < |parts| && parts[k] in SkippedDirs ==> k == |parts| - 1 && n.entry.File?
  }

  /**
   * Pruning a directory hides everything beneath it: a node the walk shows
   * has no pruned directory on its relative path, and is not one itself.
   */
  lemma {:induction false} PrunedSubtreesHidden(e: Entry, path: string, segs: seq<string>)
    requires WellNamed(e)
    requires forall k :: 0 <= k < |segs| ==> EntryName(segs[k])
    requires segs != [] ==> Base(path) == segs[|segs| - 1]
    requires forall k :: 0 <= k < |segs| - 1 ==> segs[k] !in SkippedDirs
    ensures forall n :: n in Visible(e, path, RelOf(segs)) ==> OutsidePrunedDirs(n)
    decreases e, if e.Dir? then |e.children| + 1 else 0
  {
    if !(e.Dir? && ShouldSkipDir(Base(path))) {
      if segs == [] {
        assert Split(".", '/') == ["."];
      } else {
        SplitJoin(segs, '/');
      }
      assert OutsidePrunedDirs(Node(path, RelOf(segs), e));
      if e.Dir? && e.listError.None? {
        PrunedSubtreesHiddenFrom(e, path, segs, 0);
      }
    }
  }

  lemma {:induction false} PrunedSubtreesHiddenFrom(e: Entry, path: string, segs: seq<string>, i: nat)
    requires e.Dir? && i <= |e.children| && WellNamed(e)
    requires forall k :: 0 <= k < |segs| ==> EntryName(segs[k]) && segs[k] !in SkippedDirs
    ensures forall n :: n in VisibleFrom(e, path, RelOf(segs), i) ==> OutsidePrunedDirs(n)
    decreases e, |e.children| - i
  {
    if i < |e.children| {
      var c := e.children[i];
      BaseOfJoin(path, c.name);
      ChildRelOf(segs, c.name);
      PrunedSubtreesHidden(c, JoinPath(path, c.name), segs + [c.name]);
      PrunedSubtreesHiddenFrom(e, path, segs, i + 1);
    }
  }

  // ------------------------------------------------------- Build properties

  /** A root that cannot be looked up, or that is a file, gives an error and no index. */
  lemma BuildRejectsBadRoot(root: string, stat: Result<Entry, string>)
    requires stat.Err? || stat.value.File?
    ensures BuildSpec(root, stat).Err?
    ensures stat.Err? ==> BuildSpec(root, stat).error == stat.error
    ensures stat.Ok? ==> BuildSpec(root, stat).error == "vault path is not a directory: " + root
  {
  }

  /**
   * `Build` over a directory root fails exactly when a shown node fails, with
   * the first failure's error; otherwise its documents are those of the
   * readable markdown files, sorted by relative path, and its root is `root`.
   */
  lemma BuildOutcome(root: string, stat: Result<Entry, string>)
    requires stat.Ok? && stat.value.Dir?
    ensures var ns := Visible(stat.value, root, ".");
      && (BuildSpec(root, stat).Err? <==> exists k :: 0 <= k < |ns| && Fails(ns[k]))
      && (BuildSpec(root, stat).Err? ==>
            exists k :: 0 <= k < |ns| && Fails(ns[k]) && BuildSpec(root, stat).error == NodeResult(ns[k]).error
              && forall j :: 0 <= j < k ==> !Fails(ns[j]))
      && (BuildSpec(root, stat).Ok? ==>
            && BuildSpec(root, stat).value.root == root
            && multiset(BuildSpec(root, stat).value.docs) == multiset(DocsOf(ns))
            && (forall i, j :: 0 <= i < j < |BuildSpec(root, stat).value.docs| ==>
                  !StrLess(BuildSpec(root, stat).value.docs[j].pathRel, BuildSpec(root, stat).value.docs[i].pathRel)))
  {
    var ns := Visible(stat.value, root, ".");
    WalkIsOutcome(stat.value, root, ".");
    OutcomeFailsFirst(ns);
    if Outcome(ns).Ok? {
      OutcomeDocs(ns);
      SortBySortsAndPermutes(Outcome(ns).value, PathKey);
      var docs := BuildSpec(root, stat).value.docs;
      forall i, j | 0 <= i < j < |docs| ensures !StrLess(docs[j].pathRel, docs[i].pathRel) {
        assert !KeyLess(PathKey(docs[j]), PathKey(docs[i]));
      }
    }
  }

  /** `d` holds the parse of `content`, as `buildDoc` stores it. */
  predicate ParsedFrom(d: Doc, content: string)
  {
    && d.contentLower == ToLower(content)
    && d.title == MarkdownParse.Title(content, FileBase(d.fileName))
    && d.headings == MarkdownParse.Headings(content)
    && d.tags == MarkdownParse.Tags(content)
  }

  /** Every document is a markdown file's, named by its entry, with the parse of its content. */
  lemma DocsAreMarkdown(ns: seq<Node>, d: Doc)
    requires d in DocsOf(ns)
    ensures IsMarkdown(d.fileName)
    ensures exists k ::
      && 0 <= k < |ns| && ns[k].entry.File? && ns[k].entry.content.Ok?
      && d.pathAbs == ns[k].path && d.pathRel == ns[k].rel && ParsedFrom(d, ns[k].entry.content.value)
  {
    DocsOfFiles(ns, d);
  }

  /**
   * No document comes from beneath a pruned directory: no directory on its
   * relative path is `.obsidian`, `.trash`, `node_modules` or `.git`.
   */
  lemma NoDocUnderPrunedDir(root: string, stat: Result<Entry, string>, d: Doc)
    requires stat.Ok? && stat.value.Dir? && WellNamed(stat.value)
    requires BuildSpec(root, stat).Ok? && d in BuildSpec(root, stat).value.docs
    ensures forall k :: 0 <= k < |Split(d.pathRel, '/')| - 1 ==> Split(d.pathRel, '/')[k] !in SkippedDirs
  {
    var ns := Visible(stat.value, root, ".");
    BuildOutcome(root, stat);
    assert d in multiset(DocsOf(ns));
    DocsAreMarkdown(ns, d);
    var k :| 0 <= k < |ns| && ns[k].entry.File? && d.pathRel == ns[k].rel;
    PrunedSubtreesHidden(stat.value, root, []);
    assert ns[k] in Visible(stat.value, root, RelOf([]));
  }
}
