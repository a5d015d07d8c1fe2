/**
  The folder tree of compilator_8_bit/compiler/api/folder_tree.py: the
  enabled root folders, each expanded into its enabled subfolders (expanded
  in turn) followed by its enabled files.

  A node is the dictionary the source builds; `children` and `has_children`
  are `None` until the traversal sets them, and file nodes never get them.
  The traversal mutates fresh dictionaries that nothing else refers to, so
  it is modelled on values: each call answers the updated list.  Python's
  recursion limit is the parameter `depth`: a call made with no depth left
  fails, as a `RecursionError` would.
*/
module FolderTrees {
  import opened Wrappers
  import opened Text
  import opened Models

  datatype Node = Node(
    id: nat, name: string, isFile: bool,
    children: Children, hasChildren: Option<bool>)

  /** The `children` key of a node: absent, or the list of child nodes. */
  datatype Children = Absent | Present(nodes: seq<Node>)

  /** The dictionary of a folder before the traversal reaches it. */
  function FolderEntry(f: Folder): Node {
    Node(f.id, f.name, false, Absent, None)
  }

  /** The dictionary of a file. */
  function FileEntry(f: File): Node {
    Node(f.id, f.name, true, Absent, None)
  }

  function FolderEntries(fs: seq<Folder>): (r: seq<Node>)
    ensures |r| == |fs|
    ensures forall k :: 0 <= k < |fs| ==> r[k] == FolderEntry(fs[k])
  {
    seq(|fs|, k requires 0 <= k < |fs| => FolderEntry(fs[k]))
  }

  function FileEntries(fs: seq<File>): (r: seq<Node>)
    ensures |r| == |fs|
    ensures forall k :: 0 <= k < |fs| ==> r[k] == FileEntry(fs[k])
  {
    seq(|fs|, k requires 0 <= k < |fs| => FileEntry(fs[k]))
  }

  /** `folders.filter(parent_id__isnull=True, enabled=True)`, in store order. */
  function RootFolders(folders: seq<Folder>): (r: seq<Folder>)
    ensures forall f :: f in r <==> f in folders && f.parentId.None? && f.enabled
  {
    if folders == [] then []
    else (if folders[0].parentId.None? && folders[0].enabled then [folders[0]] else []) + RootFolders(folders[1..])
  }

  /** `folders.filter(parent_id=id, enabled=True)`, in store order. */
  function SubFolders(folders: seq<Folder>, id: int): (r: seq<Folder>)
    ensures forall f :: f in r <==> f in folders && f.parentId == Some(id) && f.enabled
  {
    if folders == [] then []
    else (if folders[0].parentId == Some(id) && folders[0].enabled then [folders[0]] else []) + SubFolders(folders[1..], id)
  }

  /** `files.filter(folder_id=id, enabled=True)`, in store order. */
  function FolderFiles(files: seq<File>, id: int): (r: seq<File>)
    ensures forall f :: f in r <==> f in files && f.folderId == id && f.enabled
  {
    if files == [] then []
    else (if files[0].folderId == id && files[0].enabled then [files[0]] else []) + FolderFiles(files[1..], id)
  }

  /** Root folders keep store order: the filter distributes over concatenation and keeps one folder iff it is an enabled root. */
  lemma {:induction false} RootFoldersInOrder(a: seq<Folder>, b: seq<Folder>)
    ensures RootFolders(a + b) == RootFolders(a) + RootFolders(b)
    ensures |a| == 1 ==> RootFolders(a) == (if a[0].parentId.None? && a[0].enabled then a else [])
    decreases |a|
  {
    if a == [] {
      assert a + b == b;
    } else {
      var head := if a[0].parentId.None? && a[0].enabled then [a[0]] else [];
      assert (a + b)[0] == a[0] && (a + b)[1..] == a[1..] + b;
      assert RootFolders(a + b) == head + RootFolders(a[1..] + b);
      assert RootFolders(a) == head + RootFolders(a[1..]);
      RootFoldersInOrder(a[1..], b);
      ConcatAssociative(head, RootFolders(a[1..]), RootFolders(b));
      if |a| == 1 {
        assert a[1..] == [] && a == [a[0]];
      }
    }
  }

  /** Subfolders keep store order: the filter distributes over concatenation and keeps one folder iff it is an enabled child of `id`. */
  lemma {:induction false} SubFoldersInOrder(a: seq<Folder>, b: seq<Folder>, id: int)
    ensures SubFolders(a + b, id) == SubFolders(a, id) + SubFolders(b, id)
    ensures |a| == 1 ==> SubFolders(a, id) == (if a[0].parentId == Some(id) && a[0].enabled then a else [])
    decreases |a|
  {
    if a == [] {
      assert a + b == b;
    } else {
      var head := if a[0].parentId == Some(id) && a[0].enabled then [a[0]] else [];
      assert (a + b)[0] == a[0] && (a + b)[1..] == a[1..] + b;
      assert SubFolders(a + b, id) == head + SubFolders(a[1..] + b, id);
      assert SubFolders(a, id) == head + SubFolders(a[1..], id);
      SubFoldersInOrder(a[1..], b, id);
      ConcatAssociative(head, SubFolders(a[1..], id), SubFolders(b, id));
      if |a| == 1 {
        assert a[1..] == [] && a == [a[0]];
      }
    }
  }

  /** A folder's files keep store order: the filter distributes over concatenation and keeps one file iff it is an enabled file of `id`. */
  lemma {:induction false} FolderFilesInOrder(a: seq<File>, b: seq<File>, id: int)
    ensures FolderFiles(a + b, id) == FolderFiles(a, id) + FolderFiles(b, id)
    ensures |a| == 1 ==> FolderFiles(a, id) == (if a[0].folderId == id && a[0].enabled then a else [])
    decreases |a|
  {
    if a == [] {
      assert a + b == b;
    } else {
      var head := if a[0].folderId == id && a[0].enabled then [a[0]] else [];
      assert (a + b)[0] == a[0] && (a + b)[1..] == a[1..] + b;
      assert FolderFiles(a + b, id) == head + FolderFiles(a[1..] + b, id);
      assert FolderFiles(a, id) == head + FolderFiles(a[1..], id);
      FolderFilesInOrder(a[1..], b, id);
      ConcatAssociative(head, FolderFiles(a[1..], id), FolderFiles(b, id));
      if |a| == 1 {
        assert a[1..] == [] && a == [a[0]];
      }
    }
  }

  /**
    What `__traverse_siblings(siblings)` leaves in the list, or `None` when
    the recursion runs out of depth.
  */
  function Traverse(folders: seq<Folder>, files: seq<File>, siblings: seq<Node>, depth: nat): Option<seq<Node>>
    decreases depth, 1, |siblings|
  {
    if depth == 0 then None
    else if siblings == [] then Some([])
    else
      var head := Expand(folders, files, siblings[0], depth);
      var rest := Traverse(folders, files, siblings[1..], depth);
      if head.None? || rest.None? then None else Some([head.value] + rest.value)
  }

  /** One pass of the loop of `__traverse_siblings` on the dictionary `node`. */
  function Expand(folders: seq<Folder>, files: seq<File>, node: Node, depth: nat): Option<Node>
    requires depth >= 1
    decreases depth, 0
  {
    var subs := FolderEntries(SubFolders(folders, node.id));
    var inner := if |subs| > 0 then Traverse(folders, files, subs, depth - 1) else Some(subs);
    if inner.None? then None
    else
      var children := inner.value + FileEntries(FolderFiles(files, node.id));
      Some(node.(children := Present(children), hasChildren := Some(|children| > 0)))
  }

  /** The identifying part of a node: id, name and whether it is a file. */
  function Heads(nodes: seq<Node>): (r: seq<(nat, string, bool)>)
    ensures |r| == |nodes|
  {
    seq(|nodes|, k requires 0 <= k < |nodes| => (nodes[k].id, nodes[k].name, nodes[k].isFile))
  }

  /**
    A node as the tree should show it: a file node has no `children`; a
    folder node lists its enabled subfolders in store order, each shown the
    same way, then its enabled files, and `has_children` tells whether that
    list is non-empty.
  */
  predicate Shown(folders: seq<Folder>, files: seq<File>, node: Node)
    decreases node
  {
    if node.isFile then node.children.Absent? && node.hasChildren.None?
    else
      && node.children.Present?
      && var ch := node.children.nodes;
      && var subs := SubFolders(folders, node.id);
      && |subs| <= |ch|
      && Heads(ch[..|subs|]) == Heads(FolderEntries(subs))
      && ch[|subs|..] == FileEntries(FolderFiles(files, node.id))
      && node.hasChildren == Some(|ch| > 0)
      && forall k :: 0 <= k < |ch| ==> Shown(folders, files, node.children.nodes[k])
  }

  /**
    A traversal that does not run out of depth keeps the siblings in order
    and shows each of them as `Shown` says.
  */
  lemma {:induction false} TraverseShows(folders: seq<Folder>, files: seq<File>, siblings: seq<Node>, depth: nat)
    requires forall k :: 0 <= k < |siblings| ==> !siblings[k].isFile
    ensures var r := Traverse(folders, files, siblings, depth);
      r.Some? ==> Heads(r.value) == Heads(siblings) && forall k :: 0 <= k < |r.value| ==> Shown(folders, files, r.value[k])
    decreases depth, 1, |siblings|
  {
    var r := Traverse(folders, files, siblings, depth);
    if depth > 0 && siblings != [] && r.Some? {
      ExpandShows(folders, files, siblings[0], depth);
      TraverseShows(folders, files, siblings[1..], depth);
      var head := Expand(folders, files, siblings[0], depth).value;
      var rest := Traverse(folders, files, siblings[1..], depth).value;
      assert r.value == [head] + rest;
      forall k | 0 <= k < |siblings|
        ensures Heads(r.value)[k] == Heads(siblings)[k] && Shown(folders, files, r.value[k])
      {
        if k > 0 {
          assert Heads(rest)[k - 1] == Heads(siblings[1..])[k - 1];
          assert r.value[k] == rest[k - 1];
        }
      }
    }
  }

  /** File entries are shown as files. */
  lemma FileEntriesShown(folders: seq<Folder>, files: seq<File>, fs: seq<File>)
    ensures forall k :: 0 <= k < |fs| ==> Shown(folders, files, FileEntries(fs)[k])
  {
    forall k | 0 <= k < |fs| ensures Shown(folders, files, FileEntries(fs)[k]) {
      assert FileEntries(fs)[k] == FileEntry(fs[k]);
    }
  }

  /** Nodes that are each shown stay so when two lists are joined. */
  lemma ShownAppend(folders: seq<Folder>, files: seq<File>, a: seq<Node>, b: seq<Node>)
    requires forall k :: 0 <= k < |a| ==> Shown(folders, files, a[k])
    requires forall k :: 0 <= k < |b| ==> Shown(folders, files, b[k])
    ensures forall k :: 0 <= k < |a + b| ==> Shown(folders, files, (a + b)[k])
  {
    forall k | 0 <= k < |a + b| ensures Shown(folders, files, (a + b)[k]) {
      if k < |a| {
        assert (a + b)[k] == a[k];
      } else {
        assert (a + b)[k] == b[k - |a|];
      }
    }
  }

  /** A folder node whose children are its shown subfolders, then its files, is shown. */
  lemma ShownFolder(folders: seq<Folder>, files: seq<File>, node: Node, got: seq<Node>, ch: seq<Node>)
    requires !node.isFile && node.children == Present(ch) && node.hasChildren == Some(|ch| > 0)
    requires Heads(got) == Heads(FolderEntries(SubFolders(folders, node.id)))
    requires ch == got + FileEntries(FolderFiles(files, node.id))
    requires forall k :: 0 <= k < |got| ==> Shown(folders, files, got[k])
    ensures Shown(folders, files, node)
  {
    var fileNodes := FileEntries(FolderFiles(files, node.id));
    FileEntriesShown(folders, files, FolderFiles(files, node.id));
    ShownAppend(folders, files, got, fileNodes);
    assert ch[..|got|] == got && ch[|got|..] == fileNodes;
  }

  lemma {:induction false} ExpandShows(folders: seq<Folder>, files: seq<File>, node: Node, depth: nat)
    requires depth >= 1 && !node.isFile
    ensures var r := Expand(folders, files, node, depth);
      r.Some? ==> r.value.id == node.id && r.value.name == node.name && !r.value.isFile && Shown(folders, files, r.value)
    decreases depth, 0
  {
    var r := Expand(folders, files, node, depth);
    if r.Some? {
      var entries := FolderEntries(SubFolders(folders, node.id));
      var inner := if |entries| > 0 then Traverse(folders, files, entries, depth - 1) else Some(entries);
      if |entries| > 0 {
        TraverseShows(folders, files, entries, depth - 1);
      }
      var got := inner.value;
      var ch := got + FileEntries(FolderFiles(files, node.id));
      assert r.value == node.(children := Present(ch), hasChildren := Some(|ch| > 0));
      ShownFolder(folders, files, r.value, got, ch);
    }
  }

  class FolderTree {
    /** `Folder.objects.all()` and `File.objects.all()`, read when the tree is built. */
    const folders: seq<Folder>
    const files: seq<File>

    constructor (folders: seq<Folder>, files: seq<File>)
      ensures this.folders == folders && this.files == files
    {
      this.folders := folders;
      this.files := files;
    }

    /** `__find_roots`: one entry per enabled root folder, in store order. */
    method FindRoots() returns (roots: seq<Node>)
      ensures roots == FolderEntries(RootFolders(folders))
    {
      var rootFolders := RootFolders(folders);
      roots := [];
      var i := 0;
      while i < |rootFolders|
        invariant 0 <= i <= |rootFolders|
        invariant roots == FolderEntries(rootFolders[..i])
      {
        roots := roots + [FolderEntry(rootFolders[i])];
        i := i + 1;
        assert rootFolders[..i] == rootFolders[..i - 1] + [rootFolders[i - 1]];
      }
      assert rootFolders[..i] == rootFolders;
    }

    /**
      `__traverse_siblings(siblings)` with `depth` calls left before the
      recursion limit: expands each folder entry in turn.
    */
    method TraverseSiblings(siblings: seq<Node>, depth: nat) returns (r: Option<seq<Node>>)
      ensures r == Traverse(folders, files, siblings, depth)
      decreases depth, 1
    {
      if depth == 0 {
        return None;
      }
      var done: seq<Node> := [];
      var i := 0;
      assert siblings[0..] == siblings;
      assert forall v: seq<Node> :: [] + v == v;
      while i < |siblings|
        invariant 0 <= i <= |siblings|
        invariant Traverse(folders, files, siblings, depth) == After(done, Traverse(folders, files, siblings[i..], depth))
      {
        var elem := ExpandEntry(siblings[i], depth);
        if elem.None? {
          return None;
        }
        assert siblings[i..][1..] == siblings[i + 1..];
        ExpandThenRest(siblings[i..], depth, elem.value, done);
        done := done + [elem.value];
        i := i + 1;
      }
      assert done + [] == done;
      return Some(done);
    }

    /**
      The body of the loop of `__traverse_siblings` for one folder entry:
      its subfolders, traversed one level deeper, then its files, and
      whether there are any.
    */
    method ExpandEntry(elem: Node, depth: nat) returns (r: Option<Node>)
      requires depth >= 1
      ensures r == Expand(folders, files, elem, depth)
      decreases depth, 0
    {
      var children := FolderEntries(SubFolders(folders, elem.id));
      if |children| > 0 {
        var inner := TraverseSiblings(children, depth - 1);
        if inner.None? {
          return None;
        }
        children := inner.value;
      }
      children := children + FileEntries(FolderFiles(files, elem.id));
      return Some(elem.(children := Present(children), hasChildren := Some(|children| > 0)));
    }

    /** `get_folder_structure`: the expanded roots, or `None` past the recursion limit. */
    method GetFolderStructure(depth: nat) returns (tree: Option<seq<Node>>)
      ensures tree == Traverse(folders, files, FolderEntries(RootFolders(folders)), depth)
      ensures tree.Some? ==> Heads(tree.value) == Heads(FolderEntries(RootFolders(folders)))
      ensures tree.Some? ==> forall n :: n in tree.value ==> Shown(folders, files, n)
    {
      var roots := FindRoots();
      TraverseShows(folders, files, roots, depth);
      tree := TraverseSiblings(roots, depth);
    }

    lemma ExpandThenRest(s: seq<Node>, depth: nat, elem: Node, done: seq<Node>)
      requires depth >= 1 && s != []
      requires Expand(folders, files, s[0], depth) == Some(elem)
      ensures After(done, Traverse(folders, files, s, depth)) == After(done + [elem], Traverse(folders, files, s[1..], depth))
    {
      var rest := Traverse(folders, files, s[1..], depth);
      if rest.Some? {
        assert done + ([elem] + rest.value) == (done + [elem]) + rest.value;
      }
    }
  }

  /** The nodes already expanded, followed by the outcome for the rest. */
  function After(done: seq<Node>, rest: Option<seq<Node>>): Option<seq<Node>> {
    if rest.None? then None else Some(done + rest.value)
  }
}
