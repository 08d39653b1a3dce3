/**
 * The virtual file system hook: a flat list of nodes whose tree is encoded by
 * `parentId`, a cursor naming the folder being shown, the views derived from
 * them, and the actions that replace them.
 */
module FileSystem {
  import opened Wrappers
  import opened Seqs
  import opened Text

  datatype Kind = Folder | File

  /** One stored node. `tags`, `size` and `modified` are optional fields that files carry. */
  datatype Node = Node(
    id: string,
    name: string,
    kind: Kind,
    parentId: Option<string>,
    tags: Option<seq<string>>,
    size: Option<string>,
    modified: Option<string>)

  const RootId: string := "root"

  function SeedFolder(id: string, name: string, parent: Option<string>): Node
  {
    Node(id, name, Folder, parent, None, None, None)
  }

  function SeedFile(id: string, name: string, parent: string, tags: seq<string>, size: string, modified: string): Node
  {
    Node(id, name, File, Some(parent), Some(tags), Some(size), Some(modified))
  }

  /** The tree used when no usable snapshot is stored. */
  const Seed: seq<Node> := [
    SeedFolder("root", "Root", None),
    SeedFolder("documents", "Documents", Some("root")),
    SeedFolder("downloads", "Downloads", Some("root")),
    SeedFolder("projects", "Projects", Some("root")),
    SeedFolder("invoices", "Invoices", Some("root")),
    SeedFolder("contracts", "Contracts", Some("root")),
    SeedFolder("personal", "Personal", Some("root")),
    SeedFile("f1", "contract-nda-acme.pdf", "documents", ["NDA", "Legal"], "2.4 MB", "Feb 12"),
    SeedFile("f2", "stripe-invoice-dec.pdf", "invoices", ["Invoice", "Stripe"], "148 KB", "Dec 18"),
    SeedFile("f3", "project-brief-v3.docx", "projects", ["Brief", "Project"], "890 KB", "Jan 28"),
    SeedFile("f4", "q4-financial-report.xlsx", "documents", ["Finance", "Q4"], "3.1 MB", "Jan 5"),
    SeedFile("f5", "design-system-v2.fig", "projects", ["Design"], "12 MB", "Feb 8"),
    SeedFile("f6", "meeting-notes-jan.md", "documents", ["Notes", "Meeting"], "24 KB", "Jan 30"),
    SeedFile("f7", "family-photo.jpg", "personal", ["Photo"], "4.2 MB", "Mar 12"),
    SeedFile("f8", "vacation-2025.png", "downloads", ["Photo"], "6.8 MB", "Jul 20"),
    SeedFile("f9", "resume-2026.pdf", "personal", ["Resume"], "320 KB", "Feb 1"),
    SeedFile("f10", "app-installer.dmg", "downloads", ["Installer"], "95 MB", "Feb 22")
  ]

  // ---------------------------------------------------------------------------
  // Structural predicates
  // ---------------------------------------------------------------------------

  predicate UniqueIds(items: seq<Node>)
  {
    forall j, k :: 0 <= j < k < |items| ==> items[j].id != items[k].id
  }

  /** `rank` strictly decreases from every parent id to the id of each of its children. */
  ghost predicate RankedBy(items: seq<Node>, rank: string -> nat)
  {
    forall n :: n in items && n.parentId.Some? ==> rank(n.id) < rank(n.parentId.value)
  }

  /** No chain of `parentId` links through `items` ever returns to an id it has passed. */
  ghost predicate Acyclic(items: seq<Node>)
  {
    exists rank: string -> nat :: RankedBy(items, rank)
  }

  // ---------------------------------------------------------------------------
  // Loading
  // ---------------------------------------------------------------------------

  /**
   * The stored array when the snapshot parsed to a non-empty array; the seed
   * otherwise. `None` stands for a missing, unparsable or non-array snapshot.
   */
  function Load(snapshot: Option<seq<Node>>): (r: seq<Node>)
    ensures |r| > 0
    ensures snapshot.Some? && |snapshot.value| > 0 ==> r == snapshot.value
    ensures snapshot.None? || snapshot.value == [] ==> r == Seed
  {
    if snapshot.Some? && |snapshot.value| > 0 then snapshot.value else Seed
  }

  /** The seed has exactly one node without a parent, the first one, whose id is `root`. */
  lemma SeedHasOneRoot()
    ensures Seed[0].id == RootId && Seed[0].kind == Folder
    ensures forall k :: 0 <= k < |Seed| ==> (Seed[k].parentId.None? <==> k == 0)
    ensures UniqueIds(Seed)
  {
  }

  /** The seed is a tree: root, then top-level folders, then files. */
  lemma SeedAcyclic()
    ensures Acyclic(Seed)
  {
    // Seed files are the ids starting with 'f'; no seed folder id does.
    var rank := (id: string) => if id == RootId then 2 else if |id| > 0 && id[0] == 'f' then 0 else 1;
    forall k | 0 <= k < |Seed| && Seed[k].parentId.Some?
      ensures rank(Seed[k].id) < rank(Seed[k].parentId.value)
    {
    }
    assert RankedBy(Seed, rank);
  }

  /** A stored snapshot that is a non-empty array reads back as itself. */
  lemma LoadRoundTrip(items: seq<Node>)
    requires items != []
    ensures Load(Some(items)) == items
  {
  }

  /** Deleting everything persists `[]`, which the next load replaces by the seed. */
  lemma EmptySnapshotReseeds()
    ensures Load(Some([])) == Seed && Seed[0].id == RootId
  {
  }

  // ---------------------------------------------------------------------------
  // Derived views
  // ---------------------------------------------------------------------------

  predicate HasId(n: Node, key: Option<string>)
  {
    Some(n.id) == key
  }

  /** `items.find(i => i.id === cursor) || items[0]`. */
  function CurrentFolder(items: seq<Node>, cursor: Option<string>): (r: Option<Node>)
    ensures r.None? <==> items == []
    ensures (exists k :: 0 <= k < |items| && HasId(items[k], cursor)) ==>
              r.Some? && HasId(r.value, cursor) &&
              exists k :: 0 <= k < |items| && items[k] == r.value && forall j :: 0 <= j < k ==> !HasId(items[j], cursor)
    ensures items != [] && (forall k :: 0 <= k < |items| ==> !HasId(items[k], cursor)) ==> r == Some(items[0])
  {
    match FindIndex(items, n => HasId(n, cursor))
    case Some(i) => Some(items[i])
    case None => if items == [] then None else Some(items[0])
  }

  predicate Listed(n: Node, cursor: Option<string>)
  {
    if cursor == Some(RootId) then n.kind == File else n.parentId == cursor
  }

  /** The listing: every file anywhere when the cursor is the root, otherwise the direct children. */
  function Children(items: seq<Node>, cursor: Option<string>): (r: seq<Node>)
    ensures IsSubsequence(r, items)
    ensures cursor == Some(RootId) ==> forall n :: n in r <==> n in items && n.kind == File
    ensures cursor != Some(RootId) ==> forall n :: n in r <==> n in items && n.parentId == cursor
  {
    Filter(items, n => Listed(n, cursor))
  }

  predicate IsTopFolder(n: Node)
  {
    n.parentId == Some(RootId) && n.kind == Folder
  }

  /** The sidebar: folders directly under the root, one level only, in stored order. */
  function SidebarFolders(items: seq<Node>): (r: seq<Node>)
    ensures IsSubsequence(r, items)
    ensures forall n :: n in r <==> n in items && n.parentId == Some(RootId) && n.kind == Folder
  {
    Filter(items, IsTopFolder)
  }

  /** The blue-dot indicator: some file sits directly in the folder. */
  function FolderHasFiles(items: seq<Node>, folderId: string): (r: bool)
    ensures r <==> exists k :: 0 <= k < |items| && items[k].parentId == Some(folderId) && items[k].kind == File
  {
    exists k :: 0 <= k < |items| && items[k].parentId == Some(folderId) && items[k].kind == File
  }

  /** Away from the root, the indicator lights exactly when the folder's listing shows a file. */
  lemma FolderHasFilesMatchesListing(items: seq<Node>, folderId: string)
    requires folderId != RootId
    ensures FolderHasFiles(items, folderId) <==> exists n :: n in Children(items, Some(folderId)) && n.kind == File
  {
    var r := Children(items, Some(folderId));
    if FolderHasFiles(items, folderId) {
      var k :| 0 <= k < |items| && items[k].parentId == Some(folderId) && items[k].kind == File;
      assert items[k] in r;
    }
  }

  // ---------------------------------------------------------------------------
  // Breadcrumbs
  // ---------------------------------------------------------------------------

  /** `items.find(i => i.id === n.parentId)`: the node the parent link of `n` resolves to. */
  function ParentOf(items: seq<Node>, n: Node): (r: Option<Node>)
    ensures r.Some? ==> r.value in items && n.parentId == Some(r.value.id)
    ensures r.Some? ==> exists k :: 0 <= k < |items| && items[k] == r.value && forall j :: 0 <= j < k ==> !HasId(items[j], n.parentId)
    ensures r.None? <==> forall k :: 0 <= k < |items| ==> !HasId(items[k], n.parentId)
  {
    match FindIndex(items, m => HasId(m, n.parentId))
    case Some(i) => Some(items[i])
    case None => None
  }

  /** The largest rank of any id in `items`. */
  ghost function MaxRank(items: seq<Node>, rank: string -> nat): (m: nat)
    ensures forall n :: n in items ==> rank(n.id) <= m
  {
    if items == [] then 0
    else var m := MaxRank(items[1..], rank); if rank(items[0].id) > m then rank(items[0].id) else m
  }

  /** Following resolved parent links from `node` runs out within `steps` links. */
  ghost predicate WalkEnds(items: seq<Node>, node: Option<Node>, steps: nat)
    decreases steps
  {
    node.None? || (steps > 0 && WalkEnds(items, ParentOf(items, node.value), steps - 1))
  }

  /** A resolved parent link climbs strictly in rank and stays inside the list. */
  lemma ParentRanksHigher(items: seq<Node>, rank: string -> nat, n: Node)
    requires RankedBy(items, rank) && n in items
    ensures ParentOf(items, n).Some? ==> ParentOf(items, n).value in items && rank(n.id) < rank(ParentOf(items, n).value.id)
  {
  }

  /** In an acyclic tree every walk up from a node of the tree ends, after at most one link per rank. */
  lemma {:induction false} AcyclicWalkEnds(items: seq<Node>, rank: string -> nat, node: Option<Node>, top: nat, steps: nat)
    requires RankedBy(items, rank) && forall n :: n in items ==> rank(n.id) <= top
    requires node.Some? ==> node.value in items && top < steps + rank(node.value.id)
    ensures WalkEnds(items, node, steps)
    decreases steps
  {
    if node.Some? {
      ParentRanksHigher(items, rank, node.value);
      AcyclicWalkEnds(items, rank, ParentOf(items, node.value), top, steps - 1);
    }
  }

  /** The breadcrumb walk from the current folder ends whenever the tree is acyclic. */
  lemma AcyclicBreadcrumbsEnd(items: seq<Node>, cursor: Option<string>)
    requires Acyclic(items)
    ensures exists steps: nat :: WalkEnds(items, CurrentFolder(items, cursor), steps)
  {
    var rank: string -> nat :| RankedBy(items, rank);
    var top := MaxRank(items, rank);
    AcyclicWalkEnds(items, rank, CurrentFolder(items, cursor), top, top + 1);
  }

  /**
   * The trail from the outermost ancestor to the current folder, built by
   * walking parent links and prepending. Each crumb is the resolved parent of
   * the next, the last is the current folder and the first has no parent in
   * `items`.
   */
  method Breadcrumbs(items: seq<Node>, cursor: Option<string>) returns (trail: seq<Node>)
    requires exists steps: nat :: WalkEnds(items, CurrentFolder(items, cursor), steps)
    ensures trail == [] <==> CurrentFolder(items, cursor).None?
    ensures trail != [] ==> Some(trail[|trail| - 1]) == CurrentFolder(items, cursor)
    ensures trail != [] ==> ParentOf(items, trail[0]).None?
    ensures forall k :: 0 <= k < |trail| - 1 ==> ParentOf(items, trail[k + 1]) == Some(trail[k])
    ensures forall n :: n in trail ==> n in items
  {
    ghost var steps: nat :| WalkEnds(items, CurrentFolder(items, cursor), steps);
    trail := [];
    var node := CurrentFolder(items, cursor);
    while node.Some?
      invariant WalkEnds(items, node, steps)
      invariant node.Some? ==> node.value in items
      invariant trail == [] ==> node == CurrentFolder(items, cursor)
      invariant trail != [] ==> Some(trail[|trail| - 1]) == CurrentFolder(items, cursor)
      invariant trail != [] ==> ParentOf(items, trail[0]) == node
      invariant forall k :: 0 <= k < |trail| - 1 ==> ParentOf(items, trail[k + 1]) == Some(trail[k])
      invariant forall n :: n in trail ==> n in items
      decreases steps
    {
      var n := node.value;
      trail := [n] + trail;
      node := ParentOf(items, n);
      steps := steps - 1;
    }
  }

  /** Two trails that meet the breadcrumb contract are the same trail. */
  lemma {:induction false} BreadcrumbsUnique(items: seq<Node>, a: seq<Node>, b: seq<Node>)
    requires a != [] && b != [] && a[|a| - 1] == b[|b| - 1]
    requires ParentOf(items, a[0]).None? && ParentOf(items, b[0]).None?
    requires forall k :: 0 <= k < |a| - 1 ==> ParentOf(items, a[k + 1]) == Some(a[k])
    requires forall k :: 0 <= k < |b| - 1 ==> ParentOf(items, b[k + 1]) == Some(b[k])
    ensures a == b
    decreases |a|
  {
    if |a| > 1 {
      assert ParentOf(items, a[|a| - 1]) == Some(a[|a| - 2]);
    }
    if |b| > 1 {
      assert ParentOf(items, b[|b| - 1]) == Some(b[|b| - 2]);
    }
    if |a| > 1 && |b| > 1 {
      BreadcrumbsUnique(items, a[..|a| - 1], b[..|b| - 1]);
      assert a == a[..|a| - 1] + [a[|a| - 1]];
      assert b == b[..|b| - 1] + [b[|b| - 1]];
    }
  }

  // ---------------------------------------------------------------------------
  // Navigation
  // ---------------------------------------------------------------------------

  /** Where `navigateUp` moves: the current folder's parent id when it is truthy (present and non-empty). */
  function UpTarget(items: seq<Node>, cursor: Option<string>): (r: Option<string>)
    ensures r != cursor ==> CurrentFolder(items, cursor).Some? && r == CurrentFolder(items, cursor).value.parentId && r.Some? && r.value != ""
    ensures CurrentFolder(items, cursor).Some? && CurrentFolder(items, cursor).value.parentId.Some? && CurrentFolder(items, cursor).value.parentId.value != "" ==>
              r == CurrentFolder(items, cursor).value.parentId
    ensures CurrentFolder(items, cursor).Some? && CurrentFolder(items, cursor).value.parentId.None? ==> r == cursor
  {
    match CurrentFolder(items, cursor)
    case Some(f) => if f.parentId.Some? && f.parentId.value != "" then f.parentId else cursor
    case None => cursor
  }

  /**
   * Going up shows the folder before the current one in the breadcrumb
   * trail: the node the current folder's parent link resolves to.
   */
  lemma UpShowsParentCrumb(items: seq<Node>, cursor: Option<string>, f: Node)
    requires CurrentFolder(items, cursor) == Some(f) && f.parentId.Some? && f.parentId.value != ""
    requires ParentOf(items, f).Some?
    ensures CurrentFolder(items, UpTarget(items, cursor)) == ParentOf(items, f)
  {
    var up := UpTarget(items, cursor);
    assert up == f.parentId;
    var p := ParentOf(items, f).value;
    var k :| 0 <= k < |items| && items[k] == p && forall j :: 0 <= j < k ==> !HasId(items[j], f.parentId);
    assert HasId(items[k], up);
    var c := CurrentFolder(items, up).value;
    var i :| 0 <= i < |items| && items[i] == c && forall j :: 0 <= j < i ==> !HasId(items[j], up);
    assert HasId(items[i], f.parentId);
  }

  // ---------------------------------------------------------------------------
  // Creation
  // ---------------------------------------------------------------------------

  /** The parent a create call uses: the argument, or the cursor when the argument is omitted. */
  function ResolveParent(parent: Option<Option<string>>, cursor: Option<string>): Option<string>
  {
    Or(parent, cursor)
  }

  function NewFolder(id: string, name: string, parent: Option<string>): Node
  {
    Node(id, name, Folder, parent, None, None, None)
  }

  function NewFile(id: string, name: string, parent: Option<string>, today: string): Node
  {
    Node(id, name, File, parent, Some([]), Some("0 KB"), Some(today))
  }

  /** `id` is neither the id of a node nor the parent of one. */
  predicate Unused(items: seq<Node>, id: string)
  {
    forall n :: n in items ==> n.id != id && n.parentId != Some(id)
  }

  /** Appending a node under an unused id keeps ids unique and the tree acyclic. */
  lemma CreatePreservesTree(items: seq<Node>, node: Node)
    requires Unused(items, node.id) && node.parentId != Some(node.id)
    ensures UniqueIds(items) ==> UniqueIds(items + [node])
    ensures Acyclic(items) ==> Acyclic(items + [node])
  {
    if Acyclic(items) {
      var rank: string -> nat :| RankedBy(items, rank);
      var rank' := (s: string) => if s == node.id then 0 else rank(s) + 1;
      forall n | n in items + [node] && n.parentId.Some?
        ensures rank'(n.id) < rank'(n.parentId.value)
      {
        if n != node {
          assert n in items;
        }
      }
      assert RankedBy(items + [node], rank');
    }
  }

  // ---------------------------------------------------------------------------
  // Cascading delete
  // ---------------------------------------------------------------------------

  /** `prev.filter(i => i.parentId === t)`. */
  function ChildrenOf(items: seq<Node>, t: string): (r: seq<Node>)
    ensures forall c :: c in r ==> c in items && c.parentId == Some(t)
    ensures forall c :: c in items && c.parentId == Some(t) ==> c in r
  {
    Filter(items, (n: Node) => n.parentId == Some(t))
  }

  /** The ids `collect(t)` puts into `toRemove`: `t` together with the closure of each child. */
  ghost function Closure(items: seq<Node>, t: string, rank: string -> nat): set<string>
    requires RankedBy(items, rank)
    decreases rank(t), 1
  {
    {t} + ClosureOf(items, ChildrenOf(items, t), t, rank)
  }

  /** The union of the closures of the nodes in `cs`, all children of `t`. */
  ghost function ClosureOf(items: seq<Node>, cs: seq<Node>, t: string, rank: string -> nat): set<string>
    requires RankedBy(items, rank)
    requires forall c :: c in cs ==> c in items && c.parentId == Some(t)
    decreases rank(t), 0, |cs|
  {
    if cs == [] then {}
    else ClosureOf(items, cs[..|cs| - 1], t, rank) + Closure(items, cs[|cs| - 1].id, rank)
  }

  /** `collect`: adds `t` and, recursively, every child's id to `toRemove`. */
  method Collect(items: seq<Node>, t: string, toRemove: set<string>, ghost rank: string -> nat) returns (r: set<string>)
    requires RankedBy(items, rank)
    ensures r == toRemove + Closure(items, t, rank)
    decreases rank(t)
  {
    r := toRemove + {t};
    var cs := ChildrenOf(items, t);
    var k := 0;
    while k < |cs|
      invariant 0 <= k <= |cs|
      invariant r == toRemove + {t} + ClosureOf(items, cs[..k], t, rank)
    {
      assert cs[k] in cs;
      assert rank(cs[k].id) < rank(t);
      ClosureOfStep(items, cs, t, rank, k);
      r := Collect(items, cs[k].id, r, rank);
      k := k + 1;
    }
    assert cs[..|cs|] == cs;
  }

  /** Adding the next child to the prefix adds that child's closure. */
  lemma ClosureOfStep(items: seq<Node>, cs: seq<Node>, t: string, rank: string -> nat, k: nat)
    requires RankedBy(items, rank)
    requires forall c :: c in cs ==> c in items && c.parentId == Some(t)
    requires k < |cs|
    ensures ClosureOf(items, cs[..k + 1], t, rank) == ClosureOf(items, cs[..k], t, rank) + Closure(items, cs[k].id, rank)
  {
    assert cs[..k + 1][..k] == cs[..k];
  }

  /** A path of node positions descending from `t`: each node's parent is the previous one's id. */
  ghost predicate IsChain(items: seq<Node>, t: string, path: seq<nat>)
  {
    && |path| > 0
    && (forall j :: 0 <= j < |path| ==> path[j] < |items|)
    && items[path[0]].parentId == Some(t)
    && (forall j :: 0 <= j < |path| - 1 ==> items[path[j + 1]].parentId == Some(items[path[j]].id))
  }

  /** `x` is the id of a node below `t` through `parentId` links. */
  ghost predicate Descendant(items: seq<Node>, t: string, x: string)
  {
    exists path :: IsChain(items, t, path) && items[path[|path| - 1]].id == x
  }

  /** `t` itself or the id of a node below it: what `deleteItem(t)` removes. */
  ghost predicate InClosure(items: seq<Node>, t: string, x: string)
  {
    x == t || Descendant(items, t, x)
  }

  lemma {:induction false} ClosureOfMember(items: seq<Node>, cs: seq<Node>, t: string, rank: string -> nat, x: string)
    returns (c: Node)
    requires RankedBy(items, rank)
    requires forall c :: c in cs ==> c in items && c.parentId == Some(t)
    requires x in ClosureOf(items, cs, t, rank)
    ensures c in cs && x in Closure(items, c.id, rank)
    decreases |cs|
  {
    if x in Closure(items, cs[|cs| - 1].id, rank) {
      c := cs[|cs| - 1];
    } else {
      c := ClosureOfMember(items, cs[..|cs| - 1], t, rank, x);
    }
  }

  lemma {:induction false} ClosureOfContains(items: seq<Node>, cs: seq<Node>, t: string, rank: string -> nat, c: Node)
    requires RankedBy(items, rank)
    requires forall c :: c in cs ==> c in items && c.parentId == Some(t)
    requires c in cs
    ensures Closure(items, c.id, rank) <= ClosureOf(items, cs, t, rank)
    decreases |cs|
  {
    if c != cs[|cs| - 1] {
      assert c in cs[..|cs| - 1];
      ClosureOfContains(items, cs[..|cs| - 1], t, rank, c);
    }
  }

  /** Everything `collect` gathers besides `t` lies below `t`. */
  lemma {:induction false} ClosureSound(items: seq<Node>, t: string, rank: string -> nat, x: string)
    requires RankedBy(items, rank)
    requires x in Closure(items, t, rank) && x != t
    ensures Descendant(items, t, x)
    decreases rank(t)
  {
    var c := ClosureOfMember(items, ChildrenOf(items, t), t, rank, x);
    var ci: nat :| ci < |items| && items[ci] == c;
    if x != c.id {
      ClosureSound(items, c.id, rank, x);
    }
    BelowChild(items, t, ci, x);
  }

  /** What lies at or below a child of `t` lies below `t`. */
  lemma BelowChild(items: seq<Node>, t: string, ci: nat, x: string)
    requires ci < |items| && items[ci].parentId == Some(t)
    requires x == items[ci].id || Descendant(items, items[ci].id, x)
    ensures Descendant(items, t, x)
  {
    if x == items[ci].id {
      var full := [ci];
      assert IsChain(items, t, full) && items[full[|full| - 1]].id == x;
    } else {
      var path :| IsChain(items, items[ci].id, path) && items[path[|path| - 1]].id == x;
      ChainCons(items, t, ci, path);
      var full := [ci] + path;
      assert IsChain(items, t, full) && items[full[|full| - 1]].id == x;
    }
  }

  /** A child of `t` followed by a chain below it is a chain below `t`. */
  lemma ChainCons(items: seq<Node>, t: string, ci: nat, path: seq<nat>)
    requires ci < |items| && items[ci].parentId == Some(t)
    requires IsChain(items, items[ci].id, path)
    ensures IsChain(items, t, [ci] + path) && ([ci] + path)[|path|] == path[|path| - 1]
  {
    var full := [ci] + path;
    forall j | 0 <= j < |full| - 1
      ensures items[full[j + 1]].parentId == Some(items[full[j]].id)
    {
      if j > 0 {
        assert full[j] == path[j - 1] && full[j + 1] == path[j];
      }
    }
  }

  /** Everything below `t` is gathered by `collect`. */
  lemma {:induction false} ClosureComplete(items: seq<Node>, t: string, rank: string -> nat, path: seq<nat>)
    requires RankedBy(items, rank)
    requires IsChain(items, t, path)
    ensures items[path[|path| - 1]].id in Closure(items, t, rank)
    decreases |path|
  {
    var c := items[path[0]];
    ClosureOfContains(items, ChildrenOf(items, t), t, rank, c);
    if |path| > 1 {
      assert IsChain(items, c.id, path[1..]);
      ClosureComplete(items, c.id, rank, path[1..]);
    }
  }

  /** The set `collect(t)` builds is exactly `t` and every id below it, whatever rank witnesses acyclicity. */
  lemma ClosureIff(items: seq<Node>, t: string, rank: string -> nat, x: string)
    requires RankedBy(items, rank)
    ensures x in Closure(items, t, rank) <==> InClosure(items, t, x)
  {
    if x in Closure(items, t, rank) && x != t {
      ClosureSound(items, t, rank, x);
    }
    if Descendant(items, t, x) {
      var path :| IsChain(items, t, path) && items[path[|path| - 1]].id == x;
      ClosureComplete(items, t, rank, path);
    }
  }

  /** The nodes `deleteItem(t)` keeps: those outside the closure of `t`, in their original order. */
  ghost function AfterDelete(items: seq<Node>, t: string): (r: seq<Node>)
    ensures IsSubsequence(r, items)
    ensures forall k :: 0 <= k < |r| ==> r[k] in items && !InClosure(items, t, r[k].id)
    ensures forall n :: n in items && !InClosure(items, t, n.id) ==> n in r
    ensures forall n :: n in r ==> n.id != t
  {
    Filter(items, (n: Node) => !InClosure(items, t, n.id))
  }

  /** Filtering out the ids `collect` gathered is deleting the closure. */
  lemma CollectedIsDeleted(items: seq<Node>, t: string, rank: string -> nat, toRemove: set<string>)
    requires RankedBy(items, rank) && toRemove == {} + Closure(items, t, rank)
    ensures Filter(items, (n: Node) => n.id !in toRemove) == AfterDelete(items, t)
  {
    forall n | n in items
      ensures (n.id !in toRemove) == !InClosure(items, t, n.id)
    {
      ClosureIff(items, t, rank, n.id);
    }
    FilterCongruent(items, (n: Node) => n.id !in toRemove, (n: Node) => !InClosure(items, t, n.id));
  }

  /** Nodes strictly below `t` have a smaller rank than `t`. */
  lemma {:induction false} ChainRank(items: seq<Node>, t: string, rank: string -> nat, path: seq<nat>)
    requires RankedBy(items, rank) && IsChain(items, t, path)
    ensures rank(items[path[|path| - 1]].id) < rank(t)
    decreases |path|
  {
    assert items[path[0]] in items;
    if |path| > 1 {
      var rest := path[..|path| - 1];
      assert IsChain(items, t, rest);
      ChainRank(items, t, rank, rest);
      assert items[path[|path| - 1]] in items;
    }
  }

  /** When no node names `t` as its parent, deleting `t` removes only the nodes whose id is `t`. */
  lemma DeleteUnreferenced(items: seq<Node>, t: string)
    requires forall n :: n in items ==> n.parentId != Some(t)
    ensures AfterDelete(items, t) == Filter(items, (n: Node) => n.id != t)
  {
    forall n | n in items
      ensures !InClosure(items, t, n.id) == (n.id != t)
    {
      forall path: seq<nat> ensures !IsChain(items, t, path) {
        NoChainBelowUnreferenced(items, t, path);
      }
    }
    FilterCongruent(items, (n: Node) => !InClosure(items, t, n.id), (n: Node) => n.id != t);
  }

  lemma NoChainBelowUnreferenced(items: seq<Node>, t: string, path: seq<nat>)
    requires forall n :: n in items ==> n.parentId != Some(t)
    ensures !IsChain(items, t, path)
  {
    if |path| > 0 && path[0] < |items| {
      assert items[path[0]] in items;
    }
  }

  /** Deleting keeps ids unique and the tree acyclic: it only drops nodes. */
  lemma DeletePreservesTree(items: seq<Node>, t: string)
    ensures UniqueIds(items) ==> UniqueIds(AfterDelete(items, t))
    ensures Acyclic(items) ==> Acyclic(AfterDelete(items, t))
  {
    var r := AfterDelete(items, t);
    if UniqueIds(items) {
      SubsequenceUniqueIds(r, items);
    }
    if Acyclic(items) {
      var rank: string -> nat :| RankedBy(items, rank);
      assert RankedBy(r, rank);
    }
  }

  lemma {:induction false} SubsequenceUniqueIds(a: seq<Node>, b: seq<Node>)
    requires IsSubsequence(a, b) && UniqueIds(b)
    ensures UniqueIds(a)
    decreases |b|
  {
    if a != [] {
      if a[0] == b[0] && IsSubsequence(a[1..], b[1..]) {
        SubsequenceUniqueIds(a[1..], b[1..]);
        SubsequenceMembers(a[1..], b[1..]);
        forall k | 0 < k < |a|
          ensures a[0].id != a[k].id
        {
          assert a[1..][k - 1] == a[k];
          assert a[k] in a[1..];
          var i :| 0 <= i < |b[1..]| && b[1..][i] == a[k];
          assert b[i + 1] == a[k];
        }
      } else {
        SubsequenceUniqueIds(a, b[1..]);
      }
    }
  }

  lemma {:induction false} SubsequenceMembers<T>(a: seq<T>, b: seq<T>)
    requires IsSubsequence(a, b)
    ensures forall x :: x in a ==> x in b
    decreases |b|
  {
    if a != [] {
      if a[0] == b[0] && IsSubsequence(a[1..], b[1..]) {
        SubsequenceMembers(a[1..], b[1..]);
        forall x | x in a
          ensures x in b
        {
          if x != a[0] {
            assert x in a[1..];
            assert x in b[1..];
          }
        }
      } else {
        SubsequenceMembers(a, b[1..]);
        forall x | x in a
          ensures x in b
        {
          assert x in b[1..];
        }
      }
    }
  }

  /** The example tree root → A → B → C with a file D under B and a sibling E of A. */
  const ExampleTree: seq<Node> := [
    SeedFolder("root", "Root", None),
    SeedFolder("A", "A", Some("root")),
    SeedFolder("B", "B", Some("A")),
    SeedFolder("C", "C", Some("B")),
    SeedFile("D", "d.txt", "B", [], "0 KB", "Jan 1"),
    SeedFolder("E", "E", Some("root"))
  ]

  function ExampleRank(id: string): nat
  {
    if id == "root" then 4 else if id == "A" || id == "E" then 3 else if id == "B" then 2 else 1
  }

  lemma ExampleRanked()
    ensures RankedBy(ExampleTree, ExampleRank)
  {
    forall k | 0 <= k < |ExampleTree| && ExampleTree[k].parentId.Some?
      ensures ExampleRank(ExampleTree[k].id) < ExampleRank(ExampleTree[k].parentId.value)
    {
    }
  }

  lemma ExampleBelowA()
    ensures Descendant(ExampleTree, "A", "B") && Descendant(ExampleTree, "A", "C") && Descendant(ExampleTree, "A", "D")
  {
    var items := ExampleTree;
    assert IsChain(items, "A", [2]) && items[2].id == "B";
    assert IsChain(items, "A", [2, 3]) && items[3].id == "C";
    assert IsChain(items, "A", [2, 4]) && items[4].id == "D";
  }

  lemma ExampleNotBelowA()
    ensures !Descendant(ExampleTree, "A", "root") && !Descendant(ExampleTree, "A", "E")
  {
    ExampleRanked();
    forall path | IsChain(ExampleTree, "A", path)
      ensures ExampleRank(ExampleTree[path[|path| - 1]].id) < 3
    {
      ChainRank(ExampleTree, "A", ExampleRank, path);
    }
  }

  predicate ExampleKept(n: Node)
  {
    n.id == "root" || n.id == "E"
  }

  lemma ExampleKeepAt(k: nat)
    requires k < |ExampleTree|
    ensures !InClosure(ExampleTree, "A", ExampleTree[k].id) <==> ExampleKept(ExampleTree[k])
  {
    ExampleBelowA();
    ExampleNotBelowA();
    assert k == 0 || k == 1 || k == 2 || k == 3 || k == 4 || k == 5;
  }

  lemma ExampleKeep()
    ensures forall n :: n in ExampleTree ==> (!InClosure(ExampleTree, "A", n.id) <==> ExampleKept(n))
  {
    forall n | n in ExampleTree
      ensures !InClosure(ExampleTree, "A", n.id) <==> ExampleKept(n)
    {
      var k :| 0 <= k < |ExampleTree| && ExampleTree[k] == n;
      ExampleKeepAt(k);
    }
  }

  lemma ExampleFilterTail()
    ensures Filter(ExampleTree[3..], ExampleKept) == [ExampleTree[5]]
  {
    var items := ExampleTree;
    assert Filter(items[5..], ExampleKept) == [items[5]];
    assert Filter(items[4..], ExampleKept) == [items[5]];
  }

  lemma ExampleFilter()
    ensures Filter(ExampleTree, ExampleKept) == [ExampleTree[0], ExampleTree[5]]
  {
    var items := ExampleTree;
    ExampleFilterTail();
    assert Filter(items[2..], ExampleKept) == [items[5]];
    assert Filter(items[1..], ExampleKept) == [items[5]];
  }

  /** Deleting A removes A, B, C and D and keeps the root and A's sibling E. */
  lemma DeleteExample()
    ensures AfterDelete(ExampleTree, "A") == [ExampleTree[0], ExampleTree[5]]
  {
    ExampleKeep();
    ExampleFilter();
    FilterCongruent(ExampleTree, (n: Node) => !InClosure(ExampleTree, "A", n.id), ExampleKept);
  }

  // ---------------------------------------------------------------------------
  // Rename
  // ---------------------------------------------------------------------------

  /** `prev.map(i => i.id === id ? {...i, name} : i)`. */
  function Renamed(items: seq<Node>, id: string, name: string): (r: seq<Node>)
    ensures |r| == |items|
    ensures forall k :: 0 <= k < |r| ==>
              && r[k].id == items[k].id && r[k].kind == items[k].kind && r[k].parentId == items[k].parentId
              && r[k].tags == items[k].tags && r[k].size == items[k].size && r[k].modified == items[k].modified
              && r[k].name == (if items[k].id == id then name else items[k].name)
  {
    seq(|items|, k requires 0 <= k < |items| => if items[k].id == id then items[k].(name := name) else items[k])
  }

  /** Renaming twice to the same name is renaming once; renaming keeps the tree. */
  lemma RenameProperties(items: seq<Node>, id: string, name: string)
    ensures Renamed(Renamed(items, id, name), id, name) == Renamed(items, id, name)
    ensures UniqueIds(items) ==> UniqueIds(Renamed(items, id, name))
    ensures Acyclic(items) ==> Acyclic(Renamed(items, id, name))
    ensures (forall n :: n in items ==> n.id != id) ==> Renamed(items, id, name) == items
  {
    var r := Renamed(items, id, name);
    if Acyclic(items) {
      var rank: string -> nat :| RankedBy(items, rank);
      forall n | n in r && n.parentId.Some?
        ensures rank(n.id) < rank(n.parentId.value)
      {
        var k :| 0 <= k < |r| && r[k] == n;
        assert items[k] in items;
      }
      assert RankedBy(r, rank);
    }
  }

  // ---------------------------------------------------------------------------
  // The hook's state
  // ---------------------------------------------------------------------------

  /** The hook: the node list and the cursor, replaced by each action. */
  class Store {
    var items: seq<Node>
    var cursor: Option<string>

    /** Mounting: load the snapshot (or the seed) and start at the root. */
    constructor (snapshot: Option<seq<Node>>)
      ensures items == Load(snapshot) && cursor == Some(RootId)
    {
      items := Load(snapshot);
      cursor := Some(RootId);
    }

    /** Moves the cursor to any id, without checking that a folder has it. */
    method Navigate(target: Option<string>)
      modifies this
      ensures cursor == target && items == old(items)
    {
      cursor := target;
    }

    method NavigateUp()
      modifies this
      ensures cursor == UpTarget(old(items), old(cursor)) && items == old(items)
    {
      var f := CurrentFolder(items, cursor);
      if f.Some? && f.value.parentId.Some? && f.value.parentId.value != "" {
        cursor := f.value.parentId;
      }
    }

    /** Appends a folder named by the trimmed name; a blank name changes nothing. */
    method CreateFolder(name: string, parent: Option<Option<string>>, freshId: string) returns (created: Option<Node>)
      modifies this
      ensures cursor == old(cursor)
      ensures AllSpace(name) ==> created.None? && items == old(items)
      ensures !AllSpace(name) ==>
                && created == Some(NewFolder(freshId, Trim(name), ResolveParent(parent, old(cursor))))
                && items == old(items) + [created.value]
    {
      var trimmed := Trim(name);
      if trimmed == [] {
        return None;
      }
      var node := NewFolder(freshId, trimmed, ResolveParent(parent, cursor));
      items := items + [node];
      created := Some(node);
    }

    /** Appends an empty, untagged file dated `today`; a blank name changes nothing. */
    method CreateFile(name: string, parent: Option<Option<string>>, freshId: string, today: string) returns (created: Option<Node>)
      modifies this
      ensures cursor == old(cursor)
      ensures AllSpace(name) ==> created.None? && items == old(items)
      ensures !AllSpace(name) ==>
                && created == Some(NewFile(freshId, Trim(name), ResolveParent(parent, old(cursor)), today))
                && items == old(items) + [created.value]
    {
      var trimmed := Trim(name);
      if trimmed == [] {
        return None;
      }
      var node := NewFile(freshId, trimmed, ResolveParent(parent, cursor), today);
      items := items + [node];
      created := Some(node);
    }

    /** Removes `id` and everything below it; the cursor is left as it was. */
    method DeleteItem(id: string)
      requires Acyclic(items)
      modifies this
      ensures items == AfterDelete(old(items), id) && cursor == old(cursor)
    {
      ghost var rank: string -> nat :| RankedBy(items, rank);
      var toRemove := Collect(items, id, {}, rank);
      CollectedIsDeleted(items, id, rank, toRemove);
      items := Filter(items, (n: Node) => n.id !in toRemove);
    }

    /** Gives every node with this id the trimmed name; a blank name changes nothing. */
    method RenameItem(id: string, newName: string)
      modifies this
      ensures cursor == old(cursor)
      ensures items == if AllSpace(newName) then old(items) else Renamed(old(items), id, Trim(newName))
    {
      var trimmed := Trim(newName);
      if trimmed == [] {
        return;
      }
      items := Renamed(items, id, trimmed);
    }
  }
}
