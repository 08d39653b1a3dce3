/** The title-bar search: a case-insensitive filter over every node, and where selecting a hit navigates. */
module Search {
  import opened Wrappers
  import opened Seqs
  import opened Text
  import opened FileSystem

  /** The most hits the dropdown shows. */
  const MaxResults: nat := 12

  function TagsOf(n: Node): seq<string>
  {
    Or(n.tags, [])
  }

  /** Some tag of `n`, lowercased, contains `q`. */
  predicate TagMatch(n: Node, q: string)
  {
    exists i :: 0 <= i < |TagsOf(n)| && Contains(Lower(TagsOf(n)[i]), q)
  }

  /** `n` is a hit for the already lowercased query `q`: not the root, and `q` occurs in its name or a tag. */
  predicate Hit(n: Node, q: string)
  {
    n.id != RootId && (Contains(Lower(n.name), q) || TagMatch(n, q))
  }

  /** The filter callback for the lowercased query `q`. */
  function HitFor(q: string): Node -> bool
  {
    n => Hit(n, q)
  }

  /** Every hit for `q`, in stored order. */
  function AllHits(items: seq<Node>, q: string): (r: seq<Node>)
    ensures IsSubsequence(r, items)
    ensures forall n :: n in r <==> n in items && Hit(n, q)
  {
    Filter(items, HitFor(q))
  }

  /**
   * The dropdown's results: nothing for a blank query; otherwise the first
   * twelve nodes, in stored order, whose lowercased name or some lowercased
   * tag contains the lowercased (untrimmed) query.
   */
  function Results(items: seq<Node>, query: string): (r: seq<Node>)
    ensures AllSpace(query) ==> r == []
    ensures |r| <= MaxResults
    ensures IsSubsequence(r, items)
    ensures forall k :: 0 <= k < |r| ==> r[k].id != RootId
    ensures forall k :: 0 <= k < |r| ==>
              Contains(Lower(r[k].name), Lower(query)) ||
              exists i :: 0 <= i < |TagsOf(r[k])| && Contains(Lower(TagsOf(r[k])[i]), Lower(query))
    ensures !AllSpace(query) && |r| < MaxResults ==>
              forall k :: 0 <= k < |items| && Hit(items[k], Lower(query)) ==> items[k] in r
    ensures !AllSpace(query) ==> |r| == Min(MaxResults, |AllHits(items, Lower(query))|)
    ensures !AllSpace(query) ==> r <= AllHits(items, Lower(query))
  {
    if Trim(query) == [] then []
    else
      var hits := AllHits(items, Lower(query));
      PrefixOfSubsequence(hits, items, |Take(hits, MaxResults)|);
      assert Take(hits, MaxResults) == hits[..|Take(hits, MaxResults)|];
      Take(hits, MaxResults)
  }

  /** A hit preceded by fewer than twelve hits in stored order is among the results. */
  lemma EarlyHitShown(items: seq<Node>, query: string, k: nat)
    requires !AllSpace(query) && k < |items| && Hit(items[k], Lower(query))
    requires |AllHits(items[..k], Lower(query))| < MaxResults
    ensures items[k] in Results(items, query)
  {
    var q := Lower(query);
    var before := AllHits(items[..k], q);
    assert items == items[..k] + items[k..];
    FilterConcat(items[..k], items[k..], HitFor(q));
    assert items[k..] == [items[k]] + items[k + 1..];
    assert AllHits(items[k..], q)[0] == items[k];
    assert AllHits(items, q)[|before|] == items[k];
  }

  /** A lowercase query finds what its mixed-case original finds. */
  lemma ResultsIgnoreQueryCase(items: seq<Node>, query: string)
    ensures Results(items, Lower(query)) == Results(items, query)
  {
    LowerIdempotent(query);
    LowerKeepsSpace(query);
  }

  /** Lowercasing neither creates nor removes white space. */
  lemma LowerKeepsSpace(s: string)
    ensures AllSpace(Lower(s)) <==> AllSpace(s)
  {
    forall k | 0 <= k < |s|
      ensures IsSpace(Lower(s)[k]) <==> IsSpace(s[k])
    {
      assert Lower(s)[k] == LowerChar(s[k]);
    }
  }

  /** A name that contains the query, in any letter case, makes the node a hit. */
  lemma NameHit(n: Node, query: string)
    requires n.id != RootId && Contains(n.name, query)
    ensures Hit(n, Lower(query))
  {
    ContainsLower(n.name, query);
  }

  /** Where selecting a hit navigates: a folder opens itself, a file opens the folder holding it. */
  function SelectTarget(item: Node): (r: Option<string>)
    ensures item.kind == Folder ==> r == Some(item.id)
    ensures item.kind == File ==> r == item.parentId
  {
    if item.kind == Folder then Some(item.id) else item.parentId
  }

  /** Selecting a folder makes it the current folder. */
  lemma SelectOpensFolder(items: seq<Node>, item: Node)
    requires UniqueIds(items) && item in items && item.kind == Folder
    ensures CurrentFolder(items, SelectTarget(item)) == Some(item)
  {
    var j :| 0 <= j < |items| && items[j] == item;
    var r := CurrentFolder(items, SelectTarget(item));
    assert HasId(items[j], SelectTarget(item));
    var k :| 0 <= k < |items| && items[k] == r.value && forall i :: 0 <= i < k ==> !HasId(items[i], SelectTarget(item));
    assert items[k].id == items[j].id;
  }

  /** Selecting a file shows a listing that contains it, whether it sits at the root or in a folder. */
  lemma SelectShowsFile(items: seq<Node>, item: Node)
    requires item in items && item.kind == File
    ensures item in Children(items, SelectTarget(item))
  {
  }
}
