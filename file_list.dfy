/**
 * How the Finder list presents a folder's nodes: folders first and then by
 * name, an icon chosen by extension, and a colour class per tag.
 */
module FileList {
  import opened Text
  import FS = FileSystem

  // ---------------------------------------------------------------------------
  // Name order
  // ---------------------------------------------------------------------------

  /** `a` comes no later than `b` in code-point lexicographic order. */
  predicate LexLe(a: string, b: string)
    decreases |a|
  {
    a == [] || (b != [] && (a[0] < b[0] || (a[0] == b[0] && LexLe(a[1..], b[1..]))))
  }

  lemma {:induction false} LexLeReflexive(a: string)
    ensures LexLe(a, a)
    decreases |a|
  {
    if a != [] {
      LexLeReflexive(a[1..]);
    }
  }

  lemma {:induction false} LexLeTotal(a: string, b: string)
    ensures LexLe(a, b) || LexLe(b, a)
    decreases |a|
  {
    if a != [] && b != [] && a[0] == b[0] {
      LexLeTotal(a[1..], b[1..]);
    }
  }

  lemma {:induction false} LexLeAntisymmetric(a: string, b: string)
    requires LexLe(a, b) && LexLe(b, a)
    ensures a == b
    decreases |a|
  {
    if a != [] {
      LexLeAntisymmetric(a[1..], b[1..]);
      assert a == [a[0]] + a[1..] && b == [b[0]] + b[1..];
    }
  }

  lemma {:induction false} LexLeTransitive(a: string, b: string, c: string)
    requires LexLe(a, b) && LexLe(b, c)
    ensures LexLe(a, c)
    decreases |a|
  {
    if a != [] && a[0] == b[0] && b[0] == c[0] {
      LexLeTransitive(a[1..], b[1..], c[1..]);
    }
  }

  /** `a.localeCompare(b)`, read as code-point order: negative, zero or positive. */
  function NameCompare(a: string, b: string): (r: int)
    ensures r == 0 <==> a == b
    ensures r < 0 <==> a != b && LexLe(a, b)
    ensures r > 0 <==> a != b && LexLe(b, a)
    ensures r <= 0 <==> LexLe(a, b)
  {
    LexLeTotal(a, b);
    LexLeReflexive(a);
    if a == b then 0
    else if LexLe(a, b) then
      assert !LexLe(b, a) by {
        if LexLe(b, a) {
          LexLeAntisymmetric(a, b);
        }
      }
      -1
    else 1
  }

  /** The list's comparator: a folder before a file, otherwise by name. */
  function Compare(a: FS.Node, b: FS.Node): int
  {
    if a.kind == FS.Folder && b.kind != FS.Folder then -1
    else if a.kind != FS.Folder && b.kind == FS.Folder then 1
    else NameCompare(a.name, b.name)
  }

  /** The comparator is consistent: swapping its arguments swaps the sign. */
  lemma CompareFlips(a: FS.Node, b: FS.Node)
    ensures Compare(a, b) < 0 <==> Compare(b, a) > 0
    ensures Compare(a, b) == 0 <==> Compare(b, a) == 0
  {
  }

  // ---------------------------------------------------------------------------
  // Sorting
  // ---------------------------------------------------------------------------

  predicate Sorted(s: seq<FS.Node>)
  {
    forall k :: 0 < k < |s| ==> Compare(s[k - 1], s[k]) <= 0
  }

  /** Places `x` before the first node it does not sort after, keeping `s` sorted. */
  function Insert(x: FS.Node, s: seq<FS.Node>): (r: seq<FS.Node>)
    ensures |r| == |s| + 1 && multiset(r) == multiset(s) + multiset{x}
    ensures r[0] == x || (s != [] && r[0] == s[0])
    ensures Sorted(s) ==> Sorted(r)
  {
    if s == [] then [x]
    else if Compare(x, s[0]) <= 0 then
      if Sorted(s) then ConsSorted(x, s); [x] + s else [x] + s
    else
      CompareFlips(x, s[0]);
      var rest := Insert(x, s[1..]);
      assert s == [s[0]] + s[1..];
      if Sorted(s) then ConsSorted(s[0], rest); [s[0]] + rest else [s[0]] + rest
  }

  /** A node that sorts no later than the head of a sorted list may be put in front of it. */
  lemma ConsSorted(a: FS.Node, t: seq<FS.Node>)
    requires Sorted(t) && (t == [] || Compare(a, t[0]) <= 0)
    ensures Sorted([a] + t)
  {
    var r := [a] + t;
    forall k | 0 < k < |r|
      ensures Compare(r[k - 1], r[k]) <= 0
    {
      if k > 1 {
        assert r[k - 1] == t[k - 2] && r[k] == t[k - 1];
      }
    }
  }

  /** `[...items].sort(compare)`: a sorted copy holding exactly the same nodes. */
  function SortItems(items: seq<FS.Node>): (r: seq<FS.Node>)
    ensures |r| == |items| && multiset(r) == multiset(items)
    ensures Sorted(r)
  {
    if items == [] then []
    else
      assert items == [items[0]] + items[1..];
      Insert(items[0], SortItems(items[1..]))
  }

  /** In a sorted list every node after a file is a file. */
  lemma {:induction false} FilesToTheEnd(s: seq<FS.Node>, i: nat)
    requires Sorted(s) && i < |s| && s[i].kind == FS.File
    ensures forall k :: i <= k < |s| ==> s[k].kind == FS.File
    decreases |s| - i
  {
    if i + 1 < |s| {
      assert Compare(s[i], s[i + 1]) <= 0;
      FilesToTheEnd(s, i + 1);
    }
  }

  /** Folders first: in a sorted list every folder stands before every file. */
  lemma FoldersFirst(s: seq<FS.Node>)
    requires Sorted(s)
    ensures forall i, j :: 0 <= i < |s| && 0 <= j < |s| && s[i].kind == FS.Folder && s[j].kind == FS.File ==> j > i
  {
    forall i, j | 0 <= i < |s| && 0 <= j < |s| && s[i].kind == FS.Folder && s[j].kind == FS.File
      ensures j > i
    {
      FilesToTheEnd(s, j);
    }
  }

  /** Within one kind, a sorted list is in non-decreasing name order. */
  lemma {:induction false} NamesInOrder(s: seq<FS.Node>, i: nat, j: nat)
    requires Sorted(s) && i < j < |s| && s[i].kind == s[j].kind
    ensures LexLe(s[i].name, s[j].name)
    decreases j - i
  {
    assert Compare(s[j - 1], s[j]) <= 0;
    if s[j - 1].kind != s[j].kind {
      FilesToTheEnd(s, i);
    }
    assert s[j - 1].kind == s[j].kind;
    if i + 1 < j {
      NamesInOrder(s, i, j - 1);
      LexLeTransitive(s[i].name, s[j - 1].name, s[j].name);
    }
  }

  /** The sorted listing puts folders first and orders names within each kind. */
  lemma SortedListing(items: seq<FS.Node>)
    ensures var r := SortItems(items);
            && (forall i, j :: 0 <= i < |r| && 0 <= j < |r| && r[i].kind == FS.Folder && r[j].kind == FS.File ==> j > i)
            && (forall i, j :: 0 <= i < j < |r| && r[i].kind == r[j].kind ==> LexLe(r[i].name, r[j].name))
  {
    var r := SortItems(items);
    FoldersFirst(r);
    forall i, j | 0 <= i < j < |r| && r[i].kind == r[j].kind
      ensures LexLe(r[i].name, r[j].name)
    {
      NamesInOrder(r, i, j);
    }
  }

  // ---------------------------------------------------------------------------
  // Icons
  // ---------------------------------------------------------------------------

  /** The index of the last dot in `s`, or -1 when there is none. */
  function LastDot(s: string): (r: int)
    ensures -1 <= r < |s|
    ensures r >= 0 ==> s[r] == '.'
    ensures forall k :: r < k < |s| ==> s[k] != '.'
  {
    if s == [] then -1
    else if s[|s| - 1] == '.' then |s| - 1
    else LastDot(s[..|s| - 1])
  }

  /** Any index with the properties of the last dot is the last dot. */
  lemma LastDotUnique(s: string, i: int)
    requires -1 <= i < |s| && (i >= 0 ==> s[i] == '.')
    requires forall k :: i < k < |s| ==> s[k] != '.'
    ensures LastDot(s) == i
  {
  }

  /** `name.split(".").pop()`: the text after the last dot, or the whole name without one. */
  function LastSegment(s: string): (r: string)
    ensures forall k :: 0 <= k < |r| ==> r[k] != '.'
    ensures |r| <= |s| && r == s[|s| - |r|..]
    ensures |r| < |s| ==> s[|s| - |r| - 1] == '.'
  {
    s[LastDot(s) + 1..]
  }

  /** A name without a dot is its own extension. */
  lemma NoDotWholeName(s: string)
    requires '.' !in s
    ensures LastSegment(s) == s
  {
    LastDotUnique(s, -1);
  }

  /** Whatever comes before the last dot, the extension is the text after it. */
  lemma ExtensionOfJoin(base: string, ext: string)
    requires '.' !in ext
    ensures LastSegment(base + ['.'] + ext) == ext
  {
    var s := base + ['.'] + ext;
    forall k | |base| < k < |s|
      ensures s[k] != '.'
    {
      assert s[k] == ext[k - |base| - 1];
    }
    LastDotUnique(s, |base|);
    assert s[|base| + 1..] == ext;
  }

  /** Lowercasing never makes or removes a dot, so the last dot stays where it was. */
  lemma LastDotLower(s: string)
    ensures LastDot(Lower(s)) == LastDot(s)
  {
    var i := LastDot(s);
    var t := Lower(s);
    forall k | i < k < |t|
      ensures t[k] != '.'
    {
      assert t[k] == LowerChar(s[k]) && s[k] != '.';
    }
    assert i >= 0 ==> t[i] == LowerChar(s[i]) == '.';
    LastDotUnique(t, i);
  }

  /** Lowercasing commutes with taking the last segment. */
  lemma LastSegmentLower(s: string)
    ensures LastSegment(Lower(s)) == Lower(LastSegment(s))
  {
    var i := LastDot(s);
    LastDotLower(s);
    assert LastSegment(Lower(s)) == Lower(s)[i + 1..];
    LowerSlice(s, i + 1, |s|);
  }

  /** The extension compared against the icon tables: the last segment, lowercased. */
  function Extension(name: string): (r: string)
    ensures |r| <= |name| && forall k :: 0 <= k < |r| ==> r[k] != '.'
  {
    Lower(LastSegment(name))
  }

  /** The extension ignores the letter case of the name. */
  lemma ExtensionIgnoresCase(name: string)
    ensures Extension(Lower(name)) == Extension(name)
  {
    LastSegmentLower(name);
    LowerIdempotent(LastSegment(name));
  }

  datatype Icon = Folder | Image | FileText | File

  const ImageExtensions: seq<string> := ["jpg", "jpeg", "png", "gif", "webp", "svg"]
  const TextExtensions: seq<string> := ["pdf", "doc", "docx", "md", "txt"]

  /** The icon for a row: the folder glyph for any folder, otherwise by extension. */
  function IconFor(n: FS.Node): (r: Icon)
    ensures n.kind == FS.Folder <==> r == Folder
    ensures n.kind == FS.File ==>
              && (r == Image <==> Extension(n.name) in ImageExtensions)
              && (r == FileText <==> Extension(n.name) !in ImageExtensions && Extension(n.name) in TextExtensions)
  {
    if n.kind == FS.Folder then Folder
    else
      var ext := Extension(n.name);
      if ext in ImageExtensions then Image
      else if ext in TextExtensions then FileText
      else File
  }

  /** A file's icon is decided by its lowercased extension alone, whatever the rest of its name. */
  lemma IconOfJoin(n: FS.Node, base: string, ext: string)
    requires n.kind == FS.File && n.name == base + ['.'] + ext && '.' !in ext
    ensures Lower(ext) in ImageExtensions ==> IconFor(n) == Image
    ensures Lower(ext) !in ImageExtensions && Lower(ext) in TextExtensions ==> IconFor(n) == FileText
    ensures Lower(ext) !in ImageExtensions && Lower(ext) !in TextExtensions ==> IconFor(n) == File
  {
    ExtensionOfJoin(base, ext);
  }

  /** Renaming a file to its lowercase form keeps its icon. */
  lemma IconIgnoresCase(n: FS.Node)
    ensures IconFor(n.(name := Lower(n.name))) == IconFor(n)
  {
    ExtensionIgnoresCase(n.name);
  }

  // ---------------------------------------------------------------------------
  // Tag colours
  // ---------------------------------------------------------------------------

  const TagClasses: map<string, string> := map[
    "NDA" := "bg-red-500/20 text-red-300",
    "Legal" := "bg-red-500/20 text-red-300",
    "Invoice" := "bg-purple-500/20 text-purple-300",
    "Stripe" := "bg-purple-500/20 text-purple-300",
    "Finance" := "bg-emerald-500/20 text-emerald-300",
    "Q4" := "bg-emerald-500/20 text-emerald-300",
    "Project" := "bg-blue-500/20 text-blue-300",
    "Design" := "bg-pink-500/20 text-pink-300",
    "Notes" := "bg-yellow-500/20 text-yellow-300",
    "Meeting" := "bg-yellow-500/20 text-yellow-300",
    "Photo" := "bg-cyan-500/20 text-cyan-300",
    "Resume" := "bg-orange-500/20 text-orange-300",
    "Installer" := "bg-gray-500/20 text-gray-300"
  ]

  const DefaultTagClass: string := "bg-white/10 text-white/50"

  /** The colour class of a tag chip: the listed class for a known tag, the neutral class for any other. */
  function TagColor(tag: string): (r: string)
    ensures tag in TagClasses ==> r == TagClasses[tag]
    ensures tag !in TagClasses ==> r == DefaultTagClass
    ensures r != ""
  {
    if tag in TagClasses then TagClasses[tag] else DefaultTagClass
  }

  /** The lookup is case-sensitive: only the exact spelling gets the tag's colour. */
  lemma TagColorCaseSensitive()
    ensures TagColor("NDA") == "bg-red-500/20 text-red-300"
    ensures TagColor("nda") == DefaultTagClass
    ensures TagColor("photo") == DefaultTagClass && TagColor("Photo") == "bg-cyan-500/20 text-cyan-300"
  {
    assert "nda" !in TagClasses;
    assert "photo" !in TagClasses;
  }

  /** Tags the seed uses but the table does not list fall back to the neutral class. */
  lemma UnlistedSeedTag()
    ensures TagColor("Brief") == DefaultTagClass
  {
    assert "Brief" !in TagClasses;
  }
}
