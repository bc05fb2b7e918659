/**
 * The wallpaper directory scan: a bounded recursive listing that skips hidden names,
 * the image filter and the items the picker shows, the search rule, and the choice of
 * a random wallpaper. The file system is a tree value handed in by the caller.
 */
module WallpaperIndex {
  import opened Wrappers
  import opened JsStrings

  /**
   * A directory entry. A file carries the content type the file system reports for it
   * (`None` when it reports none); a directory may refuse to be enumerated.
   */
  datatype Node =
    | File(name: string, contentType: Option<string>)
    | Dir(name: string, readable: bool, children: seq<Node>)

  /** An entry found by the scan, with the path it was reached by. */
  datatype Listed = Listed(path: string, node: Node)

  /** What the picker shows for one wallpaper. */
  datatype Item = Item(path: string, name: string)

  predicate Hidden(name: string) {
    StartsWith(name, ".")
  }

  /** `ls(dir, { level, includeHidden })` on the entry found at `dirPath`: nothing unless it is a readable directory. */
  function DirListing(dirPath: string, n: Node, level: int, includeHidden: bool): seq<Listed>
    decreases n, 1
  {
    if n.Dir? && n.readable then Listing(dirPath, n.children, level, includeHidden) else []
  }

  /** The entries contributed by the children of one directory, in enumeration order. */
  function Listing(dirPath: string, children: seq<Node>, level: int, includeHidden: bool): seq<Listed>
    decreases children, 0
  {
    if children == [] then []
    else Visit(dirPath, children[0], level, includeHidden) + Listing(dirPath, children[1..], level, includeHidden)
  }

  /** One child: skipped when hidden, descended into while levels remain, listed otherwise. */
  function Visit(dirPath: string, child: Node, level: int, includeHidden: bool): seq<Listed>
    decreases child, 2
  {
    var path := dirPath + "/" + child.name;
    if Hidden(child.name) && !includeHidden then []
    else if child.Dir? && level > 0 then DirListing(path, child, level - 1, includeHidden)
    else [Listed(path, child)]
  }

  /** The scan, as the source writes it: a loop over the children pushing into an array, recursing into directories. */
  method Ls(dirPath: string, n: Node, level: int, includeHidden: bool) returns (files: seq<Listed>)
    ensures files == DirListing(dirPath, n, level, includeHidden)
    decreases n
  {
    if !n.Dir? || !n.readable {
      return [];
    }
    files := [];
    var i := 0;
    while i < |n.children|
      invariant 0 <= i <= |n.children|
      invariant files + Listing(dirPath, n.children[i..], level, includeHidden) == Listing(dirPath, n.children, level, includeHidden)
    {
      var child := n.children[i];
      ListingNext(dirPath, n.children, i, level, includeHidden);
      ghost var before, rest := files, Listing(dirPath, n.children[i + 1..], level, includeHidden);
      var path := dirPath + "/" + child.name;
      if Hidden(child.name) && !includeHidden {
        Advance(before, [], rest, Listing(dirPath, n.children, level, includeHidden));
        i := i + 1;
        continue;
      }
      if child.Dir? && level > 0 {
        var sub := Ls(path, child, level - 1, includeHidden);
        files := files + sub;
      } else {
        files := files + [Listed(path, child)];
      }
      Advance(before, Visit(dirPath, child, level, includeHidden), rest, Listing(dirPath, n.children, level, includeHidden));
      i := i + 1;
    }
  }

  lemma Advance(done: seq<Listed>, v: seq<Listed>, rest: seq<Listed>, all: seq<Listed>)
    requires done + (v + rest) == all
    ensures (done + v) + rest == all
  {
  }

  /** The listing of the children from `i` on starts with the visit of child `i`. */
  lemma ListingNext(dirPath: string, children: seq<Node>, i: nat, level: int, includeHidden: bool)
    requires i < |children|
    ensures Listing(dirPath, children[i..], level, includeHidden)
      == Visit(dirPath, children[i], level, includeHidden) + Listing(dirPath, children[i + 1..], level, includeHidden)
  {
    assert children[i..][1..] == children[i + 1..];
  }

  /** Without `includeHidden`, no listed entry has a name starting with ".". */
  lemma {:induction false} ListingSkipsHidden(dirPath: string, children: seq<Node>, level: int)
    ensures forall x :: x in Listing(dirPath, children, level, false) ==> !Hidden(x.node.name)
    decreases children, 0
  {
    if children != [] {
      VisitSkipsHidden(dirPath, children[0], level);
      ListingSkipsHidden(dirPath, children[1..], level);
    }
  }

  lemma {:induction false} VisitSkipsHidden(dirPath: string, child: Node, level: int)
    ensures forall x :: x in Visit(dirPath, child, level, false) ==> !Hidden(x.node.name)
    decreases child, 2
  {
    if !Hidden(child.name) && child.Dir? && level > 0 && child.readable {
      ListingSkipsHidden(dirPath + "/" + child.name, child.children, level - 1);
    }
  }

  /** Every listed path lies under the directory scanned. */
  lemma {:induction false} ListingUnder(dirPath: string, children: seq<Node>, level: int, includeHidden: bool)
    ensures forall x :: x in Listing(dirPath, children, level, includeHidden) ==> StartsWith(x.path, dirPath + "/")
    decreases children, 0
  {
    if children != [] {
      var child := children[0];
      var path := dirPath + "/" + child.name;
      StartsWithAppend(dirPath + "/", child.name);
      StartsWithAppend(dirPath + "/", child.name + "/");
      assert path + "/" == (dirPath + "/") + (child.name + "/");
      var v := Visit(dirPath, child, level, includeHidden);
      if Hidden(child.name) && !includeHidden {
        assert v == [];
      } else if child.Dir? && level > 0 {
        assert v == DirListing(path, child, level - 1, includeHidden);
        if child.readable {
          ListingUnder(path, child.children, level - 1, includeHidden);
          assert v == Listing(path, child.children, level - 1, includeHidden);
          assert StartsWith(path + "/", dirPath + "/");
          forall x | x in v ensures StartsWith(x.path, dirPath + "/") {
            StartsWithTrans(x.path, path + "/", dirPath + "/");
          }
        }
      } else {
        assert v == [Listed(path, child)];
      }
      ListingUnder(dirPath, children[1..], level, includeHidden);
      assert Listing(dirPath, children, level, includeHidden) == v + Listing(dirPath, children[1..], level, includeHidden);
    }
  }

  /** At level 0 nothing is descended into: the listing is the visible children themselves. */
  lemma {:induction false} ListingFlat(dirPath: string, children: seq<Node>, includeHidden: bool)
    ensures forall x :: x in Listing(dirPath, children, 0, includeHidden) ==>
      x.node in children && x.path == dirPath + "/" + x.node.name && (includeHidden || !Hidden(x.node.name))
    decreases children
  {
    if children != [] {
      ListingFlat(dirPath, children[1..], includeHidden);
    }
  }

  /** `info.get_content_type()?.startsWith("image/") ?? false` */
  predicate IsImage(n: Node) {
    n.File? && n.contentType.Some? && StartsWith(n.contentType.value, "image/")
  }

  function ImagesOf(files: seq<Listed>): (r: seq<Listed>)
    ensures |r| <= |files|
    ensures forall x :: x in r ==> x in files && IsImage(x.node)
  {
    if files == [] then []
    else (if IsImage(files[0].node) then [files[0]] else []) + ImagesOf(files[1..])
  }

  /** No image is dropped by the filter. */
  lemma {:induction false} ImagesOfComplete(files: seq<Listed>, x: Listed)
    requires x in files && IsImage(x.node)
    ensures x in ImagesOf(files)
  {
    if x != files[0] {
      ImagesOfComplete(files[1..], x);
    }
  }

  /** The picker item for a file: its path, and its name or "Unknown". */
  function ToItem(x: Listed): (it: Item)
    ensures it.path == x.path && it.name != []
  {
    Item(x.path, if x.node.name == [] then "Unknown" else x.node.name)
  }

  /**
   * `loadWallpapers`: no directory gives no items; otherwise the images among a
   * two-level scan, in scan order.
   */
  function Wallpapers(root: Option<Node>, dirPath: string, includeHidden: bool): (items: seq<Item>)
    ensures root.None? ==> items == []
    ensures root.Some? ==> var images := ImagesOf(DirListing(dirPath, root.value, 2, includeHidden));
      |items| == |images| && forall i :: 0 <= i < |items| ==> items[i] == ToItem(images[i])
  {
    match root
    case None => []
    case Some(n) =>
      var images := ImagesOf(DirListing(dirPath, n, 2, includeHidden));
      seq(|images|, i requires 0 <= i < |images| => ToItem(images[i]))
  }

  lemma DirListingUnder(dirPath: string, n: Node, level: int, includeHidden: bool, x: Listed)
    requires x in DirListing(dirPath, n, level, includeHidden)
    ensures StartsWith(x.path, dirPath + "/")
    ensures !includeHidden ==> !Hidden(x.node.name)
  {
    ListingUnder(dirPath, n.children, level, includeHidden);
    if !includeHidden {
      ListingSkipsHidden(dirPath, n.children, level);
    }
  }

  /** Every item is an image file found under the directory, and hidden names are skipped unless asked for. */
  lemma WallpapersAreImages(root: Option<Node>, dirPath: string, includeHidden: bool, it: Item)
    requires it in Wallpapers(root, dirPath, includeHidden)
    ensures StartsWith(it.path, dirPath + "/")
    ensures !includeHidden ==> !Hidden(it.name)
  {
    var files := DirListing(dirPath, root.value, 2, includeHidden);
    var x := ItemOf(ImagesOf(files), Wallpapers(root, dirPath, includeHidden), it);
    DirListingUnder(dirPath, root.value, 2, includeHidden, x);
    ItemKeepsPath(x, it, dirPath + "/", includeHidden);
  }

  /** The item of an entry has the entry's path, and a hidden name only when the entry has one. */
  lemma ItemKeepsPath(x: Listed, it: Item, prefix: string, includeHidden: bool)
    requires it == ToItem(x) && StartsWith(x.path, prefix)
    requires !includeHidden ==> !Hidden(x.node.name)
    ensures StartsWith(it.path, prefix)
    ensures !includeHidden ==> !Hidden(it.name)
  {
    assert "Unknown"[0] == 'U';
  }

  /** An item of a list built entry by entry with `ToItem` comes from one of the entries. */
  lemma ItemOf(images: seq<Listed>, items: seq<Item>, it: Item) returns (x: Listed)
    requires |items| == |images| && forall i :: 0 <= i < |items| ==> items[i] == ToItem(images[i])
    requires it in items
    ensures x in images && it == ToItem(x)
  {
    var i :| 0 <= i < |items| && items[i] == it;
    x := images[i];
  }

  /**
   * `search`: a blank query finds nothing; otherwise the fuzzy matcher's ranked
   * results, handed in, are cut to `maxItems`.
   */
  function Search(text: string, ranked: seq<Item>, maxItems: nat): (r: seq<Item>)
    ensures IsBlank(text) ==> r == []
    ensures !IsBlank(text) ==> r == ranked[..if |ranked| < maxItems then |ranked| else maxItems]
    ensures |r| <= maxItems
  {
    BlankIffTrimEmpty(text);
    if text == [] || |Trim(text)| == 0 then []
    else ranked[..if |ranked| < maxItems then |ranked| else maxItems]
  }

  /** The items other than the current wallpaper, or all of them when there is no other. */
  function Candidates(items: seq<Item>, current: string): (r: seq<Item>)
    ensures forall it :: it in r ==> it in items
  {
    var others := Others(items, current);
    if |others| > 0 then others else items
  }

  function Others(items: seq<Item>, current: string): (r: seq<Item>)
    ensures forall it :: it in r <==> it in items && it.path != current
  {
    if items == [] then []
    else (if items[0].path != current then [items[0]] else []) + Others(items[1..], current)
  }

  /** `Math.floor(random * n)` for a random number in [0, 1): an index into a list of length `n`. */
  function RandomIndex(n: nat, random: real): (k: nat)
    requires n > 0 && 0.0 <= random < 1.0
    ensures k < n
  {
    assert random * n as real < n as real;
    (random * n as real).Floor
  }

  /** `candidates[Math.floor(Math.random() * candidates.length)]`, with the random number handed in. */
  function PickRandom(items: seq<Item>, current: string, random: real): (it: Item)
    requires |items| > 0 && 0.0 <= random < 1.0
    ensures it in items
  {
    var c := Candidates(items, current);
    c[RandomIndex(|c|, random)]
  }

  /** The random pick never repeats the current wallpaper when another one exists. */
  lemma PickRandomAvoidsCurrent(items: seq<Item>, current: string, random: real)
    requires |items| > 0 && 0.0 <= random < 1.0
    requires exists it :: it in items && it.path != current
    ensures PickRandom(items, current, random).path != current
  {
    var it :| it in items && it.path != current;
    var others := Others(items, current);
    assert it in others;
    assert Candidates(items, current) == others;
    assert others[RandomIndex(|others|, random)] in others;
  }
}
