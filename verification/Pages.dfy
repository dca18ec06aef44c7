/** The page list of the documentation: a walk over the page tree that keeps the first page of each URL. */
module Pages {
  import opened Text

  /** A page of the tree; the name is absent when it is not plain text. */
  datatype Item = Item(name: Option<string>, url: string, external: bool)

  datatype Node = Separator | Page(item: Item) | Folder(index: Option<Item>, children: seq<Node>)

  datatype Entry = Entry(name: string, url: string)

  /** The plain name, or the last part of the URL. */
  function Label(item: Item): string {
    if item.name.Some? then item.name.value
    else
      var parts := NonEmpty(Split(item.url, '/'));
      if parts == [] then "Documentation" else parts[|parts| - 1]
  }

  /** A page without a plain name is named by the last part of its URL. */
  lemma {:induction false} LabelExact(item: Item, segments: seq<string>)
    requires AreSegments(segments) && item.url == "/" + Join(segments, "/")
    ensures item.name.Some? ==> Label(item) == item.name.value
    ensures item.name.None? ==> Label(item) == if segments == [] then "Documentation" else segments[|segments| - 1]
  {
    if segments == [] {
      assert item.url == "/" && Split("", '/') == [""];
      SplitAtSeparator("", '/', "");
      assert "" + "/" + "" == "/";
      assert NonEmpty(["", ""]) == [] by {
        assert ["", ""][1..] == [""] && [""][1..] == [];
      }
    } else {
      PathSegments(segments);
    }
  }

  // ----- The pages of a tree, in order -----

  /** The page itself, unless it is external. */
  function Listed(item: Item): seq<Entry> {
    if item.external then [] else [Entry(Label(item), item.url)]
  }

  /** The pages of one node, a folder's own page before its children. */
  function NodeListing(node: Node): seq<Entry> {
    match node
    case Separator => []
    case Page(item) => Listed(item)
    case Folder(None, children) => Listing(children)
    case Folder(Some(item), children) => Listed(item) + Listing(children)
  }

  function Listing(nodes: seq<Node>): seq<Entry> {
    if nodes == [] then [] else NodeListing(nodes[0]) + Listing(nodes[1..])
  }

  lemma {:induction false} ListingAppend(left: seq<Node>, right: seq<Node>)
    ensures Listing(left + right) == Listing(left) + Listing(right)
  {
    if left == [] {
      assert left + right == right;
    } else {
      assert (left + right)[1..] == left[1..] + right;
      ListingAppend(left[1..], right);
    }
  }

  /** The page of one node: the page itself, or a folder's own page. */
  function OwnPage(node: Node): Option<Item> {
    match node
    case Page(item) => Some(item)
    case Folder(index, _) => index
    case Separator => None
  }

  function Below(node: Node): seq<Node> {
    if node.Folder? then node.children else []
  }

  /**
   What a listing holds, by its place: the own page of a node when it is not external, everything
   below the node after it, and the following nodes after that.
   */
  lemma {:induction false} ListingOrder(before: seq<Node>, node: Node, after: seq<Node>)
    ensures var own := OwnPage(node);
            Listing(before + ([node] + after))
            == Listing(before)
               + ((if own.None? || own.value.external then [] else [Entry(Label(own.value), own.value.url)])
                  + (Listing(Below(node)) + Listing(after)))
  {
    ListingAppend(before, [node] + after);
    assert ([node] + after)[1..] == after && Listing([]) == [];
    var own := OwnPage(node);
    var listed := if own.None? || own.value.external then [] else [Entry(Label(own.value), own.value.url)];
    assert NodeListing(node) == listed + Listing(Below(node));
    Associative(listed, Listing(Below(node)), Listing(after));
  }

  // ----- The first entry of each URL -----

  function Urls(entries: seq<Entry>): set<string> {
    set e | e in entries :: e.url
  }

  /** Whether entry `k` is the first of its URL, and the URL was not seen before. */
  predicate IsFirst(entries: seq<Entry>, seen: set<string>, k: nat)
    requires k < |entries|
  {
    entries[k].url !in seen && forall j | 0 <= j < k :: entries[j].url != entries[k].url
  }

  /** The entries that are the first of their URL, in order. */
  function Firsts(entries: seq<Entry>, seen: set<string>): seq<Entry> {
    if entries == [] then []
    else
      var n := |entries| - 1;
      Firsts(entries[..n], seen) + if IsFirst(entries, seen, n) then [entries[n]] else []
  }

  lemma IsFirstInPrefix(entries: seq<Entry>, seen: set<string>)
    requires entries != []
    ensures var n := |entries| - 1;
            IsFirst(entries, seen, n) <==> entries[n].url !in seen + Urls(entries[..n])
  {
    var n := |entries| - 1;
    if entries[n].url in Urls(entries[..n]) {
      var e :| e in entries[..n] && e.url == entries[n].url;
      var j :| 0 <= j < n && entries[j] == e;
    }
    if j: nat :| j < n && entries[j].url == entries[n].url {
      assert entries[j] in entries[..n];
    }
  }

  lemma UrlsAppend(left: seq<Entry>, right: seq<Entry>)
    ensures Urls(left + right) == Urls(left) + Urls(right)
  {
  }

  lemma {:induction false} FirstsAppend(left: seq<Entry>, right: seq<Entry>, seen: set<string>)
    ensures Firsts(left + right, seen) == Firsts(left, seen) + Firsts(right, seen + Urls(left))
  {
    if right == [] {
      assert left + right == left;
    } else {
      var n := |right| - 1;
      FirstsAppend(left, right[..n], seen);
      var all := left + right;
      assert all[..|all| - 1] == left + right[..n];
      IsFirstInPrefix(all, seen);
      IsFirstInPrefix(right, seen + Urls(left));
      UrlsAppend(left, right[..n]);
    }
  }

  predicate DistinctUrls(entries: seq<Entry>) {
    forall j, k | 0 <= j < k < |entries| :: entries[j].url != entries[k].url
  }

  lemma {:induction false} FirstsUrls(entries: seq<Entry>, seen: set<string>)
    ensures Urls(Firsts(entries, seen)) == Urls(entries) - seen
  {
    if entries != [] {
      var n := |entries| - 1;
      FirstsUrls(entries[..n], seen);
      IsFirstInPrefix(entries, seen);
      assert entries == entries[..n] + [entries[n]];
      UrlsAppend(entries[..n], [entries[n]]);
      UrlsAppend(Firsts(entries[..n], seen), if IsFirst(entries, seen, n) then [entries[n]] else []);
    }
  }

  lemma {:induction false} FirstsDistinct(entries: seq<Entry>, seen: set<string>)
    ensures DistinctUrls(Firsts(entries, seen))
  {
    if entries != [] {
      var n := |entries| - 1;
      FirstsDistinct(entries[..n], seen);
      FirstsUrls(entries[..n], seen);
      IsFirstInPrefix(entries, seen);
      var before := Firsts(entries[..n], seen);
      forall j | 0 <= j < |before| ensures IsFirst(entries, seen, n) ==> before[j].url != entries[n].url {
        assert before[j] in before && before[j].url in Urls(before);
      }
    }
  }

  ghost predicate IsFirstEntry(entries: seq<Entry>, seen: set<string>, e: Entry) {
    exists k: nat :: k < |entries| && entries[k] == e && IsFirst(entries, seen, k)
  }

  lemma FirstOfLonger(entries: seq<Entry>, seen: set<string>, e: Entry)
    requires entries != []
    ensures var n := |entries| - 1;
            IsFirstEntry(entries, seen, e)
            <==> IsFirstEntry(entries[..n], seen, e) || (e == entries[n] && IsFirst(entries, seen, n))
  {
    var n := |entries| - 1;
    forall k: nat | k < n
      ensures entries[..n][k] == entries[k] && (IsFirst(entries[..n], seen, k) <==> IsFirst(entries, seen, k)) {
    }
    if IsFirstEntry(entries, seen, e) {
      var k: nat :| k < |entries| && entries[k] == e && IsFirst(entries, seen, k);
      assert k < n ==> entries[..n][k] == e;
    }
    if IsFirstEntry(entries[..n], seen, e) {
      var k: nat :| k < n && entries[..n][k] == e && IsFirst(entries[..n], seen, k);
      assert entries[k] == e;
    }
  }

  lemma {:induction false} FirstsMembers(entries: seq<Entry>, seen: set<string>, e: Entry)
    ensures e in Firsts(entries, seen) <==> IsFirstEntry(entries, seen, e)
  {
    if entries != [] {
      FirstsMembers(entries[..|entries| - 1], seen, e);
      FirstOfLonger(entries, seen, e);
    }
  }

  /** One entry for each URL not seen before, and it is the first one of that URL. */
  lemma {:induction false} FirstsAreFirst(entries: seq<Entry>, seen: set<string>)
    ensures var firsts := Firsts(entries, seen);
            && DistinctUrls(firsts) && Urls(firsts) == Urls(entries) - seen
            && forall e :: e in firsts <==> IsFirstEntry(entries, seen, e)
  {
    FirstsUrls(entries, seen);
    FirstsDistinct(entries, seen);
    forall e ensures e in Firsts(entries, seen) <==> IsFirstEntry(entries, seen, e) {
      FirstsMembers(entries, seen, e);
    }
  }

  lemma ListingStep(nodes: seq<Node>, k: nat)
    requires k < |nodes|
    ensures Listing(nodes[..k + 1]) == Listing(nodes[..k]) + NodeListing(nodes[k])
  {
    assert nodes[..k + 1] == nodes[..k] + [nodes[k]];
    ListingAppend(nodes[..k], [nodes[k]]);
    assert [nodes[k]][1..] == [];
  }

  /** Walking one more listing after another, from the state that `seen` started with. */
  lemma {:induction false} Walked(left: seq<Entry>, right: seq<Entry>, pages: seq<Entry>, seen: set<string>)
    ensures pages + Firsts(left, seen) + Firsts(right, seen + Urls(left)) == pages + Firsts(left + right, seen)
    ensures seen + Urls(left) + Urls(right) == seen + Urls(left + right)
  {
    FirstsAppend(left, right, seen);
    UrlsAppend(left, right);
  }

  // ----- The walk -----

  class Collector {
    var pages: seq<Entry>
    var seenUrls: set<string>

    constructor ()
      ensures pages == [] && seenUrls == {}
    {
      pages, seenUrls := [], {};
    }

    /** One page, as a list of its own or as a node. */
    method CollectPage(item: Item)
      modifies this
      ensures pages == old(pages) + Firsts(Listed(item), old(seenUrls))
      ensures seenUrls == old(seenUrls) + Urls(Listed(item))
    {
      if item.external || item.url in seenUrls {
        return;
      }
      seenUrls := seenUrls + {item.url};
      pages := pages + [Entry(Label(item), item.url)];
    }

    method CollectPages(nodes: seq<Node>)
      modifies this
      ensures pages == old(pages) + Firsts(Listing(nodes), old(seenUrls))
      ensures seenUrls == old(seenUrls) + Urls(Listing(nodes))
      decreases nodes
    {
      for k := 0 to |nodes|
        invariant pages == old(pages) + Firsts(Listing(nodes[..k]), old(seenUrls))
        invariant seenUrls == old(seenUrls) + Urls(Listing(nodes[..k]))
      {
        ListingStep(nodes, k);
        Walked(Listing(nodes[..k]), NodeListing(nodes[k]), old(pages), old(seenUrls));
        match nodes[k]
        case Separator =>
        case Folder(index, children) =>
          if index.Some? {
            Walked(Listed(index.value), Listing(children), pages, seenUrls);
            CollectPage(index.value);
          }
          CollectPages(children);
        case Page(item) => CollectPage(item);
      }
      assert nodes[..|nodes|] == nodes;
    }
  }
}
