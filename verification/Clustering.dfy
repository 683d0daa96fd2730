/** Wallet clustering: union-find with path halving over the eligible relations,
    proved equal to graph connectivity. */
module Clustering {
  import opened StringOrder

  datatype Relation = Relation(walletA: string, walletB: string, eligible: bool)

  datatype Cluster = Cluster(id: string, wallets: seq<string>, explanations: seq<Relation>,
                             holdingShare: real, buyShare: real)

  datatype Clustered = Clusters(clusters: seq<Cluster>) | OutOfScope

  // ---------------------------------------------------------------------------
  // Reference definition: connectivity through eligible relations.

  ghost predicate Linked(rels: seq<Relation>, a: string, b: string) {
    exists r :: r in rels && r.eligible
                && ((r.walletA == a && r.walletB == b) || (r.walletA == b && r.walletB == a))
  }

  ghost predicate IsPath(rels: seq<Relation>, path: seq<string>, a: string, b: string) {
    path != [] && path[0] == a && path[|path| - 1] == b
    && forall i :: 0 <= i < |path| - 1 ==> Linked(rels, path[i], path[i + 1])
  }

  ghost predicate Connected(rels: seq<Relation>, a: string, b: string) {
    exists path :: IsPath(rels, path, a, b)
  }

  predicate InScope(wallets: set<string>, r: Relation) {
    r.eligible ==> r.walletA in wallets && r.walletB in wallets
  }

  /** What a clustering of `wallets` has to be: disjoint nonempty sorted groups listed by
      identifier, each identified by its smallest member, two wallets together exactly when
      eligible relations connect them, each group explained by its own eligible relations. */
  ghost predicate IsClustering(wallets: set<string>, rels: seq<Relation>, cs: seq<Cluster>) {
    (forall i, j :: 0 <= i < j < |cs| ==> Less(cs[i].id, cs[j].id))
    && (forall c :: c in cs ==> WellFormed(wallets, rels, c))
    && (forall w :: w in wallets ==> exists c :: c in cs && w in c.wallets)
  }

  ghost predicate WellFormed(wallets: set<string>, rels: seq<Relation>, c: Cluster) {
    c.wallets != [] && c.id == c.wallets[0] && StrictlySorted(c.wallets)
    && (forall w :: w in c.wallets ==> w in wallets)
    && (forall a, b :: a in c.wallets && b in wallets ==> (b in c.wallets <==> Connected(rels, a, b)))
    && c.explanations == Explain(rels, c.wallets)
  }

  function Explain(rels: seq<Relation>, members: seq<string>): seq<Relation> {
    if rels == [] then []
    else
      var r := rels[0];
      (if r.walletA in members && r.walletB in members && r.eligible then [r] else [])
      + Explain(rels[1..], members)
  }

  lemma PathEndsHere(rels: seq<Relation>, a: string)
    ensures Connected(rels, a, a)
  {
    assert IsPath(rels, [a], a, a);
  }

  lemma LinkConnects(rels: seq<Relation>, a: string, b: string)
    requires Linked(rels, a, b)
    ensures Connected(rels, a, b)
  {
    assert IsPath(rels, [a, b], a, b);
  }

  lemma ConnectedSymmetric(rels: seq<Relation>, a: string, b: string)
    requires Connected(rels, a, b)
    ensures Connected(rels, b, a)
  {
    var p :| IsPath(rels, p, a, b);
    var q := seq(|p|, i requires 0 <= i < |p| => p[|p| - 1 - i]);
    forall i | 0 <= i < |q| - 1 ensures Linked(rels, q[i], q[i + 1]) {
      assert Linked(rels, p[|p| - 2 - i], p[|p| - 2 - i + 1]);
    }
    assert IsPath(rels, q, b, a);
  }

  lemma ConnectedTransitive(rels: seq<Relation>, a: string, b: string, c: string)
    requires Connected(rels, a, b) && Connected(rels, b, c)
    ensures Connected(rels, a, c)
  {
    var p :| IsPath(rels, p, a, b);
    var q :| IsPath(rels, q, b, c);
    var r := p + q[1..];
    forall i | 0 <= i < |r| - 1 ensures Linked(rels, r[i], r[i + 1]) {
      if i < |p| - 1 {
        assert Linked(rels, p[i], p[i + 1]);
      } else {
        assert Linked(rels, q[i - |p| + 1], q[i - |p| + 1 + 1]);
      }
    }
    assert IsPath(rels, r, a, c);
  }

  /** Connectivity depends only on which eligible relations there are. */
  lemma ConnectedMonotone(rels: seq<Relation>, more: seq<Relation>, a: string, b: string)
    requires Connected(rels, a, b)
    requires forall r :: r in rels && r.eligible ==> r in more
    ensures Connected(more, a, b)
  {
    var p :| IsPath(rels, p, a, b);
    forall i | 0 <= i < |p| - 1 ensures Linked(more, p[i], p[i + 1]) {
      assert Linked(rels, p[i], p[i + 1]);
    }
    assert IsPath(more, p, a, b);
  }

  // ---------------------------------------------------------------------------
  // The parent map. Parents never increase in string order, so chains end.

  /** `root` names the end of every parent chain of `p`. */
  ghost predicate Labels(p: map<string, string>, root: map<string, string>) {
    root.Keys == p.Keys && forall w {:trigger Labelled(p, root, w)} :: w in p ==> Labelled(p, root, w)
  }

  ghost predicate Labelled(p: map<string, string>, root: map<string, string>, w: string)
    requires w in p && root.Keys == p.Keys
  {
    p[w] in p && AtMost(p[w], w)
    && root[w] in p && p[root[w]] == root[w] && AtMost(root[w], w)
    && root[p[w]] == root[w] && (p[w] == w ==> root[w] == w)
  }

  ghost function Below(keys: set<string>, w: string): set<string> {
    set x | x in keys && Less(x, w)
  }

  lemma BelowShrinks(keys: set<string>, lower: string, w: string)
    requires lower in keys && Less(lower, w)
    ensures |Below(keys, lower)| < |Below(keys, w)|
  {
    var small, large := Below(keys, lower), Below(keys, w);
    Irreflexive(lower);
    forall x | x in small ensures x in large {
      Transitive(x, lower, w);
    }
    assert lower in large && lower !in small;
    var rest := large - small;
    assert large == small + rest;
  }

  /** The path-halving assignment `parent[w] = parent[parent[w]]` moves no root. */
  lemma HalvingKeepsLabels(p: map<string, string>, root: map<string, string>, w: string)
    requires Labels(p, root) && w in p && p[w] != w
    ensures p[w] in p && Labels(p[w := p[p[w]]], root)
    ensures Less(p[p[w]], w)
  {
    assert Labelled(p, root, w) && Labelled(p, root, p[w]);
    var g := p[p[w]];
    if g != p[w] { Transitive(g, p[w], w); }
    Irreflexive(w);
    var p' := p[w := g];
    assert p'.Keys == p.Keys;
    forall x | x in p' ensures Labelled(p', root, x) {
      assert Labelled(p, root, x);
    }
  }

  /** The labels once the tree rooted at `high` hangs under `low`. */
  ghost function Relabel(root: map<string, string>, low: string, high: string): map<string, string> {
    map w | w in root :: if root[w] == high then low else root[w]
  }

  /** Hanging the larger of two roots under the smaller merges exactly those two trees. */
  lemma LinkMergesLabels(p: map<string, string>, root: map<string, string>, low: string, high: string)
    requires Labels(p, root) && low in p && high in p
    requires p[low] == low && p[high] == high && Less(low, high)
    ensures Labels(p[high := low], Relabel(root, low, high))
  {
    var p', root' := p[high := low], Relabel(root, low, high);
    assert Labelled(p, root, low) && Labelled(p, root, high);
    Irreflexive(low);
    forall x | x in p' ensures Labelled(p', root', x) {
      assert Labelled(p, root, x);
      if root[x] == high && x != high { Transitive(low, high, x); }
    }
  }

  // ---------------------------------------------------------------------------
  // The mutable parent dictionary with its `find` and `union`.

  class DisjointSets {
    var parent: map<string, string>
    ghost var root: map<string, string>

    ghost predicate Valid()
      reads this
    {
      Labels(parent, root)
    }

    constructor (wallets: set<string>)
      ensures Valid() && parent.Keys == wallets
      ensures forall w :: w in wallets ==> root[w] == w
    {
      parent := map w | w in wallets :: w;
      root := map w | w in wallets :: w;
    }

    method Find(start: string) returns (r: string)
      requires Valid() && start in parent
      modifies this`parent
      ensures Valid() && parent.Keys == old(parent.Keys)
      ensures r == root[start]
    {
      var wallet := start;
      while parent[wallet] != wallet
        invariant Valid() && parent.Keys == old(parent.Keys)
        invariant wallet in parent && root[wallet] == root[start]
        decreases |Below(parent.Keys, wallet)|
      {
        HalvingKeepsLabels(parent, root, wallet);
        assert Labelled(parent, root, parent[wallet]);
        BelowShrinks(parent.Keys, parent[parent[wallet]], wallet);
        ghost var keys := parent.Keys;
        parent := parent[wallet := parent[parent[wallet]]];
        assert parent.Keys == keys;
        assert Labelled(parent, root, wallet);
        wallet := parent[wallet];
      }
      assert Labelled(parent, root, wallet);
      r := wallet;
    }

    method Union(left: string, right: string)
      requires Valid() && left in parent && right in parent
      modifies this
      ensures Valid() && parent.Keys == old(parent.Keys)
      ensures root == Merged(old(root), left, right)
    {
      hide Less;
      var leftRoot := Find(left);
      var rightRoot := Find(right);
      assert Labelled(parent, root, left) && Labelled(parent, root, right);
      if leftRoot == rightRoot {
        Irreflexive(leftRoot);
        assert root == Relabel(root, leftRoot, leftRoot);
        return;
      }
      Comparable(leftRoot, rightRoot);
      var low, high := leftRoot, rightRoot;
      if Less(rightRoot, leftRoot) {
        low, high := rightRoot, leftRoot;
      }
      LinkMergesLabels(parent, root, low, high);
      parent := parent[high := low];
      root := Relabel(root, low, high);
    }
  }

  /** The labels after `union(left, right)`: the smaller of the two roots wins. */
  ghost function Merged(root: map<string, string>, left: string, right: string): map<string, string>
    requires left in root && right in root
  {
    if Less(root[right], root[left]) then Relabel(root, root[right], root[left])
    else Relabel(root, root[left], root[right])
  }

  // ---------------------------------------------------------------------------
  // After any number of unions, equal roots mean connected wallets.

  ghost predicate RootsMatch(root: map<string, string>, rels: seq<Relation>) {
    (forall r :: r in rels && r.eligible ==>
      r.walletA in root && r.walletB in root && root[r.walletA] == root[r.walletB])
    && (forall w :: w in root ==> Connected(rels, w, root[w]))
  }

  lemma UnionKeepsMatch(root: map<string, string>, rels: seq<Relation>, r: Relation)
    requires RootsMatch(root, rels) && r.eligible
    requires r.walletA in root && r.walletB in root
    ensures RootsMatch(Merged(root, r.walletA, r.walletB), rels + [r])
  {
    var more, a, b := rels + [r], r.walletA, r.walletB;
    var root' := Merged(root, a, b);
    assert r in more;
    assert Linked(more, a, b) && Linked(more, b, a);
    forall w | w in root' ensures Connected(more, w, root'[w]) {
      ConnectedMonotone(rels, more, w, root[w]);
      if root[w] == root[a] && root'[w] == root[b] {
        CrossEdge(rels, more, root, w, a, b);
      } else if root[w] == root[b] && root'[w] == root[a] {
        CrossEdge(rels, more, root, w, b, a);
      }
    }
  }

  lemma CrossEdge(rels: seq<Relation>, more: seq<Relation>, root: map<string, string>, w: string, a: string, b: string)
    requires a in root && b in root && w in root && root[w] == root[a]
    requires Connected(rels, w, root[w]) && Connected(rels, a, root[a]) && Connected(rels, b, root[b])
    requires (forall r :: r in rels ==> r in more) && Linked(more, a, b)
    ensures Connected(more, w, root[b])
  {
    ConnectedMonotone(rels, more, w, root[w]);
    ConnectedMonotone(rels, more, a, root[a]);
    ConnectedMonotone(rels, more, b, root[b]);
    ConnectedSymmetric(more, a, root[a]);
    LinkConnects(more, a, b);
    ConnectedTransitive(more, w, root[a], a);
    ConnectedTransitive(more, w, a, b);
    ConnectedTransitive(more, w, b, root[b]);
  }

  lemma {:induction false} PathKeepsRoot(root: map<string, string>, rels: seq<Relation>, path: seq<string>, a: string, b: string)
    requires RootsMatch(root, rels) && a in root && IsPath(rels, path, a, b)
    ensures b in root && root[a] == root[b]
    decreases |path|
  {
    if |path| > 1 {
      assert Linked(rels, path[0], path[0 + 1]);
      var rest := path[1..];
      forall i | 0 <= i < |rest| - 1 ensures Linked(rels, rest[i], rest[i + 1]) {
        assert Linked(rels, path[i + 1], path[i + 1 + 1]);
      }
      PathKeepsRoot(root, rels, rest, path[1], b);
    }
  }

  /** The union-find answer is graph connectivity, in both directions. */
  lemma SameRootIffConnected(root: map<string, string>, rels: seq<Relation>, a: string, b: string)
    requires RootsMatch(root, rels) && a in root && b in root
    ensures root[a] == root[b] <==> Connected(rels, a, b)
  {
    if Connected(rels, a, b) {
      var path :| IsPath(rels, path, a, b);
      PathKeepsRoot(root, rels, path, a, b);
    }
    if root[a] == root[b] {
      ConnectedSymmetric(rels, b, root[b]);
      ConnectedTransitive(rels, a, root[a], b);
    }
  }

  // ---------------------------------------------------------------------------
  // build_clusters

  /** The groups once the wallets in `seen` have been placed. */
  ghost predicate Grouped(root: map<string, string>, seen: seq<string>, grouped: map<string, seq<string>>) {
    (forall r :: r in grouped ==> grouped[r] != [] && StrictlySorted(grouped[r]))
    && (forall r, w :: r in grouped && w in grouped[r] ==> w in seen && w in root && root[w] == r)
    && (forall w :: w in seen ==> w in root && root[w] in grouped && w in grouped[root[w]])
  }

  /** Appending the next wallet in sorted order keeps the groups right. */
  lemma GroupedAppend(root: map<string, string>, seen: seq<string>, w: string, grouped: map<string, seq<string>>)
    requires w in root && Grouped(root, seen, grouped) && forall x :: x in seen ==> Less(x, w)
    ensures Grouped(root, seen + [w],
                    grouped[root[w] := (if root[w] in grouped then grouped[root[w]] else []) + [w]])
  {
    var group := if root[w] in grouped then grouped[root[w]] else [];
    forall i, j | 0 <= i < j < |group + [w]| ensures Less((group + [w])[i], (group + [w])[j]) {
      assert group[i] in group;
    }
  }

  /** `build_clusters`: refuses a relation outside the wallet set, otherwise returns the
      connected components. */
  method BuildClusters(wallets: set<string>, relations: seq<Relation>, holdings: map<string, real>, volumes: map<string, real>)
    returns (result: Clustered)
    ensures result.OutOfScope?
            <==> exists r :: r in relations && r.eligible && (r.walletA !in wallets || r.walletB !in wallets)
    ensures result.Clusters? ==> IsClustering(wallets, relations, result.clusters)
    ensures result.Clusters? ==> SharesOf(result.clusters, holdings, volumes)
  {
    hide Less, Connected, Sorted, Explain;
    var sets := new DisjointSets(wallets);
    forall w | w in sets.root ensures Connected([], w, sets.root[w]) {
      PathEndsHere([], w);
    }
    for i := 0 to |relations|
      invariant sets.Valid() && sets.parent.Keys == wallets && fresh(sets)
      invariant RootsMatch(sets.root, relations[..i])
      invariant forall r :: r in relations[..i] ==> InScope(wallets, r)
    {
      var relation := relations[i];
      if relation.eligible {
        if relation.walletA !in sets.parent || relation.walletB !in sets.parent {
          assert relation in relations && !InScope(wallets, relation);
          return OutOfScope;
        }
        UnionKeepsMatch(sets.root, relations[..i], relation);
        sets.Union(relation.walletA, relation.walletB);
      } else {
        forall w | w in sets.root ensures Connected(relations[..i] + [relation], w, sets.root[w]) {
          ConnectedMonotone(relations[..i], relations[..i] + [relation], w, sets.root[w]);
        }
      }
      assert relations[..i + 1] == relations[..i] + [relation];
    }
    assert relations[..|relations|] == relations;
    var clusters := GroupClusters(wallets, relations, sets, holdings, volumes);
    result := Clusters(clusters);
  }

  method GroupClusters(wallets: set<string>, relations: seq<Relation>, sets: DisjointSets,
                       holdings: map<string, real>, volumes: map<string, real>)
    returns (clusters: seq<Cluster>)
    requires sets.Valid() && RootsMatch(sets.root, relations) && sets.parent.Keys == wallets
    modifies sets
    ensures IsClustering(wallets, relations, clusters) && SharesOf(clusters, holdings, volumes)
  {
    hide Less, Connected, Sorted, Explain, Grouped, IsClustering, RootsMatch, Held, Part;
    LabelsAreLeast(sets.parent, sets.root);
    ghost var root := sets.root;
    var grouped := PlaceWallets(wallets, sets);
    var roots := Sorted(grouped.Keys);
    var totalHoldings := SumHeld(holdings, Sorted(holdings.Keys));
    var totalVolume := SumHeld(volumes, Sorted(volumes.Keys));
    clusters := [];
    for k := 0 to |roots|
      invariant |clusters| == k && SharesOf(clusters, holdings, volumes)
      invariant forall j :: 0 <= j < k ==> IsGroup(relations, grouped, roots[j], clusters[j])
    {
      assert roots[k] in roots;
      var members := grouped[roots[k]];
      var held := SumHeld(holdings, members);
      var bought := SumHeld(volumes, members);
      clusters := clusters + [Cluster(roots[k], members, Explain(relations, members),
                                      Part(held, totalHoldings), Part(bought, totalVolume))];
    }
    GroupsAreClusters(wallets, relations, root, grouped, roots, clusters);
  }

  /** What the wallets hold together; a wallet without an entry holds nothing. */
  function Held(amounts: map<string, real>, ws: seq<string>): real {
    if ws == [] then 0.0
    else
      var last := ws[|ws| - 1];
      Held(amounts, ws[..|ws| - 1]) + if last in amounts then amounts[last] else 0.0
  }

  function Part(amount: real, total: real): real {
    if total > 0.0 then amount / total else 0.0
  }

  /** Each cluster carries its members' part of all holdings and of all volumes. */
  ghost predicate SharesOf(cs: seq<Cluster>, holdings: map<string, real>, volumes: map<string, real>) {
    forall c :: c in cs ==>
      c.holdingShare == Part(Held(holdings, c.wallets), Held(holdings, Sorted(holdings.Keys)))
      && c.buyShare == Part(Held(volumes, c.wallets), Held(volumes, Sorted(volumes.Keys)))
  }

  method SumHeld(amounts: map<string, real>, ws: seq<string>) returns (sum: real)
    ensures sum == Held(amounts, ws)
  {
    sum := 0.0;
    for i := 0 to |ws|
      invariant sum == Held(amounts, ws[..i])
    {
      assert ws[..i + 1][..i] == ws[..i];
      if ws[i] in amounts { sum := sum + amounts[ws[i]]; }
    }
    assert ws[..|ws|] == ws;
  }

  method PlaceWallets(wallets: set<string>, sets: DisjointSets) returns (grouped: map<string, seq<string>>)
    requires sets.Valid() && sets.parent.Keys == wallets
    modifies sets`parent
    ensures Grouped(sets.root, Sorted(wallets), grouped)
  {
    hide Less, Sorted;
    grouped := map[];
    var order := Sorted(wallets);
    for i := 0 to |order|
      invariant sets.Valid() && sets.parent.Keys == wallets
      invariant Grouped(sets.root, order[..i], grouped)
    {
      assert order[i] in order;
      var r := sets.Find(order[i]);
      GroupedAppend(sets.root, order[..i], order[i], grouped);
      grouped := grouped[r := (if r in grouped then grouped[r] else []) + [order[i]]];
      assert order[..i + 1] == order[..i] + [order[i]];
    }
    assert order[..|order|] == order;
  }

  ghost predicate LeastRoots(root: map<string, string>) {
    forall w {:trigger LeastRoot(root, w)} :: w in root ==> LeastRoot(root, w)
  }

  ghost predicate LeastRoot(root: map<string, string>, w: string)
    requires w in root
  {
    AtMost(root[w], w) && root[w] in root && root[root[w]] == root[w]
  }

  lemma LabelsAreLeast(p: map<string, string>, root: map<string, string>)
    requires Labels(p, root)
    ensures LeastRoots(root)
  {
    forall w | w in root ensures LeastRoot(root, w) {
      assert Labelled(p, root, w);
      assert Labelled(p, root, root[w]);
    }
  }

  ghost predicate IsGroup(rels: seq<Relation>, grouped: map<string, seq<string>>, r: string, c: Cluster) {
    r in grouped && c.id == r && c.wallets == grouped[r] && c.explanations == Explain(rels, grouped[r])
  }

  lemma GroupsAreClusters(wallets: set<string>, rels: seq<Relation>, root: map<string, string>,
                          grouped: map<string, seq<string>>, roots: seq<string>, cs: seq<Cluster>)
    requires root.Keys == wallets && RootsMatch(root, rels)
    requires LeastRoots(root)
    requires Grouped(root, Sorted(wallets), grouped)
    requires roots == Sorted(grouped.Keys) && |cs| == |roots|
    requires forall j :: 0 <= j < |cs| ==> IsGroup(rels, grouped, roots[j], cs[j])
    ensures IsClustering(wallets, rels, cs)
  {
    hide Less, Connected, Sorted, Explain;
    forall c | c in cs ensures WellFormed(wallets, rels, c) {
      GroupIsWellFormed(wallets, rels, root, grouped, c);
    }
    forall w | w in wallets ensures exists c :: c in cs && w in c.wallets {
      assert w in Sorted(wallets);
      assert root[w] in roots;
      var j :| 0 <= j < |roots| && roots[j] == root[w];
      assert IsGroup(rels, grouped, roots[j], cs[j]);
      assert cs[j] in cs;
    }
  }

  lemma GroupIsWellFormed(wallets: set<string>, rels: seq<Relation>, root: map<string, string>,
                          grouped: map<string, seq<string>>, c: Cluster)
    requires root.Keys == wallets && RootsMatch(root, rels)
    requires LeastRoots(root)
    requires Grouped(root, Sorted(wallets), grouped) && IsGroup(rels, grouped, c.id, c)
    ensures WellFormed(wallets, rels, c)
  {
    hide Less, Connected, Sorted, Explain;
    var ms := c.wallets;
    assert ms[0] in ms;
    assert LeastRoot(root, ms[0]);
    assert c.id in Sorted(wallets) && c.id in ms;
    var i :| 0 <= i < |ms| && ms[i] == c.id;
    if ms[0] != c.id {
      Asymmetric(ms[0], c.id);
      assert false;
    }
    forall a, b | a in ms && b in wallets ensures b in ms <==> Connected(rels, a, b) {
      assert b in Sorted(wallets);
      SameRootIffConnected(root, rels, a, b);
    }
  }

  // ---------------------------------------------------------------------------
  // What callers may rely on.

  /** No wallet is in two clusters. */
  lemma ClustersAreDisjoint(wallets: set<string>, rels: seq<Relation>, cs: seq<Cluster>, i: nat, j: nat, w: string)
    requires IsClustering(wallets, rels, cs) && i < j < |cs|
    requires w in cs[i].wallets
    ensures w !in cs[j].wallets
  {
    hide Connected, Explain;
    if w in cs[j].wallets {
      var a, b := cs[i], cs[j];
      assert a in cs && b in cs;
      assert forall x :: x in a.wallets <==> x in b.wallets;
      SortedIsUnique(a.wallets, b.wallets);
      Irreflexive(a.id);
      assert false;
    }
  }

  /** The identifier is the least wallet connected to any member. */
  lemma IdIsLeast(wallets: set<string>, rels: seq<Relation>, c: Cluster, w: string)
    requires WellFormed(wallets, rels, c) && w in wallets && Connected(rels, c.id, w)
    ensures AtMost(c.id, w)
  {
    assert c.wallets[0] in c.wallets;
    var i :| 0 <= i < |c.wallets| && c.wallets[i] == w;
  }

  /** The clustering is a function of the wallets and of which eligible relations exist:
      reordering, repeating or dropping ineligible relations changes no group. */
  lemma ClusteringIndependentOfOrder(wallets: set<string>, rels: seq<Relation>, rels': seq<Relation>,
                                     cs: seq<Cluster>, cs': seq<Cluster>)
    requires IsClustering(wallets, rels, cs) && IsClustering(wallets, rels', cs')
    requires forall r: Relation :: r.eligible ==> (r in rels <==> r in rels')
    ensures |cs| == |cs'|
    ensures forall i :: 0 <= i < |cs| ==> cs[i].id == cs'[i].id && cs[i].wallets == cs'[i].wallets
  {
    var ids, ids' := Ids(cs), Ids(cs');
    forall x ensures x in ids <==> x in ids' {
      if x in ids { SameGroup(wallets, rels, rels', cs, cs', x); }
      if x in ids' { SameGroup(wallets, rels', rels, cs', cs, x); }
    }
    SortedIsUnique(ids, ids');
    forall i | 0 <= i < |cs| ensures cs[i].id == cs'[i].id && cs[i].wallets == cs'[i].wallets {
      assert ids[i] == ids'[i];
      assert ids[i] in ids;
      SameGroup(wallets, rels, rels', cs, cs', ids[i]);
      var j :| 0 <= j < |cs'| && cs'[j].id == ids[i] && cs'[j].wallets == GroupOf(cs, ids[i]);
      Irreflexive(ids[i]);
      GroupOfAt(cs, i);
    }
  }

  ghost function Ids(cs: seq<Cluster>): (ids: seq<string>)
    ensures |ids| == |cs| && forall i :: 0 <= i < |cs| ==> ids[i] == cs[i].id
  {
    seq(|cs|, i requires 0 <= i < |cs| => cs[i].id)
  }

  ghost function GroupOf(cs: seq<Cluster>, id: string): seq<string>
    requires id in Ids(cs)
  {
    var k :| 0 <= k < |cs| && cs[k].id == id;
    cs[k].wallets
  }

  lemma GroupOfAt(cs: seq<Cluster>, i: nat)
    requires i < |cs| && forall a, b :: 0 <= a < b < |cs| ==> Less(cs[a].id, cs[b].id)
    ensures Ids(cs)[i] in Ids(cs) && GroupOf(cs, cs[i].id) == cs[i].wallets
  {
    assert Ids(cs)[i] in Ids(cs);
    Irreflexive(cs[i].id);
  }

  lemma SameGroup(wallets: set<string>, rels: seq<Relation>, rels': seq<Relation>,
                  cs: seq<Cluster>, cs': seq<Cluster>, id: string)
    requires IsClustering(wallets, rels, cs) && IsClustering(wallets, rels', cs')
    requires forall r: Relation :: r.eligible ==> (r in rels <==> r in rels')
    requires id in Ids(cs)
    ensures exists j :: 0 <= j < |cs'| && cs'[j].id == id && cs'[j].wallets == GroupOf(cs, id)
    ensures id in Ids(cs')
  {
    var k :| 0 <= k < |cs| && cs[k].id == id;
    GroupOfAt(cs, k);
    var c := cs[k];
    assert c in cs;
    assert c.wallets[0] in c.wallets;
    assert id in wallets;
    var c' :| c' in cs' && id in c'.wallets;
    forall x ensures x in c.wallets <==> x in c'.wallets {
      if x in wallets {
        if Connected(rels, id, x) { ConnectedMonotone(rels, rels', id, x); }
        if Connected(rels', id, x) { ConnectedMonotone(rels', rels, id, x); }
      }
    }
    SortedIsUnique(c.wallets, c'.wallets);
    var j :| 0 <= j < |cs'| && cs'[j] == c';
    assert Ids(cs')[j] == id;
  }

  // ---------------------------------------------------------------------------
  // What explains a cluster.

  /** A relation explains a group exactly as often as it was given, if it is eligible and both its
      wallets are members, and otherwise not at all. */
  lemma {:induction false} ExplanationsAre(rels: seq<Relation>, members: seq<string>, r: Relation)
    ensures multiset(Explain(rels, members))[r]
            == if r.eligible && r.walletA in members && r.walletB in members then multiset(rels)[r] else 0
  {
    if rels != [] {
      ExplanationsAre(rels[1..], members, r);
      assert rels == [rels[0]] + rels[1..];
    }
  }

  /** Explanations come in the order the relations were given. */
  lemma {:induction false} ExplanationsKeepOrder(before: seq<Relation>, after: seq<Relation>, members: seq<string>)
    ensures Explain(before + after, members) == Explain(before, members) + Explain(after, members)
  {
    if before == [] {
      assert before + after == after;
    } else {
      assert (before + after)[1..] == before[1..] + after;
      ExplanationsKeepOrder(before[1..], after, members);
    }
  }

  /** A member of the list explains a cluster if and only if it is eligible and the cluster holds
      its wallets; a clustering explains every eligible relation by exactly one cluster. */
  lemma OneExplanation(wallets: set<string>, rels: seq<Relation>, cs: seq<Cluster>, r: Relation)
    requires IsClustering(wallets, rels, cs) && r in rels
    requires r.eligible ==> r.walletA in wallets && r.walletB in wallets
    ensures forall c :: c in cs ==> (r in c.explanations <==> r.eligible && r.walletA in c.wallets)
    ensures forall c :: c in cs ==> (r in c.explanations <==> r.eligible && r.walletB in c.wallets)
    ensures r.eligible ==> exists i :: 0 <= i < |cs| && r in cs[i].explanations
                                       && forall j :: 0 <= j < |cs| && j != i ==> r !in cs[j].explanations
  {
    hide Connected, Explain, Less;
    forall c | c in cs
      ensures r in c.explanations <==> r.eligible && r.walletA in c.wallets
      ensures r in c.explanations <==> r.eligible && r.walletB in c.wallets
    {
      ExplanationsAre(rels, c.wallets, r);
      if r.eligible {
        LinkConnects(rels, r.walletA, r.walletB);
        LinkConnects(rels, r.walletB, r.walletA);
      }
    }
    if r.eligible {
      var c :| c in cs && r.walletA in c.wallets;
      var i :| 0 <= i < |cs| && cs[i] == c;
      forall j | 0 <= j < |cs| && j != i ensures r !in cs[j].explanations {
        if i < j {
          ClustersAreDisjoint(wallets, rels, cs, i, j, r.walletA);
        } else if r in cs[j].explanations {
          ClustersAreDisjoint(wallets, rels, cs, j, i, r.walletA);
        }
      }
    }
  }
}
