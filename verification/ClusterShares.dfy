/** The holdings and buy shares of clusters: the clusters partition the wallets, so their shares
    add up. */
module ClusterShares {
  import opened StringOrder
  import opened Sums
  import opened Clustering

  ghost function Padded(amounts: map<string, real>, wallets: set<string>): map<string, real> {
    map w | w in wallets :: if w in amounts then amounts[w] else 0.0
  }

  ghost function SetOf(ws: seq<string>): set<string> {
    set w | w in ws
  }

  /** The sum along a sorted list is the sum over the set of its members. */
  lemma {:induction false} HeldIsSum(amounts: map<string, real>, ws: seq<string>, wallets: set<string>)
    requires StrictlySorted(ws) && SetOf(ws) <= wallets
    ensures Held(amounts, ws) == SumOver(SetOf(ws), Padded(amounts, wallets))
  {
    hide Less;
    if ws != [] {
      var front, last := ws[..|ws| - 1], ws[|ws| - 1];
      assert ws == front + [last];
      HeldIsSum(amounts, front, wallets);
      LastIsNew(ws);
      assert SetOf(ws) == SetOf(front) + {last} && SetOf(ws) - {last} == SetOf(front);
      SumRemove(SetOf(ws), Padded(amounts, wallets), last);
    }
  }

  lemma LastIsNew(ws: seq<string>)
    requires ws != [] && StrictlySorted(ws)
    ensures ws[|ws| - 1] !in ws[..|ws| - 1]
  {
    Irreflexive(ws[|ws| - 1]);
  }

  ghost function AllHeld(amounts: map<string, real>, cs: seq<Cluster>): real {
    if cs == [] then 0.0 else AllHeld(amounts, cs[..|cs| - 1]) + Held(amounts, cs[|cs| - 1].wallets)
  }

  ghost function Members(cs: seq<Cluster>): set<string> {
    if cs == [] then {} else Members(cs[..|cs| - 1]) + SetOf(cs[|cs| - 1].wallets)
  }

  lemma {:induction false} MembersAre(cs: seq<Cluster>, w: string)
    ensures w in Members(cs) <==> exists c :: c in cs && w in c.wallets
  {
    if cs != [] {
      MembersAre(cs[..|cs| - 1], w);
      assert cs == cs[..|cs| - 1] + [cs[|cs| - 1]];
    }
  }

  lemma NextPrefix(cs: seq<Cluster>, n: nat, amounts: map<string, real>)
    requires 0 < n <= |cs|
    ensures Members(cs[..n]) == Members(cs[..n - 1]) + SetOf(cs[n - 1].wallets)
    ensures AllHeld(amounts, cs[..n]) == AllHeld(amounts, cs[..n - 1]) + Held(amounts, cs[n - 1].wallets)
  {
    assert cs[..n][..n - 1] == cs[..n - 1] && cs[..n][n - 1] == cs[n - 1];
  }

  lemma ClusterIsInside(wallets: set<string>, rels: seq<Relation>, cs: seq<Cluster>, n: nat)
    requires IsClustering(wallets, rels, cs) && n < |cs|
    ensures StrictlySorted(cs[n].wallets) && SetOf(cs[n].wallets) <= wallets
  {
    hide Connected, Explain, Less;
    assert cs[n] in cs;
  }

  lemma NextMembersAreNew(wallets: set<string>, rels: seq<Relation>, cs: seq<Cluster>, n: nat)
    requires IsClustering(wallets, rels, cs) && n < |cs|
    ensures Members(cs[..n]) !! SetOf(cs[n].wallets)
  {
    hide IsClustering, Members;
    forall w | w in SetOf(cs[n].wallets) ensures w !in Members(cs[..n]) {
      MembersAre(cs[..n], w);
      if x :| x in cs[..n] && w in x.wallets {
        var i :| 0 <= i < n && cs[..n][i] == x;
        ClustersAreDisjoint(wallets, rels, cs, i, n, w);
      }
    }
  }

  lemma {:induction false} ClustersHold(wallets: set<string>, rels: seq<Relation>, cs: seq<Cluster>, n: nat,
                                        amounts: map<string, real>)
    requires IsClustering(wallets, rels, cs) && n <= |cs|
    ensures Members(cs[..n]) <= wallets
    ensures AllHeld(amounts, cs[..n]) == SumOver(Members(cs[..n]), Padded(amounts, wallets))
  {
    hide IsClustering, SetOf, Held, StrictlySorted;
    if n > 0 {
      hide Members, AllHeld;
      NextPrefix(cs, n, amounts);
      ClusterIsInside(wallets, rels, cs, n - 1);
      NextMembersAreNew(wallets, rels, cs, n - 1);
      ClustersHold(wallets, rels, cs, n - 1, amounts);
      HeldIsSum(amounts, cs[n - 1].wallets, wallets);
      SumOfUnion(Members(cs[..n - 1]), SetOf(cs[n - 1].wallets), Padded(amounts, wallets));
    }
  }

  /** Together the clusters hold what the wallets hold, and no more: nothing is counted twice or
      left out. */
  lemma ClustersHoldAll(wallets: set<string>, rels: seq<Relation>, cs: seq<Cluster>, amounts: map<string, real>)
    requires IsClustering(wallets, rels, cs)
    ensures AllHeld(amounts, cs) == Held(amounts, Sorted(wallets))
  {
    hide Connected, Explain, Less, Sorted;
    ClustersHold(wallets, rels, cs, |cs|, amounts);
    assert cs[..|cs|] == cs;
    forall w ensures w in Members(cs) <==> w in wallets {
      MembersAre(cs, w);
    }
    assert Members(cs) == wallets == SetOf(Sorted(wallets));
    HeldIsSum(amounts, Sorted(wallets), wallets);
  }

  /** The sum of the holding shares, or of the buy shares. */
  ghost function ShareSum(cs: seq<Cluster>, ofBuys: bool): real {
    if cs == [] then 0.0
    else
      var last := cs[|cs| - 1];
      ShareSum(cs[..|cs| - 1], ofBuys) + if ofBuys then last.buyShare else last.holdingShare
  }

  lemma {:induction false} SharesArePart(cs: seq<Cluster>, holdings: map<string, real>, volumes: map<string, real>,
                                         ofBuys: bool, total: real)
    requires SharesOf(cs, holdings, volumes) && total > 0.0
    requires var amounts := if ofBuys then volumes else holdings; total == Held(amounts, Sorted(amounts.Keys))
    ensures ShareSum(cs, ofBuys) == AllHeld(if ofBuys then volumes else holdings, cs) / total
  {
    hide Sorted, Held;
    var amounts := if ofBuys then volumes else holdings;
    if cs != [] {
      var front, last := cs[..|cs| - 1], cs[|cs| - 1];
      assert cs == front + [last] && last in cs;
      SharesArePart(front, holdings, volumes, ofBuys, total);
      PartsAdd(AllHeld(amounts, front), Held(amounts, last.wallets), total);
    }
  }

  lemma PartsAdd(a: real, b: real, t: real)
    requires t > 0.0
    ensures a / t + b / t == (a + b) / t
  {
    var x, y := a / t, b / t;
    assert x * t == a && y * t == b;
    assert (x + y) * t == a + b;
  }

  /** Wallets without an entry add nothing. */
  lemma OthersHoldNothing(amounts: map<string, real>, wallets: set<string>)
    requires amounts.Keys <= wallets
    ensures Held(amounts, Sorted(wallets)) == Held(amounts, Sorted(amounts.Keys))
  {
    hide Held, Less, Sorted;
    var padded, others := Padded(amounts, wallets), wallets - amounts.Keys;
    assert SetOf(Sorted(wallets)) == wallets && SetOf(Sorted(amounts.Keys)) == amounts.Keys;
    HeldIsSum(amounts, Sorted(wallets), wallets);
    HeldIsSum(amounts, Sorted(amounts.Keys), wallets);
    assert amounts.Keys + others == wallets;
    SumOfUnion(amounts.Keys, others, padded);
    SumOfZeros(others, padded);
  }

  /** The shares of all clusters add up to the wallets' part of everything that is held, or was
      bought; to one when every holder, or buyer, is among the wallets. */
  lemma SharesAddUp(wallets: set<string>, rels: seq<Relation>, cs: seq<Cluster>, holdings: map<string, real>,
                    volumes: map<string, real>, ofBuys: bool)
    requires IsClustering(wallets, rels, cs) && SharesOf(cs, holdings, volumes)
    requires var amounts := if ofBuys then volumes else holdings; Held(amounts, Sorted(amounts.Keys)) > 0.0
    ensures var amounts := if ofBuys then volumes else holdings;
            ShareSum(cs, ofBuys) == Held(amounts, Sorted(wallets)) / Held(amounts, Sorted(amounts.Keys))
            && (amounts.Keys <= wallets ==> ShareSum(cs, ofBuys) == 1.0)
  {
    hide IsClustering, SharesOf, Held, Sorted;
    var amounts := if ofBuys then volumes else holdings;
    var total := Held(amounts, Sorted(amounts.Keys));
    ClustersHoldAll(wallets, rels, cs, amounts);
    SharesArePart(cs, holdings, volumes, ofBuys, total);
    if amounts.Keys <= wallets {
      OthersHoldNothing(amounts, wallets);
      WholeShare(total);
    }
  }

  /** What sorted wallets hold is the sum of the entries of those that have one. */
  lemma {:induction false} HeldIsEntries(amounts: map<string, real>, ws: seq<string>)
    requires StrictlySorted(ws)
    ensures Held(amounts, ws) == SumOver(SetOf(ws) * amounts.Keys, amounts)
  {
    hide Less;
    if ws != [] {
      var front, last := ws[..|ws| - 1], ws[|ws| - 1];
      assert ws == front + [last];
      HeldIsEntries(amounts, front);
      LastIsNew(ws);
      var prior, all := SetOf(front) * amounts.Keys, SetOf(ws) * amounts.Keys;
      if last in amounts {
        assert all - {last} == prior;
        SumRemove(all, amounts, last);
      } else {
        assert all == prior;
      }
    }
  }

  lemma AllIsTotal(amounts: map<string, real>)
    ensures Held(amounts, Sorted(amounts.Keys)) == Total(amounts)
  {
    hide Held, Less, Sorted;
    HeldIsEntries(amounts, Sorted(amounts.Keys));
    assert SetOf(Sorted(amounts.Keys)) * amounts.Keys == amounts.Keys;
  }

  /** `share` is the fraction of everything held that the wallets with an entry hold. */
  ghost predicate IsShare(share: real, amounts: map<string, real>, ws: seq<string>) {
    if Total(amounts) > 0.0 then share * Total(amounts) == SumOver((set w | w in ws && w in amounts), amounts)
    else share == 0.0
  }

  lemma PartIsShare(amounts: map<string, real>, ws: seq<string>)
    requires StrictlySorted(ws)
    ensures IsShare(Part(Held(amounts, ws), Held(amounts, Sorted(amounts.Keys))), amounts, ws)
  {
    hide Held, Less, Sorted, StrictlySorted;
    AllIsTotal(amounts);
    HeldIsEntries(amounts, ws);
    assert SetOf(ws) * amounts.Keys == set w | w in ws && w in amounts;
    var held, total := Held(amounts, ws), Total(amounts);
    if total > 0.0 {
      var q := held / total;
      assert q * total == held;
    }
  }

  /** Every cluster's shares are the fractions of what is held, and of what was bought, in all. */
  lemma SharesAre(cs: seq<Cluster>, holdings: map<string, real>, volumes: map<string, real>, c: Cluster)
    requires SharesOf(cs, holdings, volumes) && c in cs && StrictlySorted(c.wallets)
    ensures IsShare(c.holdingShare, holdings, c.wallets) && IsShare(c.buyShare, volumes, c.wallets)
  {
    hide Held, Less, Sorted, StrictlySorted, IsShare, Part;
    PartIsShare(holdings, c.wallets);
    PartIsShare(volumes, c.wallets);
  }
}
