/** Reference graphs: which names a defined name refers to, walks and cycles. */
module Graphs {

  /** The references of every defined name, in order; a referenced name need not be defined. */
  type Graph = map<string, seq<string>>

  ghost predicate Edge(g: Graph, a: string, b: string) {
    a in g && b in g[a]
  }

  ghost predicate Walk(g: Graph, p: seq<string>) {
    forall i :: 0 <= i < |p| - 1 ==> Edge(g, p[i], p[i + 1])
  }

  ghost predicate Cycle(g: Graph, p: seq<string>) {
    |p| >= 2 && p[0] == p[|p| - 1] && Walk(g, p)
  }

  ghost predicate HasCycle(g: Graph) {
    exists p :: Cycle(g, p)
  }

  ghost predicate Distinct(s: seq<string>) {
    forall i, j :: 0 <= i < j < |s| ==> s[i] != s[j]
  }

  ghost function Elements(s: seq<string>): set<string> {
    set x | x in s
  }

  /** Every name that occurs in the graph. */
  ghost function Universe(g: Graph): set<string> {
    g.Keys + (set x, y | x in g && y in g[x] :: y)
  }

  /** In `order`, every defined name comes after the defined names it refers to. */
  ghost predicate Sorted(g: Graph, order: seq<string>) {
    forall i :: 0 <= i < |order| ==> order[i] in g && forall r :: r in g[order[i]] && r in g ==> r in order[..i]
  }

  /** Going along a walk means going down in a sorted order. */
  lemma {:induction false} WalkDescends(g: Graph, order: seq<string>, p: seq<string>, i: nat, k: nat) returns (j: nat)
    requires Sorted(g, order) && Walk(g, p) && i < |p| && k < |order| && p[0] == order[k]
    requires forall m :: 0 <= m < |p| ==> p[m] in g
    ensures j < |order| && p[i] == order[j] && j <= k - i
  {
    if i == 0 {
      j := k;
    } else {
      var h := WalkDescends(g, order, p, i - 1, k);
      assert Edge(g, p[i - 1], p[i]);
      j :| 0 <= j < h && order[..h][j] == p[i];
    }
  }

  lemma {:induction false} SortedIsAcyclic(g: Graph, order: seq<string>)
    requires Sorted(g, order) && Distinct(order) && Elements(order) == g.Keys
    ensures !HasCycle(g)
  {
    forall p | Cycle(g, p) ensures false {
      forall m | 0 <= m < |p| ensures p[m] in g {
        if m < |p| - 1 { assert Edge(g, p[m], p[m + 1]); } else { assert Edge(g, p[0], p[1]); }
      }
      assert p[0] in Elements(order);
      var k :| 0 <= k < |order| && order[k] == p[0];
      var j := WalkDescends(g, order, p, |p| - 1, k);
    }
  }
}
