/** The dependency graph of a pipeline and its topological sort. The source sorts with a graph
    library; this module gives the sort the builder relies on, with what it promises proved. */
module Graph {

  import opened Util

  /** Each declared node's inputs, by name. */
  type Edges = map<string, seq<string>>

  /** Every input names a declared node. */
  predicate InputsDeclared(g: Edges)
  {
    forall v | v in g :: forall i | 0 <= i < |g[v]| :: g[v][i] in g
  }

  predicate Distinct(s: seq<string>)
  {
    forall a, b | 0 <= a < b < |s| :: s[a] != s[b]
  }

  /** `keys` lists every declared node exactly once. */
  predicate Listing(g: Edges, keys: seq<string>)
  {
    Distinct(keys) && (forall k | 0 <= k < |keys| :: keys[k] in g) && (forall v | v in g :: v in keys)
  }

  /** A nonempty set of nodes each of which takes an input from the set: following inputs from
      any of them never leaves the set, so the graph has a cycle inside it. */
  ghost predicate IsCycle(g: Edges, s: set<string>)
  {
    && s != {} && s <= g.Keys
    && forall v {:trigger HasInputIn(g, s, v)} | v in s :: HasInputIn(g, s, v)
  }

  /** Node `v` takes at least one input from `s`. */
  ghost predicate HasInputIn(g: Edges, s: set<string>, v: string)
    requires v in g
  {
    exists i | 0 <= i < |g[v]| :: g[v][i] in s
  }

  ghost predicate HasCycle(g: Edges)
  {
    exists s: set<string> :: IsCycle(g, s)
  }

  /** `order` lists every node once, each after all of its inputs. */
  predicate Topological(g: Edges, order: seq<string>)
  {
    && Distinct(order)
    && (forall k | 0 <= k < |order| :: order[k] in g)
    && (forall v | v in g :: v in order)
    && forall k | 0 <= k < |order| :: forall i | 0 <= i < |g[order[k]]| :: g[order[k]][i] in order[..k]
  }

  /** The first element of `order` that is in `s`, when there is one. */
  lemma {:induction false} FirstIn(order: seq<string>, s: set<string>, v: string) returns (k: nat)
    requires v in s && v in order
    ensures k < |order| && order[k] in s
    ensures forall j | 0 <= j < k :: order[j] !in s
  {
    if order[0] in s {
      k := 0;
    } else {
      var k' := FirstIn(order[1..], s, v);
      k := k' + 1;
      assert forall j | 1 <= j < k :: order[j] == order[1..][j - 1];
    }
  }

  /** A graph that can be listed in topological order has no cycle. */
  lemma TopologicalMeansAcyclic(g: Edges, order: seq<string>)
    requires Topological(g, order)
    ensures !HasCycle(g)
  {
    forall s: set<string> ensures !IsCycle(g, s) {
      if s != {} && s <= g.Keys {
        var w := FirstSource(g, order, s);
      }
    }
  }

  /** The first node of a nonempty set in a topological order takes no input from the set, since
      each of its inputs is listed before it. */
  lemma FirstSource(g: Edges, order: seq<string>, s: set<string>) returns (w: string)
    requires Topological(g, order) && s != {} && s <= g.Keys
    ensures w in s && !HasInputIn(g, s, w)
  {
    var v :| v in s;
    var k := FirstIn(order, s, v);
    w := order[k];
    forall i | 0 <= i < |g[w]| ensures g[w][i] !in s {
      var j := InputBefore(g, order, k, i);
    }
  }

  /** In a topological order, each input of the node at `k` sits at some earlier index. */
  lemma InputBefore(g: Edges, order: seq<string>, k: nat, i: nat) returns (j: nat)
    requires Topological(g, order) && k < |order| && i < |g[order[k]]|
    ensures j < k && order[j] == g[order[k]][i]
  {
    assert g[order[k]][i] in order[..k];
    j :| 0 <= j < k && order[..k][j] == g[order[k]][i];
  }

  /** A node that is not yet placed and all of whose inputs are, searched for in `keys` order. */
  method FindReady(g: Edges, keys: seq<string>, done: set<string>) returns (r: Option<string>)
    requires forall k | 0 <= k < |keys| :: keys[k] in g
    ensures r.Some? ==> r.value in g && r.value !in done
    ensures r.Some? ==> forall i | 0 <= i < |g[r.value]| :: g[r.value][i] in done
    ensures r.None? ==>
              forall k | 0 <= k < |keys| && keys[k] !in done ::
                exists i | 0 <= i < |g[keys[k]]| :: g[keys[k]][i] !in done
  {
    var k := 0;
    while k < |keys|
      invariant 0 <= k <= |keys|
      invariant forall j | 0 <= j < k && keys[j] !in done ::
                  exists i | 0 <= i < |g[keys[j]]| :: g[keys[j]][i] !in done
    {
      var v := keys[k];
      if v !in done && forall i | 0 <= i < |g[v]| :: g[v][i] in done {
        return Some(v);
      }
      k := k + 1;
    }
    r := None;
  }

  /** When no unplaced node is ready, the unplaced nodes form a cycle. */
  lemma StuckMeansCycle(g: Edges, keys: seq<string>, done: set<string>)
    requires InputsDeclared(g) && Listing(g, keys)
    requires done <= g.Keys && done != g.Keys
    requires forall k | 0 <= k < |keys| && keys[k] !in done ::
               exists i | 0 <= i < |g[keys[k]]| :: g[keys[k]][i] !in done
    ensures HasCycle(g)
  {
    var rest := g.Keys - done;
    assert rest != {} by {
      var x :| x in g.Keys && x !in done;
      assert x in rest;
    }
    forall v | v in rest ensures HasInputIn(g, rest, v) {
      var k :| 0 <= k < |keys| && keys[k] == v;
      var i :| 0 <= i < |g[keys[k]]| && g[keys[k]][i] !in done;
      assert g[v][i] in rest;
    }
    assert IsCycle(g, rest);
  }

  /** Repeatedly places a node whose inputs are all placed. When none is left to place, the
      unplaced nodes form a cycle; otherwise every node ends up placed after its inputs. */
  method TopoSort(g: Edges, keys: seq<string>) returns (order: Option<seq<string>>)
    requires InputsDeclared(g) && Listing(g, keys)
    ensures order.Some? ==> Topological(g, order.value)
    ensures order.None? <==> HasCycle(g)
  {
    var placed: seq<string> := [];
    var done: set<string> := {};
    while done != g.Keys
      invariant done <= g.Keys
      invariant forall x :: x in done <==> x in placed
      invariant Distinct(placed) && forall k | 0 <= k < |placed| :: placed[k] in g
      invariant forall k | 0 <= k < |placed| :: forall i | 0 <= i < |g[placed[k]]| :: g[placed[k]][i] in placed[..k]
      decreases g.Keys - done
    {
      var next := FindReady(g, keys, done);
      match next {
        case None =>
          StuckMeansCycle(g, keys, done);
          return None;
        case Some(v) =>
          assert forall k | 0 <= k <= |placed| :: (placed + [v])[..k] == placed[..k];
          placed := placed + [v];
          done := done + {v};
      }
    }
    assert Topological(g, placed);
    TopologicalMeansAcyclic(g, placed);
    order := Some(placed);
  }
}
