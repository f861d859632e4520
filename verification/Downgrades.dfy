/**
  The check for circular model downgrades (pkg/config/validate.go, checkCircularDowngrade
  and its calling loop): a backtracking walk that shares one `visited` set between calls.
 */
module Downgrades {
  import opened Graphs

  /** Each model is downgraded to at most one other. */
  type Downgrades = map<string, string>

  ghost function AsGraph(d: Downgrades): Graph {
    map m | m in d :: [d[m]]
  }

  /** After `n` downgrades from `model` there is nothing left to downgrade to. */
  ghost predicate Ends(d: Downgrades, model: string, n: nat)
    decreases n
  {
    if n == 0 then model !in d else model in d && Ends(d, d[model], n - 1)
  }

  ghost predicate Terminates(d: Downgrades, model: string) {
    exists n: nat :: Ends(d, model, n)
  }

  lemma {:induction false} TerminatesStep(d: Downgrades, model: string)
    ensures Terminates(d, model) <==> model in d ==> Terminates(d, d[model])
  {
    if model !in d {
      assert Ends(d, model, 0);
    } else {
      if Terminates(d, d[model]) {
        var n: nat :| Ends(d, d[model], n);
        assert Ends(d, model, n + 1);
      }
      if Terminates(d, model) {
        var n: nat :| Ends(d, model, n);
        assert Ends(d, d[model], n - 1);
      }
    }
  }

  /** Going one model further along a walk. */
  lemma {:induction false} Extend(d: Downgrades, path: seq<string>, model: string)
    requires Walk(AsGraph(d), path) && model in d
    requires |path| > 0 ==> Edge(AsGraph(d), path[|path| - 1], model)
    ensures Walk(AsGraph(d), path + [model]) && Elements(path + [model]) == Elements(path) + {model}
    ensures Edge(AsGraph(d), model, d[model])
  {
  }

  lemma {:induction false} CycleNeverEnds(d: Downgrades, p: seq<string>, i: nat, n: nat)
    requires Cycle(AsGraph(d), p) && i < |p| - 1
    ensures !Ends(d, p[i], n)
    decreases n
  {
    assert Edge(AsGraph(d), p[i], p[i + 1]);
    if n > 0 { CycleNeverEnds(d, p, if i + 1 == |p| - 1 then 0 else i + 1, n - 1); }
  }

  /** Coming back to a model already on the walk closes a cycle. */
  lemma {:induction false} Closes(d: Downgrades, path: seq<string>, model: string)
    requires Walk(AsGraph(d), path) && model in path && |path| > 0 && Edge(AsGraph(d), path[|path| - 1], model)
    ensures HasCycle(AsGraph(d))
  {
    var k :| 0 <= k < |path| && path[k] == model;
    var p := path[k..] + [model];
    forall i | 0 <= i < |p| - 1 ensures Edge(AsGraph(d), p[i], p[i + 1]) {
      if i < |path| - k - 1 { assert Edge(AsGraph(d), path[k + i], path[k + i + 1]); }
    }
    assert Cycle(AsGraph(d), p);
  }

  class Checker {
    const downgrades: Downgrades
    var visited: set<string>

    constructor (downgrades: Downgrades)
      ensures this.downgrades == downgrades && visited == {}
    {
      this.downgrades := downgrades;
      visited := {};
    }

    /** Follows the downgrades of `model`, reached along `path`, which is what `visited` holds. */
    method CheckCircularDowngrade(model: string, ghost path: seq<string>) returns (ok: bool)
      requires visited == Elements(path) && Walk(AsGraph(downgrades), path)
      requires |path| > 0 ==> Edge(AsGraph(downgrades), path[|path| - 1], model)
      modifies this
      ensures ok ==> visited == old(visited) && Terminates(downgrades, model)
      ensures !ok ==> HasCycle(AsGraph(downgrades))
      decreases |downgrades.Keys - visited|
    {
      if model in visited {
        Closes(downgrades, path, model);
        return false;
      }
      visited := visited + {model};
      TerminatesStep(downgrades, model);
      if model in downgrades {
        Extend(downgrades, path, model);
        assert downgrades.Keys - visited == (downgrades.Keys - old(visited)) - {model};
        ok := CheckCircularDowngrade(downgrades[model], path + [model]);
        if !ok {
          return;
        }
      }
      visited := visited - {model};
      ok := true;
    }

    /** Tries every model in whatever order and stops at the first error. */
    method ValidateDowngrades() returns (ok: bool)
      requires visited == {}
      modifies this
      ensures !ok <==> HasCycle(AsGraph(downgrades))
      ensures ok ==> visited == {}
    {
      var rest := downgrades.Keys;
      assert Elements([]) == {};
      while rest != {}
        invariant visited == {} && rest <= downgrades.Keys
        invariant forall m :: m in downgrades.Keys - rest ==> Terminates(downgrades, m)
      {
        var model :| model in rest;
        rest := rest - {model};
        ok := CheckCircularDowngrade(model, []);
        if !ok {
          return;
        }
      }
      forall p | Cycle(AsGraph(downgrades), p) ensures false {
        assert Edge(AsGraph(downgrades), p[0], p[1]);
        assert p[0] in downgrades.Keys - rest;
        var n: nat :| Ends(downgrades, p[0], n);
        CycleNeverEnds(downgrades, p, 0, n);
      }
      ok := true;
    }
  }
}
