/**
  The depth-first search for circular variable references
  (pkg/mpl/validator/semantic.go, validateVariableReferences and checkVariableCycle).
  The order in which Go ranges over the variables is arbitrary.
 */
module VariableCycles {
  import opened Graphs

  /** The i-th reference made by a variable. */
  type Reference = (string, nat)

  ghost predicate IsReference(g: Graph, o: Reference) {
    o.0 in g && o.1 < |g[o.0]|
  }

  ghost function Target(g: Graph, o: Reference): string
    requires IsReference(g, o)
  {
    g[o.0][o.1]
  }

  /** Two references name the same variable, which is not defined. */
  ghost predicate SharedUndefined(g: Graph) {
    exists o1, o2 ::
      IsReference(g, o1) && IsReference(g, o2) && o1 != o2 && Target(g, o1) == Target(g, o2) && Target(g, o1) !in g
  }

  /**
    The search so far: the code's two sets and whether it has reported anything; beside
    them the finished variables in order and the references already followed.
   */
  datatype Search = Search(visited: set<string>, inProgress: set<string>, reported: bool,
                           finished: seq<string>, followed: set<Reference>)

  ghost predicate Colours(g: Graph, s: Search, path: seq<string>) {
    && Distinct(path) && Distinct(s.finished)
    && Elements(path) !! Elements(s.finished)
    && Elements(path) + Elements(s.finished) == s.visited * g.Keys
    && s.inProgress == Elements(path) + (s.visited - g.Keys)
  }

  ghost predicate Followed(g: Graph, s: Search, extra: set<string>) {
    && (forall o :: o in s.followed ==> IsReference(g, o) && o.0 in s.visited)
    && (forall u, i: nat :: u in s.finished && u in g && i < |g[u]| ==> (u, i) in s.followed)
    && (forall x :: x in s.visited && x !in g ==> exists o :: o in s.followed && IsReference(g, o) && Target(g, o) == x)
    && (forall o :: o in s.followed && Target(g, o) !in g ==> Target(g, o) in s.visited + extra)
  }

  ghost predicate Verdict(g: Graph, s: Search) {
    if s.reported then HasCycle(g) || SharedUndefined(g)
    else
      && Sorted(g, s.finished)
      && (forall o1, o2 :: o1 in s.followed && o2 in s.followed && o1 != o2 && IsReference(g, o1) && IsReference(g, o2) ==>
            Target(g, o1) == Target(g, o2) ==> Target(g, o1) in g)
  }

  datatype Part = OpenPath | Colouring | Following | Judging

  ghost predicate Keeps(g: Graph, s: Search, path: seq<string>, extra: set<string>, part: Part) {
    match part
    case OpenPath => Walk(g, path)
    case Colouring => Colours(g, s, path)
    case Following => Followed(g, s, extra)
    case Judging => Verdict(g, s)
  }

  /** What holds at every point of the search with `path` open; `extra` is about to be visited. */
  ghost predicate Inv(g: Graph, s: Search, path: seq<string>, extra: set<string>) {
    forall part :: Keeps(g, s, path, extra, part)
  }

  lemma {:induction false} InvParts(g: Graph, s: Search, path: seq<string>, extra: set<string>)
    ensures Inv(g, s, path, extra) <==> Walk(g, path) && Colours(g, s, path) && Followed(g, s, extra) && Verdict(g, s)
  {
    if Inv(g, s, path, extra) {
      assert Keeps(g, s, path, extra, OpenPath) && Keeps(g, s, path, extra, Colouring);
      assert Keeps(g, s, path, extra, Following) && Keeps(g, s, path, extra, Judging);
    }
  }

  function Entered(s: Search, name: string): Search {
    s.(visited := s.visited + {name}, inProgress := s.inProgress + {name})
  }

  lemma {:induction false} EnterDefined(g: Graph, s: Search, path: seq<string>, name: string)
    requires Inv(g, s, path, {name}) && name in g && name !in s.visited
    requires |path| > 0 ==> Edge(g, path[|path| - 1], name)
    ensures Inv(g, Entered(s, name), path + [name], {})
    ensures forall k: nat :: (name, k) !in s.followed
  {
    InvParts(g, s, path, {name});
    var s', path' := Entered(s, name), path + [name];
    assert Elements(path') == Elements(path) + {name};
    assert s'.visited * g.Keys == s.visited * g.Keys + {name};
    assert s'.visited - g.Keys == s.visited - g.Keys;
    assert Walk(g, path');
    assert Colours(g, s', path');
    assert Followed(g, s', {});
    InvParts(g, s', path', {});
  }

  lemma {:induction false} EnterUndefined(g: Graph, s: Search, path: seq<string>, name: string, o: Reference)
    requires Inv(g, s, path, {name}) && name !in g
    requires o in s.followed && IsReference(g, o) && Target(g, o) == name
    ensures Inv(g, Entered(s, name), path, {})
  {
    InvParts(g, s, path, {name});
    var s' := Entered(s, name);
    assert s'.visited * g.Keys == s.visited * g.Keys;
    assert s'.visited - g.Keys == (s.visited - g.Keys) + {name};
    assert Followed(g, s', {});
    InvParts(g, s', path, {});
  }

  /** Following a reference to something in progress is a cycle, or the second use of an undefined name. */
  lemma {:induction false} MeetInProgress(g: Graph, s: Search, path: seq<string>, o: Reference)
    requires Inv(g, s, path, {}) && |path| > 0 && path[|path| - 1] == o.0
    requires IsReference(g, o) && o !in s.followed && Target(g, o) in s.inProgress
    ensures Inv(g, s.(reported := true, followed := s.followed + {o}), path, {})
  {
    InvParts(g, s, path, {});
    var s', x := s.(reported := true, followed := s.followed + {o}), Target(g, o);
    if x in g {
      assert x in Elements(path);
      var k :| 0 <= k < |path| && path[k] == x;
      var p := path[k..] + [x];
      forall i | 0 <= i < |p| - 1 ensures Edge(g, p[i], p[i + 1]) {
        if i < |path| - k - 1 { assert Edge(g, path[k + i], path[k + i + 1]); }
      }
      assert Cycle(g, p);
    } else {
      var o' :| o' in s.followed && IsReference(g, o') && Target(g, o') == x;
      assert SharedUndefined(g);
    }
    assert o.0 in Elements(path);
    assert Followed(g, s', {});
    InvParts(g, s', path, {});
  }

  /** Following a reference to something finished or new adds nothing to report. */
  lemma {:induction false} MeetOther(g: Graph, s: Search, path: seq<string>, o: Reference)
    requires Inv(g, s, path, {}) && |path| > 0 && path[|path| - 1] == o.0
    requires IsReference(g, o) && o !in s.followed && Target(g, o) !in s.inProgress
    ensures Inv(g, s.(followed := s.followed + {o}), path, {Target(g, o)})
    ensures Target(g, o) in s.visited ==> Inv(g, s.(followed := s.followed + {o}), path, {}) && Target(g, o) in Elements(s.finished)
  {
    InvParts(g, s, path, {});
    var s', x := s.(followed := s.followed + {o}), Target(g, o);
    assert o.0 in Elements(path);
    assert x !in g ==> x !in s.visited;
    assert Followed(g, s', {x});
    if x in s.visited {
      assert x in Elements(path) + Elements(s.finished);
      assert Followed(g, s', {});
    }
    InvParts(g, s', path, {x});
    InvParts(g, s', path, {});
  }

  function Left(s: Search, name: string): Search {
    s.(inProgress := s.inProgress - {name}, finished := s.finished + [name])
  }

  lemma {:induction false} Leave(g: Graph, s: Search, path: seq<string>, name: string)
    requires Inv(g, s, path + [name], {}) && name in g
    requires forall i: nat :: i < |g[name]| ==> (name, i) in s.followed
    requires !s.reported ==> forall r :: r in g[name] && r in g ==> r in Elements(s.finished)
    ensures Inv(g, Left(s, name), path, {})
  {
    InvParts(g, s, path + [name], {});
    var s', path' := Left(s, name), path + [name];
    assert Elements(path') == Elements(path) + {name};
    assert Elements(s'.finished) == Elements(s.finished) + {name};
    assert path'[|path|] == name;
    assert forall i :: 0 <= i < |path| ==> path[i] == path'[i] && path'[i] != path'[|path|];
    assert name !in Elements(path);
    assert name in Elements(path') && name !in Elements(s.finished);
    forall i | 0 <= i < |path| - 1 ensures Edge(g, path[i], path[i + 1]) {
      assert Edge(g, path'[i], path'[i + 1]);
    }
    assert Colours(g, s', path);
    assert Followed(g, s', {});
    if !s.reported {
      forall i | 0 <= i < |s'.finished|
        ensures s'.finished[i] in g && forall r :: r in g[s'.finished[i]] && r in g ==> r in s'.finished[..i]
      {
        if i < |s.finished| {
          assert s'.finished[..i] == s.finished[..i];
        } else {
          assert s'.finished[..i] == s.finished;
        }
      }
    }
    InvParts(g, s', path, {});
  }

  /** Once every variable is finished, the verdict is final. */
  lemma {:induction false} Conclude(g: Graph, s: Search)
    requires Inv(g, s, [], {}) && g.Keys <= s.visited
    ensures s.reported <==> HasCycle(g) || SharedUndefined(g)
  {
    InvParts(g, s, [], {});
    assert s.visited * g.Keys == g.Keys;
    assert Elements(s.finished) == g.Keys;
    if !s.reported {
      SortedIsAcyclic(g, s.finished);
      forall o | IsReference(g, o) ensures o in s.followed {
        assert o.0 in Elements(s.finished) && o == (o.0, o.1);
      }
    }
  }

  // ---------------------------------------------------------------- the search itself

  /** The search only grows; it follows references of newly visited variables and of `open` ones. */
  ghost predicate Progress(s: Search, s': Search, open: set<string>) {
    && s.visited <= s'.visited && s.followed <= s'.followed
    && Elements(s.finished) <= Elements(s'.finished)
    && (s.reported ==> s'.reported)
    && forall o :: o in s'.followed - s.followed ==> o.0 !in s.visited || o.0 in open
  }

  lemma {:induction false} SearchedProgress(s: Search, s': Search, name: string)
    requires name !in s.visited && Progress(Entered(s, name), s', {name})
    ensures Progress(s, Left(s', name), {}) && name in Elements(Left(s', name).finished)
  {
    var after := Left(s', name).finished;
    assert after[|after| - 1] == name;
    assert forall x :: x in s'.finished ==> x in after;
  }

  class Validator {
    const variables: Graph
    var visited: set<string>
    var inProgress: set<string>
    var errors: seq<seq<string>>

    ghost var finished: seq<string>
    ghost var followed: set<Reference>

    ghost function View(): Search
      reads this
    {
      Search(visited, inProgress, errors != [], finished, followed)
    }

    constructor (variables: Graph)
      ensures this.variables == variables && errors == [] && Inv(variables, View(), [], {}) && visited == {}
    {
      this.variables := variables;
      visited, inProgress, errors := {}, {}, [];
      finished, followed := [], {};
      new;
      assert Elements([]) == {};
      InvParts(variables, View(), [], {});
    }

    /** Depth-first search from `name`, reached along `path` by the reference `from`. */
    method CheckVariableCycle(name: string, path: seq<string>, ghost from: Reference)
      requires Inv(variables, View(), path, {name}) && name !in visited && name in Universe(variables)
      requires |path| > 0 ==> Edge(variables, path[|path| - 1], name)
      requires name !in variables ==> from in followed && IsReference(variables, from) && Target(variables, from) == name
      modifies this
      ensures Inv(variables, View(), path, {}) && Progress(old(View()), View(), {}) && name in visited
      ensures name in variables ==> name in Elements(finished)
      decreases |Universe(variables) - visited|, 0
    {
      ghost var g, before := variables, View();
      Shrinks(Universe(g), visited, name);
      visited := visited + {name};
      inProgress := inProgress + {name};
      if name !in variables {
        EnterUndefined(g, before, path, name, from);
        return;
      }
      EnterDefined(g, before, path, name);
      FollowAll(name, path + [name]);
      Leave(g, View(), path, name);
      SearchedProgress(before, View(), name);
      inProgress := inProgress - {name};
      finished := finished + [name];
    }

    /** The search's loop over the references of `name`, which ends `here`. */
    method FollowAll(name: string, here: seq<string>)
      requires Inv(variables, View(), here, {}) && |here| > 0 && here[|here| - 1] == name
      requires name in variables && name in visited && forall k: nat :: (name, k) !in followed
      modifies this
      ensures Inv(variables, View(), here, {}) && Progress(old(View()), View(), {name})
      ensures forall k: nat :: k < |variables[name]| ==> (name, k) in followed
      ensures errors == [] ==> forall r :: r in variables[name] && r in variables ==> r in Elements(finished)
      decreases |Universe(variables) - visited|, 2
    {
      var refs := variables[name];
      for i := 0 to |refs|
        invariant Inv(variables, View(), here, {})
        invariant Progress(old(View()), View(), {name})
        invariant forall k: nat :: (name, k) in followed <==> k < i
        invariant errors == [] ==> forall k :: 0 <= k < i && refs[k] in variables ==> refs[k] in Elements(finished)
      {
        ShrinksMore(Universe(variables), old(visited), visited);
        FollowReference(name, here, i);
      }
    }

    /** One round of the search's loop: the i-th reference of `name`, which ends `here`. */
    method FollowReference(name: string, here: seq<string>, i: nat)
      requires Inv(variables, View(), here, {}) && |here| > 0 && here[|here| - 1] == name
      requires name in variables && i < |variables[name]| && (name, i) !in followed && name in visited
      modifies this
      ensures Inv(variables, View(), here, {}) && Progress(old(View()), View(), {name})
      ensures forall k: nat :: (name, k) in followed <==> (name, k) in old(followed) || k == i
      ensures errors == [] && variables[name][i] in variables ==> variables[name][i] in Elements(finished)
      decreases |Universe(variables) - visited|, 1
    {
      var ref := variables[name][i];
      ghost var g, s, o: Reference := variables, View(), (name, i);
      assert Target(g, o) == ref;
      if ref in inProgress {
        MeetInProgress(g, s, here, o);
        errors := errors + [here + [ref]];
        followed := followed + {o};
      } else {
        MeetOther(g, s, here, o);
        followed := followed + {o};
        if ref !in visited {
          InUniverse(g, o);
          CheckVariableCycle(ref, here, o);
        }
      }
    }

    /** Checks every variable, in whatever order. */
    method ValidateVariableReferences()
      requires Inv(variables, View(), [], {}) && visited == {} && errors == []
      modifies this
      ensures errors != [] <==> HasCycle(variables) || SharedUndefined(variables)
      ensures AllDefined(variables) ==> (errors != [] <==> HasCycle(variables))
    {
      var rest := variables.Keys;
      while rest != {}
        invariant rest <= variables.Keys && variables.Keys <= visited + rest
        invariant Inv(variables, View(), [], {})
      {
        var name :| name in rest;
        rest := rest - {name};
        if name !in visited {
          Expecting(variables, View(), name);
          CheckVariableCycle(name, [], (name, 0));
        }
      }
      Conclude(variables, View());
      ReportsExactlyCycles(variables, View());
    }
  }

  lemma {:induction false} InUniverse(g: Graph, o: Reference)
    requires IsReference(g, o)
    ensures Target(g, o) in Universe(g)
  {
    assert o.0 in g && g[o.0][o.1] in g[o.0];
  }

  lemma {:induction false} Expecting(g: Graph, s: Search, name: string)
    requires Inv(g, s, [], {})
    ensures Inv(g, s, [], {name})
  {
    InvParts(g, s, [], {});
    InvParts(g, s, [], {name});
  }

  lemma {:induction false} Shrinks(universe: set<string>, visited: set<string>, name: string)
    requires name in universe && name !in visited
    ensures |universe - (visited + {name})| < |universe - visited|
  {
    assert universe - (visited + {name}) == (universe - visited) - {name};
  }

  lemma {:induction false} ShrinksMore(universe: set<string>, visited: set<string>, more: set<string>)
    requires visited <= more
    ensures |universe - more| <= |universe - visited|
  {
    assert universe - visited == (universe - more) + (universe * more - visited);
  }

  ghost predicate AllDefined(g: Graph) {
    forall x, y :: x in g && y in g[x] ==> y in g
  }

  /** When every referenced variable is defined, none that is shared is undefined. */
  lemma {:induction false} DefinedIsNotShared(g: Graph)
    requires AllDefined(g)
    ensures !SharedUndefined(g)
  {
    forall o | IsReference(g, o) ensures Target(g, o) in g {}
  }

  /**
    The finished search reports exactly the cycles if and only if there is one or no
    undefined variable is referred to twice; so it does when every reference is defined.
   */
  lemma {:induction false} ReportsExactlyCycles(g: Graph, s: Search)
    requires Inv(g, s, [], {}) && g.Keys <= s.visited
    ensures (s.reported <==> HasCycle(g)) <==> HasCycle(g) || !SharedUndefined(g)
    ensures AllDefined(g) ==> (s.reported <==> HasCycle(g))
  {
    Conclude(g, s);
    if AllDefined(g) { DefinedIsNotShared(g); }
  }

  /** Two variables that refer to the same undefined one are reported as circular. */
  lemma {:induction false} FalseAlarm()
    ensures var g: Graph := map["a" := ["x"], "b" := ["x"]]; SharedUndefined(g) && !HasCycle(g)
  {
    var g: Graph := map["a" := ["x"], "b" := ["x"]];
    var o1: Reference, o2: Reference := ("a", 0), ("b", 0);
    assert IsReference(g, o1) && IsReference(g, o2) && o1 != o2 && Target(g, o1) == "x" == Target(g, o2);
    var order := ["a", "b"];
    assert Elements(order) == g.Keys;
    SortedIsAcyclic(g, order);
  }
}
