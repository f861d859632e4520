/**
  Lowering decoded YAML conditions to condition trees (pkg/mpl/parser/builder.go).
 */
module ConditionBuilder {
  import opened Conditions
  import opened Options

  /**
    A decoded value.  A mapping may hold the keys all, any and not; failing those it is a
    function call or a comparison, which either builds to a leaf or does not.
   */
  datatype Yaml =
    | Mapping(all: Option<Yaml>, any: Option<Yaml>, no: Option<Yaml>, leaf: Option<nat>)
    | Listing(items: seq<Yaml>)
    | Scalar

  function BuildConditions(y: Yaml): Option<Cond>
    decreases y, 1
  {
    match y
    case Mapping(all, any, no, leaf) =>
      if all.Some? then
        var cs := BuildLogical(all.value); if cs.Some? then Some(All(cs.value)) else None
      else if any.Some? then
        var cs := BuildLogical(any.value); if cs.Some? then Some(Any(cs.value)) else None
      else if no.Some? then
        var cs := BuildLogical(no.value); if cs.Some? then Some(Not(cs.value)) else None
      else if leaf.Some? then Some(Leaf(leaf.value))
      else None
    case Listing(items) =>
      if |items| == 0 then None
      else if |items| == 1 then BuildConditions(items[0])
      else var cs := BuildEach(items); if cs.Some? then Some(All(cs.value)) else None
    case Scalar => None
  }

  /** The children of a logical operator must be a list. */
  function BuildLogical(y: Yaml): Option<seq<Cond>>
    decreases y, 2
  {
    if y.Listing? then BuildEach(y.items) else None
  }

  function BuildEach(ys: seq<Yaml>): (r: Option<seq<Cond>>)
    ensures r.Some? ==> |r.value| == |ys|
    decreases ys, 0
  {
    if |ys| == 0 then Some([])
    else
      var first := BuildConditions(ys[0]);
      if first.None? then None
      else
        var rest := BuildEach(ys[1..]);
        if rest.None? then None else Some([first.value] + rest.value)
  }

  // ---------------------------------------------------------------- what a decoded value says

  /** What a leaf says by itself. */
  ghost function LeafSays(env: Env, id: nat): Match {
    if env.lookup(id) == BadOperator then Error(OperatorFailed(id))
    else if LeafFails(env, id) then Error(FieldNotFound(id))
    else Matched(LeafHolds(env, id))
  }

  /**
    The verdict a decoded value stands for, read off the value itself, without a tree;
    None if it is malformed.  Of several keys, all wins over any and any over not.
   */
  ghost function Says(env: Env, y: Yaml): Option<Match>
    decreases y, 1
  {
    match y
    case Mapping(all, any, no, leaf) =>
      if all.Some? then
        if !all.value.Listing? || SaysEach(env, all.value.items).None? then None
        else Some(Conj(SaysEach(env, all.value.items).value))
      else if any.Some? then
        if !any.value.Listing? || SaysEach(env, any.value.items).None? then None
        else Some(Disj(SaysEach(env, any.value.items).value))
      else if no.Some? then
        if !no.value.Listing? || SaysEach(env, no.value.items).None? then None
        else
          var ms := SaysEach(env, no.value.items).value;
          Some(if |ms| != 1 then Error(NotArity(|ms|)) else if ms[0].Matched? then Matched(!ms[0].value) else ms[0])
      else if leaf.Some? then Some(LeafSays(env, leaf.value))
      else None
    case Listing(items) =>
      if |items| == 0 || SaysEach(env, items).None? then None else Some(Conj(SaysEach(env, items).value))
    case Scalar => None
  }

  /** What each of several values says; None if one is malformed. */
  ghost function SaysEach(env: Env, ys: seq<Yaml>): (r: Option<seq<Match>>)
    ensures r.Some? ==> |r.value| == |ys|
    decreases ys, 0
  {
    if |ys| == 0 then Some([])
    else if Says(env, ys[0]).None? || SaysEach(env, ys[1..]).None? then None
    else Some([Says(env, ys[0]).value] + SaysEach(env, ys[1..]).value)
  }

  /** The tree stands for the same verdict as the value it was built from, or neither exists. */
  ghost predicate Renders(env: Env, y: Yaml, c: Option<Cond>) {
    Says(env, y) == if c.Some? then Some(Meaning(env, c.value)) else None
  }

  lemma {:induction false} BuildsWhatIsSaid(env: Env, y: Yaml)
    ensures Renders(env, y, BuildConditions(y))
    decreases y, 1
  {
    match y
    case Mapping(all, any, no, leaf) =>
      if all.Some? {
        if all.value.Listing? { OperandsSaid(env, all.value.items); }
      } else if any.Some? {
        if any.value.Listing? { OperandsSaid(env, any.value.items); }
      } else if no.Some? {
        if no.value.Listing? {
          OperandsSaid(env, no.value.items);
          var cs := BuildEach(no.value.items);
          if cs.Some? && |cs.value| == 1 { assert Meanings(env, cs.value)[0] == Meaning(env, cs.value[0]); }
        }
      }
    case Listing(items) =>
      if |items| == 1 {
        BuildsWhatIsSaid(env, items[0]);
        OneSays(env, items);
      } else {
        OperandsSaid(env, items);
      }
    case Scalar =>
  }

  /** A list of one says what its item says. */
  lemma {:induction false} OneSays(env: Env, ys: seq<Yaml>)
    requires |ys| == 1
    ensures SaysEach(env, ys) == if Says(env, ys[0]).Some? then Some([Says(env, ys[0]).value]) else None
    ensures Says(env, ys[0]).Some? ==> Conj([Says(env, ys[0]).value]) == Says(env, ys[0]).value
  {
    assert SaysEach(env, ys[1..]) == Some([]);
    if Says(env, ys[0]).Some? {
      var m := Says(env, ys[0]).value;
      assert [m][1..] == [] && Conj([m][1..]) == Matched(true) && [m] + [] == [m];
    }
  }

  lemma {:induction false} OperandsSaid(env: Env, ys: seq<Yaml>)
    ensures BuildEach(ys).Some? <==> SaysEach(env, ys).Some?
    ensures BuildEach(ys).Some? ==>
      var cs := BuildEach(ys).value;
      && SaysEach(env, ys).value == Meanings(env, cs)
      && Meaning(env, All(cs)) == Conj(Meanings(env, cs)) && Meaning(env, Any(cs)) == Disj(Meanings(env, cs))
    decreases ys, 1
  {
    BuildsEachSaid(env, ys);
    if BuildEach(ys).Some? {
      AllMeansConj(env, BuildEach(ys).value);
      AnyMeansDisj(env, BuildEach(ys).value);
    }
  }

  lemma {:induction false} BuildsEachSaid(env: Env, ys: seq<Yaml>)
    ensures BuildEach(ys).Some? <==> SaysEach(env, ys).Some?
    ensures BuildEach(ys).Some? ==> SaysEach(env, ys).value == Meanings(env, BuildEach(ys).value)
    decreases ys, 0
  {
    if |ys| > 0 {
      BuildsWhatIsSaid(env, ys[0]);
      BuildsEachSaid(env, ys[1..]);
      if BuildEach(ys).Some? {
        var c, cs := BuildConditions(ys[0]).value, BuildEach(ys[1..]).value;
        assert Meanings(env, [c] + cs) == [Meaning(env, c)] + Meanings(env, cs);
      }
    }
  }

  /** The builder itself: the tree it builds stands for what the value says, in every environment. */
  method BuildTree(y: Yaml) returns (c: Option<Cond>)
    ensures c == BuildConditions(y)
    ensures forall env :: Renders(env, y, c)
    decreases y, 3
  {
    match y {
      case Mapping(all, any, no, leaf) =>
        if all.Some? {
          var cs := BuildOperands(all.value);
          c := if cs.Some? then Some(All(cs.value)) else None;
        } else if any.Some? {
          var cs := BuildOperands(any.value);
          c := if cs.Some? then Some(Any(cs.value)) else None;
        } else if no.Some? {
          var cs := BuildOperands(no.value);
          c := if cs.Some? then Some(Not(cs.value)) else None;
        } else {
          c := if leaf.Some? then Some(Leaf(leaf.value)) else None;
        }
      case Listing(items) =>
        if |items| == 0 {
          c := None;
        } else if |items| == 1 {
          c := BuildTree(items[0]);
        } else {
          var cs := BuildChildren(items);
          c := if cs.Some? then Some(All(cs.value)) else None;
        }
      case Scalar =>
        c := None;
    }
    forall env ensures Renders(env, y, c) { BuildsWhatIsSaid(env, y); }
  }

  method BuildOperands(y: Yaml) returns (cs: Option<seq<Cond>>)
    ensures cs == BuildLogical(y)
    decreases y, 4
  {
    cs := None;
    if y.Listing? {
      cs := BuildChildren(y.items);
    }
  }

  method BuildChildren(ys: seq<Yaml>) returns (cs: Option<seq<Cond>>)
    ensures cs == BuildEach(ys)
    decreases ys, 0
  {
    var children := [];
    for i := 0 to |ys|
      invariant BuildEach(ys[..i]) == Some(children)
    {
      var child := BuildTree(ys[i]);
      assert ys[..i] + [ys[i]] == ys[..i + 1] && ys == ys[..i + 1] + ys[i + 1..];
      BuildEachConcat(ys[..i], [ys[i]]);
      BuildEachConcat(ys[..i + 1], ys[i + 1..]);
      BuildOne(ys[i]);
      if child.None? {
        return None;
      }
      children := children + [child.value];
    }
    assert ys[..|ys|] == ys;
    cs := Some(children);
  }

  // ---------------------------------------------------------------- the flat reading

  /** The conditions a nested list holds, in order, with the list structure gone. */
  function Flatten(y: Yaml): seq<Yaml>
    decreases y, 1
  {
    if y.Listing? then FlattenEach(y.items) else [y]
  }

  function FlattenEach(ys: seq<Yaml>): seq<Yaml>
    decreases ys, 0
  {
    if |ys| == 0 then [] else Flatten(ys[0]) + FlattenEach(ys[1..])
  }

  /** No list anywhere in the nesting is empty. */
  ghost predicate Filled(y: Yaml)
    decreases y, 1
  {
    y.Listing? ==> |y.items| > 0 && FilledEach(y.items)
  }

  ghost predicate FilledEach(ys: seq<Yaml>)
    decreases ys, 0
  {
    |ys| == 0 || (Filled(ys[0]) && FilledEach(ys[1..]))
  }

  lemma {:induction false} BuildEachConcat(xs: seq<Yaml>, ys: seq<Yaml>)
    ensures var (a, b, ab) := (BuildEach(xs), BuildEach(ys), BuildEach(xs + ys));
      && (ab.Some? <==> a.Some? && b.Some?)
      && (ab.Some? ==> ab.value == a.value + b.value)
    decreases |xs|
  {
    if |xs| == 0 {
      assert xs + ys == ys;
    } else {
      assert (xs + ys)[0] == xs[0] && (xs + ys)[1..] == xs[1..] + ys;
      BuildEachConcat(xs[1..], ys);
    }
  }

  lemma {:induction false} BuildOne(y: Yaml)
    ensures BuildEach([y]).Some? <==> BuildConditions(y).Some?
    ensures BuildConditions(y).Some? ==> BuildEach([y]).value == [BuildConditions(y).value]
  {
    assert [y][1..] == [];
  }

  lemma {:induction false} MeaningOne(env: Env, c: Cond)
    ensures MeaningAll(env, [c]) == Meaning(env, c)
  {
    MeaningAllStep(env, [c]);
    assert [c][1..] == [];
  }

  /**
    A nested list builds exactly when no list in it is empty and each of its conditions
    builds; and then the tree, with its unwrapped single-element lists, means the
    left-to-right conjunction of those conditions, errors included.
   */
  lemma {:induction false} BuildsFlat(env: Env, y: Yaml)
    ensures BuildConditions(y).Some? <==> Filled(y) && BuildEach(Flatten(y)).Some?
    ensures BuildConditions(y).Some? ==>
      Meaning(env, BuildConditions(y).value) == MeaningAll(env, BuildEach(Flatten(y)).value)
    decreases y, 1
  {
    if y.Listing? {
      BuildsFlatEach(env, y.items);
      if |y.items| == 1 {
        BuildsFlat(env, y.items[0]);
        assert FlattenEach(y.items[1..]) == [];
        assert Flatten(y) == Flatten(y.items[0]);
        assert FilledEach(y.items[1..]);
      } else if |y.items| > 1 && BuildEach(y.items).Some? {
        MeaningAllStep(env, BuildEach(y.items).value);
      }
    } else {
      BuildOne(y);
      if BuildConditions(y).Some? { MeaningOne(env, BuildConditions(y).value); }
    }
  }

  lemma {:induction false} BuildsFlatEach(env: Env, ys: seq<Yaml>)
    ensures BuildEach(ys).Some? <==> FilledEach(ys) && BuildEach(FlattenEach(ys)).Some?
    ensures BuildEach(ys).Some? ==>
      MeaningAll(env, BuildEach(ys).value) == MeaningAll(env, BuildEach(FlattenEach(ys)).value)
    decreases ys, 0
  {
    if |ys| > 0 {
      BuildsFlat(env, ys[0]);
      BuildsFlatEach(env, ys[1..]);
      BuildEachConcat(Flatten(ys[0]), FlattenEach(ys[1..]));
      if BuildEach(ys).Some? {
        var cs := BuildEach(ys).value;
        assert cs[0] == BuildConditions(ys[0]).value && cs[1..] == BuildEach(ys[1..]).value;
        MeaningAllStep(env, cs);
        MeaningAllConcat(env, BuildEach(Flatten(ys[0])).value, BuildEach(FlattenEach(ys[1..])).value);
      }
    }
  }
}
