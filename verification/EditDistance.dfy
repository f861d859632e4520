/**
  Levenshtein distance and the name suggestions built on it (pkg/mpl/errors/suggestion.go).
  Everything about the distance holds for sequences over any alphabet, so for Go's strings
  of bytes.
 */
module EditDistance {

  // ---------------------------------------------------------------- the meaning

  /** One edit of a word at a position. */
  datatype Edit<T> = Insert(at: nat, c: T) | Delete(at: nat) | Substitute(at: nat, c: T)

  predicate Applies<T>(s: seq<T>, e: Edit<T>) {
    match e
    case Insert(at, _) => at <= |s|
    case Delete(at) => at < |s|
    case Substitute(at, _) => at < |s|
  }

  function Edited<T>(s: seq<T>, e: Edit<T>): seq<T>
    requires Applies(s, e)
  {
    match e
    case Insert(at, c) => s[..at] + [c] + s[at..]
    case Delete(at) => s[..at] + s[at + 1..]
    case Substitute(at, c) => s[..at] + [c] + s[at + 1..]
  }

  /** The script turns `s` into `t`, one edit after the other. */
  ghost predicate Turns<T(!new)>(s: seq<T>, script: seq<Edit<T>>, t: seq<T>)
    decreases |script|
  {
    if |script| == 0 then s == t
    else Applies(s, script[0]) && Turns(Edited(s, script[0]), script[1..], t)
  }

  // ---------------------------------------------------------------- the recurrence

  function Min3(a: int, b: int, c: int): (m: int)
    ensures m <= a && m <= b && m <= c && (m == a || m == b || m == c)
  {
    if a < b then (if a < c then a else c) else if b < c then b else c
  }

  /** All but the last letter. */
  function Front<T>(s: seq<T>): seq<T>
    requires |s| > 0
  {
    s[..|s| - 1]
  }

  function Cost<T(==)>(a: T, b: T): nat {
    if a == b then 0 else 1
  }

  function Distance<T(==)>(s: seq<T>, t: seq<T>): (d: nat)
    decreases |s| + |t|
  {
    if |s| == 0 then |t|
    else if |t| == 0 then |s|
    else Min3(Distance(Front(s), t) + 1, Distance(s, Front(t)) + 1,
              Distance(Front(s), Front(t)) + Cost(s[|s| - 1], t[|t| - 1]))
  }

  // ---------------------------------------------------------------- a metric

  lemma {:induction false} Symmetric<T>(s: seq<T>, t: seq<T>)
    ensures Distance(s, t) == Distance(t, s)
    decreases |s| + |t|
  {
    if |s| > 0 && |t| > 0 {
      Symmetric(Front(s), t);
      Symmetric(s, Front(t));
      Symmetric(Front(s), Front(t));
    }
  }

  lemma {:induction false} ZeroOnEqual<T>(s: seq<T>)
    ensures Distance(s, s) == 0
    decreases |s|
  {
    if |s| > 0 { ZeroOnEqual(Front(s)); }
  }

  lemma {:induction false} ZeroOnlyOnEqual<T>(s: seq<T>, t: seq<T>)
    ensures Distance(s, t) == 0 <==> s == t
    decreases |s| + |t|
  {
    if s == t {
      ZeroOnEqual(s);
    } else if |s| > 0 && |t| > 0 {
      ZeroOnlyOnEqual(Front(s), Front(t));
      assert s == Front(s) + [s[|s| - 1]] && t == Front(t) + [t[|t| - 1]];
    }
  }

  /** Between the difference and the sum of the lengths. */
  lemma {:induction false} LengthBounds<T>(s: seq<T>, t: seq<T>)
    ensures |s| - |t| <= Distance(s, t) && |t| - |s| <= Distance(s, t) <= |s| + |t|
    decreases |s| + |t|
  {
    if |s| > 0 && |t| > 0 {
      LengthBounds(Front(s), t);
      LengthBounds(s, Front(t));
      LengthBounds(Front(s), Front(t));
    }
  }

  lemma {:induction false} Triangle<T>(a: seq<T>, b: seq<T>, c: seq<T>)
    ensures Distance(a, c) <= Distance(a, b) + Distance(b, c)
    decreases |a| + |b| + |c|
  {
    if |a| == 0 || |b| == 0 || |c| == 0 {
      LengthBounds(a, b);
      LengthBounds(b, c);
      LengthBounds(a, c);
    } else {
      var a', b', c' := Front(a), Front(b), Front(c);
      if Distance(a, b) == Distance(a', b) + 1 {
        Triangle(a', b, c);
      } else if Distance(b, c) == Distance(b, c') + 1 {
        Triangle(a, b, c');
      } else if Distance(a, b) == Distance(a, b') + 1 {
        if Distance(b, c) == Distance(b', c) + 1 {
          Triangle(a, b', c);
        } else {
          Triangle(a, b', c');
        }
      } else if Distance(b, c) == Distance(b', c) + 1 {
        Triangle(a', b', c);
      } else {
        Triangle(a', b', c');
      }
    }
  }

  // ---------------------------------------------------------------- shortest scripts

  /** Appending the same letters to both words cannot push them apart. */
  lemma {:induction false} SharedTail<T>(s: seq<T>, t: seq<T>, tail: seq<T>)
    ensures Distance(s + tail, t + tail) <= Distance(s, t)
    decreases |tail|
  {
    if |tail| == 0 {
      assert s + tail == s && t + tail == t;
    } else {
      SharedTail(s, t, Front(tail));
      assert Front(s + tail) == s + Front(tail) && Front(t + tail) == t + Front(tail);
    }
  }

  lemma {:induction false} OneEditOneApart<T>(s: seq<T>, e: Edit<T>)
    requires Applies(s, e)
    ensures Distance(s, Edited(s, e)) <= 1
  {
    match e
    case Insert(at, c) =>
      assert s == s[..at] + s[at..];
      assert Front(s[..at] + [c]) == s[..at];
      ZeroOnEqual(s[..at]);
      SharedTail(s[..at], s[..at] + [c], s[at..]);
    case Delete(at) =>
      assert s == s[..at + 1] + s[at + 1..];
      assert Front(s[..at + 1]) == s[..at];
      ZeroOnEqual(s[..at]);
      SharedTail(s[..at + 1], s[..at], s[at + 1..]);
    case Substitute(at, c) =>
      assert s == s[..at + 1] + s[at + 1..];
      assert Front(s[..at + 1]) == s[..at] && Front(s[..at] + [c]) == s[..at];
      ZeroOnEqual(s[..at]);
      SharedTail(s[..at + 1], s[..at] + [c], s[at + 1..]);
  }

  /** No script is shorter than the distance. */
  lemma {:induction false} ScriptsAreLong<T(!new)>(s: seq<T>, script: seq<Edit<T>>, t: seq<T>)
    requires Turns(s, script, t)
    ensures Distance(s, t) <= |script|
    decreases |script|
  {
    if |script| == 0 {
      ZeroOnEqual(s);
    } else {
      var m := Edited(s, script[0]);
      ScriptsAreLong(m, script[1..], t);
      OneEditOneApart(s, script[0]);
      Triangle(s, m, t);
    }
  }

  lemma {:induction false} TurnsConcat<T(!new)>(s: seq<T>, xs: seq<Edit<T>>, m: seq<T>, ys: seq<Edit<T>>, t: seq<T>)
    requires Turns(s, xs, m) && Turns(m, ys, t)
    ensures Turns(s, xs + ys, t)
    decreases |xs|
  {
    if |xs| == 0 {
      assert xs + ys == ys;
    } else {
      assert (xs + ys)[0] == xs[0] && (xs + ys)[1..] == xs[1..] + ys;
      TurnsConcat(Edited(s, xs[0]), xs[1..], m, ys, t);
    }
  }

  lemma {:induction false} TurnsOne<T(!new)>(s: seq<T>, e: Edit<T>)
    requires Applies(s, e)
    ensures Turns(s, [e], Edited(s, e))
  {
    assert [e][1..] == [];
  }

  /** A script for two words also works before a shared last letter. */
  lemma {:induction false} TurnsBefore<T(!new)>(s: seq<T>, script: seq<Edit<T>>, t: seq<T>, c: T)
    requires Turns(s, script, t)
    ensures Turns(s + [c], script, t + [c])
    decreases |script|
  {
    if |script| > 0 {
      EditedBefore(s, script[0], c);
      TurnsBefore(Edited(s, script[0]), script[1..], t, c);
    }
  }

  lemma {:induction false} EditedBefore<T>(s: seq<T>, e: Edit<T>, c: T)
    requires Applies(s, e)
    ensures Applies(s + [c], e) && Edited(s + [c], e) == Edited(s, e) + [c]
  {
    match e
    case Insert(at, x) => assert (s + [c])[..at] + [x] + (s + [c])[at..] == Edited(s, e) + [c];
    case Delete(at) => assert (s + [c])[..at] + (s + [c])[at + 1..] == Edited(s, e) + [c];
    case Substitute(at, x) => assert (s + [c])[..at] + [x] + (s + [c])[at + 1..] == Edited(s, e) + [c];
  }

  lemma {:induction false} ThenInsert<T(!new)>(s: seq<T>, head: seq<Edit<T>>, t: seq<T>)
    requires |t| > 0 && Turns(s, head, Front(t))
    ensures Turns(s, head + [Insert(|t| - 1, t[|t| - 1])], t)
  {
    var e := Insert(|t| - 1, t[|t| - 1]);
    assert Edited(Front(t), e) == t;
    TurnsOne(Front(t), e);
    TurnsConcat(s, head, Front(t), [e], t);
  }

  lemma {:induction false} DeleteFirst<T(!new)>(s: seq<T>, rest: seq<Edit<T>>, t: seq<T>)
    requires |s| > 0 && Turns(Front(s), rest, t)
    ensures Turns(s, [Delete(|s| - 1)] + rest, t)
  {
    var e: Edit<T> := Delete(|s| - 1);
    assert Edited(s, e) == Front(s);
    TurnsOne(s, e);
    TurnsConcat(s, [e], Front(s), rest, t);
  }

  lemma {:induction false} ThenSubstitute<T(!new)>(s: seq<T>, a: T, head: seq<Edit<T>>, t: seq<T>, b: T)
    requires Turns(s, head, t)
    ensures Turns(s + [a], head + [Substitute(|t|, b)], t + [b])
  {
    TurnsBefore(s, head, t, a);
    SubstituteLast(t, a, b);
    TurnsConcat(s + [a], head, t + [a], [Substitute(|t|, b)], t + [b]);
  }

  lemma {:induction false} SubstituteLast<T(!new)>(t: seq<T>, a: T, b: T)
    ensures Turns(t + [a], [Substitute(|t|, b)], t + [b])
  {
    assert Edited(t + [a], Substitute(|t|, b)) == t + [b];
    TurnsOne(t + [a], Substitute(|t|, b));
  }

  /** Once all but the last letters agree, at most one substitution is left. */
  lemma {:induction false} ThenLastLetter<T(!new)>(s: seq<T>, head: seq<Edit<T>>, t: seq<T>)
    returns (script: seq<Edit<T>>)
    requires |s| > 0 && |t| > 0 && Turns(Front(s), head, Front(t))
    ensures Turns(s, script, t) && |script| == |head| + Cost(s[|s| - 1], t[|t| - 1])
  {
    var a, b := s[|s| - 1], t[|t| - 1];
    assert s == Front(s) + [a];
    assert t == Front(t) + [b];
    if a == b {
      TurnsBefore(Front(s), head, Front(t), a);
      script := head;
    } else {
      ThenSubstitute(Front(s), a, head, Front(t), b);
      script := head + [Substitute(|Front(t)|, b)];
    }
  }

  /** Some script is as short as the distance. */
  lemma {:induction false} ShortestScript<T(!new)>(s: seq<T>, t: seq<T>) returns (script: seq<Edit<T>>)
    ensures Turns(s, script, t) && |script| == Distance(s, t)
    decreases |s| + |t|
  {
    if |s| == 0 && |t| == 0 {
      script := [];
    } else if |t| > 0 && (|s| == 0 || Distance(s, t) == Distance(s, Front(t)) + 1) {
      var head := ShortestScript(s, Front(t));
      ThenInsert(s, head, t);
      script := head + [Insert(|t| - 1, t[|t| - 1])];
    } else if |t| == 0 || Distance(s, t) == Distance(Front(s), t) + 1 {
      var rest := ShortestScript(Front(s), t);
      DeleteFirst(s, rest, t);
      script := [Delete(|s| - 1)] + rest;
    } else {
      var head := ShortestScript(Front(s), Front(t));
      script := ThenLastLetter(s, head, t);
    }
  }

  // ---------------------------------------------------------------- the table

  /** What belongs at row `p`, column `q`: the distance of the prefixes of those lengths. */
  ghost function Cell<T>(s1: seq<T>, s2: seq<T>, p: nat, q: nat): nat
    requires p <= |s1| && q <= |s2|
  {
    Distance(s1[..p], s2[..q])
  }

  lemma {:induction false} CellStep<T>(s1: seq<T>, s2: seq<T>, i: nat, j: nat)
    requires 0 < i <= |s1| && 0 < j <= |s2|
    ensures Cell(s1, s2, i, j) ==
      Min3(Cell(s1, s2, i - 1, j) + 1, Cell(s1, s2, i, j - 1) + 1, Cell(s1, s2, i - 1, j - 1) + Cost(s1[i - 1], s2[j - 1]))
  {
    assert Front(s1[..i]) == s1[..i - 1] && Front(s2[..j]) == s2[..j - 1];
  }

  /** The dynamic-programming table. */
  method LevenshteinDistance<T(==)>(s1: seq<T>, s2: seq<T>) returns (d: nat)
    ensures d == Distance(s1, s2)
  {
    if s1 == s2 {
      ZeroOnEqual(s1);
      return 0;
    }
    var matrix := new nat[|s1| + 1, |s2| + 1];
    for i := 0 to |s1| + 1
      invariant forall k :: 0 <= k < i ==> matrix[k, 0] == k
    {
      matrix[i, 0] := i;
    }
    for j := 0 to |s2| + 1
      invariant forall k :: 0 <= k <= |s1| ==> matrix[k, 0] == k
      invariant forall k :: 0 <= k < j ==> matrix[0, k] == k
    {
      matrix[0, j] := j;
    }
    for i := 1 to |s1| + 1
      invariant forall k :: 0 <= k <= |s1| ==> matrix[k, 0] == k
      invariant forall p, q :: 0 <= p < i && 0 <= q <= |s2| ==> matrix[p, q] == Cell(s1, s2, p, q)
    {
      FillRow(s1, s2, i, matrix);
    }
    d := matrix[|s1|, |s2|];
    assert s1[..|s1|] == s1 && s2[..|s2|] == s2;
  }

  method FillRow<T(==)>(s1: seq<T>, s2: seq<T>, i: nat, matrix: array2<nat>)
    requires matrix.Length0 == |s1| + 1 && matrix.Length1 == |s2| + 1 && 0 < i <= |s1|
    requires forall k :: 0 <= k <= |s1| ==> matrix[k, 0] == k
    requires forall p, q :: 0 <= p < i && 0 <= q <= |s2| ==> matrix[p, q] == Cell(s1, s2, p, q)
    modifies matrix
    ensures forall k :: 0 <= k <= |s1| ==> matrix[k, 0] == k
    ensures forall p, q :: 0 <= p <= i && 0 <= q <= |s2| ==> matrix[p, q] == Cell(s1, s2, p, q)
  {
    for j := 1 to |s2| + 1
      invariant forall k :: 0 <= k <= |s1| ==> matrix[k, 0] == k
      invariant forall p, q :: 0 <= p < i && 0 <= q <= |s2| ==> matrix[p, q] == Cell(s1, s2, p, q)
      invariant forall q :: 0 <= q < j ==> matrix[i, q] == Cell(s1, s2, i, q)
    {
      var cost := if s1[i - 1] == s2[j - 1] then 0 else 1;
      CellStep(s1, s2, i, j);
      matrix[i, j] := Min3(matrix[i - 1, j] + 1, matrix[i, j - 1] + 1, matrix[i - 1, j - 1] + cost);
    }
  }

  // ---------------------------------------------------------------- suggestions

  datatype Suggestion = NoSuggestion | DidYouMean(name: string) | ValidInclude(names: seq<string>) | ValidAre(names: seq<string>)

  /** The first of the closest names. */
  ghost predicate FirstClosest(unknown: string, names: seq<string>, k: int) {
    && 0 <= k < |names|
    && (forall j :: 0 <= j < |names| ==> Distance(unknown, names[k]) <= Distance(unknown, names[j]))
    && (forall j :: 0 <= j < k ==> Distance(unknown, names[k]) < Distance(unknown, names[j]))
  }

  lemma {:induction false} SomeFirstClosest(unknown: string, names: seq<string>) returns (k: int)
    requires |names| > 0
    ensures FirstClosest(unknown, names, k)
    decreases |names|
  {
    var n := |names| - 1;
    if n == 0 {
      k := 0;
    } else {
      k := SomeFirstClosest(unknown, names[..n]);
      assert forall j :: 0 <= j < n ==> names[..n][j] == names[j];
      if Distance(unknown, names[n]) < Distance(unknown, names[k]) { k := n; }
    }
  }

  /** The first closest name, if it is fewer than five edits away. */
  method SuggestFieldName(unknown: string, validFields: seq<string>) returns (suggestion: Suggestion)
    ensures suggestion == NoSuggestion <==> |validFields| == 0
    ensures forall k :: FirstClosest(unknown, validFields, k) ==>
      && (suggestion.DidYouMean? <==> Distance(unknown, validFields[k]) < 5)
      && (suggestion.DidYouMean? ==> suggestion.name == validFields[k])
    ensures |validFields| > 0 ==> exists k :: FirstClosest(unknown, validFields, k)
    ensures suggestion.ValidInclude? ==> |validFields| > 5 && suggestion.names == validFields[..5]
    ensures suggestion.ValidAre? ==> |validFields| <= 5 && suggestion.names == validFields
  {
    if |validFields| == 0 {
      return NoSuggestion;
    }
    var minDistance := 1000;
    var bestMatch := "";
    ghost var best := 0;
    for i := 0 to |validFields|
      invariant forall j :: 0 <= j < i ==> minDistance <= Distance(unknown, validFields[j])
      invariant minDistance <= 1000
      invariant minDistance < 1000 ==>
        && 0 <= best < i && bestMatch == validFields[best] && minDistance == Distance(unknown, bestMatch)
        && forall j :: 0 <= j < best ==> minDistance < Distance(unknown, validFields[j])
    {
      var dist := LevenshteinDistance(unknown, validFields[i]);
      if dist < minDistance {
        minDistance := dist;
        bestMatch := validFields[i];
        best := i;
      }
    }
    assert minDistance < 5 ==> FirstClosest(unknown, validFields, best);
    ghost var closest := SomeFirstClosest(unknown, validFields);
    if minDistance < 5 {
      return DidYouMean(bestMatch);
    }
    if |validFields| > 5 {
      return ValidInclude(validFields[..5]);
    }
    return ValidAre(validFields);
  }
}
