/**
 * First occurrences in a sequence of names. This is the reference definition
 * for the name-based de-duplication both network builders perform: a row is
 * kept when its name is not excluded (the root, for the repository network)
 * and no earlier row carries it.
 */
module FirstOccurrence {

  /** The indices, in increasing order, of the names kept. */
  function Firsts(names: seq<string>, excluded: set<string>): (ps: seq<nat>)
    ensures |ps| <= |names|
    ensures forall j :: 0 <= j < |ps| ==> ps[j] < |names|
    decreases |names|
  {
    if names == [] then []
    else
      var n := |names| - 1;
      Firsts(names[..n], excluded)
        + (if names[n] in excluded || names[n] in names[..n] then [] else [n])
  }

  /** The names kept, in the order they first occur. */
  function FirstNames(names: seq<string>, excluded: set<string>): seq<string>
  {
    var ps := Firsts(names, excluded);
    seq(|ps|, j requires 0 <= j < |ps| => names[ps[j]])
  }

  predicate Distinct(s: seq<string>)
  {
    forall j, k :: 0 <= j < k < |s| ==> s[j] != s[k]
  }

  /** Index `p` holds a name that is not excluded and does not occur before `p`. */
  predicate IsFirst(names: seq<string>, excluded: set<string>, p: int)
    requires 0 <= p < |names|
  {
    names[p] !in excluded && names[p] !in names[..p]
  }

  predicate Increasing(ps: seq<nat>)
  {
    forall j, k :: 0 <= j < k < |ps| ==> ps[j] < ps[k]
  }

  /** Firsts lists exactly the first occurrences, in increasing order. */
  lemma {:induction false} FirstsCharacterized(names: seq<string>, excluded: set<string>)
    ensures Increasing(Firsts(names, excluded))
    ensures forall p :: 0 <= p < |names| ==> (p in Firsts(names, excluded) <==> IsFirst(names, excluded, p))
    decreases |names|
  {
    if names != [] {
      var n := |names| - 1;
      var pre := names[..n];
      FirstsCharacterized(pre, excluded);
      var ps0 := Firsts(pre, excluded);
      var ps := Firsts(names, excluded);
      assert ps == ps0 + (if names[n] in excluded || names[n] in pre then [] else [n]);
      forall j, k | 0 <= j < k < |ps| ensures ps[j] < ps[k] {
        assert ps[j] == ps0[j] && ps0[j] < n;
        if k < |ps0| {
          assert ps[k] == ps0[k];
        }
      }
      forall p | 0 <= p < |names|
        ensures p in ps <==> IsFirst(names, excluded, p)
      {
        assert names[..p] == if p < n then pre[..p] else pre;
        if p < n {
          assert pre[p] == names[p];
          assert IsFirst(pre, excluded, p) <==> IsFirst(names, excluded, p);
        } else {
          assert n !in ps0;
        }
      }
    }
  }

  /** Taking one more name adds it to the kept names exactly when it is a first occurrence. */
  lemma FirstNamesStep(names: seq<string>, excluded: set<string>)
    requires names != []
    ensures var n := |names| - 1;
      FirstNames(names, excluded)
        == FirstNames(names[..n], excluded)
           + (if names[n] in excluded || names[n] in names[..n] then [] else [names[n]])
  {
    var n := |names| - 1;
    var ps0 := Firsts(names[..n], excluded);
    var ps := Firsts(names, excluded);
    assert ps[..|ps0|] == ps0;
    var lhs := FirstNames(names, excluded);
    var rhs := FirstNames(names[..n], excluded)
      + (if names[n] in excluded || names[n] in names[..n] then [] else [names[n]]);
    assert |lhs| == |rhs|;
    forall j | 0 <= j < |lhs| ensures lhs[j] == rhs[j] {
      if j < |ps0| {
        assert ps[j] == ps0[j] && ps0[j] < n;
        assert names[..n][ps0[j]] == names[ps[j]];
      }
    }
  }

  /** A name is kept exactly when it occurs and is not excluded. */
  lemma {:induction false} FirstNamesSeen(names: seq<string>, excluded: set<string>)
    ensures forall x :: x in FirstNames(names, excluded) <==> x in names && x !in excluded
    decreases |names|
  {
    if names != [] {
      var n := |names| - 1;
      var pre := names[..n];
      FirstNamesSeen(pre, excluded);
      FirstNamesStep(names, excluded);
      assert names == pre + [names[n]];
    }
  }

  /** No name is kept twice. */
  lemma {:induction false} FirstNamesDistinct(names: seq<string>, excluded: set<string>)
    ensures Distinct(FirstNames(names, excluded))
    decreases |names|
  {
    if names != [] {
      var n := |names| - 1;
      var pre := names[..n];
      FirstNamesDistinct(pre, excluded);
      FirstNamesSeen(pre, excluded);
      FirstNamesStep(names, excluded);
    }
  }

  /** The rows kept: the row of each first occurrence, in row order (`names[p]` is the name of `rows[p]`). */
  function KeptRows<T>(rows: seq<T>, names: seq<string>, excluded: set<string>): seq<T>
    requires |names| == |rows|
  {
    var ps := Firsts(names, excluded);
    seq(|ps|, j requires 0 <= j < |ps| => rows[ps[j]])
  }

  /** Taking one more row adds it to the kept rows exactly when its name is a first occurrence. */
  lemma KeptRowsStep<T>(rows: seq<T>, names: seq<string>, excluded: set<string>, i: nat)
    requires |names| == |rows| && i < |rows|
    ensures KeptRows(rows[..i + 1], names[..i + 1], excluded)
            == KeptRows(rows[..i], names[..i], excluded)
               + (if names[i] in excluded || names[i] in names[..i] then [] else [rows[i]])
  {
    var ns := names[..i + 1];
    assert ns[..i] == names[..i];
    var ps0 := Firsts(names[..i], excluded);
    var ps := Firsts(ns, excluded);
    assert ps[..|ps0|] == ps0;
    var lhs := KeptRows(rows[..i + 1], ns, excluded);
    var rhs := KeptRows(rows[..i], names[..i], excluded)
      + (if names[i] in excluded || names[i] in names[..i] then [] else [rows[i]]);
    assert |lhs| == |rhs|;
    forall j | 0 <= j < |lhs| ensures lhs[j] == rhs[j] {
      if j < |ps0| {
        assert ps[j] == ps0[j] && ps0[j] < i;
      }
    }
  }

}
