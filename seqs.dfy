/** Generic sequence helpers shared by the modules. */
module Seqs {
  /** Flattening of a list of lists, as `itertools.chain` or nested `extend` calls do. */
  function Concat<T>(ss: seq<seq<T>>): (r: seq<T>)
  {
    if ss == [] then [] else ss[0] + Concat(ss[1..])
  }

  lemma {:induction false} ConcatAppend<T>(ss: seq<seq<T>>, s: seq<T>)
    ensures Concat(ss + [s]) == Concat(ss) + s
  {
    if ss == [] {
      assert ss + [s] == [s];
    } else {
      assert (ss + [s])[1..] == ss[1..] + [s];
      ConcatAppend(ss[1..], s);
    }
  }

  lemma {:induction false} ConcatSplit<T>(ss: seq<seq<T>>, tt: seq<seq<T>>)
    ensures Concat(ss + tt) == Concat(ss) + Concat(tt)
  {
    if ss == [] {
      assert ss + tt == tt;
    } else {
      assert (ss + tt)[1..] == ss[1..] + tt;
      ConcatSplit(ss[1..], tt);
    }
  }

  /** Each found element is appended unless already present: `if x not in l: l.append(x)` in a loop. */
  function AppendAbsent<T(==)>(existing: seq<T>, found: seq<T>): (r: seq<T>)
  {
    if found == [] then existing
    else
      var m := AppendAbsent(existing, found[..|found| - 1]);
      if found[|found| - 1] in m then m else m + [found[|found| - 1]]
  }

  predicate NoDuplicates<T(==)>(s: seq<T>)
  {
    forall i, j :: 0 <= i < j < |s| ==> s[i] != s[j]
  }

  /**
   * The merge keeps the existing elements first and in order, contains exactly the existing and the
   * found elements, and adds no duplicate.
   */
  lemma {:induction false} AppendAbsentProperties<T>(existing: seq<T>, found: seq<T>)
    ensures |existing| <= |AppendAbsent(existing, found)|
    ensures AppendAbsent(existing, found)[..|existing|] == existing
    ensures forall x :: x in AppendAbsent(existing, found) <==> x in existing || x in found
    ensures forall i, j :: |existing| <= i < j < |AppendAbsent(existing, found)| ==>
      AppendAbsent(existing, found)[i] != AppendAbsent(existing, found)[j]
    ensures forall i :: |existing| <= i < |AppendAbsent(existing, found)| ==> AppendAbsent(existing, found)[i] !in existing
    ensures NoDuplicates(existing) ==> NoDuplicates(AppendAbsent(existing, found))
  {
    if found != [] {
      var p := found[..|found| - 1];
      AppendAbsentProperties(existing, p);
      var m := AppendAbsent(existing, p);
      var x := found[|found| - 1];
      assert found == p + [x];
      if x !in m {
        assert (m + [x])[..|existing|] == m[..|existing|];
      }
    }
  }

  /** The position of the first occurrence of `x` in `s`. */
  function FirstIndex<T(==)>(s: seq<T>, x: T): (r: nat)
    requires x in s
    ensures r < |s| && s[r] == x && forall k :: 0 <= k < r ==> s[k] != x
  {
    if s[0] == x then 0 else 1 + FirstIndex(s[1..], x)
  }

  /** The appended elements keep the order in which they first occur in `found`. */
  lemma {:induction false} AppendAbsentKeepsOrder<T>(existing: seq<T>, found: seq<T>)
    ensures var r := AppendAbsent(existing, found);
      forall i, j :: |existing| <= i < j < |r| ==>
        r[i] in found && r[j] in found && FirstIndex(found, r[i]) < FirstIndex(found, r[j])
  {
    AppendAbsentProperties(existing, found);
    if found != [] {
      var p := found[..|found| - 1];
      var x := found[|found| - 1];
      assert found == p + [x];
      AppendAbsentKeepsOrder(existing, p);
      AppendAbsentProperties(existing, p);
      var m := AppendAbsent(existing, p);
      var r := AppendAbsent(existing, found);
      forall y | y in p
        ensures FirstIndex(found, y) == FirstIndex(p, y)
      {
        FirstIndexSnoc(p, x, y);
      }
      forall i | |existing| <= i < |m|
        ensures m[i] in p
      {
        AppendedIsFound(existing, p, m[i]);
      }
      if x !in m {
        assert x !in p;
        assert FirstIndex(found, x) == |p|;
        forall i, j | |existing| <= i < j < |r|
          ensures r[i] in found && r[j] in found && FirstIndex(found, r[i]) < FirstIndex(found, r[j])
        {
          assert r[i] == m[i];
          if j < |m| {
            assert r[j] == m[j];
          }
        }
      }
    }
  }

  lemma AppendedIsFound<T>(existing: seq<T>, found: seq<T>, y: T)
    requires y in AppendAbsent(existing, found) && y !in existing
    ensures y in found
  {
    AppendAbsentProperties(existing, found);
  }

  lemma FirstIndexSnoc<T>(p: seq<T>, x: T, y: T)
    requires y in p
    ensures FirstIndex(p + [x], y) == FirstIndex(p, y)
  {
    assert forall k :: 0 <= k < |p| ==> (p + [x])[k] == p[k];
  }

  /** Merging the same elements a second time changes nothing. */
  lemma {:induction false} AppendAbsentIdempotent<T>(existing: seq<T>, found: seq<T>)
    ensures AppendAbsent(AppendAbsent(existing, found), found) == AppendAbsent(existing, found)
  {
    AppendAbsentProperties(existing, found);
    AppendAbsentKeeps(AppendAbsent(existing, found), found);
  }

  /** Elements that are all present already are not appended again. */
  lemma {:induction false} AppendAbsentKeeps<T>(existing: seq<T>, found: seq<T>)
    requires forall x :: x in found ==> x in existing
    ensures AppendAbsent(existing, found) == existing
  {
    if found != [] {
      AppendAbsentKeeps(existing, found[..|found| - 1]);
      assert found[|found| - 1] in found;
    }
  }

  function Min(a: int, b: int): int { if a <= b then a else b }
  function Max(a: int, b: int): int { if a >= b then a else b }
}
