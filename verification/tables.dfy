/**
 Generic operations on a table held as a sequence of rows: the filter that a
 DELETE ... WHERE performs, the row-wise rewrite that an UPDATE ... SET performs,
 and the uniqueness predicates behind primary keys and UNIQUE columns.
 */
module Tables {

  /** No row occurs twice. */
  ghost predicate Distinct<T>(xs: seq<T>) {
    forall i, j :: 0 <= i < j < |xs| ==> xs[i] != xs[j]
  }

  /** No two rows share a value of the column `key`. */
  ghost predicate UniqueBy<T, K>(xs: seq<T>, key: T -> K) {
    forall i, j :: 0 <= i < j < |xs| ==> key(xs[i]) != key(xs[j])
  }

  /** The rows `keep` accepts, in their original order. */
  function Filter<T(==,!new)>(xs: seq<T>, keep: T -> bool): (r: seq<T>)
    ensures |r| <= |xs|
    ensures forall x :: x in r <==> x in xs && keep(x)
    ensures Distinct(xs) ==> Distinct(r)
  {
    if |xs| == 0 then []
    else
      var rest := Filter(xs[1..], keep);
      if keep(xs[0]) then [xs[0]] + rest else rest
  }

  /** Every row rewritten by `f`, in place. */
  function Update<T>(xs: seq<T>, f: T -> T): (r: seq<T>)
    ensures |r| == |xs|
    ensures forall i :: 0 <= i < |xs| ==> r[i] == f(xs[i])
  {
    seq(|xs|, i requires 0 <= i < |xs| => f(xs[i]))
  }

  lemma UniqueIsDistinct<T, K>(xs: seq<T>, key: T -> K)
    requires UniqueBy(xs, key)
    ensures Distinct(xs)
  {
  }

  /** A duplicate-free selection of rows of a table keeps the table's unique columns unique. */
  lemma {:induction false} UniqueSubset<T, K>(xs: seq<T>, ys: seq<T>, key: T -> K)
    requires UniqueBy(xs, key)
    requires Distinct(ys)
    requires forall y :: y in ys ==> y in xs
    ensures UniqueBy(ys, key)
  {
    forall i, j | 0 <= i < j < |ys|
      ensures key(ys[i]) != key(ys[j])
    {
      assert ys[i] in xs && ys[j] in xs;
      var a :| 0 <= a < |xs| && xs[a] == ys[i];
      var b :| 0 <= b < |xs| && xs[b] == ys[j];
      assert a != b;
      if a < b {
        assert key(xs[a]) != key(xs[b]);
      } else {
        assert key(xs[b]) != key(xs[a]);
      }
    }
  }

  /** Filtering a table keeps its unique columns unique. */
  lemma FilterUnique<T(!new), K>(xs: seq<T>, keep: T -> bool, key: T -> K)
    requires UniqueBy(xs, key)
    ensures UniqueBy(Filter(xs, keep), key)
  {
    UniqueIsDistinct(xs, key);
    UniqueSubset(xs, Filter(xs, keep), key);
  }

  /** A rewrite that leaves the column `key` alone keeps it unique. */
  lemma UpdateUnique<T, K>(xs: seq<T>, ys: seq<T>, key: T -> K)
    requires UniqueBy(xs, key)
    requires |ys| == |xs|
    requires forall i :: 0 <= i < |xs| ==> key(ys[i]) == key(xs[i])
    ensures UniqueBy(ys, key)
  {
  }

  /** Appending a row whose key is new keeps the column unique. */
  lemma AppendUnique<T, K>(xs: seq<T>, x: T, key: T -> K)
    requires UniqueBy(xs, key)
    requires forall i :: 0 <= i < |xs| ==> key(xs[i]) != key(x)
    ensures UniqueBy(xs + [x], key)
  {
  }

  /** On a unique column, appending a row keeps the column unique iff no row has the new row's key. */
  lemma AppendUniqueIff<T, K>(xs: seq<T>, x: T, key: T -> K)
    requires UniqueBy(xs, key)
    ensures UniqueBy(xs + [x], key) <==> forall y :: y in xs ==> key(y) != key(x)
  {
    var ys := xs + [x];
    if UniqueBy(ys, key) {
      forall y | y in xs
        ensures key(y) != key(x)
      {
        var i :| 0 <= i < |xs| && xs[i] == y;
        assert ys[i] == y && ys[|xs|] == x;
      }
    } else {
      var i, j :| 0 <= i < j < |ys| && key(ys[i]) == key(ys[j]);
      assert ys[i] in xs && ys[j] == x;
    }
  }

  /** A rewrite carries each row to a row of the result, and every row of the result comes from one. */
  lemma UpdateMembers<T>(xs: seq<T>, f: T -> T)
    ensures forall x :: x in xs ==> f(x) in Update(xs, f)
    ensures forall y :: y in Update(xs, f) ==> exists x :: x in xs && y == f(x)
  {
    var r := Update(xs, f);
    forall x | x in xs
      ensures f(x) in r
    {
      var i :| 0 <= i < |xs| && xs[i] == x;
      assert r[i] == f(x);
    }
  }

  /** Filtering then rewriting: every kept row's image is in the result, and
      every row of the result is the image of a kept row. */
  lemma FilterUpdateMembers<T(!new)>(xs: seq<T>, keep: T -> bool, f: T -> T)
    ensures forall x :: x in xs && keep(x) ==> f(x) in Update(Filter(xs, keep), f)
    ensures forall y :: y in Update(Filter(xs, keep), f) ==> exists x :: x in xs && keep(x) && y == f(x)
  {
    UpdateMembers(Filter(xs, keep), f);
  }

  /** A rewrite that changes no row changes nothing. */
  lemma UpdateIdentity<T>(xs: seq<T>, f: T -> T)
    requires forall x :: x in xs ==> f(x) == x
    ensures Update(xs, f) == xs
  {
  }

  /** A filter that rejects nothing changes nothing. */
  lemma {:induction false} FilterAll<T(!new)>(xs: seq<T>, keep: T -> bool)
    requires forall x :: x in xs ==> keep(x)
    ensures Filter(xs, keep) == xs
  {
    if |xs| > 0 {
      FilterAll(xs[1..], keep);
    }
  }

  /** The groups laid end to end, in order. */
  function Concat<T>(gs: seq<seq<T>>): (r: seq<T>)
    ensures forall j, x :: 0 <= j < |gs| && x in gs[j] ==> x in r
    ensures forall x :: x in r ==> exists j :: 0 <= j < |gs| && x in gs[j]
  {
    if |gs| == 0 then [] else gs[0] + Concat(gs[1..])
  }

  /** If every group has between `lo` and `hi` members, the whole has between `lo` and `hi` per group. */
  lemma {:induction false} ConcatLength<T>(gs: seq<seq<T>>, lo: nat, hi: nat)
    requires forall j :: 0 <= j < |gs| ==> lo <= |gs[j]| <= hi
    ensures lo * |gs| <= |Concat(gs)| <= hi * |gs|
  {
    if |gs| > 0 {
      ConcatLength(gs[1..], lo, hi);
      assert lo * |gs| == lo + lo * |gs[1..]|;
      assert hi * |gs| == hi + hi * |gs[1..]|;
    }
  }

  /** Two tables with no row in common: their concatenation repeats a row iff one of them does. */
  lemma DistinctAppend<T>(xs: seq<T>, ys: seq<T>)
    requires forall x :: x in xs ==> x !in ys
    ensures Distinct(xs + ys) <==> Distinct(xs) && Distinct(ys)
  {
    var zs := xs + ys;
    if Distinct(xs) && Distinct(ys) {
      forall i, j | 0 <= i < j < |zs|
        ensures zs[i] != zs[j]
      {
        if j < |xs| {
          assert zs[i] == xs[i] && zs[j] == xs[j];
        } else if i >= |xs| {
          assert zs[i] == ys[i - |xs|] && zs[j] == ys[j - |xs|];
        } else {
          assert zs[i] in xs && zs[j] in ys;
        }
      }
    }
    if Distinct(zs) {
      forall i, j | 0 <= i < j < |xs|
        ensures xs[i] != xs[j]
      {
        assert xs[i] == zs[i] && xs[j] == zs[j];
      }
      forall i, j | 0 <= i < j < |ys|
        ensures ys[i] != ys[j]
      {
        assert ys[i] == zs[|xs| + i] && ys[j] == zs[|xs| + j];
      }
    }
  }

  /** Appending a row repeats a row iff the row was already there or the table already repeated one. */
  lemma DistinctSnoc<T>(xs: seq<T>, x: T)
    ensures Distinct(xs + [x]) <==> Distinct(xs) && x !in xs
  {
    if x in xs {
      var i :| 0 <= i < |xs| && xs[i] == x;
      assert (xs + [x])[i] == (xs + [x])[|xs|];
    } else {
      DistinctAppend(xs, [x]);
    }
  }

  /** A table that repeats no row does not repeat the first row appended to it. */
  lemma DistinctHead<T>(xs: seq<T>, ys: seq<T>)
    requires |ys| > 0
    ensures Distinct(xs + ys) ==> ys[0] !in xs
  {
    if ys[0] in xs {
      var i :| 0 <= i < |xs| && xs[i] == ys[0];
      assert (xs + ys)[i] == (xs + ys)[|xs|];
    }
  }

  /** Putting a row in front repeats a row iff the row was already there or the table already repeated one. */
  lemma DistinctCons<T>(x: T, ys: seq<T>)
    ensures Distinct([x] + ys) <==> x !in ys && Distinct(ys)
  {
    if x in ys {
      var i :| 0 <= i < |ys| && ys[i] == x;
      assert ([x] + ys)[0] == ([x] + ys)[i + 1];
    } else {
      DistinctAppend([x], ys);
    }
  }

  /** The rows carry the consecutive keys `first`, `first + 1`, ..., as a SERIAL sequence hands them out. */
  ghost predicate Numbered<T>(xs: seq<T>, key: T -> nat, first: nat) {
    forall i :: 0 <= i < |xs| ==> key(xs[i]) == first + i
  }

  lemma NumberedAppend<T>(xs: seq<T>, ys: seq<T>, key: T -> nat, first: nat)
    requires Numbered(xs, key, first) && Numbered(ys, key, first + |xs|)
    ensures Numbered(xs + ys, key, first)
  {
    forall i | 0 <= i < |xs + ys|
      ensures key((xs + ys)[i]) == first + i
    {
      if i >= |xs| {
        assert (xs + ys)[i] == ys[i - |xs|];
      }
    }
  }

  /** Consecutive keys are distinct keys. */
  lemma NumberedUnique<T>(xs: seq<T>, key: T -> nat, first: nat)
    requires Numbered(xs, key, first)
    ensures UniqueBy(xs, key)
  {
  }

  /** A column that is unique over a table with rows appended takes, in the first
      appended row, a value no earlier row has. */
  lemma UniqueHead<T, K>(xs: seq<T>, ys: seq<T>, key: T -> K)
    requires |ys| > 0
    ensures UniqueBy(xs + ys, key) ==> forall x :: x in xs ==> key(x) != key(ys[0])
  {
    if UniqueBy(xs + ys, key) {
      forall x | x in xs
        ensures key(x) != key(ys[0])
      {
        var i :| 0 <= i < |xs| && xs[i] == x;
        assert (xs + ys)[i] == x && (xs + ys)[|xs|] == ys[0];
      }
    }
  }
}
