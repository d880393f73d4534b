/** Selecting from and searching lists by a test. */
module Lists {
  import opened Wrappers

  function Select<T>(xs: seq<T>, keep: T -> bool): (r: seq<T>)
    ensures forall x :: x in r ==> x in xs && keep(x)
    ensures forall x :: x in xs && keep(x) ==> x in r
  {
    if xs == [] then [] else (if keep(xs[0]) then [xs[0]] else []) + Select(xs[1..], keep)
  }

  /** The first element that passes. */
  function Find<T>(xs: seq<T>, wanted: T -> bool): (r: Option<T>)
    ensures r.Some? ==> r.value in xs && wanted(r.value)
    ensures r.None? ==> forall x :: x in xs ==> !wanted(x)
  {
    if xs == [] then None else if wanted(xs[0]) then Some(xs[0]) else Find(xs[1..], wanted)
  }

  lemma {:induction false} SelectConcat<T>(xs: seq<T>, ys: seq<T>, keep: T -> bool)
    ensures Select(xs + ys, keep) == Select(xs, keep) + Select(ys, keep)
    decreases |xs|
  {
    if xs == [] {
      assert xs + ys == ys;
    } else {
      var head := if keep(xs[0]) then [xs[0]] else [];
      var rest, more := Select(xs[1..], keep), Select(ys, keep);
      assert (xs + ys)[0] == xs[0] && (xs + ys)[1..] == xs[1..] + ys;
      SelectConcat(xs[1..], ys, keep);
      assert Select(xs + ys, keep) == head + (rest + more);
      assert head + (rest + more) == (head + rest) + more;
    }
  }

  lemma {:induction false} SelectAll<T>(xs: seq<T>, keep: T -> bool)
    requires forall x :: x in xs ==> keep(x)
    ensures Select(xs, keep) == xs
    decreases |xs|
  {
    if xs != [] {
      SelectAll(xs[1..], keep);
    }
  }

  lemma SelectNone<T>(xs: seq<T>, keep: T -> bool)
    requires forall x :: x in xs ==> !keep(x)
    ensures Select(xs, keep) == []
  {
    if Select(xs, keep) != [] {
      assert Select(xs, keep)[0] in Select(xs, keep);
    }
  }

  /** Selecting again, by a stricter test. */
  lemma {:induction false} SelectWithin<T>(xs: seq<T>, wide: T -> bool, narrow: T -> bool)
    requires forall x :: x in xs && narrow(x) ==> wide(x)
    ensures Select(Select(xs, wide), narrow) == Select(xs, narrow)
    decreases |xs|
  {
    if xs != [] {
      SelectWithin(xs[1..], wide, narrow);
      SelectConcat(if wide(xs[0]) then [xs[0]] else [], Select(xs[1..], wide), narrow);
    }
  }

  lemma {:induction false} FindWithin<T>(xs: seq<T>, wide: T -> bool, narrow: T -> bool)
    requires forall x :: x in xs && narrow(x) ==> wide(x)
    ensures Find(Select(xs, wide), narrow) == Find(xs, narrow)
    decreases |xs|
  {
    if xs != [] {
      var rest := Select(xs[1..], wide);
      FindWithin(xs[1..], wide, narrow);
      FindPrefixed(xs[0], rest, narrow);
      if !wide(xs[0]) {
        assert Select(xs, wide) == rest;
      }
    }
  }

  lemma FindPrefixed<T>(x: T, xs: seq<T>, wanted: T -> bool)
    ensures Find([x] + xs, wanted) == if wanted(x) then Some(x) else Find(xs, wanted)
  {
    assert ([x] + xs)[1..] == xs;
  }

  lemma FindNone<T>(xs: seq<T>, wanted: T -> bool)
    requires forall x :: x in xs ==> !wanted(x)
    ensures Find(xs, wanted) == None
  {
  }

  /** Taking out what passes a test and adding others that pass it changes what
      that test selects, and nothing a test apart from it selects. */
  lemma SelectReplaced<T>(xs: seq<T>, more: seq<T>, keep: T -> bool, at: T -> bool, apart: T -> bool)
    requires forall x :: x in xs ==> (keep(x) <==> !at(x))
    requires forall x :: x in more ==> at(x)
    requires forall x :: x in xs + more ==> !(apart(x) && at(x))
    ensures Select(Select(xs, keep) + more, at) == more
    ensures Select(Select(xs, keep) + more, apart) == Select(xs, apart)
  {
    SelectConcat(Select(xs, keep), more, at);
    SelectNone(Select(xs, keep), at);
    SelectAll(more, at);
    SelectConcat(Select(xs, keep), more, apart);
    SelectNone(more, apart);
    SelectWithin(xs, keep, apart);
  }

  lemma FindReplaced<T>(xs: seq<T>, y: Option<T>, keep: T -> bool, at: T -> bool, apart: T -> bool)
    requires forall x :: x in xs ==> (keep(x) <==> !at(x))
    requires y.Some? ==> at(y.value) && !apart(y.value)
    requires forall x :: x in xs ==> !(apart(x) && at(x))
    ensures var r := Select(xs, keep) + (if y.Some? then [y.value] else []);
            Find(r, at) == y && Find(r, apart) == Find(xs, apart)
  {
    var kept := Select(xs, keep);
    FindNone(kept, at);
    FindWithin(xs, keep, apart);
    if y.Some? {
      FindAppended(kept, y.value, at);
      FindAppended(kept, y.value, apart);
    } else {
      assert kept + [] == kept;
    }
  }

  lemma {:induction false} FindAppended<T>(xs: seq<T>, y: T, wanted: T -> bool)
    ensures Find(xs + [y], wanted) == if Find(xs, wanted).Some? then Find(xs, wanted) else if wanted(y) then Some(y) else None
    decreases |xs|
  {
    if xs == [] {
      assert xs + [y] == [y] && [y][1..] == [];
    } else {
      assert (xs + [y])[0] == xs[0] && (xs + [y])[1..] == xs[1..] + [y];
      FindAppended(xs[1..], y, wanted);
    }
  }

  /** A list of the elements of a multiset. */
  method Listing<T(==)>(m: multiset<T>) returns (r: seq<T>)
    ensures multiset(r) == m
  {
    r := [];
    var rest := m;
    while rest != multiset{}
      invariant multiset(r) + rest == m
      decreases |rest|
    {
      var b :| b in rest;
      r, rest := r + [b], rest - multiset{b};
    }
  }

  /** The elements of a set, each once. */
  method ListSet<T(==)>(s: set<T>) returns (r: seq<T>)
    ensures forall x :: x in r <==> x in s
    ensures |r| == |s|
  {
    r := [];
    var rest := s;
    while rest != {}
      invariant forall x :: x in s <==> x in r || x in rest
      invariant forall x :: x in r ==> x !in rest
      invariant |r| + |rest| == |s|
      decreases rest
    {
      var b :| b in rest;
      r, rest := r + [b], rest - {b};
    }
  }

  /** Marking one more element leaves fewer unmarked. */
  lemma Shrinks<T>(all: set<T>, seen: set<T>, x: T)
    requires x in all && x !in seen
    ensures |all - (seen + {x})| < |all - seen|
  {
    assert all - seen == (all - (seen + {x})) + {x};
  }
}
