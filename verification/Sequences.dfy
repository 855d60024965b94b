/** Order-preserving filters over sequences, built from the left end like a Python
    comprehension, and the sums the reports take over them. */
module Sequences {

  datatype Option<+A> = None | Some(value: A)

  function Filter<A>(keep: A -> bool, s: seq<A>): (r: seq<A>)
    ensures |r| <= |s|
  {
    if s == [] then []
    else if keep(s[|s| - 1]) then Filter(keep, s[..|s| - 1]) + [s[|s| - 1]]
    else Filter(keep, s[..|s| - 1])
  }

  lemma {:induction false} FilterMembers<A>(keep: A -> bool, s: seq<A>, x: A)
    ensures x in Filter(keep, s) <==> x in s && keep(x)
  {
    if s == [] {
    } else {
      assert s == s[..|s| - 1] + [s[|s| - 1]];
      FilterMembers(keep, s[..|s| - 1], x);
    }
  }

  lemma Snoc<A>(s: seq<A>, x: A)
    ensures (s + [x])[..|s|] == s && (s + [x])[|s|] == x
  {}

  lemma FilterSnoc<A>(keep: A -> bool, s: seq<A>, x: A)
    ensures Filter(keep, s + [x]) == if keep(x) then Filter(keep, s) + [x] else Filter(keep, s)
  {
    assert (s + [x])[..|s|] == s;
  }

  lemma {:induction false} FilterConcat<A>(keep: A -> bool, s: seq<A>, t: seq<A>)
    ensures Filter(keep, s + t) == Filter(keep, s) + Filter(keep, t)
  {
    if t == [] {
      assert s + t == s;
    } else {
      var t', x := t[..|t| - 1], t[|t| - 1];
      assert s + t == (s + t') + [x];
      FilterConcat(keep, s, t');
      FilterSnoc(keep, s + t', x);
    }
  }

  /** The positions a filter keeps. */
  ghost function Kept<A>(keep: A -> bool, s: seq<A>): set<int> {
    set i | 0 <= i < |s| && keep(s[i])
  }

  lemma {:induction false} FilterCount<A>(keep: A -> bool, s: seq<A>)
    ensures |Filter(keep, s)| == |Kept(keep, s)|
  {
    if s == [] {
      assert Kept(keep, s) == {};
    } else {
      var s', last := s[..|s| - 1], |s| - 1;
      FilterCount(keep, s');
      assert Kept(keep, s) == Kept(keep, s') + if keep(s[last]) then {last} else {};
    }
  }

  /** A filter starts with the first element it keeps. */
  lemma {:induction false} FilterFirst<A>(keep: A -> bool, s: seq<A>) returns (k: nat)
    requires Filter(keep, s) != []
    ensures k < |s| && keep(s[k]) && Filter(keep, s)[0] == s[k]
    ensures forall j :: 0 <= j < k ==> !keep(s[j])
  {
    var s' := s[..|s| - 1];
    if Filter(keep, s') == [] {
      k := |s| - 1;
      forall j | 0 <= j < k
        ensures !keep(s[j])
      {
        FilterMembers(keep, s', s'[j]);
      }
    } else {
      k := FilterFirst(keep, s');
    }
  }

  lemma {:induction false} FilterCommutes<A>(p: A -> bool, q: A -> bool, s: seq<A>)
    ensures Filter(p, Filter(q, s)) == Filter(q, Filter(p, s))
  {
    if s == [] {
    } else {
      var s', x := s[..|s| - 1], s[|s| - 1];
      FilterCommutes(p, q, s');
      if q(x) { FilterSnoc(p, Filter(q, s'), x); }
      if p(x) { FilterSnoc(q, Filter(p, s'), x); }
    }
  }

  /** The sum of `weight` over a sequence. */
  function Sum<A>(weight: A -> real, s: seq<A>): real {
    if s == [] then 0.0 else Sum(weight, s[..|s| - 1]) + weight(s[|s| - 1])
  }

  lemma SumSnoc<A>(weight: A -> real, s: seq<A>, x: A)
    ensures Sum(weight, s + [x]) == Sum(weight, s) + weight(x)
  {
    assert (s + [x])[..|s|] == s;
  }

  /** A sum over a filter weighs every element, those left out with nothing. */
  lemma {:induction false} FilterSum<A>(keep: A -> bool, weight: A -> real, kept: A -> real, s: seq<A>)
    requires forall x: A :: kept(x) == if keep(x) then weight(x) else 0.0
    ensures Sum(weight, Filter(keep, s)) == Sum(kept, s)
  {
    if s == [] {
    } else {
      var s', x := s[..|s| - 1], s[|s| - 1];
      FilterSum(keep, weight, kept, s');
      if keep(x) {
        SumSnoc(weight, Filter(keep, s'), x);
      }
    }
  }

  // ----- Subsequences -----

  ghost predicate Ascends(at: seq<nat>) {
    forall j, k :: 0 <= j < k < |at| ==> at[j] < at[k]
  }

  /** `r` is what `s` holds at the ascending positions `at`. */
  ghost predicate Picks<A>(s: seq<A>, at: seq<nat>, r: seq<A>) {
    && |at| == |r| && Ascends(at)
    && (forall k :: 0 <= k < |at| ==> at[k] < |s| && r[k] == s[at[k]])
  }

  /** `r` lists exactly the positions before `n` where something occurs, in order, and tells of each. */
  ghost predicate Lists<A>(n: nat, occurs: nat -> bool, told: (nat, A) -> bool, at: seq<nat>, r: seq<A>) {
    && |at| == |r| && Ascends(at)
    && (forall i :: 0 <= i < n ==> (i in at <==> occurs(i)))
    && (forall k :: 0 <= k < |at| ==> at[k] < n && told(at[k], r[k]))
  }

  lemma ListsMore<A>(n: nat, occurs: nat -> bool, told: (nat, A) -> bool, at: seq<nat>, r: seq<A>, x: A)
    requires Lists(n, occurs, told, at, r) && occurs(n) && told(n, x)
    ensures Lists(n + 1, occurs, told, at + [n], r + [x])
  {
    forall i | 0 <= i < n + 1
      ensures i in at + [n] <==> occurs(i)
    {}
  }

  lemma ListsSame<A>(n: nat, occurs: nat -> bool, told: (nat, A) -> bool, at: seq<nat>, r: seq<A>)
    requires Lists(n, occurs, told, at, r) && !occurs(n)
    ensures Lists(n + 1, occurs, told, at, r)
  {
    assert n !in at;
  }

  /** A filter picks exactly the positions it keeps, in order. */
  lemma {:induction false} FilterPicks<A>(keep: A -> bool, s: seq<A>) returns (at: seq<nat>)
    ensures Picks(s, at, Filter(keep, s))
    ensures forall i :: 0 <= i < |s| ==> (i in at <==> keep(s[i]))
  {
    at := FilterPicksFirst(keep, s, |s|);
    assert s[..|s|] == s;
  }

  lemma {:induction false} FilterPicksFirst<A>(keep: A -> bool, s: seq<A>, n: nat) returns (at: seq<nat>)
    requires n <= |s|
    ensures Lists(n, (i: nat) => i < |s| && keep(s[i]), (i: nat, x: A) => i < |s| && x == s[i], at, Filter(keep, s[..n]))
  {
    var occurs, told := (i: nat) => i < |s| && keep(s[i]), (i: nat, x: A) => i < |s| && x == s[i];
    if n == 0 {
      at := [];
    } else {
      at := FilterPicksFirst(keep, s, n - 1);
      var before := Filter(keep, s[..n - 1]);
      assert s[..n][..n - 1] == s[..n - 1];
      if keep(s[n - 1]) {
        ListsMore(n - 1, occurs, told, at, before, s[n - 1]);
        at := at + [n - 1];
      } else {
        ListsSame(n - 1, occurs, told, at, before);
      }
    }
  }

  lemma LastOfAscending(a: seq<nat>, x: nat)
    requires Ascends(a + [x])
    ensures Ascends(a) && forall i: nat :: i in a <==> i in a + [x] && i < x
  {
    assert forall k :: 0 <= k < |a| ==> (a + [x])[k] == a[k];
    forall i: nat | i in a
      ensures i < x
    {
      var k :| 0 <= k < |a| && a[k] == i;
      assert (a + [x])[k] < (a + [x])[|a|];
    }
  }

  lemma LargestIsLast(a: seq<nat>, x: nat, b: seq<nat>, y: nat)
    requires Ascends(a + [x]) && Ascends(b + [y]) && forall i: nat :: i in a + [x] <==> i in b + [y]
    ensures x == y && forall i: nat :: i in a <==> i in b
  {
    LastOfAscending(a, x);
    LastOfAscending(b, y);
    assert x in a + [x] && y in b + [y];
  }

  lemma HasFirst(s: seq<nat>)
    ensures s == [] || exists i :: i in s
  {
    if s != [] {
      assert s[0] in s;
    }
  }

  /** Ascending positions are told by which they are. */
  lemma {:induction false} AscendingIsUnique(a: seq<nat>, b: seq<nat>)
    requires Ascends(a) && Ascends(b) && |a| <= |b| && forall i: nat :: i in a <==> i in b
    ensures a == b
  {
    if a == [] {
      HasFirst(b);
    } else {
      var m, n := |a| - 1, |b| - 1;
      assert a == a[..m] + [a[m]] && b == b[..n] + [b[n]];
      LargestIsLast(a[..m], a[m], b[..n], b[n]);
      LastOfAscending(a[..m], a[m]);
      LastOfAscending(b[..n], b[n]);
      AscendingIsUnique(a[..m], b[..n]);
    }
  }

  /** What is listed is determined when each position has one thing to tell. */
  lemma ListsUnique<A(!new)>(n: nat, occurs: nat -> bool, told: (nat, A) -> bool, at: seq<nat>, r: seq<A>,
                             at': seq<nat>, r': seq<A>)
    requires Lists(n, occurs, told, at, r) && Lists(n, occurs, told, at', r')
    requires forall i: nat, x: A, y: A :: told(i, x) && told(i, y) ==> x == y
    ensures at == at' && r == r'
  {
    forall i: nat
      ensures i in at <==> i in at'
    {
      if i in at {
        var k :| 0 <= k < |at| && at[k] == i;
        assert i < n && occurs(i);
      }
      if i in at' {
        var k :| 0 <= k < |at'| && at'[k] == i;
        assert i < n && occurs(i);
      }
    }
    if |at| <= |at'| {
      AscendingIsUnique(at, at');
    } else {
      AscendingIsUnique(at', at);
    }
    forall k | 0 <= k < |r|
      ensures r[k] == r'[k]
    {
      assert told(at[k], r[k]) && told(at'[k], r'[k]);
    }
  }

  function Elements(at: seq<nat>): set<nat> {
    set i | i in at
  }

  lemma ElementsSnoc(at: seq<nat>, x: nat)
    requires Ascends(at + [x])
    ensures Ascends(at) && |Elements(at + [x])| == |Elements(at)| + 1
  {
    LastOfAscending(at, x);
    assert x !in Elements(at);
    assert Elements(at + [x]) == Elements(at) + {x};
  }

  lemma {:induction false} AscendingCount(at: seq<nat>)
    requires Ascends(at)
    ensures |Elements(at)| == |at|
  {
    if at == [] {
      assert Elements(at) == {};
    } else {
      var rest, last := at[..|at| - 1], at[|at| - 1];
      assert at == rest + [last];
      ElementsSnoc(rest, last);
      AscendingCount(rest);
    }
  }

  /** A list is as long as there are positions where something occurs. */
  lemma ListsCount<A>(n: nat, occurs: nat -> bool, told: (nat, A) -> bool, at: seq<nat>, r: seq<A>)
    requires Lists(n, occurs, told, at, r)
    ensures |r| == |set i: nat | i < n && occurs(i)|
  {
    AscendingCount(at);
    forall i: nat
      ensures i in at <==> i < n && occurs(i)
    {
      if i in at {
        var k :| 0 <= k < |at| && at[k] == i;
        assert i < n && occurs(i);
      }
    }
    assert Elements(at) == set i: nat | i < n && occurs(i);
  }

  lemma ListsAgree<A>(n: nat, occurs: nat -> bool, occurs': nat -> bool, told: (nat, A) -> bool, at: seq<nat>, r: seq<A>)
    requires Lists(n, occurs, told, at, r) && forall i: nat :: i < n ==> (occurs(i) <==> occurs'(i))
    ensures Lists(n, occurs', told, at, r)
  {}

  // ----- Parts laid end to end -----

  /** Part `i` is the stretch of `all` between its two cuts. */
  ghost predicate LaidAt<A>(all: seq<A>, parts: seq<seq<A>>, cuts: seq<nat>, i: nat) {
    && i < |parts| && i + 1 < |cuts|
    && cuts[i] <= cuts[i + 1] <= |all| && all[cuts[i]..cuts[i + 1]] == parts[i]
  }

  /** `all` is the parts laid one after another; `cuts` says where each begins and ends. */
  ghost predicate Laid<A>(all: seq<A>, parts: seq<seq<A>>, cuts: seq<nat>) {
    && |cuts| == |parts| + 1 && cuts[0] == 0 && cuts[|parts|] == |all|
    && forall i :: 0 <= i < |parts| ==> LaidAt(all, parts, cuts, i)
  }

  lemma LaysOneMore<A>(all: seq<A>, parts: seq<seq<A>>, cuts: seq<nat>, part: seq<A>)
    requires Laid(all, parts, cuts)
    ensures Laid(all + part, parts + [part], cuts + [|all + part|])
  {
    var all', parts', cuts' := all + part, parts + [part], cuts + [|all + part|];
    forall i | 0 <= i < |parts'|
      ensures LaidAt(all', parts', cuts', i)
    {
      if i < |parts| {
        assert LaidAt(all, parts, cuts, i);
        assert all'[cuts[i]..cuts[i + 1]] == all[cuts[i]..cuts[i + 1]];
      } else {
        assert all'[|all|..|all'|] == part;
      }
    }
  }

  lemma ListsImply<A(!new)>(n: nat, occurs: nat -> bool, told: (nat, A) -> bool, occurs': nat -> bool, told': (nat, A) -> bool,
                            at: seq<nat>, r: seq<A>)
    requires Lists(n, occurs, told, at, r)
    requires forall i: nat :: i < n ==> (occurs(i) <==> occurs'(i))
    requires forall i: nat, x: A :: i < n && told(i, x) ==> told'(i, x)
    ensures Lists(n, occurs', told', at, r)
  {}

  /** A filter and its opposite share out the elements. */
  lemma {:induction false} FilterSplits<A>(keep: A -> bool, drop: A -> bool, s: seq<A>)
    requires forall i :: 0 <= i < |s| ==> (drop(s[i]) <==> !keep(s[i]))
    ensures |Filter(keep, s)| + |Filter(drop, s)| == |s|
  {
    if s == [] {
    } else {
      FilterSplits(keep, drop, s[..|s| - 1]);
    }
  }
}
