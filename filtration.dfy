/**
 The filter-and-rank stage of questions_filtration: drop absent details and
 details whose difficulty was not selected, then sort the survivors by
 (likes, ratio) in descending order with Python's stable sort.
 */
module Filtration {
  import opened Wrappers
  import opened Questions
  import opened Sequences

  /** The filter's lambda: the detail is present and its difficulty is one of the selected ones. */
  predicate Kept(e: Option<Question>, selected: set<Difficulty>)
  {
    e.Some? && e.value.difficulty in selected
  }

  /** list(filter(...)) over the fetched details, in input order. */
  function Filtered(infos: seq<Option<Question>>, selected: set<Difficulty>): (r: seq<Question>)
    ensures |r| <= |infos|
    ensures forall q :: q in r ==> q.difficulty in selected && Some(q) in infos
  {
    if infos == [] then []
    else
      var last := infos[|infos| - 1];
      Filtered(infos[..|infos| - 1], selected) + (if Kept(last, selected) then [last.value] else [])
  }

  /** The positions of the input whose entries pass the filter, in increasing order. */
  function KeptPositions(infos: seq<Option<Question>>, selected: set<Difficulty>): seq<nat>
  {
    if infos == [] then []
    else
      var n := |infos| - 1;
      KeptPositions(infos[..n], selected) + (if Kept(infos[n], selected) then [n] else [])
  }

  /** r is the sequence of values found at the increasing positions idx of infos. */
  ghost predicate SubsequenceAt(r: seq<Question>, infos: seq<Option<Question>>, idx: seq<nat>)
  {
    && |idx| == |r|
    && (forall k :: 0 <= k < |idx| ==> idx[k] < |infos| && infos[idx[k]] == Some(r[k]))
    && (forall k, l :: 0 <= k < l < |idx| ==> idx[k] < idx[l])
  }

  /** The filter keeps exactly the present entries with a selected difficulty, in input order:
      the result is the subsequence of the input at the positions that pass the filter,
      and every position that passes it is among them. */
  lemma {:induction false} FilteredIsKeptSubsequence(infos: seq<Option<Question>>, selected: set<Difficulty>)
    ensures SubsequenceAt(Filtered(infos, selected), infos, KeptPositions(infos, selected))
    ensures forall i :: 0 <= i < |infos| ==> (Kept(infos[i], selected) <==> i in KeptPositions(infos, selected))
  {
    if infos != [] {
      var n := |infos| - 1;
      var init := infos[..n];
      FilteredIsKeptSubsequence(init, selected);
      var idx0 := KeptPositions(init, selected);
      assert forall k :: 0 <= k < |idx0| ==> idx0[k] < n;
      forall i | 0 <= i < n
        ensures Kept(infos[i], selected) <==> i in KeptPositions(infos, selected)
      {
        assert infos[i] == init[i];
      }
    }
  }

  /** Whole-list view of the filter: a question survives exactly when it was fetched with a selected difficulty. */
  lemma {:induction false} FilteredMembership(infos: seq<Option<Question>>, selected: set<Difficulty>, q: Question)
    ensures q in Filtered(infos, selected) <==> Some(q) in infos && q.difficulty in selected
  {
    FilteredIsKeptSubsequence(infos, selected);
    var r, idx := Filtered(infos, selected), KeptPositions(infos, selected);
    if Some(q) in infos && q.difficulty in selected {
      var i :| 0 <= i < |infos| && infos[i] == Some(q);
      assert Kept(infos[i], selected);
      var k :| 0 <= k < |idx| && idx[k] == i;
      assert r[k] == q;
    }
  }

  /** Adjacent entries never increase in (likes, ratio). */
  predicate Descending(s: seq<Question>)
  {
    forall i :: 0 < i < |s| ==> KeyAtLeast(KeyOf(s[i - 1]), KeyOf(s[i]))
  }

  /** Puts q in front of the first element it ranks at least as high as. Inserting the element
      that came earlier in the input in front of its ties is what keeps the sort stable. */
  function Insert(q: Question, r: seq<Question>): (s: seq<Question>)
    requires Descending(r)
    ensures multiset(s) == multiset(r) + multiset{q}
    ensures Descending(s)
    ensures s[0] == q || (r != [] && s[0] == r[0])
  {
    if r == [] || KeyAtLeast(KeyOf(q), KeyOf(r[0])) then [q] + r
    else
      KeyAtLeastTotal(KeyOf(q), KeyOf(r[0]));
      assert r == [r[0]] + r[1..];
      [r[0]] + Insert(q, r[1..])
  }

  /** sorted(..., reverse=True) on the (likes, ratio) key: a descending permutation of s. */
  function SortDescending(s: seq<Question>): (r: seq<Question>)
    ensures multiset(r) == multiset(s)
    ensures Descending(r)
  {
    if s == [] then []
    else
      assert s == [s[0]] + s[1..];
      Insert(s[0], SortDescending(s[1..]))
  }

  /** Whether a question's key ties with k. */
  function TieClass(k: SortKey): Question -> bool
  {
    x => Tied(KeyOf(x), k)
  }

  /** The questions of s whose key ties with k, in the order of s. */
  function TiedWith(s: seq<Question>, k: SortKey): seq<Question>
  {
    Select(s, TieClass(k))
  }

  lemma {:induction false} InsertKeepsTieOrder(q: Question, r: seq<Question>, k: SortKey)
    requires Descending(r)
    ensures TiedWith(Insert(q, r), k) == (if Tied(KeyOf(q), k) then [q] else []) + TiedWith(r, k)
  {
    if r == [] || KeyAtLeast(KeyOf(q), KeyOf(r[0])) {
      SelectCons(q, r, TieClass(k));
    } else {
      var head, rest := r[0], r[1..];
      assert r == [head] + rest;
      assert Insert(q, r) == [head] + Insert(q, rest);
      InsertKeepsTieOrder(q, rest, k);
      NotBothTied(KeyOf(q), KeyOf(head), k);
      TieOrderStep(q, head, rest, Insert(q, rest), k);
    }
  }

  /** Putting a question that does not share q's tie class in front of both sides keeps q in front of its class. */
  lemma TieOrderStep(q: Question, head: Question, rest: seq<Question>, inserted: seq<Question>, k: SortKey)
    requires !(Tied(KeyOf(q), k) && Tied(KeyOf(head), k))
    requires TiedWith(inserted, k) == (if Tied(KeyOf(q), k) then [q] else []) + TiedWith(rest, k)
    ensures TiedWith([head] + inserted, k) == (if Tied(KeyOf(q), k) then [q] else []) + TiedWith([head] + rest, k)
  {
    SelectCons(head, inserted, TieClass(k));
    SelectCons(head, rest, TieClass(k));
    if Tied(KeyOf(q), k) {
      assert TiedWith([head] + rest, k) == TiedWith(rest, k);
    } else {
      assert TiedWith(inserted, k) == TiedWith(rest, k);
    }
  }

  /** A key strictly below another cannot share a tie class with it. */
  lemma NotBothTied(a: SortKey, b: SortKey, k: SortKey)
    requires !KeyAtLeast(a, b)
    ensures !(Tied(a, k) && Tied(b, k))
  {
    if Tied(a, k) && Tied(b, k) {
      TiedTransitive(a, k, b);
    }
  }

  /** The sort is stable: the questions sharing any one key come out in the order they went in. */
  lemma {:induction false} SortKeepsTieOrder(s: seq<Question>, k: SortKey)
    ensures TiedWith(SortDescending(s), k) == TiedWith(s, k)
  {
    if s != [] {
      SortKeepsTieOrder(s[1..], k);
      InsertKeepsTieOrder(s[0], SortDescending(s[1..]), k);
      SelectCons(s[0], s[1..], TieClass(k));
      assert s == [s[0]] + s[1..];
    }
  }

  /** Two non-empty lists that are descending and agree on every tie class start with the same question. */
  lemma SameHead(t: seq<Question>, u: seq<Question>)
    requires t != [] && u != []
    requires Descending(t) && Descending(u)
    requires forall k :: TiedWith(t, k) == TiedWith(u, k)
    ensures t[0] == u[0]
  {
    var a, b := t[0], u[0];
    assert TiedWith(u, KeyOf(b))[0] == b;
    SelectMembers(t, TieClass(KeyOf(b)), b);
    var j :| 0 <= j < |t| && t[j] == b;
    DescendingPairwise(t, 0, j);
    assert TiedWith(t, KeyOf(a))[0] == a;
    SelectMembers(u, TieClass(KeyOf(a)), a);
    var i :| 0 <= i < |u| && u[i] == a;
    DescendingPairwise(u, 0, i);
    assert TiedWith(u, KeyOf(a))[0] == b;
  }

  /** Being descending and keeping every tie class in one order pins an arrangement down:
      two such arrangements are equal. */
  lemma {:induction false} StableDescendingUnique(t: seq<Question>, u: seq<Question>)
    requires Descending(t) && Descending(u)
    requires forall k :: TiedWith(t, k) == TiedWith(u, k)
    ensures t == u
  {
    if t == [] || u == [] {
      if t != u {
        // the first element of the non-empty one is missing from its own tie class in the other
        var s := if t != [] then t else u;
        var w := TiedWith(s, KeyOf(s[0]));
        assert false;
      }
    } else {
      SameHead(t, u);
      forall k ensures TiedWith(t[1..], k) == TiedWith(u[1..], k) {
        assert TiedWith(t, k) == TiedWith(u, k);
        SelectSameTail(t, u, TieClass(k));
      }
      assert Descending(t[1..]) && Descending(u[1..]);
      StableDescendingUnique(t[1..], u[1..]);
      assert t == [t[0]] + t[1..] && u == [u[0]] + u[1..];
    }
  }

  /** The sort is the one stable descending arrangement: any sequence that is descending and
      keeps the tie order of s is SortDescending(s). */
  lemma SortIsUniqueStableArrangement(s: seq<Question>, t: seq<Question>)
    requires Descending(t)
    requires forall k :: TiedWith(t, k) == TiedWith(s, k)
    ensures t == SortDescending(s)
  {
    forall k ensures TiedWith(t, k) == TiedWith(SortDescending(s), k) {
      SortKeepsTieOrder(s, k);
    }
    StableDescendingUnique(t, SortDescending(s));
  }

  /** The adjacent ordering extends to every pair: an earlier question never ranks below a later one. */
  lemma {:induction false} DescendingPairwise(s: seq<Question>, i: nat, j: nat)
    requires Descending(s)
    requires i <= j < |s|
    ensures KeyAtLeast(KeyOf(s[i]), KeyOf(s[j]))
    decreases j - i
  {
    if i < j {
      DescendingPairwise(s, i + 1, j);
      KeyAtLeastTransitive(KeyOf(s[i]), KeyOf(s[i + 1]), KeyOf(s[j]));
    }
  }

  /** The filter-and-rank stage of questions_filtration. */
  function Ranked(infos: seq<Option<Question>>, selected: set<Difficulty>): (r: seq<Question>)
    ensures multiset(r) == multiset(Filtered(infos, selected))
    ensures Descending(r)
    ensures forall q :: q in r ==> q.difficulty in selected && Some(q) in infos
    ensures forall k :: TiedWith(r, k) == TiedWith(Filtered(infos, selected), k)
  {
    var f := Filtered(infos, selected);
    var r := SortDescending(f);
    assert forall q :: q in r ==> q in multiset(f);
    forall k ensures TiedWith(r, k) == TiedWith(f, k) {
      SortKeepsTieOrder(f, k);
    }
    r
  }
}
