/** Selecting the elements of a sequence that satisfy a predicate, keeping their order. */
module Sequences {

  /** The elements of s that satisfy keep, in the order of s. */
  function Select<T>(s: seq<T>, keep: T -> bool): (r: seq<T>)
    ensures |r| <= |s|
  {
    if s == [] then [] else (if keep(s[0]) then [s[0]] else []) + Select(s[1..], keep)
  }

  lemma SelectCons<T>(x: T, s: seq<T>, keep: T -> bool)
    ensures Select([x] + s, keep) == (if keep(x) then [x] else []) + Select(s, keep)
  {
    assert ([x] + s)[1..] == s;
  }

  /** Only elements of s that satisfy keep are selected. */
  lemma {:induction false} SelectMembers<T>(s: seq<T>, keep: T -> bool, x: T)
    requires x in Select(s, keep)
    ensures x in s && keep(x)
  {
    if !(s != [] && keep(s[0]) && x == s[0]) {
      SelectMembers(s[1..], keep, x);
    }
  }

  /** Dropping a common first element keeps two equal selections equal. */
  lemma SelectSameTail<T>(t: seq<T>, u: seq<T>, keep: T -> bool)
    requires t != [] && u != [] && t[0] == u[0]
    requires Select(t, keep) == Select(u, keep)
    ensures Select(t[1..], keep) == Select(u[1..], keep)
  {
    var p := if keep(t[0]) then [t[0]] else [];
    assert Select(t, keep) == p + Select(t[1..], keep);
    assert Select(u, keep) == p + Select(u[1..], keep);
    assert Select(t[1..], keep) == Select(t, keep)[|p|..];
    assert Select(u[1..], keep) == Select(u, keep)[|p|..];
  }
}
