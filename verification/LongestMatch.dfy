/** Longest-match selection over any table: which entries match, and which of those have the longest prefix. */
module LongestMatch {
  import opened Wrappers

  /** `r` matches, and no matching entry has a longer prefix. */
  ghost predicate Best<T(!new)>(table: seq<T>, matches: T -> bool, prefix: T -> nat, r: T) {
    && r in table
    && matches(r)
    && forall other | other in table && matches(other) :: prefix(other) <= prefix(r)
  }

  /** `Math.max` over the prefixes of a non-empty list. */
  function MaxPrefix<T>(entries: seq<T>, prefix: T -> nat): (m: nat)
    requires entries != []
    ensures forall r | r in entries :: prefix(r) <= m
    ensures exists r | r in entries :: prefix(r) == m
  {
    var p := prefix(entries[0]);
    if |entries| == 1 then
      p
    else
      var rest := MaxPrefix(entries[1..], prefix);
      if p >= rest then p else rest
  }

  /** The matching entries with the longest prefix, in table order; none when nothing matches. */
  function MostSpecific<T(!new)>(table: seq<T>, matches: T -> bool, prefix: T -> nat): (best: seq<T>)
    ensures forall r {:trigger r in best} :: r in best <==> Best(table, matches, prefix, r)
    ensures best == [] ==> forall r | r in table :: !matches(r)
  {
    var covering := Filter(table, matches);
    if covering == [] then
      assert forall r | r in table :: r !in covering;
      []
    else
      var maxPrefix := MaxPrefix(covering, prefix);
      var best := Filter(covering, r => prefix(r) == maxPrefix);
      assert covering[0] in covering;
      assert exists r | r in covering :: r in best;
      best
  }

  /** Adding an entry that does not match changes no longest match. */
  lemma AppendUnmatched<T(!new)>(table: seq<T>, added: T, matches: T -> bool, prefix: T -> nat)
    requires !matches(added)
    ensures forall r :: Best(table + [added], matches, prefix, r) <==> Best(table, matches, prefix, r)
  {
    assert forall r :: r in table + [added] <==> r in table || r == added;
  }

  /** Adding a matching entry with a longer prefix than every other match makes it the only longest match. */
  lemma AppendLonger<T(!new)>(table: seq<T>, added: T, matches: T -> bool, prefix: T -> nat)
    requires matches(added)
    requires forall r | r in table && matches(r) :: prefix(r) < prefix(added)
    ensures forall r :: Best(table + [added], matches, prefix, r) <==> r == added
  {
    assert forall r :: r in table + [added] <==> r in table || r == added;
  }
}
