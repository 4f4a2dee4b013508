/** First-match linear search, the shape shared by both calendar lookups
    and by the schedule applier's walk up to its first failing item. */
module Search {

  /** Index of the first element satisfying `p`, or `|s|` when none does. */
  function FirstWhere<T>(s: seq<T>, p: T -> bool): (k: nat)
    ensures k <= |s|
    ensures forall j :: 0 <= j < k ==> !p(s[j])
    ensures k < |s| ==> p(s[k])
  {
    if s == [] then 0
    else if p(s[0]) then 0
    else 1 + FirstWhere(s[1..], p)
  }

  /** The three clauses of FirstWhere's contract pin its result down. */
  lemma FirstWhereUnique<T>(s: seq<T>, p: T -> bool, k: nat)
    requires k <= |s|
    requires forall j :: 0 <= j < k ==> !p(s[j])
    requires k < |s| ==> p(s[k])
    ensures FirstWhere(s, p) == k
  {
  }

  /** Whatever follows the first match never changes where it is. */
  lemma {:induction false} FirstWhereIgnoresSuffix<T>(s: seq<T>, rest: seq<T>, p: T -> bool)
    requires FirstWhere(s, p) < |s|
    ensures FirstWhere(s + rest, p) == FirstWhere(s, p)
  {
    if !p(s[0]) {
      assert (s + rest)[1..] == s[1..] + rest;
      FirstWhereIgnoresSuffix(s[1..], rest, p);
    }
  }
}
