/** The verdict order on rules and the insertion sort that establishes it. */
module RuleOrder {
  import opened RuleTypes

  function ActionRank(action: u32): nat {
    if action == ACTION_BLOCK then 3
    else if action == ACTION_RATE_LIMIT then 2
    else if action == ACTION_AUDIT then 1
    else 0
  }

  /** Priority descending, then action strength, then rule id ascending. */
  predicate Precedes(a: Rule, b: Rule) {
    if a.priority != b.priority then a.priority > b.priority
    else if ActionRank(a.action) != ActionRank(b.action) then ActionRank(a.action) > ActionRank(b.action)
    else a.ruleId < b.ruleId
  }

  /** BLOCK over RATE_LIMIT over AUDIT over ALLOW, the actions written out. */
  predicate Stronger(a: u32, b: u32) {
    || (a == ACTION_BLOCK && b != ACTION_BLOCK)
    || (a == ACTION_RATE_LIMIT && b != ACTION_BLOCK && b != ACTION_RATE_LIMIT)
    || (a == ACTION_AUDIT && b != ACTION_BLOCK && b != ACTION_RATE_LIMIT && b != ACTION_AUDIT)
  }

  /** The documented precedence on the fields: the higher priority, among equals the stronger action,
      among equals the smaller id. */
  predicate Outranks(a: Rule, b: Rule) {
    || a.priority > b.priority
    || (a.priority == b.priority && Stronger(a.action, b.action))
    || (a.priority == b.priority && !Stronger(b.action, a.action) && a.ruleId < b.ruleId)
  }

  /** The comparison the sort uses is the documented one. */
  lemma PrecedesIffOutranks(a: Rule, b: Rule)
    ensures Precedes(a, b) <==> Outranks(a, b)
  {
  }

  predicate UniqueIds(s: seq<Rule>) {
    forall i, j :: 0 <= i < j < |s| ==> s[i].ruleId != s[j].ruleId
  }

  /** No rule is preceded by a later one. */
  predicate Sorted(s: seq<Rule>) {
    forall i, j :: 0 <= i < j < |s| ==> !Precedes(s[j], s[i])
  }

  /** Every rule precedes every later one: the verdict order of a snapshot. */
  predicate Ordered(s: seq<Rule>) {
    forall i, j :: 0 <= i < j < |s| ==> Precedes(s[i], s[j])
  }

  function Insert(s: seq<Rule>, t: Rule): seq<Rule> {
    if |s| > 0 && Precedes(t, s[|s| - 1]) then Insert(s[..|s| - 1], t) + [s[|s| - 1]] else s + [t]
  }

  function InsertionSort(s: seq<Rule>): seq<Rule> {
    if |s| == 0 then [] else Insert(InsertionSort(s[..|s| - 1]), s[|s| - 1])
  }

  /** SkSortRules: in-place insertion sort. */
  method SortRules(a: array<Rule>)
    modifies a
    ensures a[..] == InsertionSort(old(a[..]))
  {
    ghost var was := a[..];
    var i := 0;
    if a.Length > 0 {
      assert was[..1] == [was[0]] && was[..1][..0] == [];
      assert a[..1] == InsertionSort(was[..1]);
      i := 1;
    }
    while i < a.Length
      invariant i <= a.Length
      invariant a[..i] == InsertionSort(was[..i])
      invariant a[i..] == was[i..]
    {
      assert was[..i + 1][..i] == was[..i];
      InsertInPlace(a, i);
      i := i + 1;
    }
    assert a[..i] == a[..] && was[..i] == was;
  }

  /** The inner loop: slide a[i] left past every rule it precedes. */
  method InsertInPlace(a: array<Rule>, i: nat)
    requires i < a.Length
    modifies a
    ensures a[..i + 1] == Insert(old(a[..i]), old(a[i]))
    ensures a[i + 1..] == old(a[i + 1..])
  {
    ghost var p := a[..i];
    var t := a[i];
    var j := i;
    while j > 0 && Precedes(t, a[j - 1])
      invariant j <= i
      invariant forall k :: 0 <= k < j ==> a[k] == p[k]
      invariant forall k :: j < k <= i ==> a[k] == p[k - 1]
      invariant forall k :: j <= k < i ==> Precedes(t, p[k])
      invariant a[i + 1..] == old(a[i + 1..])
    {
      a[j] := a[j - 1];
      j := j - 1;
    }
    a[j] := t;
    InsertPosition(p, t, j);
    assert a[..i + 1] == p[..j] + [t] + p[j..];
  }

  lemma {:induction false} InsertPosition(s: seq<Rule>, t: Rule, j: nat)
    requires j <= |s|
    requires forall k :: j <= k < |s| ==> Precedes(t, s[k])
    requires j > 0 ==> !Precedes(t, s[j - 1])
    ensures Insert(s, t) == s[..j] + [t] + s[j..]
  {
    if j < |s| {
      var p := s[..|s| - 1];
      InsertPosition(p, t, j);
      assert p[..j] == s[..j] && s[j..] == p[j..] + [s[|s| - 1]];
    }
  }

  // ---- the order is total on distinct ids, and sorting establishes it ----

  lemma PrecedesIsStrictOrder(a: Rule, b: Rule, c: Rule)
    ensures !(Precedes(a, b) && Precedes(b, a))
    ensures Precedes(a, b) && Precedes(b, c) ==> Precedes(a, c)
    ensures a.ruleId != b.ruleId ==> Precedes(a, b) || Precedes(b, a)
  {}

  lemma {:induction false} InsertAdds(s: seq<Rule>, t: Rule)
    ensures multiset(Insert(s, t)) == multiset(s) + multiset{t}
  {
    if |s| > 0 && Precedes(t, s[|s| - 1]) {
      InsertAdds(s[..|s| - 1], t);
      assert s == s[..|s| - 1] + [s[|s| - 1]];
    }
  }

  lemma {:induction false} InsertKeepsSorted(s: seq<Rule>, t: Rule)
    requires Sorted(s)
    ensures Sorted(Insert(s, t))
  {
    if |s| > 0 && Precedes(t, s[|s| - 1]) {
      var p, x := s[..|s| - 1], s[|s| - 1];
      InsertKeepsSorted(p, t);
      InsertAdds(p, t);
      var r := Insert(p, t);
      forall i | 0 <= i < |r| ensures !Precedes(x, r[i]) {
        assert r[i] in multiset(r);
        PrecedesIsStrictOrder(t, x, x);
        assert r[i] != t ==> r[i] in p;
      }
    } else if |s| > 0 {
      forall i | 0 <= i < |s| ensures !Precedes(t, s[i]) {
        NotPrecedesTransitive(t, s[|s| - 1], s[i]);
      }
    }
  }

  lemma NotPrecedesTransitive(a: Rule, b: Rule, c: Rule)
    requires !Precedes(a, b) && (b == c || !Precedes(b, c))
    ensures !Precedes(a, c)
  {}

  /** The sort returns the same rules, sorted. */
  lemma {:induction false} SortIsCorrect(s: seq<Rule>)
    ensures Sorted(InsertionSort(s))
    ensures multiset(InsertionSort(s)) == multiset(s)
  {
    if |s| > 0 {
      var p := s[..|s| - 1];
      SortIsCorrect(p);
      InsertKeepsSorted(InsertionSort(p), s[|s| - 1]);
      InsertAdds(InsertionSort(p), s[|s| - 1]);
      assert s == p + [s[|s| - 1]];
    }
  }

  /** With unique ids the sorted sequence is strictly ordered, unique and has the same rules. */
  lemma SortOrders(s: seq<Rule>)
    requires UniqueIds(s)
    ensures Ordered(InsertionSort(s)) && UniqueIds(InsertionSort(s))
    ensures |InsertionSort(s)| == |s| && Elements(InsertionSort(s)) == Elements(s)
  {
    var r := InsertionSort(s);
    SortIsCorrect(s);
    SameMultiset(r, s);
    SameMultisetUnique(r, s);
  }

  ghost function Elements(s: seq<Rule>): set<Rule> { set r | r in s }

  lemma SameMultiset(r: seq<Rule>, s: seq<Rule>)
    requires multiset(r) == multiset(s)
    ensures |r| == |s| && Elements(r) == Elements(s)
  {
    assert |multiset(r)| == |r| && |multiset(s)| == |s|;
    forall x ensures x in r <==> x in s {
      assert x in r <==> x in multiset(r);
      assert x in s <==> x in multiset(s);
    }
  }

  lemma SameMultisetUnique(r: seq<Rule>, s: seq<Rule>)
    requires multiset(r) == multiset(s) && UniqueIds(s) && Sorted(r)
    ensures Ordered(r) && UniqueIds(r)
  {
    forall i, j | 0 <= i < j < |r| ensures r[i].ruleId != r[j].ruleId && Precedes(r[i], r[j]) {
      if r[i].ruleId == r[j].ruleId {
        SameMultiset(r, s);
        assert r[i] in Elements(r) && r[j] in Elements(r);
        assert r[i] == r[j];
        TwoOccurrences(r, i, j);
        OneOccurrence(s, r[i]);
      }
      PrecedesIsStrictOrder(r[i], r[j], r[j]);
    }
  }

  lemma TwoOccurrences(r: seq<Rule>, i: nat, j: nat)
    requires i < j < |r| && r[i] == r[j]
    ensures multiset(r)[r[i]] >= 2
  {
    assert r == r[..j] + r[j..];
    assert r[i] in r[..j] && r[i] == r[j..][0];
    assert multiset(r) == multiset(r[..j]) + multiset(r[j..]);
    assert multiset(r[..j])[r[i]] >= 1 && multiset(r[j..])[r[i]] >= 1;
  }

  lemma {:induction false} OneOccurrence(s: seq<Rule>, x: Rule)
    requires UniqueIds(s)
    ensures multiset(s)[x] <= 1
  {
    if |s| > 0 {
      var p := s[..|s| - 1];
      OneOccurrence(p, x);
      assert s == p + [s[|s| - 1]];
      if x == s[|s| - 1] {
        assert x !in p;
        assert multiset(p)[x] == 0;
      }
    }
  }

  /** A verdict-ordered sequence is determined by its set of rules. */
  lemma {:induction false} OrderedIsCanonical(s: seq<Rule>, t: seq<Rule>)
    requires Ordered(s) && Ordered(t) && Elements(s) == Elements(t)
    ensures s == t
  {
    assert |s| > 0 ==> s[0] in Elements(s);
    assert |t| > 0 ==> t[0] in Elements(t);
    if |s| > 0 {
      assert s[0] in Elements(t) && t[0] in Elements(s);
      assert s[0] == t[0];
      forall x ensures x in Elements(s[1..]) <==> x in Elements(t[1..]) {
        assert x in Elements(s[1..]) <==> x in Elements(s) && x != s[0];
        assert x in Elements(t[1..]) <==> x in Elements(t) && x != t[0];
      }
      OrderedIsCanonical(s[1..], t[1..]);
      assert s == [s[0]] + s[1..] && t == [t[0]] + t[1..];
    }
  }
}
