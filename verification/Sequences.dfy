/** Counting and concatenation, shared by the other modules. */
module Sequences {

  function One(b: bool): nat { if b then 1 else 0 }

  function Flatten<T>(rows: seq<seq<T>>): seq<T> {
    if |rows| == 0 then [] else rows[0] + Flatten(rows[1..])
  }

  lemma {:induction false} FlattenSnoc<T>(rows: seq<seq<T>>, last: seq<T>)
    ensures Flatten(rows + [last]) == Flatten(rows) + last
  {
    if |rows| == 0 {
      assert rows + [last] == [last] && [last][1..] == [];
      assert Flatten([last]) == last + Flatten<T>([]);
    } else {
      FlattenSnoc(rows[1..], last);
      assert (rows + [last])[1..] == rows[1..] + [last];
      assert (rows + [last])[0] == rows[0];
    }
  }

  lemma Regroup<T>(a: seq<T>, b: seq<T>, c: seq<T>)
    ensures a + b + c == a + (b + c)
  {
  }

  lemma {:induction false} FlattenAppend<T>(a: seq<seq<T>>, b: seq<seq<T>>)
    ensures Flatten(a + b) == Flatten(a) + Flatten(b)
  {
    if |a| == 0 {
      assert a + b == b;
    } else {
      FlattenAppend(a[1..], b);
      assert (a + b)[1..] == a[1..] + b && (a + b)[0] == a[0];
      Regroup(a[0], Flatten(a[1..]), Flatten(b));
    }
  }

  lemma Split<T>(a: seq<T>, b: seq<T>, c: seq<T>, d: seq<T>)
    requires |a| == |c|
    ensures a + b == c + d <==> a == c && b == d
  {
    if a + b == c + d {
      assert a == (a + b)[..|a|] && c == (c + d)[..|c|];
      assert b == (a + b)[|a|..] && d == (c + d)[|c|..];
    }
  }

  /** Rows of the same lengths are equal iff their concatenations are. */
  lemma {:induction false} FlattenInjective<T>(a: seq<seq<T>>, b: seq<seq<T>>)
    requires |a| == |b| && forall i :: 0 <= i < |a| ==> |a[i]| == |b[i]|
    ensures Flatten(a) == Flatten(b) <==> a == b
  {
    if |a| > 0 {
      FlattenInjective(a[1..], b[1..]);
      Split(a[0], Flatten(a[1..]), b[0], Flatten(b[1..]));
      assert a == [a[0]] + a[1..] && b == [b[0]] + b[1..];
    }
  }
}
