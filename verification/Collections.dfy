/** Small facts about finite sets and sequences that several proofs share. */
module Collections {

  function One(b: bool): nat {
    if b then 1 else 0
  }

  lemma Removed(s: set<nat>, x: nat)
    ensures |s - {x}| == |s| - One(x in s)
  {
    if x in s {
      assert s == (s - {x}) + {x};
    } else {
      assert s - {x} == s;
    }
  }

  lemma SubsetSize(a: set<nat>, b: set<nat>)
    requires a <= b
    ensures |a| <= |b|
  {
    assert b == a + (b - a);
  }

  /** Some number is above all of a finite set. */
  lemma {:induction false} Above(s: set<nat>) returns (b: nat)
    ensures forall x :: x in s ==> x < b
    decreases |s|
  {
    if s == {} {
      b := 0;
    } else {
      var y :| y in s;
      var rest := Above(s - {y});
      b := if y < rest then rest else y + 1;
      forall x | x in s ensures x < b {
        assert x == y || x in s - {y};
      }
    }
  }

  lemma Assoc<T>(a: seq<T>, b: seq<T>, c: seq<T>)
    ensures a + (b + c) == (a + b) + c
  {
  }
}
