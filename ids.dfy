/** The supply of identifiers that `UUID.randomUUID().toString()` stands for:
    every draw is a string that no earlier draw produced. */
module Ids {

  /** Some natural number is longer than every string of a finite set. */
  lemma {:induction false} LengthBound(s: set<string>) returns (n: nat)
    ensures forall x :: x in s ==> |x| < n
    decreases |s|
  {
    if s == {} {
      n := 0;
    } else {
      var y :| y in s;
      var m := LengthBound(s - {y});
      n := if |y| + 1 > m then |y| + 1 else m;
    }
  }

  /** A finite set of strings never exhausts the strings. */
  lemma FreshStringExists(s: set<string>)
    ensures exists x: string :: x !in s
  {
    var n := LengthBound(s);
    var w := seq(n, _ => 'u');
    assert w !in s;
  }

  class IdSupply {
    /** Every identifier handed out so far. */
    var issued: set<string>

    constructor ()
      ensures issued == {}
    {
      issued := {};
    }

    /** Draws a fresh identifier: which one is left open, only that it is new. */
    method Mint() returns (id: string)
      modifies this
      ensures id !in old(issued)
      ensures issued == old(issued) + {id}
    {
      FreshStringExists(issued);
      id :| id !in issued;
      issued := issued + {id};
    }
  }
}
