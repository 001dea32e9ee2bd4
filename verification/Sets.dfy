/** Facts about finite sets shared by the counting arguments. */
module Sets {

  /** Sets related by mutually inverse functions have the same size. */
  lemma {:induction false} BijectionSize<A, B>(a: set<A>, b: set<B>, f: A -> B, g: B -> A)
    requires forall x :: x in a ==> f(x) in b && g(f(x)) == x
    requires forall y :: y in b ==> g(y) in a && f(g(y)) == y
    ensures |a| == |b|
  {
    if a != {} {
      var x :| x in a;
      BijectionSize(a - {x}, b - {f(x)}, f, g);
    }
  }
}
