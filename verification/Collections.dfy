// Sizes of images, unions and enumerations.
module Collections {

  /** 1 for true. */
  function Bit(b: bool): nat {
    if b then 1 else 0
  }

  function Image<A, B>(s: set<A>, f: A -> B): (image: set<B>)
    ensures |image| <= |s|
  {
    ImageSize(s, f);
    set x | x in s :: f(x)
  }

  lemma {:induction false} ImageSize<A, B>(s: set<A>, f: A -> B)
    ensures |set x | x in s :: f(x)| <= |s|
  {
    if s == {} {
      assert (set x | x in s :: f(x)) == {};
    } else {
      var a :| a in s;
      ImageSize(s - {a}, f);
      assert (set x | x in s :: f(x)) == (set x | x in s - {a} :: f(x)) + {f(a)};
    }
  }

  predicate NoDuplicates<A(==)>(xs: seq<A>) {
    forall i, j :: 0 <= i < j < |xs| ==> xs[i] != xs[j]
  }

  /** `xs` lists every member of `s` once. */
  ghost predicate Enumerates<A(!new)>(xs: seq<A>, s: set<A>) {
    NoDuplicates(xs) && forall a :: a in xs <==> a in s
  }

  lemma {:induction false} EnumerationSize<A(!new)>(xs: seq<A>, s: set<A>)
    requires Enumerates(xs, s)
    ensures |xs| == |s|
  {
    if xs == [] {
      assert s == {};
    } else {
      var n := |xs| - 1;
      assert xs[n] in s;
      forall a ensures a in xs[..n] <==> a in s - {xs[n]} {
        if a in xs[..n] { assert a in xs; }
        if a in s - {xs[n]} { assert a in xs; }
      }
      EnumerationSize(xs[..n], s - {xs[n]});
    }
  }

  lemma {:induction false} SubsetSize<A>(s: set<A>, u: set<A>)
    requires s <= u
    ensures |s| <= |u|
  {
    assert u == s + (u - s);
  }

  /** List a set in some order. */
  method Listing<A(==, !new)>(s: set<A>) returns (xs: seq<A>)
    ensures Enumerates(xs, s)
  {
    xs := [];
    var todo := s;
    while todo != {}
      invariant NoDuplicates(xs) && todo <= s
      invariant forall a :: a in xs <==> a in s && a !in todo
    {
      var a :| a in todo;
      xs, todo := xs + [a], todo - {a};
    }
  }

  lemma {:induction false} MembersSize<A>(xs: seq<A>)
    ensures |set x | x in xs| <= |xs|
  {
    if xs == [] {
      assert (set x | x in xs) == {};
    } else {
      var n := |xs| - 1;
      MembersSize(xs[..n]);
      assert xs == xs[..n] + [xs[n]];
      assert (set x | x in xs) == (set x | x in xs[..n]) + {xs[n]};
    }
  }

  lemma AppendNew<A>(xs: seq<A>, a: A)
    requires NoDuplicates(xs) && a !in xs
    ensures NoDuplicates(xs + [a])
  {
  }
}
