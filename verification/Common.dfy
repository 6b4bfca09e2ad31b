/** Small types and list facts shared by every module. */
module Common {

  datatype Option<+T> = None | Some(value: T) {
    /** The Go idiom ptr.Deref(p, fallback). */
    function GetOr(fallback: T): T {
      if None? then fallback else value
    }
  }

  /** The result of a call that may fail. */
  datatype Result<+T> = Ok(value: T) | Err

  predicate NoDup<T(==)>(s: seq<T>) {
    forall i, j :: 0 <= i < j < |s| ==> s[i] != s[j]
  }

  ghost function Elems<T>(s: seq<T>): set<T> {
    set x | x in s
  }

  lemma {:induction false} ElemsBound<T>(s: seq<T>)
    ensures |Elems(s)| <= |s|
  {
    if s == [] {
      assert Elems(s) == {};
    } else {
      ElemsBound(s[1..]);
      assert Elems(s) == Elems(s[1..]) + {s[0]};
    }
  }

  /** A set all of whose members occur in a list is no larger than the list is long. */
  lemma SubsetBound<T>(a: set<T>, s: seq<T>)
    requires a <= Elems(s)
    ensures |a| <= |s|
  {
    ElemsBound(s);
    SubsetCardinality(a, Elems(s));
  }

  lemma {:induction false} SubsetCardinality<T>(a: set<T>, b: set<T>)
    requires a <= b
    ensures |a| <= |b|
    decreases a
  {
    if a != {} {
      var x :| x in a;
      SubsetCardinality(a - {x}, b - {x});
    }
  }

  /** A text that is longer than all of a set. */
  method FreshText(avoid: set<string>) returns (text: string)
    ensures text !in avoid && text != ""
  {
    text := "0";
    var rest := avoid;
    while rest != {}
      invariant rest <= avoid && text != ""
      invariant forall x :: x in avoid - rest ==> |x| < |text|
      decreases rest
    {
      var x :| x in rest;
      text := text + x;
      rest := rest - {x};
    }
  }
}
