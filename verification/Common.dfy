/** Stock result types and the few facts about sequences that several modules share. */
module Common {

  datatype Option<+T> = None | Some(value: T)

  datatype Result<+T> = Ok(value: T) | Err(error: string)

  function Last<T>(s: seq<T>): T
    requires s != []
  {
    s[|s| - 1]
  }

  function Front<T>(s: seq<T>): seq<T>
    requires s != []
  {
    s[..|s| - 1]
  }

  /** True if no value occurs twice. */
  ghost predicate NoDup<T(!new)>(s: seq<T>) {
    forall i, j :: 0 <= i < j < |s| ==> s[i] != s[j]
  }

  /** Without repetitions, two sequences with the same members are permutations of each other. */
  lemma {:induction false} SameMembersPermute<T(!new)>(a: seq<T>, b: seq<T>)
    requires NoDup(a) && NoDup(b)
    requires forall x :: x in a <==> x in b
    ensures multiset(a) == multiset(b)
  {
    forall x
      ensures multiset(a)[x] == multiset(b)[x]
    {
      NoDupCount(a, x);
      NoDupCount(b, x);
    }
  }

  lemma {:induction false} NoDupCount<T(!new)>(s: seq<T>, x: T)
    requires NoDup(s)
    ensures multiset(s)[x] == if x in s then 1 else 0
  {
    if s != [] {
      var n := |s| - 1;
      NoDupCount(s[..n], x);
      assert s == s[..n] + [s[n]];
    }
  }

  /** Permutations have the same members. */
  lemma PermutationMembers<T(!new)>(a: seq<T>, b: seq<T>)
    requires multiset(a) == multiset(b)
    ensures forall x :: x in a <==> x in b
    ensures NoDup(a) ==> NoDup(b)
  {
    forall x
      ensures x in a <==> x in b
    {
      assert x in multiset(a) <==> x in a;
      assert x in multiset(b) <==> x in b;
    }
    if NoDup(a) {
      forall i, j | 0 <= i < j < |b|
        ensures b[i] != b[j]
      {
        NoDupCount(a, b[j]);
        assert b == b[..j] + [b[j]] + b[j + 1..];
        assert multiset(b)[b[j]] >= multiset(b[..j])[b[j]] + 1;
        assert b[j] !in multiset(b[..j]);
        assert b[i] in b[..j];
      }
    }
  }

  /** Every finite set can be listed. */
  lemma {:induction false} Enumerate<T(!new)>(s: set<T>) returns (r: seq<T>)
    ensures NoDup(r) && forall x :: x in r <==> x in s
    decreases |s|
  {
    if s == {} {
      r := [];
    } else {
      var x :| x in s;
      var rest := Enumerate(s - {x});
      r := [x] + rest;
    }
  }

  lemma SomeList<T(!new)>(s: set<T>)
    ensures exists r: seq<T> :: NoDup(r) && forall x :: x in r <==> x in s
  {
    var r := Enumerate(s);
  }
}
