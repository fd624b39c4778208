/** The slice helpers for finalizers (pkg/utils/finalizer_utils.go). */
module Finalizers {

  /** The items other than str, in their order. */
  function Removed(slice: seq<string>, str: string): seq<string> {
    if slice == [] then []
    else if slice[|slice| - 1] == str then Removed(slice[..|slice| - 1], str)
    else Removed(slice[..|slice| - 1], str) + [slice[|slice| - 1]]
  }

  method Contains(slice: seq<string>, str: string) returns (found: bool)
    ensures found <==> str in slice
  {
    for i := 0 to |slice|
      invariant str !in slice[..i]
    {
      if slice[i] == str {
        return true;
      }
    }
    return false;
  }

  method Remove(slice: seq<string>, str: string) returns (result: seq<string>)
    ensures result == Removed(slice, str)
  {
    result := [];
    for i := 0 to |slice|
      invariant result == Removed(slice[..i], str)
    {
      assert slice[..i + 1][..i] == slice[..i];
      if slice[i] == str {
        continue;
      }
      result := result + [slice[i]];
    }
    assert slice[..|slice|] == slice;
  }

  /** Exactly the one name goes: every other keeps its multiplicity, and nothing is changed
      when the name was not there. */
  lemma {:induction false} RemovedExactly(slice: seq<string>, str: string)
    ensures multiset(Removed(slice, str)) == multiset(slice)[str := 0]
    ensures str !in slice ==> Removed(slice, str) == slice
  {
    if slice != [] {
      var n := |slice| - 1;
      RemovedExactly(slice[..n], str);
      assert slice == slice[..n] + [slice[n]];
    }
  }

  lemma {:induction false} RemovedConcat(a: seq<string>, b: seq<string>, str: string)
    ensures Removed(a + b, str) == Removed(a, str) + Removed(b, str)
    decreases |b|
  {
    if b == [] {
      assert a + b == a;
    } else {
      var n := |b| - 1;
      assert (a + b)[..|a| + n] == a + b[..n];
      RemovedConcat(a, b[..n], str);
    }
  }

  /** A name that stands once is cut out, and the rest stays in its order. */
  lemma RemovedBetween(before: seq<string>, after: seq<string>, str: string)
    requires str !in before && str !in after
    ensures Removed(before + [str] + after, str) == before + after
  {
    RemovedConcat(before + [str], after, str);
    RemovedConcat(before, [str], str);
    RemovedExactly(before, str);
    RemovedExactly(after, str);
    assert [str][..0] == [];
  }
}
