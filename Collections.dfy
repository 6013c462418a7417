/** The three searches and removals of Swift's standard library that the
    speaker store and the peripheral registry rely on: `first(where:)`,
    `contains(where:)` and `removeAll(where:)`, written once over a
    predicate so that both speakers and configurations use them. */
module Collections {

  datatype Option<T> = None | Some(value: T)

  /** The index of the first element satisfying `p`, as `first(where:)`
      finds it: every earlier element fails `p`. */
  function FirstIndex<T>(s: seq<T>, p: T -> bool): (r: Option<nat>)
    ensures r.Some? ==> r.value < |s| && p(s[r.value])
    ensures r.Some? ==> forall j :: 0 <= j < r.value ==> !p(s[j])
    ensures r.None? <==> forall j :: 0 <= j < |s| ==> !p(s[j])
  {
    if s == [] then None
    else if p(s[0]) then Some(0)
    else match FirstIndex(s[1..], p)
      case None => None
      case Some(i) => Some(i + 1)
  }

  /** `contains(where:)`: some element satisfies `p`. */
  function Contains<T>(s: seq<T>, p: T -> bool): (r: bool)
    ensures r <==> exists j :: 0 <= j < |s| && p(s[j])
  {
    if s == [] then false else p(s[0]) || Contains(s[1..], p)
  }

  /** `removeAll(where:)`: the elements failing `p`, in their original order. */
  function RemoveAll<T>(s: seq<T>, p: T -> bool): (r: seq<T>)
    ensures |r| <= |s|
    ensures forall j :: 0 <= j < |r| ==> r[j] in s && !p(r[j])
    ensures forall j :: 0 <= j < |s| && !p(s[j]) ==> s[j] in r
  {
    if s == [] then []
    else if p(s[0]) then RemoveAll(s[1..], p)
    else [s[0]] + RemoveAll(s[1..], p)
  }

  /** Removal works element by element: removing from a concatenation is
      the concatenation of the removals, so the survivors keep their order. */
  lemma {:induction false} RemoveAllAppend<T>(a: seq<T>, b: seq<T>, p: T -> bool)
    ensures RemoveAll(a + b, p) == RemoveAll(a, p) + RemoveAll(b, p)
  {
    if a == [] {
      assert a + b == b;
    } else {
      assert (a + b)[1..] == a[1..] + b;
      RemoveAllAppend(a[1..], b, p);
    }
  }

  /** Each element is kept exactly as often as it occurs, unless it is removed. */
  lemma {:induction false} RemoveAllCount<T>(s: seq<T>, p: T -> bool, x: T)
    ensures multiset(RemoveAll(s, p))[x] == if p(x) then 0 else multiset(s)[x]
  {
    if s != [] {
      assert s == [s[0]] + s[1..];
      RemoveAllCount(s[1..], p, x);
    }
  }

  /** When no element matches, removal is the identity. */
  lemma {:induction false} RemoveAllNoMatch<T>(s: seq<T>, p: T -> bool)
    requires forall j :: 0 <= j < |s| ==> !p(s[j])
    ensures RemoveAll(s, p) == s
  {
    if s != [] {
      RemoveAllNoMatch(s[1..], p);
    }
  }

  /** Removing twice removes nothing more. */
  lemma RemoveAllIdempotent<T>(s: seq<T>, p: T -> bool)
    ensures RemoveAll(RemoveAll(s, p), p) == RemoveAll(s, p)
  {
    var r := RemoveAll(s, p);
    RemoveAllNoMatch(r, p);
  }
}
