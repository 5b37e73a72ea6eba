/** Optional values and the order-preserving filter that keeps the present ones.

    The tracker builds its new track table and its returned mapping by
    deciding, entry by entry, whether an entry survives; `Somes` is that
    "keep what survived, in order" step, defined once here. */
module Options {

  datatype Option<+T> = None | Some(value: T)

  /** The values of the `Some` entries of `s`, in their original order. */
  function Somes<T>(s: seq<Option<T>>): (r: seq<T>)
    ensures |r| <= |s|
  {
    if |s| == 0 then []
    else (if s[0].Some? then [s[0].value] else []) + Somes(s[1..])
  }

  /** Membership in the filtered sequence is exactly presence as a `Some`. */
  lemma {:induction false} SomesMember<T>(s: seq<Option<T>>, x: T)
    ensures x in Somes(s) <==> Some(x) in s
  {
    if |s| > 0 {
      SomesMember(s[1..], x);
      assert s == [s[0]] + s[1..];
    }
  }

  /** Every element of the filtered sequence comes from some index of `s`. */
  lemma SomesOrigin<T>(s: seq<Option<T>>, x: T) returns (i: nat)
    requires x in Somes(s)
    ensures i < |s| && s[i] == Some(x)
  {
    SomesMember(s, x);
    i :| 0 <= i < |s| && s[i] == Some(x);
  }

  /** Two option sequences with `Some` at the same positions filter to the same length. */
  lemma {:induction false} SomesSameShape<T, U>(a: seq<Option<T>>, b: seq<Option<U>>)
    requires |a| == |b|
    requires forall i :: 0 <= i < |a| ==> (a[i].Some? <==> b[i].Some?)
    ensures |Somes(a)| == |Somes(b)|
  {
    if |a| > 0 {
      SomesSameShape(a[1..], b[1..]);
    }
  }

  /** Filtering keeps any strict order on a key that the present entries had. */
  lemma {:induction false} SomesSorted<T>(s: seq<Option<T>>, key: T -> int)
    requires forall i, j :: 0 <= i < j < |s| && s[i].Some? && s[j].Some? ==> key(s[i].value) < key(s[j].value)
    ensures forall k, l :: 0 <= k < l < |Somes(s)| ==> key(Somes(s)[k]) < key(Somes(s)[l])
  {
    if |s| > 0 {
      var tail := Somes(s[1..]);
      SomesSorted(s[1..], key);
      if s[0].Some? {
        forall l | 0 <= l < |tail|
          ensures key(s[0].value) < key(tail[l])
        {
          var i := SomesOrigin(s[1..], tail[l]);
          assert s[i + 1] == Some(tail[l]);
        }
        assert Somes(s) == [s[0].value] + tail;
      } else {
        assert Somes(s) == tail;
      }
    }
  }
}
