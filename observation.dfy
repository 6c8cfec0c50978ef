/**
 * What the sections receive from the browser's IntersectionObserver: a batch of
 * entries, each naming the observed element by its id and saying whether it is
 * now intersecting the viewport, and the list of elements handed to the observer.
 */
module Observation {
  import opened Wrappers

  /** One IntersectionObserverEntry, reduced to `entry.target.id` and `entry.isIntersecting`. */
  datatype Entry = Entry(targetId: string, isIntersecting: bool)

  /** `refs.filter(el => el !== null)`, with a missing ref written `None`. */
  function NonNull<T>(refs: seq<Option<T>>): seq<T> {
    if |refs| == 0 then []
    else
      var n := |refs| - 1;
      NonNull(refs[..n]) + (if refs[n].Some? then [refs[n].value] else [])
  }

  /** Filtering distributes over concatenation, so the present refs keep their order. */
  lemma {:induction false} NonNullAppend<T>(a: seq<Option<T>>, b: seq<Option<T>>)
    ensures NonNull(a + b) == NonNull(a) + NonNull(b)
    decreases |b|
  {
    if |b| > 0 {
      var n := |b| - 1;
      assert (a + b)[..|a| + n] == a + b[..n];
      NonNullAppend(a, b[..n]);
    } else {
      assert a + b == a;
    }
  }

  /** An element is handed to the observer exactly when its ref is present, and none is added. */
  lemma {:induction false} NonNullExact<T>(refs: seq<Option<T>>)
    ensures forall x :: x in NonNull(refs) <==> Some(x) in refs
    ensures |NonNull(refs)| <= |refs|
  {
    if |refs| > 0 {
      var n := |refs| - 1;
      NonNullExact(refs[..n]);
      assert refs == refs[..n] + [refs[n]];
    }
  }

  /** When every ref is present, the filter hands over all of them in order. */
  lemma {:induction false} NonNullAllPresent<T>(refs: seq<Option<T>>)
    requires forall k :: 0 <= k < |refs| ==> refs[k].Some?
    ensures |NonNull(refs)| == |refs|
    ensures forall k :: 0 <= k < |refs| ==> NonNull(refs)[k] == refs[k].value
  {
    if |refs| > 0 {
      var n := |refs| - 1;
      NonNullAllPresent(refs[..n]);
    }
  }
}
