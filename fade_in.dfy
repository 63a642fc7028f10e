/**
 * Fade-in animations (site-performance.js, optimizeAnimations): every element
 * with an animation class is observed; the first time it intersects, a frame
 * is requested that sets it to full opacity and no offset, and it is
 * unobserved in the same callback, so its reveal is requested at most once.
 */
module FadeIn {
  /** The element indices 0 .. n - 1. */
  function Indices(n: nat): (r: set<nat>)
    ensures forall i: nat :: i in r <==> i < n
  {
    if n == 0 then {} else Indices(n - 1) + {n - 1}
  }

  class AnimationObserver {
    /** Whether each element has been given opacity 1 and translateY(0). */
    var revealed: seq<bool>
    var observed: set<nat>
    /** Reveal frames requested and not yet run, by element. */
    var pendingReveals: seq<nat>
    /** The elements whose reveal has been requested, ever. */
    ghost var requested: set<nat>

    /**
     * Every element is observed or has had its reveal requested, never both;
     * pending frames are for requested elements, at most one per element; a
     * revealed element was requested.
     */
    ghost predicate Valid()
      reads this
    {
      && (forall i: nat :: i < |revealed| <==> i in observed || i in requested)
      && observed !! requested
      && (forall k :: 0 <= k < |pendingReveals| ==> pendingReveals[k] in requested)
      && (forall k, l :: 0 <= k < l < |pendingReveals| ==> pendingReveals[k] != pendingReveals[l])
      && (forall i :: 0 <= i < |revealed| && revealed[i] ==> i in requested)
    }

    constructor (count: nat)
      ensures Valid() && |revealed| == count && pendingReveals == []
      ensures forall i :: 0 <= i < count ==> !revealed[i]
      ensures forall i: nat :: i in observed <==> i < count
    {
      revealed := seq(count, _ => false);
      observed := Indices(count);
      pendingReveals := [];
      requested := {};
    }

    /** An observed element intersects: its reveal frame is requested and it is unobserved. */
    method Intersects(i: nat)
      requires Valid() && i in observed
      modifies this
      ensures Valid()
      ensures i !in old(requested) && requested == old(requested) + {i}
      ensures observed == old(observed) - {i} && pendingReveals == old(pendingReveals) + [i]
      ensures revealed == old(revealed)
    {
      pendingReveals := pendingReveals + [i];
      observed := observed - {i};
      requested := requested + {i};
    }

    /** The k-th pending reveal frame runs: its element is revealed and the frame is gone. */
    method RevealFrameFires(k: nat)
      requires Valid() && k < |pendingReveals|
      modifies this
      ensures Valid()
      ensures var i := old(pendingReveals[k]);
        && i < |revealed| && revealed == old(revealed)[i := true]
        && pendingReveals == old(pendingReveals[..k] + pendingReveals[k + 1..])
        && i !in pendingReveals && i !in observed
      ensures observed == old(observed) && requested == old(requested)
    {
      var i := pendingReveals[k];
      revealed := revealed[i := true];
      pendingReveals := pendingReveals[..k] + pendingReveals[k + 1..];
    }
  }
}
