/**
  The collaborators an animation drives: the animated object tree (a mobject)
  and the scene that holds it. Only the part of their interface the animation
  uses is modelled: the flattened family of nodes, the animating and
  updating-suspended flags, per-frame updating, copying and removal.
 */
module Mobjects {

  /** The state of one node of an object tree; a deep copy holds equal values in new objects. */
  datatype Node = Node(id: nat)

  /** A mobject: a tree root with its flattened family (itself first, then its descendants). */
  class Mobject {
    const family: seq<Node>
    var animating: bool
    var updatingSuspended: bool
    /** Time accumulated by the mobject's own updaters. */
    var clock: real

    constructor (family: seq<Node>)
      ensures this.family == family
      ensures !animating && !updatingSuspended && clock == 0.0
    {
      this.family := family;
      animating, updatingSuspended, clock := false, false, 0.0;
    }

    function GetFamily(): (r: seq<Node>)
    {
      family
    }

    method SetAnimatingStatus(isAnimating: bool)
      modifies this`animating
      ensures animating == isAnimating
    {
      animating := isAnimating;
    }

    method SuspendUpdating()
      modifies this`updatingSuspended
      ensures updatingSuspended
    {
      updatingSuspended := true;
    }

    method ResumeUpdating()
      modifies this`updatingSuspended
      ensures !updatingSuspended
    {
      updatingSuspended := false;
    }

    /** Runs the mobject's own updaters for `dt` seconds; a suspended mobject does not move. */
    method Update(dt: real)
      modifies this`clock
      ensures clock == old(clock) + (if updatingSuspended then 0.0 else dt)
    {
      if !updatingSuspended {
        clock := clock + dt;
      }
    }

    /** A deep copy: a new mobject in the same state, sharing nothing with this one. */
    method Copy() returns (c: Mobject)
      ensures fresh(c)
      ensures c.family == family
      ensures c.animating == animating && c.updatingSuspended == updatingSuspended && c.clock == clock
    {
      c := new Mobject(family);
      c.animating, c.updatingSuspended, c.clock := animating, updatingSuspended, clock;
    }
  }

  /**
    The mobjects of `s` other than `m`, in their order. The ensures give
    membership only; order and multiplicity follow from `WithoutAppend`
    and `WithoutAbsent`.
   */
  function Without(s: seq<Mobject>, m: Mobject): (r: seq<Mobject>)
    ensures forall k :: 0 <= k < |r| ==> r[k] in s && r[k] != m
    ensures forall k :: 0 <= k < |s| && s[k] != m ==> s[k] in r
    ensures |r| <= |s|
  {
    if s == [] then []
    else (if s[0] == m then [] else [s[0]]) + Without(s[1..], m)
  }

  /** Leaving out a mobject that is not there changes nothing. */
  lemma {:induction false} WithoutAbsent(s: seq<Mobject>, m: Mobject)
    requires m !in s
    ensures Without(s, m) == s
  {
    if s != [] {
      assert m !in s[1..];
      WithoutAbsent(s[1..], m);
      assert s == [s[0]] + s[1..];
    }
  }

  /** Leaving a mobject out of two lists joined is leaving it out of each. */
  lemma {:induction false} WithoutAppend(s: seq<Mobject>, t: seq<Mobject>, m: Mobject)
    ensures Without(s + t, m) == Without(s, m) + Without(t, m)
  {
    if s != [] {
      WithoutAppend(s[1..], t, m);
      assert (s + t)[1..] == s[1..] + t;
    } else {
      assert s + t == t;
    }
  }

  /** Leaving out the same mobject twice is leaving it out once. */
  lemma WithoutIdempotent(s: seq<Mobject>, m: Mobject)
    ensures Without(Without(s, m), m) == Without(s, m)
  {
    WithoutAbsent(Without(s, m), m);
  }

  /** The scene: the mobjects currently shown. */
  class Scene {
    var mobjects: seq<Mobject>

    constructor (mobjects: seq<Mobject>)
      ensures this.mobjects == mobjects
    {
      this.mobjects := mobjects;
    }

    method Remove(m: Mobject)
      modifies this
      ensures mobjects == Without(old(mobjects), m)
    {
      mobjects := Without(mobjects, m);
    }
  }
}
