/**
  An animation of one mobject: its configuration, its lifecycle
  (begin, interpolate, finish, clean up), the per-node interpolation pass
  and the normalisation of animation-like values.
 */
module Animations {
  import opened Wrappers
  import opened Timing
  import opened Mobjects

  const DefaultAnimationRunTime: real := 1.0
  const DefaultAnimationLagRatio: real := 0.0

  /** The configuration an animation is built with. */
  datatype Config = Config(
    runTime: real,
    timeSpan: Option<TimeSpan>,
    rateFunc: RateFunc,
    name: Option<string>,
    /** Whether the animation takes its mobject off the screen when done. */
    remover: bool,
    /** The progress passed to the last interpolation. */
    finalAlphaValue: real,
    /** 0: all nodes at once; 1: one after the other; between: overlapping, staggered starts. */
    lagRatio: real,
    suspendMobjectUpdating: bool)

  /** The default configuration; `smooth` is the default rate function. */
  function DefaultConfig(smooth: RateFunc): (c: Config)
    ensures c.runTime == 1.0 && c.timeSpan.None? && c.rateFunc == smooth && c.name.None?
    ensures !c.remover && c.finalAlphaValue == 1.0 && c.lagRatio == 0.0 && c.suspendMobjectUpdating
  {
    Config(DefaultAnimationRunTime, None, smooth, None, false, 1.0, DefaultAnimationLagRatio, true)
  }

  /** By default an animation lasts one second, moves every node at once and ends at progress 1. */
  lemma DefaultConfigIsSynchronous(smooth: RateFunc, alpha: real, index: nat, count: nat)
    requires 0.0 <= alpha <= 1.0
    ensures var c := DefaultConfig(smooth);
            SubAlpha(c.rateFunc, c.lagRatio, alpha, index, count) == smooth(alpha) &&
            EffectiveRunTime(c.runTime, c.timeSpan) == 1.0 &&
            SubAlpha(c.rateFunc, c.lagRatio, c.finalAlphaValue, index, count) == smooth(1.0)
  {
  }

  // ---------------------------------------------------------------------
  // Zipped families and the per-node pass

  /** A node of the live mobject with the node at the same position of the starting copy. */
  type Pair = (Node, Node)

  /** One call of the per-node interpolation hook. */
  datatype HookCall = HookCall(live: Node, starting: Node, subAlpha: real)

  /** Pairs up two families position by position, stopping at the shorter one. */
  function Zip(a: seq<Node>, b: seq<Node>): (r: seq<Pair>)
    ensures |r| == if |a| <= |b| then |a| else |b|
    ensures forall k :: 0 <= k < |r| ==> r[k] == (a[k], b[k])
  {
    if a == [] || b == [] then [] else [(a[0], b[0])] + Zip(a[1..], b[1..])
  }

  /** The hook call made for pair `k` at global progress `alpha`. */
  function CallFor(rate: RateFunc, lag: real, families: seq<Pair>, alpha: real, k: nat): (r: HookCall)
    requires k < |families|
  {
    HookCall(families[k].0, families[k].1, SubAlpha(rate, lag, alpha, k, |families|))
  }

  /** The hook calls for the first `n` pairs, in order. */
  function PassPrefix(rate: RateFunc, lag: real, families: seq<Pair>, alpha: real, n: nat): (r: seq<HookCall>)
    requires n <= |families|
    ensures |r| == n
  {
    if n == 0 then [] else PassPrefix(rate, lag, families, alpha, n - 1) + [CallFor(rate, lag, families, alpha, n - 1)]
  }

  /** The hook calls of one interpolation at global progress `alpha`. */
  function Pass(rate: RateFunc, lag: real, families: seq<Pair>, alpha: real): (r: seq<HookCall>)
    ensures |r| == |families|
  {
    PassPrefix(rate, lag, families, alpha, |families|)
  }

  lemma {:induction false} PassPrefixAt(rate: RateFunc, lag: real, families: seq<Pair>, alpha: real, n: nat, k: nat)
    requires k < n <= |families|
    ensures PassPrefix(rate, lag, families, alpha, n)[k] == CallFor(rate, lag, families, alpha, k)
  {
    if k < n - 1 {
      PassPrefixAt(rate, lag, families, alpha, n - 1, k);
    }
  }

  /** One interpolation calls the hook once per pair, in index order, with that pair's sub-alpha. */
  lemma PassVisitsPairsInOrder(rate: RateFunc, lag: real, families: seq<Pair>, alpha: real)
    ensures |Pass(rate, lag, families, alpha)| == |families|
    ensures forall k :: 0 <= k < |families| ==>
              Pass(rate, lag, families, alpha)[k] ==
              HookCall(families[k].0, families[k].1, SubAlpha(rate, lag, alpha, k, |families|))
  {
    forall k | 0 <= k < |families|
      ensures Pass(rate, lag, families, alpha)[k] == CallFor(rate, lag, families, alpha, k)
    {
      PassPrefixAt(rate, lag, families, alpha, |families|, k);
    }
  }

  /**
    With a non-negative lag, the pass at progress 0 puts every node at the
    rate function's start value and the pass at progress 1 at its end value.
   */
  lemma PassEndpoints(rate: RateFunc, lag: real, families: seq<Pair>)
    requires lag >= 0.0
    ensures forall k :: 0 <= k < |families| ==> Pass(rate, lag, families, 0.0)[k].subAlpha == rate(0.0)
    ensures forall k :: 0 <= k < |families| ==> Pass(rate, lag, families, 1.0)[k].subAlpha == rate(1.0)
  {
    PassVisitsPairsInOrder(rate, lag, families, 0.0);
    PassVisitsPairsInOrder(rate, lag, families, 1.0);
    forall k | 0 <= k < |families|
      ensures RawSubAlpha(lag, 0.0, k, |families|) == 0.0 && RawSubAlpha(lag, 1.0, k, |families|) == 1.0
    {
      SubAlphaEndpoints(lag, k, |families|);
    }
  }

  // ---------------------------------------------------------------------
  // The animation

  /** Where an animation is in its single use. */
  datatype Phase = Unstarted | Active | Finished

  class Animation {
    const mobject: Mobject
    var runTime: real
    var timeSpan: Option<TimeSpan>
    var rateFunc: RateFunc
    var name: Option<string>
    var remover: bool
    var finalAlphaValue: real
    var lagRatio: real
    var suspendMobjectUpdating: bool

    /** The copy of the mobject taken by `Begin`, holding its starting state. */
    var startingMobject: Mobject?
    /** The zipped families of the mobject and its starting copy, cached by `Begin`. */
    var families: seq<Pair>
    /** Every call made so far to the per-node interpolation hook, oldest first. */
    var hookCalls: seq<HookCall>
    ghost var phase: Phase

    ghost predicate Valid()
      reads this
    {
      phase != Unstarted ==>
        startingMobject != null && startingMobject != mobject &&
        startingMobject.family == mobject.family &&
        families == Zip(mobject.family, startingMobject.family)
    }

    function CurrentConfig(): (c: Config)
      reads this
    {
      Config(runTime, timeSpan, rateFunc, name, remover, finalAlphaValue, lagRatio, suspendMobjectUpdating)
    }

    constructor (mobject: Mobject, config: Config)
      ensures this.mobject == mobject && CurrentConfig() == config
      ensures Valid() && phase == Unstarted
      ensures startingMobject == null && families == [] && hookCalls == []
    {
      this.mobject := mobject;
      runTime, timeSpan, rateFunc, name := config.runTime, config.timeSpan, config.rateFunc, config.name;
      remover, finalAlphaValue, lagRatio := config.remover, config.finalAlphaValue, config.lagRatio;
      suspendMobjectUpdating := config.suspendMobjectUpdating;
      startingMobject, families, hookCalls := null, [], [];
      phase := Unstarted;
    }

    /**
      Starts playing: fits the run time and rate function to the time span,
      marks the mobject as animating, copies its starting state, suspends its
      own updaters if configured to, caches the zipped families and
      interpolates to progress 0.
     */
    method Begin()
      requires phase == Unstarted
      requires timeSpan.Some? ==> BegunRunTime(runTime, timeSpan) != 0.0
      modifies this`runTime, this`rateFunc, this`startingMobject, this`families, this`hookCalls, this`phase
      modifies mobject`animating, mobject`updatingSuspended
      ensures Valid() && phase == Active
      ensures runTime == BegunRunTime(old(runTime), timeSpan)
      ensures rateFunc == BegunRate(old(rateFunc), old(runTime), timeSpan)
      ensures GetRunTime() == runTime
      ensures mobject.animating
      ensures mobject.updatingSuspended == (suspendMobjectUpdating || old(mobject.updatingSuspended))
      ensures fresh(startingMobject) && startingMobject.family == mobject.family
      ensures startingMobject.animating && startingMobject.clock == mobject.clock
      ensures startingMobject.updatingSuspended == old(mobject.updatingSuspended)
      ensures families == Zip(mobject.family, startingMobject.family) && |families| == |mobject.family|
      ensures hookCalls == old(hookCalls) + Pass(rateFunc, lagRatio, families, 0.0)
    {
      if timeSpan.Some? {
        var start, end := timeSpan.value.start, timeSpan.value.end;
        runTime := Max(end, runTime);
        rateFunc := Squish(rateFunc, start / runTime, end / runTime);
      }
      mobject.SetAnimatingStatus(true);
      startingMobject := CreateStartingMobject();
      if suspendMobjectUpdating {
        mobject.SuspendUpdating();
      }
      families := GetAllFamiliesZipped();
      phase := Active;
      Interpolate(0.0);
    }

    /** Interpolates to the final progress and hands the mobject back to its own updaters. */
    method Finish()
      requires Valid() && phase != Unstarted
      modifies this`hookCalls, this`phase, mobject`animating, mobject`updatingSuspended
      ensures Valid() && phase == Finished
      ensures hookCalls == old(hookCalls) + Pass(rateFunc, lagRatio, families, finalAlphaValue)
      ensures !mobject.animating
      ensures mobject.updatingSuspended == (!suspendMobjectUpdating && old(mobject.updatingSuspended))
    {
      Interpolate(finalAlphaValue);
      mobject.SetAnimatingStatus(false);
      if suspendMobjectUpdating {
        mobject.ResumeUpdating();
      }
      phase := Finished;
    }

    /** Takes the mobject off the scene, for a remover only. */
    method CleanUpFromScene(scene: Scene)
      modifies scene
      ensures scene.mobjects == if IsRemover() then Without(old(scene.mobjects), mobject) else old(scene.mobjects)
      ensures IsRemover() ==> mobject !in scene.mobjects
    {
      if IsRemover() {
        scene.Remove(mobject);
      }
    }

    /** The starting state: a copy of the mobject. */
    method CreateStartingMobject() returns (c: Mobject)
      ensures fresh(c) && c.family == mobject.family
      ensures c.animating == mobject.animating && c.updatingSuspended == mobject.updatingSuspended
      ensures c.clock == mobject.clock
    {
      c := mobject.Copy();
    }

    /** The mobject and its starting copy, in the order the hook takes them. */
    function GetAllMobjects(): (r: seq<Mobject>)
      reads this
      requires startingMobject != null
      ensures |r| == 2 && r[0] == mobject && r[1] == startingMobject
      ensures Valid() && phase != Unstarted ==> r[0] != r[1]
    {
      [mobject, startingMobject]
    }

    /** The families of the mobject and its starting copy, paired position by position. */
    function GetAllFamiliesZipped(): (r: seq<Pair>)
      reads this
      requires startingMobject != null
      ensures |r| == if |mobject.family| <= |startingMobject.family| then |mobject.family| else |startingMobject.family|
      ensures forall k :: 0 <= k < |r| ==> r[k] == (mobject.family[k], startingMobject.family[k])
    {
      Zip(GetAllMobjects()[0].GetFamily(), GetAllMobjects()[1].GetFamily())
    }

    /** Advances the updaters of every mobject of the animation except the animated mobject itself. */
    method UpdateMobjects(dt: real)
      requires Valid() && phase != Unstarted
      modifies startingMobject`clock
      ensures Valid() && phase != Unstarted
      ensures startingMobject.clock == old(startingMobject.clock) + (if startingMobject.updatingSuspended then 0.0 else dt)
      ensures mobject.clock == old(mobject.clock)
    {
      var mobs := GetAllMobjectsToUpdate();
      var i := 0;
      while i < |mobs|
        invariant 0 <= i <= |mobs|
        invariant startingMobject.clock ==
                  old(startingMobject.clock) + (if i == 0 || startingMobject.updatingSuspended then 0.0 else dt)
      {
        mobs[i].Update(dt);
        i := i + 1;
      }
    }

    /** The mobjects to advance each frame: all of the animation's mobjects but the animated one. */
    function GetAllMobjectsToUpdate(): (r: seq<Mobject>)
      reads this
      requires startingMobject != null
      ensures mobject !in r
      ensures startingMobject != mobject ==> r == [startingMobject]
    {
      var all := GetAllMobjects();
      assert Without(all[1..], mobject) == if startingMobject == mobject then [] else [startingMobject];
      Without(all, mobject)
    }

    // Interpolation

    /** Moves the animation to global progress `alpha`. */
    method Interpolate(alpha: real)
      requires Valid() && phase != Unstarted
      modifies this`hookCalls
      ensures Valid() && phase != Unstarted
      ensures hookCalls == old(hookCalls) + Pass(rateFunc, lagRatio, families, alpha)
      ensures |hookCalls| == |old(hookCalls)| + |mobject.family|
    {
      InterpolateMobject(alpha);
    }

    /** The old name of `Interpolate`, kept for callers that still use it. */
    method Update(alpha: real)
      requires Valid() && phase != Unstarted
      modifies this`hookCalls
      ensures Valid() && phase != Unstarted
      ensures hookCalls == old(hookCalls) + Pass(rateFunc, lagRatio, families, alpha)
    {
      Interpolate(alpha);
    }

    /** Calls the hook on every zipped pair, in order, with that pair's sub-alpha. */
    method InterpolateMobject(alpha: real)
      modifies this`hookCalls
      ensures hookCalls == old(hookCalls) + Pass(rateFunc, lagRatio, families, alpha)
    {
      var i := 0;
      while i < |families|
        invariant 0 <= i <= |families|
        invariant hookCalls == old(hookCalls) + PassPrefix(rateFunc, lagRatio, families, alpha, i)
      {
        var subAlpha := GetSubAlpha(alpha, i, |families|);
        InterpolateSubmobject(families[i].0, families[i].1, subAlpha);
        i := i + 1;
      }
    }

    /** The per-node hook; concrete animations give it their effect. Here it records the call. */
    method InterpolateSubmobject(submobject: Node, startingSubmobject: Node, alpha: real)
      modifies this`hookCalls
      ensures hookCalls == old(hookCalls) + [HookCall(submobject, startingSubmobject, alpha)]
    {
      hookCalls := hookCalls + [HookCall(submobject, startingSubmobject, alpha)];
    }

    /** The eased progress of node `index` out of `numSubmobjects` at global progress `alpha`. */
    function GetSubAlpha(alpha: real, index: nat, numSubmobjects: nat): (r: real)
      reads this
      ensures r == rateFunc(RawSubAlpha(lagRatio, alpha, index, numSubmobjects))
      ensures lagRatio == 0.0 && 0.0 <= alpha <= 1.0 ==> r == rateFunc(alpha)
    {
      SubAlpha(rateFunc, lagRatio, alpha, index, numSubmobjects)
    }

    // Getters and setters

    method SetRunTime(runTime: real) returns (r: Animation)
      modifies this`runTime
      ensures r == this && this.runTime == runTime
    {
      this.runTime := runTime;
      r := this;
    }

    /** The run time to report: the configured one, widened to the end of the time span when one is set. */
    function GetRunTime(): (r: real)
      reads this
      ensures r >= runTime && (timeSpan.Some? ==> r >= timeSpan.value.end)
      ensures r == runTime || (timeSpan.Some? && r == timeSpan.value.end)
    {
      EffectiveRunTime(runTime, timeSpan)
    }

    method SetRateFunc(rateFunc: RateFunc) returns (r: Animation)
      modifies this`rateFunc
      ensures r == this && this.rateFunc == rateFunc
    {
      this.rateFunc := rateFunc;
      r := this;
    }

    function GetRateFunc(): (r: RateFunc)
      reads this
    {
      rateFunc
    }

    method SetName(name: string) returns (r: Animation)
      modifies this`name
      ensures r == this && this.name == Some(name)
    {
      this.name := Some(name);
      r := this;
    }

    function IsRemover(): (r: bool)
      reads this
    {
      remover
    }
  }

  // ---------------------------------------------------------------------
  // Driving an animation

  /**
    Plays an animation of a new mobject from begin to finish: the hook sees
    one pass at progress 0 and one at the final progress, and the mobject is
    left neither animating nor suspended.
   */
  method Play(family: seq<Node>, config: Config) returns (calls: seq<HookCall>, animating: bool, suspended: bool, runTime: real)
    requires config.timeSpan.Some? ==> BegunRunTime(config.runTime, config.timeSpan) != 0.0
    ensures !animating && !suspended
    ensures runTime == EffectiveRunTime(config.runTime, config.timeSpan)
    ensures var rate := BegunRate(config.rateFunc, config.runTime, config.timeSpan);
            var pairs := Zip(family, family);
            calls == Pass(rate, config.lagRatio, pairs, 0.0) + Pass(rate, config.lagRatio, pairs, config.finalAlphaValue)
  {
    var m := new Mobject(family);
    var anim := new Animation(m, config);
    anim.Begin();
    anim.Finish();
    EffectiveRunTimeStableAcrossBegin(config.runTime, config.timeSpan);
    calls, animating, suspended, runTime := anim.hookCalls, m.animating, m.updatingSuspended, anim.GetRunTime();
  }

  /**
    Cleans up a finished animation of a new mobject from a scene that shows it
    after `others`, twice: the mobject leaves the scene exactly for a remover,
    and the second clean-up changes nothing.
   */
  method CleanUpTwice(others: seq<Mobject>, family: seq<Node>, config: Config)
    returns (stillShown: bool, once: seq<Mobject>, twice: seq<Mobject>)
    ensures stillShown <==> !config.remover
    ensures config.remover ==> once == others
    ensures twice == once
  {
    var m := new Mobject(family);
    var anim := new Animation(m, config);
    var scene := new Scene(others + [m]);
    anim.CleanUpFromScene(scene);
    once := scene.mobjects;
    stillShown := m in once;
    anim.CleanUpFromScene(scene);
    twice := scene.mobjects;
    if config.remover {
      WithoutIdempotent(others + [m], m);
      WithoutAppend(others, [m], m);
      WithoutAbsent(others, m);
    } else {
      assert m == (others + [m])[|others|];
    }
  }

  // ---------------------------------------------------------------------
  // Normalising animation-like values

  /** A value offered as something to play. */
  datatype AnimationLike =
    | AnAnimation(anim: Animation)
    | ABuilder(build: () -> Animation)
    | NotAnAnimation(description: string)

  datatype TypeError = TypeError(message: string)

  /** Builds a deferred builder, passes an animation through and rejects anything else. */
  function PrepareAnimation(x: AnimationLike): (r: Result<Animation, TypeError>)
    ensures r.Ok? <==> !x.NotAnAnimation?
    ensures x.AnAnimation? ==> r == Ok(x.anim)
    ensures x.ABuilder? ==> r == Ok(x.build())
    ensures x.NotAnAnimation? ==> r == Err(TypeError("Object " + x.description + " cannot be converted to an animation"))
  {
    match x
    case ABuilder(build) => Ok(build())
    case AnAnimation(anim) => Ok(anim)
    case NotAnAnimation(description) => Err(TypeError("Object " + description + " cannot be converted to an animation"))
  }

  /** Normalising is done once: an already normalised value normalises to itself. */
  lemma PrepareAnimationIdempotent(x: AnimationLike)
    requires PrepareAnimation(x).Ok?
    ensures PrepareAnimation(AnAnimation(PrepareAnimation(x).value)) == PrepareAnimation(x)
  {
  }
}
