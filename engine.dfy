/**
 * The simulation bookkeeping of src/lib.rs: instances that own a rigid body
 * and mirror its transform, the registry that groups instances by model name,
 * the window of recent frame times, and the per-frame loop. GPU buffers, the
 * camera and the GUI are not part of this model.
 */
module Engine {
  import opened Wrappers
  import opened Linear
  import opened Physics

  /** How many frame times the window keeps. */
  const MaxFrameTimes: nat := 10

  // ---------------------------------------------------------------------------
  // Frame times

  /**
   * The frame-time window after one frame lasting `delta` milliseconds: the
   * delta is appended and, once there are more than ten, the oldest is dropped.
   */
  function SlidingWindow(times: seq<nat>, delta: nat): (r: seq<nat>)
    ensures |r| == if |times| + 1 > MaxFrameTimes then |times| else |times| + 1
    ensures |times| <= MaxFrameTimes ==> |r| <= MaxFrameTimes
    ensures r[|r| - 1] == delta
    ensures r[..|r| - 1] == times[|times| + 1 - |r|..]
  {
    var pushed := times + [delta];
    if |pushed| > MaxFrameTimes then pushed[1..] else pushed
  }

  /** The window after a whole history of frames, starting from no frames. */
  function Replay(history: seq<nat>): seq<nat>
    decreases |history|
  {
    if history == [] then [] else SlidingWindow(Replay(history[..|history| - 1]), history[|history| - 1])
  }

  /** The last (at most ten) entries of a history. */
  function Latest(history: seq<nat>): seq<nat> {
    var keep := if |history| < MaxFrameTimes then |history| else MaxFrameTimes;
    history[|history| - keep..]
  }

  /** Sliding the latest entries of a history by one frame gives the latest entries of the longer history. */
  lemma SlideLatest(history: seq<nat>, delta: nat)
    ensures SlidingWindow(Latest(history), delta) == Latest(history + [delta])
  {
    var n := |history|;
    var h := history + [delta];
    if n >= MaxFrameTimes {
      assert Latest(history) + [delta] == h[n - MaxFrameTimes..];
      assert (Latest(history) + [delta])[1..] == h[n + 1 - MaxFrameTimes..];
    } else {
      assert Latest(history) == history;
    }
  }

  /** From an empty start, the window always holds exactly the last (at most ten) frame times, oldest first. */
  lemma {:induction false} ReplayKeepsLatest(history: seq<nat>)
    ensures Replay(history) == Latest(history)
    decreases |history|
  {
    if history != [] {
      var front := history[..|history| - 1];
      var last := history[|history| - 1];
      assert Replay(front) == Latest(front) by {
        ReplayKeepsLatest(front);
      }
      assert SlidingWindow(Latest(front), last) == Latest(history) by {
        SlideLatest(front, last);
        assert front + [last] == history;
      }
      assert Replay(history) == SlidingWindow(Replay(front), last);
    }
  }

  function Sum(times: seq<nat>): nat
    decreases |times|
  {
    if times == [] then 0 else Sum(times[..|times| - 1]) + times[|times| - 1]
  }

  function Max(times: seq<nat>): nat
    decreases |times|
  {
    if times == [] then 0
    else
      var m := Max(times[..|times| - 1]);
      if times[|times| - 1] > m then times[|times| - 1] else m
  }

  /**
   * The frame time the GUI shows: the sum of the window divided, in integer
   * division, by one more than its length. The divisor is never zero.
   */
  function AverageFrameTime(times: seq<nat>): (avg: nat)
    ensures avg * (|times| + 1) <= Sum(times) < (avg + 1) * (|times| + 1)
  {
    Sum(times) / (|times| + 1)
  }

  lemma {:induction false} SumAtMostMaxTimesLength(times: seq<nat>)
    ensures Sum(times) <= |times| * Max(times)
    decreases |times|
  {
    if times != [] {
      var front := times[..|times| - 1];
      SumAtMostMaxTimesLength(front);
      assert Max(front) <= Max(times);
      assert |front| * Max(front) <= |front| * Max(times);
    }
  }

  /**
   * Because the divisor is one more than the number of frames, the average
   * shown never exceeds the longest frame in the window, and is strictly less
   * than it whenever any frame took time.
   */
  lemma AverageBelowLongest(times: seq<nat>)
    ensures AverageFrameTime(times) <= Max(times)
    ensures Max(times) > 0 ==> AverageFrameTime(times) < Max(times)
  {
    SumAtMostMaxTimesLength(times);
    var avg := AverageFrameTime(times);
    var n := |times|;
    var m := Max(times);
    if m > 0 && avg >= m {
      MulMonotonic(avg, m, n + 1);
      Distribute(m, n);
      assert false;
    }
  }

  lemma Distribute(m: nat, n: nat)
    ensures m * (n + 1) == n * m + m
  {
  }

  lemma MulMonotonic(a: nat, b: nat, c: nat)
    requires a >= b
    ensures a * c >= b * c
  {
  }

  /** A frame time in milliseconds as the step length in seconds. */
  function MillisToSeconds(ms: nat): (s: real)
    ensures s >= 0.0 && s * 1000.0 == ms as real
  {
    ms as real / 1000.0
  }

  // ---------------------------------------------------------------------------
  // Instances and their registry

  /** The position every instance is spawned at. */
  const SpawnPosition: Vec3 := Zero

  /** The rotation every instance is spawned with: the all-zero quaternion. */
  const SpawnRotation: Quat := Quat(0.0, 0.0, 0.0, 0.0)

  /** The rigid body every instance is spawned with: at rest, pulled down, unit mass. */
  const SpawnBody: RigidBody := RigidBody(SpawnPosition, SpawnRotation, Zero, Vec3(0.0, -9.81, 0.0), 1.0)

  /** A rendered entity: a cached transform and the rigid body it owns. */
  class Instance {
    var position: Vec3
    var rotation: Quat
    var rigidBody: RigidBody

    constructor (position: Vec3, rotation: Quat, rigidBody: RigidBody)
      ensures this.position == position && this.rotation == rotation && this.rigidBody == rigidBody
    {
      this.position := position;
      this.rotation := rotation;
      this.rigidBody := rigidBody;
    }

    /** Instance::update: one physics step, then the transform mirrors the body. */
    method Update(deltaTime: real)
      requires rigidBody.mass != 0.0
      modifies this
      ensures rigidBody == Stepped(old(rigidBody), deltaTime)
      ensures position == rigidBody.position && rotation == rigidBody.rotation
    {
      rigidBody := Physics.Update(rigidBody, deltaTime);
      position := rigidBody.position;
      rotation := rigidBody.rotation;
    }
  }

  /** The instances of one model; the model is known here only by its name. */
  datatype ModelInstances = ModelInstances(name: string, instances: seq<Instance>)

  /** The first group whose model has the given name, if any. */
  function FindGroup(groups: seq<ModelInstances>, name: string): (r: Option<nat>)
    ensures r.Some? ==> (r.value < |groups| && groups[r.value].name == name
                         && forall g :: 0 <= g < r.value ==> groups[g].name != name)
    ensures r.None? <==> forall g :: 0 <= g < |groups| ==> groups[g].name != name
    decreases |groups|
  {
    if groups == [] then None
    else if groups[0].name == name then Some(0)
    else match FindGroup(groups[1..], name)
      case None => None
      case Some(g) => Some(g + 1)
  }

  /** The groups after a new instance of the named model is registered. */
  function Register(groups: seq<ModelInstances>, name: string, inst: Instance): seq<ModelInstances> {
    match FindGroup(groups, name)
    case Some(g) => groups[g := groups[g].(instances := groups[g].instances + [inst])]
    case None => groups + [ModelInstances(name, [inst])]
  }

  /** Total number of instances over all groups. */
  function TotalInstances(groups: seq<ModelInstances>): nat
    decreases |groups|
  {
    if groups == [] then 0 else TotalInstances(groups[..|groups| - 1]) + |groups[|groups| - 1].instances|
  }

  /** No two groups share a model name. */
  ghost predicate DistinctNames(groups: seq<ModelInstances>) {
    forall g, h :: 0 <= g < h < |groups| ==> groups[g].name != groups[h].name
  }

  /** No instance object appears twice, in one group or across groups. */
  ghost predicate DistinctInstances(groups: seq<ModelInstances>) {
    forall g, k, h, l ::
      0 <= g < |groups| && 0 <= k < |groups[g].instances| &&
      0 <= h < |groups| && 0 <= l < |groups[h].instances| &&
      (g != h || k != l)
      ==> groups[g].instances[k] != groups[h].instances[l]
  }

  /** An instance of a model that already has a group joins the end of the first such group; nothing else changes. */
  lemma RegisterIntoExisting(groups: seq<ModelInstances>, name: string, inst: Instance, g: nat)
    requires g < |groups| && groups[g].name == name
    requires forall h :: 0 <= h < g ==> groups[h].name != name
    ensures var r := Register(groups, name, inst);
            && |r| == |groups|
            && r[g] == ModelInstances(name, groups[g].instances + [inst])
            && forall h :: 0 <= h < |groups| && h != g ==> r[h] == groups[h]
  {
    assert FindGroup(groups, name) == Some(g);
  }

  /** An instance of a model with no group yet opens one new group, holding just it, at the end. */
  lemma RegisterNewGroup(groups: seq<ModelInstances>, name: string, inst: Instance)
    requires forall h :: 0 <= h < |groups| ==> groups[h].name != name
    ensures var r := Register(groups, name, inst);
            && |r| == |groups| + 1
            && r[..|groups|] == groups
            && r[|groups|] == ModelInstances(name, [inst])
  {
  }

  lemma {:induction false} TotalAfterAppendGroup(groups: seq<ModelInstances>, group: ModelInstances)
    ensures TotalInstances(groups + [group]) == TotalInstances(groups) + |group.instances|
  {
    assert (groups + [group])[..|groups|] == groups;
  }

  lemma {:induction false} TotalAfterGrowingGroup(groups: seq<ModelInstances>, g: nat, inst: Instance)
    requires g < |groups|
    ensures TotalInstances(groups[g := groups[g].(instances := groups[g].instances + [inst])]) == TotalInstances(groups) + 1
    decreases |groups|
  {
    var grown := groups[g := groups[g].(instances := groups[g].instances + [inst])];
    var last := |groups| - 1;
    if g == last {
      assert grown[..last] == groups[..last];
    } else {
      TotalAfterGrowingGroup(groups[..last], g, inst);
      assert grown[..last] == groups[..last][g := groups[g].(instances := groups[g].instances + [inst])];
    }
  }

  /** Registering raises the total number of instances by exactly one. */
  lemma RegisterAddsOne(groups: seq<ModelInstances>, name: string, inst: Instance)
    ensures TotalInstances(Register(groups, name, inst)) == TotalInstances(groups) + 1
  {
    match FindGroup(groups, name)
    case Some(g) => TotalAfterGrowingGroup(groups, g, inst);
    case None => TotalAfterAppendGroup(groups, ModelInstances(name, [inst]));
  }

  /** Find-or-create never produces two groups for one model name. */
  lemma RegisterKeepsNamesDistinct(groups: seq<ModelInstances>, name: string, inst: Instance)
    requires DistinctNames(groups)
    ensures DistinctNames(Register(groups, name, inst))
  {
  }

  /** A fresh instance registered into groups without repeats leaves no repeats. */
  lemma RegisterKeepsInstancesDistinct(groups: seq<ModelInstances>, name: string, inst: Instance)
    requires DistinctInstances(groups)
    requires forall g, k :: 0 <= g < |groups| && 0 <= k < |groups[g].instances| ==> groups[g].instances[k] != inst
    ensures DistinctInstances(Register(groups, name, inst))
  {
    var r := Register(groups, name, inst);
    match FindGroup(groups, name)
    case Some(g) =>
      forall a, k, b, l |
        0 <= a < |r| && 0 <= k < |r[a].instances| &&
        0 <= b < |r| && 0 <= l < |r[b].instances| && (a != b || k != l)
        ensures r[a].instances[k] != r[b].instances[l]
      {
        assert forall c, m :: 0 <= c < |r| && 0 <= m < |r[c].instances| ==>
          (c == g && m == |groups[g].instances| && r[c].instances[m] == inst) ||
          (m < |groups[c].instances| && r[c].instances[m] == groups[c].instances[m]);
      }
    case None =>
  }

  /** Registering an instance whose body has a usable mass keeps every body's mass usable. */
  lemma RegisterKeepsMassesNonzero(groups: seq<ModelInstances>, name: string, inst: Instance)
    requires inst.rigidBody.mass != 0.0
    requires forall g, k :: 0 <= g < |groups| && 0 <= k < |groups[g].instances| ==> groups[g].instances[k].rigidBody.mass != 0.0
    ensures var r := Register(groups, name, inst);
            forall g, k :: 0 <= g < |r| && 0 <= k < |r[g].instances| ==> r[g].instances[k].rigidBody.mass != 0.0
  {
    var r := Register(groups, name, inst);
    forall g, k | 0 <= g < |r| && 0 <= k < |r[g].instances|
      ensures r[g].instances[k].rigidBody.mass != 0.0
    {
      if g < |groups| && k < |groups[g].instances| {
        assert r[g].instances[k] == groups[g].instances[k];
      } else {
        assert r[g].instances[k] == inst;
      }
    }
  }

  // ---------------------------------------------------------------------------
  // The host state

  class State {
    /** Recent frame times in milliseconds, oldest first. */
    var frameTimes: seq<nat>
    var modelInstances: seq<ModelInstances>

    ghost function Instances(): set<Instance>
      reads this
    {
      set g, k | 0 <= g < |modelInstances| && 0 <= k < |modelInstances[g].instances| :: modelInstances[g].instances[k]
    }

    /**
     * The window holds at most ten times; each model name has one group; no
     * instance is held twice; every body has a mass it can be divided by.
     */
    ghost predicate Valid()
      reads this, Instances()
    {
      && |frameTimes| <= MaxFrameTimes
      && DistinctNames(modelInstances)
      && DistinctInstances(modelInstances)
      && forall g, k :: 0 <= g < |modelInstances| && 0 <= k < |modelInstances[g].instances|
           ==> modelInstances[g].instances[k].rigidBody.mass != 0.0
    }

    /** The state starts with no frame times and no instances. */
    constructor ()
      ensures Valid()
      ensures frameTimes == [] && modelInstances == []
    {
      frameTimes := [];
      modelInstances := [];
    }

    /** The frame-time part of State::update. */
    method RecordFrameTime(delta: nat)
      requires Valid()
      modifies this`frameTimes
      ensures Valid()
      ensures frameTimes == SlidingWindow(old(frameTimes), delta)
    {
      frameTimes := frameTimes + [delta];
      if |frameTimes| > MaxFrameTimes {
        frameTimes := frameTimes[1..];
      }
    }

    /** get_last_delta: the newest frame time. */
    method GetLastDelta() returns (d: nat)
      requires |frameTimes| > 0
      ensures d == frameTimes[|frameTimes| - 1]
      ensures d in frameTimes
    {
      d := frameTimes[|frameTimes| - 1];
    }

    /** The per-frame loop: every instance of every group is updated exactly once. */
    method StepInstances(dt: real)
      requires Valid()
      modifies Instances()
      ensures Valid()
      ensures forall g, k :: 0 <= g < |modelInstances| && 0 <= k < |modelInstances[g].instances| ==>
        && modelInstances[g].instances[k].rigidBody == Stepped(old(modelInstances[g].instances[k].rigidBody), dt)
        && modelInstances[g].instances[k].position == modelInstances[g].instances[k].rigidBody.position
        && modelInstances[g].instances[k].rotation == modelInstances[g].instances[k].rigidBody.rotation
    {
      var i := 0;
      while i < |modelInstances|
        invariant 0 <= i <= |modelInstances|
        invariant forall g, k :: 0 <= g < i && 0 <= k < |modelInstances[g].instances| ==>
          && modelInstances[g].instances[k].rigidBody == Stepped(old(modelInstances[g].instances[k].rigidBody), dt)
          && modelInstances[g].instances[k].position == modelInstances[g].instances[k].rigidBody.position
          && modelInstances[g].instances[k].rotation == modelInstances[g].instances[k].rigidBody.rotation
        invariant forall g, k :: i <= g < |modelInstances| && 0 <= k < |modelInstances[g].instances| ==>
          modelInstances[g].instances[k].rigidBody == old(modelInstances[g].instances[k].rigidBody)
      {
        var instances := modelInstances[i].instances;
        var k := 0;
        while k < |instances|
          invariant 0 <= k <= |instances|
          invariant forall g, l :: 0 <= g < i && 0 <= l < |modelInstances[g].instances| ==>
            && modelInstances[g].instances[l].rigidBody == Stepped(old(modelInstances[g].instances[l].rigidBody), dt)
            && modelInstances[g].instances[l].position == modelInstances[g].instances[l].rigidBody.position
            && modelInstances[g].instances[l].rotation == modelInstances[g].instances[l].rigidBody.rotation
          invariant forall l :: 0 <= l < k ==>
            && instances[l].rigidBody == Stepped(old(instances[l].rigidBody), dt)
            && instances[l].position == instances[l].rigidBody.position
            && instances[l].rotation == instances[l].rigidBody.rotation
          invariant forall l :: k <= l < |instances| ==> instances[l].rigidBody == old(instances[l].rigidBody)
          invariant forall g, l :: i < g < |modelInstances| && 0 <= l < |modelInstances[g].instances| ==>
            modelInstances[g].instances[l].rigidBody == old(modelInstances[g].instances[l].rigidBody)
        {
          instances[k].Update(dt);
          k := k + 1;
        }
        i := i + 1;
      }
    }

    /**
     * State::update without the camera and the GPU writes: record the frame's
     * duration, then step every instance by the newest frame time in seconds.
     */
    method Update(deltaMillis: nat)
      requires Valid()
      modifies this, Instances()
      ensures Valid()
      ensures frameTimes == SlidingWindow(old(frameTimes), deltaMillis)
      ensures modelInstances == old(modelInstances)
      ensures forall g, k :: 0 <= g < |modelInstances| && 0 <= k < |modelInstances[g].instances| ==>
        && modelInstances[g].instances[k].rigidBody == Stepped(old(modelInstances[g].instances[k].rigidBody), MillisToSeconds(deltaMillis))
        && modelInstances[g].instances[k].position == modelInstances[g].instances[k].rigidBody.position
        && modelInstances[g].instances[k].rotation == modelInstances[g].instances[k].rigidBody.rotation
    {
      RecordFrameTime(deltaMillis);
      var lastDelta := GetLastDelta();
      StepInstances(lastDelta as real / 1000.0);
    }

    /**
     * instance_from_model: spawns an instance at rest at the origin with the
     * all-zero rotation and the default body, and files it under its model's
     * name.
     */
    method InstanceFromModel(modelName: string) returns (ghost spawned: Instance)
      requires Valid()
      modifies this
      ensures Valid()
      ensures fresh(spawned)
      ensures spawned.position == SpawnPosition && spawned.rotation == SpawnRotation && spawned.rigidBody == SpawnBody
      ensures frameTimes == old(frameTimes)
      ensures modelInstances == Register(old(modelInstances), modelName, spawned)
      ensures TotalInstances(modelInstances) == TotalInstances(old(modelInstances)) + 1
    {
      var newInstance := new Instance(SpawnPosition, SpawnRotation, SpawnBody);
      ghost var before := modelInstances;
      assert forall g, k :: 0 <= g < |before| && 0 <= k < |before[g].instances| ==> before[g].instances[k] != newInstance;
      var found := FindGroup(modelInstances, modelName);
      match found {
        case Some(g) =>
          modelInstances := modelInstances[g := modelInstances[g].(instances := modelInstances[g].instances + [newInstance])];
        case None =>
          modelInstances := modelInstances + [ModelInstances(modelName, [newInstance])];
      }
      assert modelInstances == Register(before, modelName, newInstance);
      RegisterAddsOne(before, modelName, newInstance);
      RegisterKeepsNamesDistinct(before, modelName, newInstance);
      RegisterKeepsInstancesDistinct(before, modelName, newInstance);
      RegisterKeepsMassesNonzero(before, modelName, newInstance);
      spawned := newInstance;
    }
  }

  /** The spawn rotation is not a unit quaternion. */
  lemma SpawnRotationNotUnit()
    ensures NormSquared(SpawnRotation) == 0.0
  {
  }
}
