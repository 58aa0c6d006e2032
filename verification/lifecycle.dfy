/** The child entities a composite behaviour drives, seen only through the
    part of their lifecycle the composite uses: the current stage, the
    fast-forward flag, and the two calls `Activate` and `MarkToFastForward`.
    The lifecycle controller itself is not part of this model; the two calls
    are given the smallest effect the composites rely on. */
module Lifecycle {

  datatype Option<+T> = None | Some(value: T)

  datatype Result<+T> = Ok(value: T) | Err(error: Error)

  /** The failures a composite can run into while driving its children. */
  datatype Error =
    | InvalidTransition(child: ChildId, from: Stage)  // Activate() outside Inactive
    | NullReference                                    // a null child slot was dereferenced

  /** Object identity of a child behaviour. */
  type ChildId = nat

  /** The runtime type of a child, the key `Mode.CheckIfSkipped` is asked about. */
  type Kind = string

  datatype Stage = Inactive | Activating | Active | Deactivating

  /** A child behaviour: its identity, its runtime type, and whether it
      implements the optional marker. */
  datatype Child = Child(id: ChildId, kind: Kind, optional: bool)

  /** An entry of a child list, which may be null. */
  type Slot = Option<Child>

  datatype Life = Life(stage: Stage, fastForwarded: bool)

  /** The lifecycle state of every child; an absent identity is a child that
      has never been touched. */
  type World = map<ChildId, Life>

  const Untouched := Life(Inactive, false)

  function LifeOf(w: World, id: ChildId): Life
  {
    if id in w then w[id] else Untouched
  }

  /** `IMode.CheckIfSkipped`: an external policy, left uninterpreted. */
  type Mode = Kind -> bool

  /** A child is skipped when it is optional and the mode skips its kind. */
  predicate IsSkipped(mode: Mode, c: Child)
  {
    c.optional && mode(c.kind)
  }

  /** `LifeCycle.Activate`: legal only from Inactive, enters Activating. */
  function Activate(w: World, c: Child): (r: Result<World>)
    ensures r.Ok? <==> LifeOf(w, c.id).stage == Inactive
    ensures r.Err? ==> r.error == InvalidTransition(c.id, LifeOf(w, c.id).stage)
    ensures r.Ok? ==> LifeOf(r.value, c.id) == Life(Activating, LifeOf(w, c.id).fastForwarded)
    ensures r.Ok? ==> forall id :: id != c.id ==> LifeOf(r.value, id) == LifeOf(w, id)
  {
    var l := LifeOf(w, c.id);
    if l.stage == Inactive then Ok(w[c.id := l.(stage := Activating)])
    else Err(InvalidTransition(c.id, l.stage))
  }

  /** The stage a child is in once the work of its current stage is done. */
  function Completed(s: Stage): Stage
  {
    match s
    case Activating => Active
    case Deactivating => Inactive
    case _ => s
  }

  /** A child whose fast-forward flag is set and that is not in the middle
      of a transition. */
  predicate Settled(l: Life)
  {
    l.fastForwarded && (l.stage == Inactive || l.stage == Active)
  }

  /** `LifeCycle.MarkToFastForward`: sets the flag and finishes the stage in
      progress at once, so a child marked while Activating is Active. */
  function MarkToFastForward(w: World, c: Child): (r: World)
    ensures Settled(LifeOf(r, c.id))
    ensures LifeOf(w, c.id).stage == Activating ==> LifeOf(r, c.id).stage == Active
    ensures LifeOf(w, c.id).stage == Active ==> LifeOf(r, c.id).stage == Active
    ensures forall id :: id != c.id ==> LifeOf(r, id) == LifeOf(w, id)
  {
    w[c.id := Life(Completed(LifeOf(w, c.id).stage), true)]
  }
}
