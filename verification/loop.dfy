/** Behaviour loop (`BehaviorLoop`): its data, its constructors, and the
    sequential iterating process it uses both for its activating stage and,
    repeatedly, inside its active stage. The per-child work of that process
    (`Update`, `End`, `FastForward`) lives in a base class that is not part
    of this model; what is modelled is what this class adds to it. */
module Loop {
  import opened Lifecycle
  import Enumerators

  const DefaultName := "Loop"

  /** The behaviour's data: child list, `Current` cursor, label and the
      blocking flag. */
  datatype LoopData = LoopData(behaviors: seq<Slot>, current: Slot, name: string, isBlocking: bool)

  /** The constructor: copies the list, blocking by default. */
  function New(behaviors: seq<Slot>, name: string := DefaultName): (d: LoopData)
    ensures d.behaviors == behaviors && d.name == name && d.current == None
    ensures d.isBlocking
  {
    LoopData(behaviors, None, name, true)
  }

  /** The overload taking `isBlocking`: the same as the other constructor
      except for the flag. */
  function NewWithBlocking(behaviors: seq<Slot>, isBlocking: bool, name: string := DefaultName): (d: LoopData)
    ensures d == New(behaviors, name).(isBlocking := isBlocking)
    ensures d.isBlocking == isBlocking
  {
    var d := New(behaviors, name);
    d.(isBlocking := isBlocking)
  }

  /** The parameterless constructor: no children, label "Loop", blocking. */
  function NewEmpty(): (d: LoopData)
    ensures d.behaviors == [] && d.name == "Loop" && d.isBlocking && d.current == None
  {
    New([])
  }

  /** `EntityData.GetChildren`: a copy of the list. */
  function GetChildren(d: LoopData): seq<Slot>
  {
    d.behaviors
  }

  /** The loop's iterating process; the part of its state this class owns
      is the enumerator. */
  datatype IteratingProcess = IteratingProcess(enumerator: Enumerators.Cursor)

  /** `GetActivatingProcess`: the activating stage is one iterating pass,
      by a fresh process that has not been started. */
  function GetActivatingProcess(d: LoopData): (p: IteratingProcess)
    ensures p.enumerator.None?
    ensures Enumerators.Remaining(p.enumerator) == []
  {
    IteratingProcess(None)
  }

  /** `IteratingProcess.Start`: a fresh enumerator over a fresh copy of the
      children, whatever the process held before. */
  function Start(p: IteratingProcess, d: LoopData): (r: IteratingProcess)
    ensures r.enumerator.Some? && r.enumerator.value.items == d.behaviors
    ensures Enumerators.Remaining(r.enumerator) == d.behaviors
  {
    IteratingProcess(Enumerators.GetEnumerator(GetChildren(d)))
  }

  /** The loop agrees to activate every child it reaches. */
  function ShouldActivateCurrent(p: IteratingProcess): (r: bool)
    ensures r
  {
    true
  }

  /** The loop agrees to deactivate every child it reaches. */
  function ShouldDeactivateCurrent(p: IteratingProcess): (r: bool)
    ensures r
  {
    true
  }

  datatype Next = Next(found: bool, entity: Slot, process: IteratingProcess)

  /** `TryNext`: false with a null slot when the enumerator is null or
      exhausted, otherwise the next child in list order. */
  function TryNext(p: IteratingProcess): (r: Next)
    ensures r.found <==> |Enumerators.Remaining(p.enumerator)| > 0
    ensures r.found ==>
              && r.entity == Enumerators.Remaining(p.enumerator)[0]
              && Enumerators.Remaining(r.process.enumerator) == Enumerators.Remaining(p.enumerator)[1..]
    ensures !r.found ==> r.entity == None && r.process == p
  {
    var n := Enumerators.TryNext(p.enumerator);
    Next(n.found, n.entity, IteratingProcess(n.cursor))
  }

  /** After `Start`, successive `TryNext` calls hand out the children from
      the first one on, in list order, and nothing after the last. */
  lemma PassRestartsAtFirstChild(p: IteratingProcess, d: LoopData, n: nat)
    ensures Enumerators.Pull(Start(p, d).enumerator, n).0 == d.behaviors[..Enumerators.Min(n, |d.behaviors|)]
  {
    Enumerators.PullInOrder(Start(p, d).enumerator, n);
  }
}
