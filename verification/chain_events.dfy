/** What a chained activation does to its children, written as a log of
    calls, together with the reference logs its two drivers must produce:
    `PassEvents` for a pass of `Update` and `ForwardAll` for `FastForward`. */
module ChainEvents {
  import opened Lifecycle

  /** One observable action of the chain: a slot becomes `Current`, a child
      is activated, or a child is marked to fast-forward. */
  datatype Event =
    | Visited(slot: Slot)
    | Activated(child: Child)
    | MarkedFastForward(child: Child)

  /** The non-null children of a list, in order. */
  function Children(slots: seq<Slot>): seq<Child>
  {
    if slots == [] then []
    else (if slots[0].Some? then [slots[0].value] else []) + Children(slots[1..])
  }

  /** The children of a list the mode skips, in order. */
  function SkippedChildren(cs: seq<Child>, mode: Mode): seq<Child>
  {
    if cs == [] then []
    else (if IsSkipped(mode, cs[0]) then [cs[0]] else []) + SkippedChildren(cs[1..], mode)
  }

  function VisitedIn(evs: seq<Event>): seq<Slot>
  {
    if evs == [] then []
    else (if evs[0].Visited? then [evs[0].slot] else []) + VisitedIn(evs[1..])
  }

  function ActivatedIn(evs: seq<Event>): seq<Child>
  {
    if evs == [] then []
    else (if evs[0].Activated? then [evs[0].child] else []) + ActivatedIn(evs[1..])
  }

  function MarkedIn(evs: seq<Event>): seq<Child>
  {
    if evs == [] then []
    else (if evs[0].MarkedFastForward? then [evs[0].child] else []) + MarkedIn(evs[1..])
  }

  // ---------------------------------------------------------------------
  // A pass of Update

  /** The actions a pass of `Update` takes on one slot: it becomes `Current`;
      a non-null child is activated, then marked to fast-forward when the
      mode skips it. */
  function SlotEvents(s: Slot, mode: Mode): seq<Event>
  {
    match s
    case None => [Visited(s)]
    case Some(c) => [Visited(s), Activated(c)] + (if IsSkipped(mode, c) then [MarkedFastForward(c)] else [])
  }

  /** The reference log of a whole pass over `slots`. */
  function PassEvents(slots: seq<Slot>, mode: Mode): seq<Event>
  {
    if slots == [] then [] else SlotEvents(slots[0], mode) + PassEvents(slots[1..], mode)
  }

  lemma {:induction false} PassEventsAppend(a: seq<Slot>, b: seq<Slot>, mode: Mode)
    ensures PassEvents(a + b, mode) == PassEvents(a, mode) + PassEvents(b, mode)
    decreases |a|
  {
    if a == [] {
      assert a + b == b;
    } else {
      assert (a + b)[0] == a[0];
      assert (a + b)[1..] == a[1..] + b;
      PassEventsAppend(a[1..], b, mode);
    }
  }

  /** The log of a pass that has got through the first `k` slots is a
      prefix of the log of the whole pass. */
  lemma PassEventsPrefix(slots: seq<Slot>, k: nat, mode: Mode)
    requires k <= |slots|
    ensures PassEvents(slots[..k], mode) <= PassEvents(slots, mode)
  {
    assert slots == slots[..k] + slots[k..];
    PassEventsAppend(slots[..k], slots[k..], mode);
  }

  lemma {:induction false} VisitedInAppend(a: seq<Event>, b: seq<Event>)
    ensures VisitedIn(a + b) == VisitedIn(a) + VisitedIn(b)
    decreases |a|
  {
    if a == [] {
      assert a + b == b;
    } else {
      assert (a + b)[0] == a[0];
      assert (a + b)[1..] == a[1..] + b;
      VisitedInAppend(a[1..], b);
    }
  }

  lemma {:induction false} ActivatedInAppend(a: seq<Event>, b: seq<Event>)
    ensures ActivatedIn(a + b) == ActivatedIn(a) + ActivatedIn(b)
    decreases |a|
  {
    if a == [] {
      assert a + b == b;
    } else {
      assert (a + b)[0] == a[0];
      assert (a + b)[1..] == a[1..] + b;
      ActivatedInAppend(a[1..], b);
    }
  }

  lemma {:induction false} MarkedInAppend(a: seq<Event>, b: seq<Event>)
    ensures MarkedIn(a + b) == MarkedIn(a) + MarkedIn(b)
    decreases |a|
  {
    if a == [] {
      assert a + b == b;
    } else {
      assert (a + b)[0] == a[0];
      assert (a + b)[1..] == a[1..] + b;
      MarkedInAppend(a[1..], b);
    }
  }

  /** How many children the log activates that the mode does not skip:
      each of them holds a pass up until its activation completes. */
  function Blocking(evs: seq<Event>, mode: Mode): nat
  {
    if evs == [] then 0
    else (if evs[0].Activated? && !IsSkipped(mode, evs[0].child) then 1 else 0) + Blocking(evs[1..], mode)
  }

  lemma {:induction false} BlockingAppend(a: seq<Event>, b: seq<Event>, mode: Mode)
    ensures Blocking(a + b, mode) == Blocking(a, mode) + Blocking(b, mode)
    decreases |a|
  {
    if a == [] {
      assert a + b == b;
    } else {
      assert (a + b)[0] == a[0];
      assert (a + b)[1..] == a[1..] + b;
      BlockingAppend(a[1..], b, mode);
    }
  }

  /** The actions on one slot activate a child the mode does not skip
      exactly when the slot holds such a child. */
  lemma SlotEventsBlocking(s: Slot, mode: Mode)
    ensures Blocking(SlotEvents(s, mode), mode) == (if s.Some? && !IsSkipped(mode, s.value) then 1 else 0)
  {
    if s.Some? {
      var c := s.value;
      var m: seq<Event> := if IsSkipped(mode, c) then [MarkedFastForward(c)] else [];
      assert SlotEvents(s, mode) == [Visited(s)] + ([Activated(c)] + m);
      BlockingAppend([Visited(s)], [Activated(c)] + m, mode);
      BlockingAppend([Activated(c)], m, mode);
      if IsSkipped(mode, c) {
        assert Blocking(m, mode) == 0 + Blocking(m[1..], mode);
      }
    } else {
      assert Blocking(SlotEvents(s, mode), mode) == 0 + Blocking([], mode);
    }
  }

  /** The actions on one slot, seen through each of the three filters. */
  lemma SlotEventsFiltered(s: Slot, mode: Mode)
    ensures VisitedIn(SlotEvents(s, mode)) == [s]
    ensures ActivatedIn(SlotEvents(s, mode)) == (if s.Some? then [s.value] else [])
    ensures MarkedIn(SlotEvents(s, mode)) == (if s.Some? && IsSkipped(mode, s.value) then [s.value] else [])
  {
    if s.Some? {
      var c := s.value;
      var m: seq<Event> := if IsSkipped(mode, c) then [MarkedFastForward(c)] else [];
      assert SlotEvents(s, mode) == [Visited(s)] + ([Activated(c)] + m);
      VisitedInAppend([Visited(s)], [Activated(c)] + m);
      VisitedInAppend([Activated(c)], m);
      ActivatedInAppend([Visited(s)], [Activated(c)] + m);
      ActivatedInAppend([Activated(c)], m);
      MarkedInAppend([Visited(s)], [Activated(c)] + m);
      MarkedInAppend([Activated(c)], m);
      if IsSkipped(mode, c) {
        assert VisitedIn(m) == [] + VisitedIn(m[1..]);
        assert ActivatedIn(m) == [] + ActivatedIn(m[1..]);
        assert MarkedIn(m) == [c] + MarkedIn(m[1..]);
      }
    }
  }

  /** A pass makes every slot `Current` once, in list order. */
  lemma {:induction false} PassVisitsEverySlotInOrder(slots: seq<Slot>, mode: Mode)
    ensures VisitedIn(PassEvents(slots, mode)) == slots
    decreases |slots|
  {
    if slots != [] {
      PassVisitsEverySlotInOrder(slots[1..], mode);
      VisitedInAppend(SlotEvents(slots[0], mode), PassEvents(slots[1..], mode));
      SlotEventsFiltered(slots[0], mode);
      assert slots == [slots[0]] + slots[1..];
    }
  }

  /** A pass activates every non-null child exactly once, in list order,
      and never a null slot. */
  lemma {:induction false} PassActivatesEveryChildOnce(slots: seq<Slot>, mode: Mode)
    ensures ActivatedIn(PassEvents(slots, mode)) == Children(slots)
    decreases |slots|
  {
    if slots != [] {
      PassActivatesEveryChildOnce(slots[1..], mode);
      ActivatedInAppend(SlotEvents(slots[0], mode), PassEvents(slots[1..], mode));
      SlotEventsFiltered(slots[0], mode);
    }
  }

  /** A pass marks to fast-forward exactly the children the mode skips, each
      once and in list order. */
  lemma {:induction false} PassFastForwardsExactlySkipped(slots: seq<Slot>, mode: Mode)
    ensures MarkedIn(PassEvents(slots, mode)) == SkippedChildren(Children(slots), mode)
    decreases |slots|
  {
    if slots != [] {
      PassFastForwardsExactlySkipped(slots[1..], mode);
      MarkedInAppend(SlotEvents(slots[0], mode), PassEvents(slots[1..], mode));
      SlotEventsFiltered(slots[0], mode);
      if slots[0].Some? {
        var c := slots[0].value;
        var cs := [c] + Children(slots[1..]);
        assert Children(slots) == cs;
        assert cs[0] == c && cs[1..] == Children(slots[1..]);
        assert SkippedChildren(cs, mode) == (if IsSkipped(mode, c) then [c] else []) + SkippedChildren(cs[1..], mode);
      } else {
        assert Children(slots) == Children(slots[1..]);
        assert MarkedIn(SlotEvents(slots[0], mode)) == [];
        assert PassEvents(slots, mode) == SlotEvents(slots[0], mode) + PassEvents(slots[1..], mode);
      }
    }
  }

  // ---------------------------------------------------------------------
  // FastForward

  datatype Forwarded = Forwarded(events: seq<Event>, world: World)

  /** Where fast-forwarding leaves a child in stage `st`: a deactivation
      in progress finishes, and in every other case the child ends Active. */
  function ForwardedStage(st: Stage): Stage
  {
    if st == Deactivating then Inactive else Active
  }

  /** What `FastForward` does to one child: it becomes `Current`, is
      activated only if it is still Inactive, and is then marked to
      fast-forward, which leaves it Active unless it was deactivating. */
  function ForwardOne(c: Child, w: World): (r: Forwarded)
    ensures Activated(c) in r.events <==> LifeOf(w, c.id).stage == Inactive
    ensures ActivatedIn(r.events) == (if LifeOf(w, c.id).stage == Inactive then [c] else [])
    ensures LifeOf(r.world, c.id).stage == ForwardedStage(LifeOf(w, c.id).stage)
    ensures MarkedIn(r.events) == [c]
    ensures VisitedIn(r.events) == [Some(c)]
    ensures Settled(LifeOf(r.world, c.id))
    ensures forall id :: id != c.id ==> LifeOf(r.world, id) == LifeOf(w, id)
  {
    var inactive := LifeOf(w, c.id).stage == Inactive;
    var w1 := if inactive then Activate(w, c).value else w;
    var act: seq<Event> := if inactive then [Activated(c)] else [];
    var act': seq<Child> := if inactive then [c] else [];
    var evs := [Visited(Some(c))] + act + [MarkedFastForward(c)];
    assert ActivatedIn(evs) == act' by {
      ActivatedInAppend([Visited(Some(c))] + act, [MarkedFastForward(c)]);
      ActivatedInAppend([Visited(Some(c))], act);
      if inactive {
        assert ActivatedIn(act) == [c] + ActivatedIn(act[1..]);
      }
    }
    assert MarkedIn(evs) == [c] && VisitedIn(evs) == [Some(c)] by {
      MarkedInAppend([Visited(Some(c))] + act, [MarkedFastForward(c)]);
      MarkedInAppend([Visited(Some(c))], act);
      VisitedInAppend([Visited(Some(c))] + act, [MarkedFastForward(c)]);
      VisitedInAppend([Visited(Some(c))], act);
      if inactive {
        assert MarkedIn(act) == [] + MarkedIn(act[1..]);
        assert VisitedIn(act) == [] + VisitedIn(act[1..]);
      }
    }
    Forwarded(evs, MarkToFastForward(w1, c))
  }

  /** The reference log and world of fast-forwarding `slots` one after the
      other; a null slot is dereferenced and fails. */
  function ForwardAll(slots: seq<Slot>, w: World): Result<Forwarded>
  {
    if slots == [] then Ok(Forwarded([], w))
    else if slots[0].None? then Err(NullReference)
    else
      var f := ForwardOne(slots[0].value, w);
      match ForwardAll(slots[1..], f.world)
      case Err(e) => Err(e)
      case Ok(g) => Ok(Forwarded(f.events + g.events, g.world))
  }

  /** Fast-forwarding fails exactly when a slot is null, and it fails with a
      null dereference. */
  lemma {:induction false} ForwardAllFailsOnNull(slots: seq<Slot>, w: World)
    ensures ForwardAll(slots, w).Err? <==> None in slots
    ensures ForwardAll(slots, w).Err? ==> ForwardAll(slots, w).error == NullReference
    decreases |slots|
  {
    if slots != [] && slots[0].Some? {
      ForwardAllFailsOnNull(slots[1..], ForwardOne(slots[0].value, w).world);
      assert None in slots <==> None in slots[1..] by {
        assert slots == [slots[0]] + slots[1..];
      }
    }
  }

  /** The slots before the first null one: what `FastForward` handles
      before it dereferences a null slot, or every slot when there is none. */
  function BeforeNull(slots: seq<Slot>): seq<Slot>
  {
    if slots == [] || slots[0].None? then [] else [slots[0]] + BeforeNull(slots[1..])
  }

  /** The prefix before the first null slot holds no null slot, and the
      slot right after it, if any, is null. */
  lemma {:induction false} BeforeNullShape(slots: seq<Slot>)
    ensures BeforeNull(slots) <= slots
    ensures None !in BeforeNull(slots)
    ensures |BeforeNull(slots)| < |slots| ==> slots[|BeforeNull(slots)|] == None
    decreases |slots|
  {
    if slots != [] && slots[0].Some? {
      BeforeNullShape(slots[1..]);
      assert slots == [slots[0]] + slots[1..];
    }
  }

  /** What fast-forwarding `slots` one after the other has done when it
      stops: at the first null slot, or after the last slot. */
  function ForwardUntilNull(slots: seq<Slot>, w: World): Forwarded
  {
    if slots == [] || slots[0].None? then Forwarded([], w)
    else
      var f := ForwardOne(slots[0].value, w);
      var g := ForwardUntilNull(slots[1..], f.world);
      Forwarded(f.events + g.events, g.world)
  }

  /** Where fast-forwarding stops, it has fast-forwarded exactly the slots
      before the first null one. */
  lemma {:induction false} ForwardUntilNullHandlesPrefix(slots: seq<Slot>, w: World)
    ensures ForwardAll(BeforeNull(slots), w) == Ok(ForwardUntilNull(slots, w))
    decreases |slots|
  {
    if slots != [] && slots[0].Some? {
      var f := ForwardOne(slots[0].value, w);
      var prefix := BeforeNull(slots);
      assert prefix[0] == slots[0] && prefix[1..] == BeforeNull(slots[1..]);
      ForwardUntilNullHandlesPrefix(slots[1..], f.world);
    }
  }

  /** No child appears in two slots of the list. */
  ghost predicate Distinct(slots: seq<Slot>)
  {
    forall i, j :: 0 <= i < j < |slots| && slots[i].Some? && slots[j].Some? ==> slots[i].value.id != slots[j].value.id
  }

  /** The children of a list that are Inactive in `w`, in order. */
  function InactiveChildren(slots: seq<Slot>, w: World): seq<Child>
  {
    if slots == [] then []
    else (if slots[0].Some? && LifeOf(w, slots[0].value.id).stage == Inactive then [slots[0].value] else [])
         + InactiveChildren(slots[1..], w)
  }

  /** Which children are Inactive depends only on those children. */
  lemma {:induction false} InactiveChildrenFrame(slots: seq<Slot>, w: World, w': World)
    requires forall id :: id in Ids(slots) ==> LifeOf(w', id) == LifeOf(w, id)
    ensures InactiveChildren(slots, w') == InactiveChildren(slots, w)
    decreases |slots|
  {
    if slots != [] {
      forall id | id in Ids(slots[1..])
        ensures LifeOf(w', id) == LifeOf(w, id)
      {
        var k :| 0 <= k < |slots[1..]| && slots[1..][k].Some? && slots[1..][k].value.id == id;
        assert slots[k + 1] == slots[1..][k];
      }
      InactiveChildrenFrame(slots[1..], w, w');
      if slots[0].Some? {
        assert slots[0].value.id in Ids(slots);
      }
    }
  }

  /** A list without repeated children stays so without its head; the
      head child is not among the rest. */
  lemma DistinctTail(slots: seq<Slot>)
    requires Distinct(slots) && slots != []
    ensures Distinct(slots[1..])
    ensures slots[0].Some? ==> slots[0].value.id !in Ids(slots[1..])
  {
    forall i, j | 0 <= i < j < |slots[1..]| && slots[1..][i].Some? && slots[1..][j].Some?
      ensures slots[1..][i].value.id != slots[1..][j].value.id
    {
      assert slots[1..][i] == slots[i + 1] && slots[1..][j] == slots[j + 1];
    }
  }

  /** Fast-forwarding a list without repeated children activates exactly
      the children that were Inactive, in list order. */
  lemma {:induction false} ForwardAllActivatesInactive(slots: seq<Slot>, w: World)
    requires ForwardAll(slots, w).Ok? && Distinct(slots)
    ensures ActivatedIn(ForwardAll(slots, w).value.events) == InactiveChildren(slots, w)
    decreases |slots|
  {
    if slots != [] {
      var c := slots[0].value;
      var f := ForwardOne(c, w);
      var g := ForwardAll(slots[1..], f.world).value;
      DistinctTail(slots);
      ForwardAllActivatesInactive(slots[1..], f.world);
      InactiveChildrenFrame(slots[1..], w, f.world);
      ActivatedInAppend(f.events, g.events);
    }
  }

  /** Fast-forwarding a list without repeated children leaves each of them
      Active, or Inactive when it was deactivating. */
  lemma {:induction false} ForwardAllLeavesActive(slots: seq<Slot>, w: World)
    requires ForwardAll(slots, w).Ok? && Distinct(slots)
    ensures forall i :: 0 <= i < |slots| && slots[i].Some? ==>
              LifeOf(ForwardAll(slots, w).value.world, slots[i].value.id).stage
              == ForwardedStage(LifeOf(w, slots[i].value.id).stage)
    decreases |slots|
  {
    if slots != [] {
      var c := slots[0].value;
      var f := ForwardOne(c, w);
      var r := ForwardAll(slots, w).value;
      DistinctTail(slots);
      ForwardAllLeavesActive(slots[1..], f.world);
      ForwardAllLeavesOthers(slots[1..], f.world);
      forall i | 0 <= i < |slots| && slots[i].Some?
        ensures LifeOf(r.world, slots[i].value.id).stage == ForwardedStage(LifeOf(w, slots[i].value.id).stage)
      {
        if i > 0 {
          assert slots[i] == slots[1..][i - 1];
          assert slots[i].value.id != c.id;
        }
      }
    }
  }

  /** The identities of the non-null children of a list. */
  function Ids(slots: seq<Slot>): set<ChildId>
  {
    set i | 0 <= i < |slots| && slots[i].Some? :: slots[i].value.id
  }

  /** Fast-forwarding makes every slot `Current` once in order and marks
      every child exactly once in order. */
  lemma {:induction false} ForwardAllLogsEverySlot(slots: seq<Slot>, w: World)
    requires ForwardAll(slots, w).Ok?
    ensures VisitedIn(ForwardAll(slots, w).value.events) == slots
    ensures MarkedIn(ForwardAll(slots, w).value.events) == Children(slots)
    decreases |slots|
  {
    if slots != [] {
      var f := ForwardOne(slots[0].value, w);
      var g := ForwardAll(slots[1..], f.world).value;
      ForwardAllLogsEverySlot(slots[1..], f.world);
      VisitedInAppend(f.events, g.events);
      MarkedInAppend(f.events, g.events);
    }
  }

  /** Fast-forwarding leaves the children not in the list untouched. */
  lemma {:induction false} ForwardAllLeavesOthers(slots: seq<Slot>, w: World)
    requires ForwardAll(slots, w).Ok?
    ensures forall id :: id !in Ids(slots) ==> LifeOf(ForwardAll(slots, w).value.world, id) == LifeOf(w, id)
    decreases |slots|
  {
    if slots != [] {
      var f := ForwardOne(slots[0].value, w);
      var g := ForwardAll(slots[1..], f.world).value;
      ForwardAllLeavesOthers(slots[1..], f.world);
      forall i | 0 <= i < |slots[1..]| && slots[1..][i].Some?
        ensures slots[1..][i].value.id in Ids(slots)
      {
        assert slots[i + 1] == slots[1..][i];
      }
      forall id | id !in Ids(slots)
        ensures LifeOf(g.world, id) == LifeOf(w, id)
      {
        assert slots[0].Some? && slots[0].value.id in Ids(slots);
      }
    }
  }

  /** After fast-forwarding, every child of the list has its flag set and is
      between transitions. */
  lemma {:induction false} ForwardAllSettlesEveryChild(slots: seq<Slot>, w: World)
    requires ForwardAll(slots, w).Ok?
    ensures forall i :: 0 <= i < |slots| && slots[i].Some? ==>
              Settled(LifeOf(ForwardAll(slots, w).value.world, slots[i].value.id))
    decreases |slots|
  {
    if slots != [] {
      var c := slots[0].value;
      var f := ForwardOne(c, w);
      var g := ForwardAll(slots[1..], f.world).value;
      ForwardAllSettlesEveryChild(slots[1..], f.world);
      ForwardAllLeavesOthers(slots[1..], f.world);
      forall i | 0 <= i < |slots| && slots[i].Some?
        ensures Settled(LifeOf(g.world, slots[i].value.id))
      {
        if i > 0 {
          assert slots[1..][i - 1] == slots[i];
        } else if c.id in Ids(slots[1..]) {
          var j :| 0 <= j < |slots[1..]| && slots[1..][j].Some? && slots[1..][j].value.id == c.id;
        }
      }
    }
  }

  /** Fast-forwarding makes every slot `Current` once in order and marks
      every child exactly once in order; afterwards each child has its flag
      set and is between transitions, and children not in the list are
      untouched. */
  lemma ForwardAllMarksEveryChild(slots: seq<Slot>, w: World)
    requires ForwardAll(slots, w).Ok?
    ensures VisitedIn(ForwardAll(slots, w).value.events) == slots
    ensures MarkedIn(ForwardAll(slots, w).value.events) == Children(slots)
    ensures forall i :: 0 <= i < |slots| && slots[i].Some? ==>
              Settled(LifeOf(ForwardAll(slots, w).value.world, slots[i].value.id))
    ensures forall id :: id !in Ids(slots) ==> LifeOf(ForwardAll(slots, w).value.world, id) == LifeOf(w, id)
  {
    ForwardAllLogsEverySlot(slots, w);
    ForwardAllSettlesEveryChild(slots, w);
    ForwardAllLeavesOthers(slots, w);
  }
}
