/** The enumerator both iterating processes hold: a `List<T>` enumerator
    over a copy of the child list, stored in a field that is null until
    `Start` runs, and the `TryNext` step both processes build on. */
module Enumerators {
  import opened Lifecycle

  /** A list enumerator: the items it was created over and how many of
      them `MoveNext` has already passed. */
  datatype Enumerator = Enumerator(items: seq<Slot>, pos: nat)

  /** The enumerator field of a process; `None` is a null field. */
  type Cursor = Option<Enumerator>

  /** The slots a cursor has yet to hand out. */
  function Remaining(c: Cursor): seq<Slot>
  {
    match c
    case None => []
    case Some(e) => if e.pos <= |e.items| then e.items[e.pos..] else []
  }

  /** `GetChildren().GetEnumerator()`: an enumerator over a copy of the list. */
  function GetEnumerator(items: seq<Slot>): (c: Cursor)
    ensures c.Some?
    ensures Remaining(c) == items
  {
    Some(Enumerator(items, 0))
  }

  /** The outcome of one `TryNext`: whether a slot was found, the slot (the
      default null when none), and the advanced cursor. */
  datatype Next = Next(found: bool, entity: Slot, cursor: Cursor)

  /** `TryNext`: false with the default slot when the enumerator is null or
      exhausted; otherwise the next slot in list order. */
  function TryNext(c: Cursor): (r: Next)
    ensures r.found <==> |Remaining(c)| > 0
    ensures r.found ==> r.entity == Remaining(c)[0] && Remaining(r.cursor) == Remaining(c)[1..]
    ensures !r.found ==> r.entity == None && r.cursor == c
    ensures r.cursor.Some? <==> c.Some?
    ensures r.cursor.Some? ==> r.cursor.value.items == c.value.items
  {
    match c
    case None => Next(false, None, c)
    case Some(e) =>
      if e.pos < |e.items| then Next(true, e.items[e.pos], Some(e.(pos := e.pos + 1)))
      else Next(false, None, c)
  }

  function Min(a: nat, b: nat): nat
  {
    if a <= b then a else b
  }

  /** The slots handed out by up to `n` successive `TryNext` calls, stopping
      at the first false, and the cursor left behind. */
  function Pull(c: Cursor, n: nat): (seq<Slot>, Cursor)
    decreases n
  {
    if n == 0 then ([], c)
    else
      var x := TryNext(c);
      if !x.found then ([], c)
      else
        var rest := Pull(x.cursor, n - 1);
        ([x.entity] + rest.0, rest.1)
  }

  /** Successive `TryNext` calls hand out the remaining slots in list order,
      one each, and nothing once they run out. */
  lemma {:induction false} PullInOrder(c: Cursor, n: nat)
    ensures Pull(c, n).0 == Remaining(c)[..Min(n, |Remaining(c)|)]
    decreases n
  {
    if n > 0 {
      var x := TryNext(c);
      var r := Remaining(c);
      if x.found {
        PullInOrder(x.cursor, n - 1);
        var m := Min(n - 1, |r| - 1);
        assert Remaining(x.cursor) == r[1..];
        assert Min(n, |r|) == m + 1;
        assert r[..m + 1] == [r[0]] + r[1..][..m];
      }
    }
  }

  /** After `n` successive `TryNext` calls, the cursor holds what they did
      not hand out. */
  lemma {:induction false} PullLeavesRest(c: Cursor, n: nat)
    ensures Remaining(Pull(c, n).1) == Remaining(c)[Min(n, |Remaining(c)|)..]
    decreases n
  {
    if n > 0 {
      var x := TryNext(c);
      var r := Remaining(c);
      if x.found {
        PullLeavesRest(x.cursor, n - 1);
        var m := Min(n - 1, |r| - 1);
        assert Remaining(x.cursor) == r[1..];
        assert Min(n, |r|) == m + 1;
        assert r[m + 1..] == r[1..][m..];
      }
    }
  }
}
