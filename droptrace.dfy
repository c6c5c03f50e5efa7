/** Sequences of external drag events (enter, leave, over, drop) on a grid, and what the
    drag-enter counter and the dropping placeholder do along them
    (packages/core/src/grid.tsx:225-361). */
module DropTrace {
  import opened Types
  import opened Grid

  datatype DragEvent =
    | EnterEvent
    | LeaveEvent
    | DropEvent
    | OverEvent(result: DragOverResult, cellX: int, cellY: int)

  function Apply(cfg: Config, eng: Engine, s: GridState, e: DragEvent): GridState {
    match e
    case EnterEvent => DragEnter(s)
    case LeaveEvent => DragLeave(cfg, eng, s)
    case DropEvent => Drop(cfg, eng, s)
    case OverEvent(res, x, y) => DragOver(cfg, eng, s, res, x, y)
  }

  /** The state after handling the events in order. */
  function Run(cfg: Config, eng: Engine, s: GridState, es: seq<DragEvent>): GridState
    decreases |es|
  {
    if es == [] then s else Run(cfg, eng, Apply(cfg, eng, s, es[0]), es[1..])
  }

  function Enters(es: seq<DragEvent>): nat {
    if es == [] then 0 else (if es[0].EnterEvent? then 1 else 0) + Enters(es[1..])
  }

  function Leaves(es: seq<DragEvent>): nat {
    if es == [] then 0 else (if es[0].LeaveEvent? then 1 else 0) + Leaves(es[1..])
  }

  predicate NoDrop(es: seq<DragEvent>) {
    forall k :: 0 <= k < |es| ==> !es[k].DropEvent?
  }

  /** Handling two batches of events one after the other is handling their concatenation. */
  lemma {:induction false} RunAppend(cfg: Config, eng: Engine, s: GridState, a: seq<DragEvent>, b: seq<DragEvent>)
    ensures Run(cfg, eng, s, a + b) == Run(cfg, eng, Run(cfg, eng, s, a), b)
    decreases |a|
  {
    if a == [] {
      assert a + b == b;
    } else {
      assert (a + b)[0] == a[0];
      assert (a + b)[1..] == a[1..] + b;
      RunAppend(cfg, eng, Apply(cfg, eng, s, a[0]), a[1..], b);
    }
  }

  /** Until a drop, the counter is its start value plus the enters minus the leaves:
      overs and placeholder removals never touch it. */
  lemma {:induction false} CounterTracksEnterLeave(cfg: Config, eng: Engine, s: GridState, es: seq<DragEvent>)
    requires NoDrop(es)
    ensures Run(cfg, eng, s, es).dragEnterCount == s.dragEnterCount + Enters(es) - Leaves(es)
    decreases |es|
  {
    if es != [] {
      assert !es[0].DropEvent?;
      assert NoDrop(es[1..]) by {
        forall k | 0 <= k < |es[1..]| ensures !es[1..][k].DropEvent? {
          assert es[1..][k] == es[k + 1];
        }
      }
      CounterTracksEnterLeave(cfg, eng, Apply(cfg, eng, s, es[0]), es[1..]);
    }
  }

  /** Whatever came before, a drop leaves the counter at 0 and no placeholder. */
  lemma DropEndsGesture(cfg: Config, eng: Engine, s: GridState, es: seq<DragEvent>)
    ensures Run(cfg, eng, s, es + [DropEvent]).dragEnterCount == 0
    ensures !Run(cfg, eng, s, es + [DropEvent]).droppingElement
  {
    RunAppend(cfg, eng, s, es, [DropEvent]);
  }

  /** An enter followed by a leave from an idle grid removes the placeholder. */
  lemma EnterThenLeaveFromIdle(cfg: Config, eng: Engine, s: GridState, over: seq<DragEvent>)
    requires s.dragEnterCount == 0
    requires forall k :: 0 <= k < |over| ==> over[k].OverEvent?
    ensures Run(cfg, eng, s, [EnterEvent] + over + [LeaveEvent]).dragEnterCount == 0
    ensures !Run(cfg, eng, s, [EnterEvent] + over + [LeaveEvent]).droppingElement
  {
    var es := [EnterEvent] + over;
    assert NoDrop(es) by {
      forall k | 0 <= k < |es| ensures !es[k].DropEvent? {
        if k > 0 { assert es[k] == over[k - 1]; }
      }
    }
    CounterTracksEnterLeave(cfg, eng, s, es);
    LeavesOfOvers(over);
    assert Enters(es) == 1 + Enters(over);
    assert es[1..] == over;
    RunAppend(cfg, eng, s, es, [LeaveEvent]);
  }

  lemma {:induction false} LeavesOfOvers(es: seq<DragEvent>)
    requires forall k :: 0 <= k < |es| ==> es[k].OverEvent?
    ensures Enters(es) == 0 && Leaves(es) == 0
    decreases |es|
  {
    if es != [] {
      LeavesOfOvers(es[1..]);
    }
  }

  /** Accepted drag-overs add at most one item: the old layout stays a prefix, at most one
      entry is appended, and once a placeholder exists nothing changes. */
  lemma {:induction false} AcceptedOversAppendAtMostOne(cfg: Config, eng: Engine, s: GridState, es: seq<DragEvent>)
    requires forall k :: 0 <= k < |es| ==> es[k].OverEvent? && es[k].result.Accept?
    ensures var r := Run(cfg, eng, s, es);
      |s.layout| <= |r.layout| <= |s.layout| + 1 && r.layout[..|s.layout|] == s.layout
    ensures s.droppingElement ==> Run(cfg, eng, s, es) == s
    ensures |Run(cfg, eng, s, es).layout| == |s.layout| + 1 ==> Run(cfg, eng, s, es).droppingElement
    decreases |es|
  {
    if es != [] {
      var t := Apply(cfg, eng, s, es[0]);
      AcceptedOversAppendAtMostOne(cfg, eng, t, es[1..]);
      if t != s {
        assert t.droppingElement && |t.layout| == |s.layout| + 1;
        assert Run(cfg, eng, t, es[1..]) == t;
        assert t.layout[..|s.layout|] == s.layout;
      }
    }
  }
}
