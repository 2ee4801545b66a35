/**
 * The drag-and-drop helper of the workflow canvas: three flags shared by
 * every caller (`draggedData`, `isDragOver`, `isDragging`), the handlers
 * that change them, and the node a drop adds to the canvas.
 */
module Workflow {
  import opened Wrappers

  /** The fields of a dragged action that a drop copies; any may be absent. */
  datatype DragData = DragData(
    nodeType: Option<string>,
    name: Option<string>,
    description: Option<string>,
    data: Option<string>)

  /** The value of the `draggedData` ref: `null`, or an object (always truthy). */
  datatype Dragged = NoData | Dragging(item: DragData)

  datatype DragState = DragState(draggedData: Dragged, isDragOver: bool, isDragging: bool)

  /** `draggedData` starts as `{}`, which is truthy; both flags start false. */
  const InitialDrag := DragState(Dragging(DragData(None, None, None, None)), false, false)

  datatype DragEvent = DragStart(data: Dragged) | DragOver | DragLeave | DragEnd | Drop

  /** What each handler does to the shared state. */
  function Step(s: DragState, e: DragEvent): (t: DragState)
    ensures t.isDragging <==> e.DragStart? || (s.isDragging && e != DragEnd)
    ensures t.isDragOver <==>
              (e == DragOver && s.draggedData.Dragging?) || (s.isDragOver && e != DragLeave && e != DragEnd)
    ensures !e.DragStart? && e != DragEnd ==> t.draggedData == s.draggedData
    ensures e.DragStart? ==> t.draggedData == e.data
    ensures e == DragEnd ==> t.draggedData == NoData
  {
    match e
    case DragStart(d) => s.(draggedData := d, isDragging := true)
    case DragOver => if s.draggedData.Dragging? then s.(isDragOver := true) else s
    case DragLeave => s.(isDragOver := false)
    case DragEnd => DragState(NoData, false, false)
    case Drop => s
  }

  /** The state after a sequence of handler calls. */
  function Run(s: DragState, events: seq<DragEvent>): DragState
    decreases |events|
  {
    if events == [] then s else Run(Step(s, events[0]), events[1..])
  }

  /**
   * Once the dragged data is gone and the drag-over flag is down, as
   * `onDragEnd` leaves them, no sequence of handler calls without an
   * `onDragStart` raises the flag again or brings data back.
   */
  lemma {:induction false} NoDragOverWithoutDragStart(s: DragState, events: seq<DragEvent>)
    requires s.draggedData == NoData && !s.isDragOver
    requires forall k :: 0 <= k < |events| ==> !events[k].DragStart?
    ensures Run(s, events).draggedData == NoData && !Run(s, events).isDragOver
    decreases |events|
  {
    if events != [] {
      NoDragOverWithoutDragStart(Step(s, events[0]), events[1..]);
    }
  }

  /** After `onDragEnd`, only a new `onDragStart` lets `onDragOver` raise the flag. */
  lemma AfterDragEnd(s: DragState, events: seq<DragEvent>)
    requires forall k :: 0 <= k < |events| ==> !events[k].DragStart?
    ensures !Run(Step(s, DragEnd), events).isDragOver
    ensures !Run(Step(s, DragEnd), events + [DragOver]).isDragOver
  {
    NoDragOverWithoutDragStart(Step(s, DragEnd), events);
    NoDragOverWithoutDragStart(Step(s, DragEnd), events + [DragOver]);
  }

  /** Some `onDragStart` in `events` is not followed by an `onDragEnd`. */
  ghost predicate OpenDragStart(events: seq<DragEvent>) {
    exists i :: 0 <= i < |events| && events[i].DragStart? &&
      forall j :: i < j < |events| ==> !events[j].DragEnd?
  }

  ghost predicate NoDragEnd(events: seq<DragEvent>) {
    forall j :: 0 <= j < |events| ==> !events[j].DragEnd?
  }

  /**
   * `isDragging` is true exactly when the last start or end of a drag was a
   * start (or, with neither, when it was true to begin with).
   */
  lemma {:induction false} IsDraggingIffOpenStart(s: DragState, events: seq<DragEvent>)
    ensures Run(s, events).isDragging <==>
              OpenDragStart(events) || (s.isDragging && NoDragEnd(events))
    decreases |events|
  {
    if events != [] {
      var e := events[0];
      var tail := events[1..];
      IsDraggingIffOpenStart(Step(s, e), tail);
      if OpenDragStart(tail) {
        var i :| 0 <= i < |tail| && tail[i].DragStart? && forall j :: i < j < |tail| ==> !tail[j].DragEnd?;
        assert events[i + 1].DragStart? && forall j :: i + 1 < j < |events| ==> !events[j].DragEnd? by {
          forall j | i + 1 < j < |events| ensures !events[j].DragEnd? { assert events[j] == tail[j - 1]; }
        }
      }
      if OpenDragStart(events) {
        var i :| 0 <= i < |events| && events[i].DragStart? && forall j :: i < j < |events| ==> !events[j].DragEnd?;
        if i > 0 {
          assert tail[i - 1].DragStart? && forall j :: i - 1 < j < |tail| ==> !tail[j].DragEnd? by {
            forall j | i - 1 < j < |tail| ensures !tail[j].DragEnd? { assert tail[j] == events[j + 1]; }
          }
        } else {
          assert NoDragEnd(tail) by {
            forall j | 0 <= j < |tail| ensures !tail[j].DragEnd? { assert tail[j] == events[j + 1]; }
          }
        }
      }
      if NoDragEnd(events) {
        assert NoDragEnd(tail) by {
          forall j | 0 <= j < |tail| ensures !tail[j].DragEnd? { assert tail[j] == events[j + 1]; }
        }
      }
      if NoDragEnd(tail) && !e.DragEnd? {
        assert NoDragEnd(events) by {
          forall j | 0 <= j < |events| ensures !events[j].DragEnd? { if j > 0 { assert events[j] == tail[j - 1]; } }
        }
      }
      if e.DragStart? && NoDragEnd(tail) {
        assert events[0].DragStart? && forall j :: 0 < j < |events| ==> !events[j].DragEnd? by {
          forall j | 0 < j < |events| ensures !events[j].DragEnd? { assert events[j] == tail[j - 1]; }
        }
      }
    }
  }

  // ---------------------------------------------------------------------------
  // The node a drop creates
  // ---------------------------------------------------------------------------

  datatype Point = Point(x: int, y: int)

  datatype FlowNode = FlowNode(
    id: string,
    nodeType: Option<string>,
    name: Option<string>,
    description: Option<string>,
    position: Point,
    data: Option<string>)

  /** `s.substr(start, length)`: at most `length` characters from `start` on. */
  function Substr(s: string, start: nat, length: nat): (t: string)
    ensures |t| <= length
    ensures start <= |s| ==> t <= s[start..]
    ensures start <= |s| ==> |t| == (if start + length <= |s| then length else |s| - start)
    ensures start > |s| ==> t == ""
  {
    var from := if start <= |s| then start else |s|;
    var to := if from + length <= |s| then from + length else |s|;
    s[from..to]
  }

  /**
   * `getId()`: `act_` followed by up to nine characters taken after the `0.`
   * of `Math.random().toString(36)`, passed in here as `randomText`.
   */
  function NodeId(randomText: string): (id: string)
    ensures 4 <= |id| <= 13 && id[..4] == "act_"
    ensures |randomText| >= 11 ==> id == "act_" + randomText[2..11]
  {
    "act_" + Substr(randomText, 2, 9)
  }

  /**
   * The node `onDrop` adds: type, name, description and data are read from the
   * dragged data with optional chaining, so all are absent when it is `null`.
   */
  function NewNode(dragged: Dragged, id: string, position: Point): (n: FlowNode)
    ensures n.id == id && n.position == position
    ensures dragged.Dragging? ==>
              && n.nodeType == dragged.item.nodeType && n.name == dragged.item.name
              && n.description == dragged.item.description && n.data == dragged.item.data
    ensures dragged.NoData? ==> n.nodeType == None && n.name == None && n.description == None && n.data == None
  {
    match dragged
    case NoData => FlowNode(id, None, None, None, position, None)
    case Dragging(item) => FlowNode(id, item.nodeType, item.name, item.description, position, item.data)
  }

  // ---------------------------------------------------------------------------
  // The shared refs and the handlers
  // ---------------------------------------------------------------------------

  /** The canvas's node list, which `addNodes` appends to. */
  class FlowCanvas {
    var nodes: seq<FlowNode>

    constructor ()
      ensures nodes == []
    {
      nodes := [];
    }

    method AddNode(node: FlowNode)
      modifies this
      ensures nodes == old(nodes) + [node]
    {
      nodes := nodes + [node];
    }
  }

  /** The module-level `state`: one instance is shared by every `useDragAndDrop` caller. */
  class DragAndDrop {
    var draggedData: Dragged
    var isDragOver: bool
    var isDragging: bool

    function State(): DragState
      reads this
    {
      DragState(draggedData, isDragOver, isDragging)
    }

    constructor ()
      ensures State() == InitialDrag
    {
      draggedData := Dragging(DragData(None, None, None, None));
      isDragOver := false;
      isDragging := false;
    }

    /** `onDragStart(event, data)`: remembers the data and marks a drag in progress. */
    method OnDragStart(data: Dragged)
      modifies this
      ensures draggedData == data && isDragging && isDragOver == old(isDragOver)
      ensures State() == Step(old(State()), DragStart(data))
    {
      draggedData := data;
      isDragging := true;
    }

    /** `onDragOver(event)`: raises the drag-over flag only while there is dragged data. */
    method OnDragOver()
      modifies this
      ensures isDragOver == (old(isDragOver) || old(draggedData).Dragging?)
      ensures draggedData == old(draggedData) && isDragging == old(isDragging)
      ensures State() == Step(old(State()), DragOver)
    {
      if draggedData.Dragging? {
        isDragOver := true;
      }
    }

    /** `onDragLeave()`: lowers the drag-over flag and nothing else. */
    method OnDragLeave()
      modifies this
      ensures !isDragOver && draggedData == old(draggedData) && isDragging == old(isDragging)
      ensures State() == Step(old(State()), DragLeave)
    {
      isDragOver := false;
    }

    /** `onDragEnd()`: lowers both flags and drops the data. */
    method OnDragEnd()
      modifies this
      ensures !isDragging && !isDragOver && draggedData == NoData
      ensures State() == Step(old(State()), DragEnd)
    {
      isDragging := false;
      isDragOver := false;
      draggedData := NoData;
    }

    /**
     * `onDrop(event)`: adds to the canvas a node built from the dragged data at
     * the (already converted) drop position, and leaves the three refs alone.
     */
    method OnDrop(canvas: FlowCanvas, position: Point, randomText: string)
      modifies canvas
      ensures State() == old(State()) && State() == Step(old(State()), Drop)
      ensures canvas.nodes == old(canvas.nodes) + [NewNode(draggedData, NodeId(randomText), position)]
      ensures canvas.nodes[|canvas.nodes| - 1].id[..4] == "act_"
    {
      var nodeId := NodeId(randomText);
      var newNode := NewNode(draggedData, nodeId, position);
      canvas.AddNode(newNode);
    }
  }
}
