/** The click handler of js/ui/selection.js: a two-click selection of a path
    start and a path end, the outline colour of each node, and the caption of
    the path button. An unset end is "". */
module Selection {
  import opened Wrappers

  /** The start and end after a click on `id`: the first click sets the
      start, the second the end, and a third starts over. */
  function Step(start: string, end: string, id: string): (r: (string, string))
    ensures start == "" || end != "" ==> r == (id, "")
    ensures start != "" && end == "" ==> r == (start, id)
  {
    if start == "" then (id, "")
    else if end == "" then (start, id)
    else (id, "")
  }

  /** Two clicks from an empty selection select the pair, and a third click
      starts a new selection that keeps only itself. */
  lemma ThreeClicks(a: string, b: string, c: string)
    requires a != "" && b != ""
    ensures Step("", "", a) == (a, "")
    ensures Step(Step("", "", a).0, Step("", "", a).1, b) == (a, b)
    ensures Step(a, b, c) == (c, "")
  {
  }

  /** After a click on a node with an id there is always a start, and the end
      is set only when the click completed a pair. */
  lemma StartAlwaysSet(start: string, end: string, id: string)
    requires id != ""
    ensures Step(start, end, id).0 != ""
    ensures Step(start, end, id).1 != "" <==> start != "" && end == ""
  {
  }

  /** The outline of a node: the start first, then the end, then the active
      record. */
  function Stroke(nodeId: string, start: string, end: string, activeTechId: string): (colour: string)
    ensures colour == "lime" <==> nodeId == start
    ensures colour == "red" <==> nodeId != start && nodeId == end
    ensures colour == "yellow" <==> nodeId != start && nodeId != end && nodeId == activeTechId
  {
    if nodeId == start then "lime"
    else if nodeId == end then "red"
    else if nodeId == activeTechId then "yellow"
    else "none"
  }

  /** The path button: hidden without a start, otherwise labelled by whether
      an end is set. */
  function ButtonLabel(start: string, end: string): (caption: Option<string>)
    ensures caption.None? <==> start == ""
    ensures caption == Some("Show Research Path") <==> start != "" && end != ""
  {
    if start == "" then None
    else if end != "" then Some("Show Research Path")
    else Some("Show Required Research")
  }

  /** The selection that `getSelection` and `setSelection` read and write. */
  class SelectionState {
    var selectionStartNode: string
    var selectionEndNode: string

    constructor ()
      ensures selectionStartNode == "" && selectionEndNode == ""
    {
      selectionStartNode := "";
      selectionEndNode := "";
    }

    /** `handleNodeSelection` for a click on the node `id`: the new selection,
        then the button caption. */
    method HandleNodeSelection(id: string) returns (caption: Option<string>)
      modifies this
      ensures (selectionStartNode, selectionEndNode) == Step(old(selectionStartNode), old(selectionEndNode), id)
      ensures caption == ButtonLabel(selectionStartNode, selectionEndNode)
    {
      var start := selectionStartNode;
      var end := selectionEndNode;
      if start == "" {
        start, end := id, "";
      } else if end == "" {
        end := id;
      } else {
        start, end := id, "";
      }
      selectionStartNode, selectionEndNode := start, end;
      caption := ButtonLabel(start, end);
    }
  }
}
