/** The editor component's selection state: the floating toolbar that a
    mouse-up over a non-blank selection shows, that a mouse-down hides, and
    whose text a modification action forwards before hiding it; and the
    summarize button, which forwards the textarea's current selection. */
module Editor {
  import opened Types
  import opened Text

  /** The toolbar's position (`clientY + 15`, `clientX`) and the text
      captured when it was shown. */
  datatype Toolbar = Toolbar(top: int, left: int, text: string)

  /** What a modification action hands to the workspace: the captured text and the action. */
  datatype ModifyRequest = ModifyRequest(text: string, action: TextModificationAction)

  /** The toolbar a mouse-up leaves behind, for the textarea's value, the
      selection `[selectionStart, selectionEnd)` and the pointer position:
      one exactly when the selection holds a non-whitespace character,
      placed 15 pixels below the pointer and holding the whole selection
      (whitespace included). The browser keeps the selection inside the value. */
  function ToolbarFor(value: string, selectionStart: nat, selectionEnd: nat, clientX: int, clientY: int): (t: Option<Toolbar>)
    requires selectionStart <= selectionEnd <= |value|
    ensures t.Some? <==> exists i :: selectionStart <= i < selectionEnd && !IsSpace(value[i])
    ensures t.Some? ==> t.value == Toolbar(clientY + 15, clientX, value[selectionStart..selectionEnd])
  {
    var selected := value[selectionStart..selectionEnd];
    BlankIffAllSpace(selected);
    assert forall i :: selectionStart <= i < selectionEnd ==> value[i] == selected[i - selectionStart];
    if |Trim(selected)| > 0 then Some(Toolbar(clientY + 15, clientX, selected)) else None
  }

  /** The summarize button: the selection is forwarded exactly when it is
      non-empty. The test is not trimmed, so a whitespace-only selection is
      forwarded too; an empty one only raises an alert (not modelled). */
  function SummarizeRequest(value: string, selectionStart: nat, selectionEnd: nat): (r: Option<string>)
    requires selectionStart <= selectionEnd <= |value|
    ensures r.Some? <==> selectionStart < selectionEnd
    ensures r.Some? ==> r.value == value[selectionStart..selectionEnd] && |r.value| > 0
  {
    var selected := value[selectionStart..selectionEnd];
    if |selected| > 0 then Some(selected) else None
  }

  /** A whitespace-only selection is sent to be summarized but shows no toolbar. */
  lemma BlankSelectionSummarizedWithoutToolbar(value: string, selectionStart: nat, selectionEnd: nat, clientX: int, clientY: int)
    requires selectionStart < selectionEnd <= |value|
    requires forall i :: selectionStart <= i < selectionEnd ==> IsSpace(value[i])
    ensures SummarizeRequest(value, selectionStart, selectionEnd) == Some(value[selectionStart..selectionEnd])
    ensures ToolbarFor(value, selectionStart, selectionEnd, clientX, clientY) == None
  {
  }

  /** The editor's `selectionToolbar` state. */
  class EditorView {
    var selectionToolbar: Option<Toolbar>

    constructor()
      ensures selectionToolbar == None
    {
      selectionToolbar := None;
    }

    /** `handleMouseUp`: show the toolbar for a non-blank selection, hide it otherwise. */
    method MouseUp(value: string, selectionStart: nat, selectionEnd: nat, clientX: int, clientY: int)
      requires selectionStart <= selectionEnd <= |value|
      modifies this
      ensures selectionToolbar == ToolbarFor(value, selectionStart, selectionEnd, clientX, clientY)
    {
      var selected := value[selectionStart..selectionEnd];
      if |Trim(selected)| > 0 {
        selectionToolbar := Some(Toolbar(clientY + 15, clientX, selected));
      } else {
        selectionToolbar := None;
      }
    }

    /** The textarea's `onMouseDown`: a new click always hides the toolbar. */
    method MouseDown()
      modifies this
      ensures selectionToolbar == None
    {
      selectionToolbar := None;
    }

    /** `handleTextModification`: with a toolbar shown, its captured text (not
        whatever is selected now) is forwarded with the action and the
        toolbar is hidden; without one nothing happens. */
    method TextModification(action: TextModificationAction) returns (request: Option<ModifyRequest>)
      modifies this
      ensures old(selectionToolbar).None? ==> request.None?
      ensures old(selectionToolbar).Some? ==> request == Some(ModifyRequest(old(selectionToolbar).value.text, action))
      ensures selectionToolbar == None
    {
      match selectionToolbar
      case None =>
        request := None;
      case Some(toolbar) =>
        request := Some(ModifyRequest(toolbar.text, action));
        selectionToolbar := None;
    }
  }
}
