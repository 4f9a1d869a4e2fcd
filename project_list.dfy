/**
 * The project sidebar's add-project control: a name field and an
 * "is adding" switch, updated by the field, Enter, Add, Cancel and the
 * "Add Project" button.
 */
module ProjectSidebar {
  import opened Types
  import opened Text

  /**
   * The name handed to `onAddProject` by `handleAddProject`: the trimmed
   * field, or no call at all when the field is blank (empty or white space).
   */
  function AddedName(field: string): (r: Option<string>)
    ensures r.None? <==> forall i | 0 <= i < |field| :: IsSpace(field[i])
    ensures r.Some? ==> r.value == Trim(field) && r.value != [] && IsTrimmed(r.value)
  {
    TrimEmptyIffBlank(field);
    var name := Trim(field);
    if name != [] then Some(name) else None
  }

  /** Typing the name that was added adds the same name again. */
  lemma AddedNameStable(field: string)
    requires AddedName(field).Some?
    ensures AddedName(AddedName(field).value) == AddedName(field)
  {
    TrimIdempotent(field);
  }

  /** White space typed before or after the name never changes the added name. */
  lemma AddedNameIgnoresPadding(c: char, field: string)
    requires IsSpace(c)
    ensures AddedName([c] + field) == AddedName(field)
    ensures AddedName(field + [c]) == AddedName(field)
  {
    TrimLeadingSpace(c, field);
    TrimTrailingSpace(field, c);
  }

  class ProjectList {
    var newProjectName: string
    var isAdding: bool

    /** Both pieces of state start empty and closed. */
    constructor()
      ensures newProjectName == [] && !isAdding
    {
      newProjectName := [];
      isAdding := false;
    }

    /** The "Add Project" button opens the name field and keeps its text. */
    method StartAdding()
      modifies this
      ensures isAdding
      ensures newProjectName == old(newProjectName)
    {
      isAdding := true;
    }

    /** Cancel closes the field without adding; the typed text is kept. */
    method Cancel()
      modifies this
      ensures !isAdding
      ensures newProjectName == old(newProjectName)
    {
      isAdding := false;
    }

    /** The input's `onChange`. */
    method Change(text: string)
      modifies this
      ensures newProjectName == text
      ensures isAdding == old(isAdding)
    {
      newProjectName := text;
    }

    /**
     * `handleAddProject`: returns the name passed to `onAddProject`. A
     * successful add clears the field and closes it; a blank field changes
     * nothing.
     */
    method HandleAddProject() returns (added: Option<string>)
      modifies this
      ensures added == AddedName(old(newProjectName))
      ensures added.Some? ==> newProjectName == [] && !isAdding
      ensures added.None? ==> newProjectName == old(newProjectName) && isAdding == old(isAdding)
    {
      var name := Trim(newProjectName);
      if name != [] {
        added := Some(name);
        newProjectName := [];
        isAdding := false;
      } else {
        added := None;
      }
    }

    /** The input's `onKeyDown`: Enter adds, every other key does nothing. */
    method KeyDown(key: string) returns (added: Option<string>)
      modifies this
      ensures key != "Enter" ==> added.None? && newProjectName == old(newProjectName) && isAdding == old(isAdding)
      ensures key == "Enter" ==> added == AddedName(old(newProjectName))
      ensures added.Some? ==> newProjectName == [] && !isAdding
      ensures added.None? ==> newProjectName == old(newProjectName) && isAdding == old(isAdding)
    {
      if key == "Enter" {
        added := HandleAddProject();
      } else {
        added := None;
      }
    }
  }

  /**
   * A session: open the field, type `text`, press Add. The project is added
   * with the trimmed text exactly when the text is not blank, and the field
   * ends closed and empty after an add, open and still holding `text` after
   * a blank attempt.
   */
  method AddSession(text: string) returns (added: Option<string>, open: bool, left: string)
    ensures added.Some? <==> exists i | 0 <= i < |text| :: !IsSpace(text[i])
    ensures added.Some? ==> added.value == Trim(text) && !open && left == []
    ensures added.None? ==> open && left == text
  {
    var list := new ProjectList();
    list.StartAdding();
    list.Change(text);
    added := list.HandleAddProject();
    open := list.isAdding;
    left := list.newProjectName;
  }
}
