/** The category admin page (src/app/admin/category/page.tsx): the fetched
    category table, the add/edit/delete dialogs and the name rule they share. */
module AdminCategory {

  import opened Types

  const TooShort := "Category name must be at least 2 characters"
  const TooLong := "Category name must be at most 50 characters"

  /** `categorySchema`: the message shown for a rejected name, or None when
      the name is accepted. */
  function CategoryNameError(name: string): (err: Option<string>)
    ensures err.None? <==> 2 <= |name| <= 50
    ensures |name| < 2 ==> err == Some(TooShort)
    ensures |name| > 50 ==> err == Some(TooLong)
  {
    if |name| < 2 then Some(TooShort)
    else if |name| > 50 then Some(TooLong)
    else None
  }

  /** The state of the page component, with the form's single `name` field. */
  class CategoriesPage {
    var categories: seq<Category>
    var total: nat
    var showAdd: bool
    var showEdit: bool
    var showDelete: bool
    var selected: Option<Category>
    var nameField: string
    var nameError: Option<string>
    /** Whether the form has been submitted since the last `reset()` outside a
        submission: from then on react-hook-form re-runs the schema on every change. */
    var submitted: bool

    /** The initial `useState` and form values. */
    constructor ()
      ensures categories == [] && total == 0 && !showAdd && !showEdit && !showDelete
      ensures selected == None && nameField == "" && nameError == None && !submitted
    {
      categories, total := [], 0;
      showAdd, showEdit, showDelete := false, false, false;
      selected, nameField, nameError, submitted := None, "", None, false;
    }

    /** The table rows: the search box has no state, so every fetched category is shown. */
    function Rows(): (rows: seq<Category>)
      reads this
      ensures |rows| == |categories|
      ensures forall k :: 0 <= k < |rows| ==> rows[k] == categories[k]
    {
      categories
    }

    /** `fetchCategories`: the body's list, or [] when it has none, and its
        length as the total; a failed request changes neither. */
    method FetchCategories(res: Remote<Option<seq<Category>>>)
      modifies this`categories, this`total
      ensures res.Done? ==> categories == res.response.GetOr([]) && total == |categories|
      ensures res.Failed? ==> categories == old(categories) && total == old(total)
    {
      if res.Done? {
        var data := res.response.GetOr([]);
        categories := data;
        total := |data|;
      }
    }

    /** Typing into the name input: before any submission the message is left
        alone; after one, the schema runs again and the message follows the text. */
    method TypeName(text: string)
      modifies this`nameField, this`nameError
      ensures nameField == text
      ensures submitted ==> nameError == CategoryNameError(text)
      ensures !submitted ==> nameError == old(nameError)
    {
      nameField := text;
      if submitted {
        nameError := CategoryNameError(text);
      }
    }

    /** "+ Add Category". */
    method OpenAdd()
      modifies this`showAdd
      ensures showAdd
    {
      showAdd := true;
    }

    /** Cancel in the add dialog: close it and reset the form, which also
        forgets that it was submitted. */
    method CancelAdd()
      modifies this`showAdd, this`nameField, this`nameError, this`submitted
      ensures !showAdd && nameField == "" && nameError == None && !submitted
    {
      showAdd := false;
      nameField, nameError, submitted := "", None, false;
    }

    /** Submitting the add dialog: a rejected name only shows its message;
        an accepted one is posted, and on success the form is reset, the dialog
        closed and a refetch started (`refetch`). `handleSubmit` marks the form
        submitted once the handler is done, even after the handler's `reset()`. */
    method SubmitAdd(res: Remote<()>) returns (refetch: bool)
      modifies this`showAdd, this`nameField, this`nameError, this`submitted
      ensures submitted
      ensures CategoryNameError(old(nameField)).Some? ==>
                && nameError == CategoryNameError(old(nameField))
                && showAdd == old(showAdd) && nameField == old(nameField) && !refetch
      ensures CategoryNameError(old(nameField)).None? && res.Failed? ==>
                && nameError == None && showAdd == old(showAdd) && nameField == old(nameField) && !refetch
      ensures CategoryNameError(old(nameField)).None? && res.Done? ==>
                !showAdd && nameField == "" && nameError == None && refetch
    {
      nameError := CategoryNameError(nameField);
      refetch := false;
      submitted := true;
      if nameError.Some? || res.Failed? {
        return;
      }
      nameField := "";
      showAdd := false;
      refetch := true;
    }

    /** A row's Edit button: select the row, prefill its name, open the dialog. */
    method OpenEdit(cat: Category)
      modifies this`selected, this`nameField, this`showEdit
      ensures selected == Some(cat) && nameField == cat.name && showEdit
    {
      selected := Some(cat);
      nameField := cat.name;
      showEdit := true;
    }

    /** Cancel in the edit dialog: close it and reset the form, which also
        forgets that it was submitted; the selection stays. */
    method CancelEdit()
      modifies this`showEdit, this`nameField, this`nameError, this`submitted
      ensures !showEdit && nameField == "" && nameError == None && !submitted
    {
      showEdit := false;
      nameField, nameError, submitted := "", None, false;
    }

    /** Submitting the edit dialog runs the name rule, then `handleEditCategory`;
        either way the form counts as submitted afterwards. */
    method SubmitEdit(res: Remote<()>) returns (refetch: bool)
      modifies this`showEdit, this`selected, this`nameField, this`nameError, this`submitted
      ensures submitted
      ensures CategoryNameError(old(nameField)).Some? ==>
                && nameError == CategoryNameError(old(nameField)) && !refetch
                && showEdit == old(showEdit) && selected == old(selected) && nameField == old(nameField)
      ensures CategoryNameError(old(nameField)).None? ==>
                && nameError == None
                && (showEdit, selected, nameField, refetch) == AfterEdit(old(showEdit), old(selected), old(nameField), res)
    {
      nameError := CategoryNameError(nameField);
      refetch := false;
      submitted := true;
      if nameError.Some? {
        return;
      }
      refetch := HandleEdit(res);
    }

    /** `handleEditCategory`: nothing without a selection; after a successful
        update the form is reset, the dialog closed and the selection cleared. */
    method HandleEdit(res: Remote<()>) returns (refetch: bool)
      modifies this`showEdit, this`selected, this`nameField
      ensures (showEdit, selected, nameField, refetch) == AfterEdit(old(showEdit), old(selected), old(nameField), res)
    {
      refetch := false;
      if selected.None? {
        return;
      }
      if res.Failed? {
        return;
      }
      nameField := "";
      showEdit := false;
      selected := None;
      refetch := true;
    }

    /** A row's Delete button: select the row and open the confirmation. */
    method OpenDelete(cat: Category)
      modifies this`selected, this`showDelete
      ensures selected == Some(cat) && showDelete
    {
      selected := Some(cat);
      showDelete := true;
    }

    /** Cancel in the delete confirmation: close it and clear the selection. */
    method CancelDelete()
      modifies this`showDelete, this`selected
      ensures !showDelete && selected == None
    {
      showDelete := false;
      selected := None;
    }

    /** `handleDeleteCategory`: nothing without a selection; after a successful
        delete the dialog is closed and the selection cleared. */
    method HandleDelete(res: Remote<()>) returns (refetch: bool)
      modifies this`showDelete, this`selected
      ensures (showDelete, selected, refetch) == AfterDelete(old(showDelete), old(selected), res)
    {
      refetch := false;
      if selected.None? {
        return;
      }
      if res.Failed? {
        return;
      }
      showDelete := false;
      selected := None;
      refetch := true;
    }
  }

  /** Edit dialog flag, selection, name field and refetch after `handleEditCategory`. */
  function AfterEdit(open: bool, selected: Option<Category>, name: string, res: Remote<()>)
    : (r: (bool, Option<Category>, string, bool))
    ensures r.3 <==> selected.Some? && res.Done?
    ensures r.3 ==> !r.0 && r.1 == None && r.2 == ""
    ensures !r.3 ==> r == (open, selected, name, false)
  {
    if selected.None? || res.Failed? then (open, selected, name, false)
    else (false, None, "", true)
  }

  /** Delete dialog flag, selection and refetch after `handleDeleteCategory`. */
  function AfterDelete(open: bool, selected: Option<Category>, res: Remote<()>): (r: (bool, Option<Category>, bool))
    ensures r.2 <==> selected.Some? && res.Done?
    ensures r.2 ==> !r.0 && r.1 == None
    ensures !r.2 ==> r == (open, selected, false)
  {
    if selected.None? || res.Failed? then (open, selected, false)
    else (false, None, true)
  }

  /** A corollary of `AfterEdit` and `AfterDelete`: edit and delete do nothing
      without a selection; a success always ends with the dialog closed and
      nothing selected, and only a success refetches. */
  lemma HandlersNeedSelection(open: bool, selected: Option<Category>, name: string, res: Remote<()>)
    ensures selected.None? ==> AfterEdit(open, None, name, res) == (open, None, name, false)
    ensures selected.None? ==> AfterDelete(open, None, res) == (open, None, false)
    ensures AfterEdit(open, selected, name, res).3 <==> selected.Some? && res.Done?
    ensures AfterEdit(open, selected, name, res).3 ==>
              var (o, s, n, _) := AfterEdit(open, selected, name, res); !o && s == None && n == ""
    ensures AfterDelete(open, selected, res).2 <==> selected.Some? && res.Done?
    ensures AfterDelete(open, selected, res).2 ==>
              var (o, s, _) := AfterDelete(open, selected, res); !o && s == None
  {
  }
}
