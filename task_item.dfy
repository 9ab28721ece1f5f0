/**
 * The task item component (components/tasks/TaskItem.tsx) as an object whose
 * fields are the component's state hooks. Each asynchronous handler is split
 * at its single `await`: `BeginX` runs up to the store call, raises the
 * handler's loading flag and returns the write it issues (or `None` when a
 * guard stops the handler first); `EndX` runs after the store call has
 * settled and clears the flag. Between the two the component is rendered with
 * the flag raised, which is what disables its controls.
 */
module TaskItemComponent {
  import opened Wrappers
  import opened Text
  import opened Activities

  /** The task shown by the item; owner id and creation time are not used by its logic. */
  datatype Task = Task(id: string, title: string, completed: bool, activities: Option<seq<Activity>>)

  /** The one field a handler sends in `updateTask(task.id, { … })`. */
  datatype TaskUpdate =
    | SetTaskCompleted(completed: bool)
    | SetTitle(title: string)
    | SetActivities(activities: seq<Activity>)

  /** A write issued to the task store; whether it succeeds is reported back to the matching `EndX`. */
  datatype Write = UpdateTask(taskId: string, update: TaskUpdate) | DeleteTask(taskId: string)

  /** The component's state hooks, as one value. */
  datatype ItemState = ItemState(
    isExpanded: bool,
    isEditingTitle: bool,
    newTitle: string,
    newActivityName: string,
    loadingDelete: bool,
    loadingUpdate: bool,
    loadingActivity: bool)

  /**
   * The title-edit guard: `None` when no update is issued (blank draft, or a
   * draft identical to the current title), otherwise the title to store.
   */
  function TitleEdit(draft: string, current: string): (r: Option<string>)
    ensures r.None? <==> IsBlank(draft) || draft == current
    ensures r.Some? ==> r.value == Trim(draft) && r.value != [] && IsTrimmed(r.value)
  {
    var t := Trim(draft);
    if t == [] || draft == current then None else Some(t)
  }

  /** A stored title, edited again without change, issues no further update. */
  lemma TitleEditSettles(draft: string, current: string)
    requires TitleEdit(draft, current).Some?
    ensures TitleEdit(TitleEdit(draft, current).value, TitleEdit(draft, current).value) == None
  {
  }

  /** Re-submitting an already stored title against any other current title sends it unchanged. */
  lemma TitleEditStable(draft: string, current: string, later: string)
    requires TitleEdit(draft, current).Some?
    requires later != TitleEdit(draft, current).value
    ensures TitleEdit(TitleEdit(draft, current).value, later) == TitleEdit(draft, current)
  {
    TrimIdempotent(draft);
  }

  /**
   * The guard compares the untrimmed draft with the title, so padding the
   * current title with a space issues an update that stores the same title.
   */
  lemma TitleEditPaddedCurrent(current: string)
    requires current != [] && IsTrimmed(current)
    ensures TitleEdit(" " + current, current) == Some(current)
  {
    TrimLeadingSpace(' ', current);
    TrimOfTrimmed(current);
    assert (" " + current)[0] == ' ';
  }

  class TaskItem {
    /** The `task` prop; the handlers never change it. */
    const task: Task

    var isExpanded: bool
    var isEditingTitle: bool
    var newTitle: string
    var newActivityName: string
    var loadingDelete: bool
    var loadingUpdate: bool
    var loadingActivity: bool

    /** All state hooks at once. */
    function State(): ItemState
      reads this
    {
      ItemState(isExpanded, isEditingTitle, newTitle, newActivityName,
                loadingDelete, loadingUpdate, loadingActivity)
    }

    /** No write is in flight. */
    predicate Idle()
      reads this
    {
      !loadingDelete && !loadingUpdate && !loadingActivity
    }

    /** Mounting: collapsed, not editing, the title draft seeded from the task, nothing loading. */
    constructor(t: Task)
      ensures task == t && Idle()
      ensures State() == ItemState(false, false, t.title, "", false, false, false)
    {
      task := t;
      isExpanded, isEditingTitle := false, false;
      newTitle, newActivityName := t.title, "";
      loadingDelete, loadingUpdate, loadingActivity := false, false, false;
    }

    // --- plain state setters wired to the controls ---

    method ToggleExpanded()
      modifies this
      ensures State() == old(State()).(isExpanded := !old(isExpanded))
    {
      isExpanded := !isExpanded;
    }

    method StartEditingTitle()
      modifies this
      ensures State() == old(State()).(isEditingTitle := true)
    {
      isEditingTitle := true;
    }

    method ChangeTitleDraft(text: string)
      modifies this
      ensures State() == old(State()).(newTitle := text)
    {
      newTitle := text;
    }

    method ChangeActivityDraft(text: string)
      modifies this
      ensures State() == old(State()).(newActivityName := text)
    {
      newActivityName := text;
    }

    // --- handleToggleComplete (the task checkbox is disabled while anything loads) ---

    method BeginToggleComplete(checked: bool) returns (w: Write)
      requires Idle()
      modifies this
      ensures w == UpdateTask(task.id, SetTaskCompleted(checked))
      ensures State() == old(State()).(loadingUpdate := true)
    {
      loadingUpdate := true;
      w := UpdateTask(task.id, SetTaskCompleted(checked));
    }

    method EndToggleComplete()
      modifies this
      ensures State() == old(State()).(loadingUpdate := false)
    {
      loadingUpdate := false;
    }

    // --- handleDelete (the delete button is disabled while anything loads) ---

    method BeginDelete(confirmed: bool) returns (w: Option<Write>)
      requires Idle()
      modifies this
      ensures confirmed ==> w == Some(DeleteTask(task.id)) && State() == old(State()).(loadingDelete := true)
      ensures !confirmed ==> w == None && State() == old(State())
    {
      w := None;
      if confirmed {
        loadingDelete := true;
        w := Some(DeleteTask(task.id));
      }
    }

    method EndDelete()
      modifies this
      ensures State() == old(State()).(loadingDelete := false)
    {
      loadingDelete := false;
    }

    // --- handleTitleUpdate (the title input is disabled while the update loads) ---

    method BeginTitleUpdate() returns (w: Option<Write>)
      requires !loadingUpdate
      modifies this
      ensures TitleEdit(old(newTitle), task.title).None? ==>
                w == None && State() == old(State()).(isEditingTitle := false, newTitle := task.title)
      ensures TitleEdit(old(newTitle), task.title).Some? ==>
                w == Some(UpdateTask(task.id, SetTitle(Trim(old(newTitle))))) &&
                State() == old(State()).(loadingUpdate := true)
    {
      var title := TitleEdit(newTitle, task.title);
      if title.None? {
        isEditingTitle := false;
        newTitle := task.title;
        w := None;
        return;
      }
      loadingUpdate := true;
      w := Some(UpdateTask(task.id, SetTitle(title.value)));
    }

    method EndTitleUpdate(success: bool)
      modifies this
      ensures success ==> State() == old(State()).(isEditingTitle := false, loadingUpdate := false)
      ensures !success ==> State() == old(State()).(newTitle := task.title, loadingUpdate := false)
    {
      if success {
        isEditingTitle := false;
      } else {
        newTitle := task.title;
      }
      loadingUpdate := false;
    }

    // --- handleAddActivity (the add form is rendered only while the item is expanded, and is
    //     disabled while an activity write or the delete loads) ---

    method BeginAddActivity(freshId: string) returns (w: Option<Write>)
      requires isExpanded
      requires !loadingActivity && !loadingDelete
      modifies this
      ensures IsBlank(old(newActivityName)) ==> w == None && State() == old(State())
      ensures !IsBlank(old(newActivityName)) ==>
                w == Some(UpdateTask(task.id, SetActivities(
                       AppendActivity(OrEmpty(task.activities), NewActivity(freshId, old(newActivityName)))))) &&
                State() == old(State()).(loadingActivity := true)
    {
      if Trim(newActivityName) == [] {
        return None;
      }
      var activity := NewActivity(freshId, newActivityName);
      var updated := AppendActivity(OrEmpty(task.activities), activity);
      w := Some(UpdateTask(task.id, SetActivities(updated)));
      loadingActivity := true;
    }

    /**
     * The handler's closure tests the `isExpanded` it saw when the form was
     * submitted (`expandedAtSubmit`), not the current one; since the form is
     * only shown while expanded, that value is `true` and the item is never
     * re-expanded here, even when it was collapsed during the write.
     */
    method EndAddActivity(success: bool, expandedAtSubmit: bool)
      modifies this
      ensures success ==> State() == old(State()).(newActivityName := "",
                                                   isExpanded := old(isExpanded) || !expandedAtSubmit,
                                                   loadingActivity := false)
      ensures !success ==> State() == old(State()).(loadingActivity := false)
    {
      if success {
        newActivityName := "";
        if !expandedAtSubmit {
          isExpanded := true;
        }
      }
      loadingActivity := false;
    }

    // --- handleToggleActivity (activity checkboxes are disabled while an activity write or the delete loads) ---

    method BeginToggleActivity(activityId: string, completed: bool) returns (w: Write)
      requires !loadingActivity && !loadingDelete
      modifies this
      ensures w == UpdateTask(task.id, SetActivities(SetCompleted(OrEmpty(task.activities), activityId, completed)))
      ensures State() == old(State()).(loadingActivity := true)
    {
      loadingActivity := true;
      w := UpdateTask(task.id, SetActivities(SetCompleted(OrEmpty(task.activities), activityId, completed)));
    }

    method EndToggleActivity()
      modifies this
      ensures State() == old(State()).(loadingActivity := false)
    {
      loadingActivity := false;
    }

    // --- handleDeleteActivity (activity delete buttons are disabled while an activity write or the delete loads) ---

    method BeginDeleteActivity(activityId: string, confirmed: bool) returns (w: Option<Write>)
      requires !loadingActivity && !loadingDelete
      modifies this
      ensures !confirmed ==> w == None && State() == old(State())
      ensures confirmed ==>
                w == Some(UpdateTask(task.id, SetActivities(RemoveActivity(OrEmpty(task.activities), activityId)))) &&
                State() == old(State()).(loadingActivity := true)
    {
      if !confirmed {
        return None;
      }
      loadingActivity := true;
      w := Some(UpdateTask(task.id, SetActivities(RemoveActivity(OrEmpty(task.activities), activityId))));
    }

    method EndDeleteActivity()
      modifies this
      ensures State() == old(State()).(loadingActivity := false)
    {
      loadingActivity := false;
    }
  }

  /**
   * A collapse during the write survives a successful add: the handler does
   * not re-expand the item.
   */
  method CollapseDuringAdd(item: TaskItem, freshId: string)
    requires item.isExpanded
    requires !item.loadingActivity && !item.loadingDelete && !IsBlank(item.newActivityName)
    modifies item
    ensures !item.isExpanded && item.newActivityName == "" && !item.loadingActivity
  {
    var expanded := item.isExpanded;
    var w := item.BeginAddActivity(freshId);
    item.ToggleExpanded();
    item.EndAddActivity(true, expanded);
  }

  /**
   * `handleAddActivity` start to finish: whether or not the store accepts
   * the write, the activity flag is down again afterwards.
   */
  method AddActivityAttempt(item: TaskItem, freshId: string, success: bool) returns (w: Option<Write>)
    requires item.isExpanded
    requires !item.loadingActivity && !item.loadingDelete
    modifies item
    ensures !item.loadingActivity && item.loadingUpdate == old(item.loadingUpdate)
    ensures item.isExpanded
    ensures w.None? <==> IsBlank(old(item.newActivityName))
    ensures w.Some? && success ==> item.newActivityName == ""
    ensures w.Some? && !success ==> item.newActivityName == old(item.newActivityName)
  {
    var expanded := item.isExpanded;
    w := item.BeginAddActivity(freshId);
    if w.Some? {
      assert item.loadingActivity;
      item.EndAddActivity(success, expanded);
    }
  }
}
