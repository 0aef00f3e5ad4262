/**
 * The selection logic of the task list: the "Select All" box, the per-task boxes
 * and the two flags that draw the header box as checked or indeterminate. The
 * list owns no state; each handler computes the new selection it passes up.
 */
module TaskList {
  import opened ClientTask
  import opened Seqs

  /** The ids of `tasks`, in list order (`tasks.map(task => task.id)`). */
  function Ids(tasks: seq<Task>): (r: seq<int>)
    ensures |r| == |tasks|
    ensures forall i :: 0 <= i < |tasks| ==> r[i] == tasks[i].id
  {
    seq(|tasks|, i requires 0 <= i < |tasks| => tasks[i].id)
  }

  /** `handleSelectAll`: checking selects every task in list order, unchecking selects none. */
  function SelectAll(checked: bool, tasks: seq<Task>): (r: seq<int>)
    ensures checked ==> |r| == |tasks| && forall i :: 0 <= i < |tasks| ==> r[i] == tasks[i].id
    ensures !checked ==> r == []
  {
    if checked then Ids(tasks) else []
  }

  /** `selectedTasks.filter(id => id !== taskId)`. */
  function Without(selected: seq<int>, taskId: int): (r: seq<int>)
    ensures |r| <= |selected|
  {
    if selected == [] then []
    else (if selected[0] == taskId then [] else [selected[0]]) + Without(selected[1..], taskId)
  }

  /** `handleSelectTask`: checking appends the id (duplicates are kept), unchecking removes it. */
  function SelectTask(selected: seq<int>, taskId: int, checked: bool): (r: seq<int>)
    ensures checked ==> |r| == |selected| + 1 && r[..|selected|] == selected && r[|selected|] == taskId
    ensures !checked ==> r == Without(selected, taskId)
  {
    if checked then selected + [taskId] else Without(selected, taskId)
  }

  /** The header box is checked: a non-empty list and as many selected ids as tasks. */
  predicate IsAllSelected(tasks: seq<Task>, selected: seq<int>) {
    |tasks| > 0 && |selected| == |tasks|
  }

  /** The header box is indeterminate: some, but fewer ids than tasks, are selected. */
  predicate IsPartiallySelected(tasks: seq<Task>, selected: seq<int>) {
    |selected| > 0 && |selected| < |tasks|
  }

  /** A task's own box is checked when its id occurs in the selection. */
  predicate IsSelected(selected: seq<int>, task: Task) {
    task.id in selected
  }

  // ---------------------------------------------------------------------------
  // Properties of the selection operations

  /** Removing an id drops every one of its occurrences and keeps the count of every other id. */
  lemma {:induction false} WithoutCounts(selected: seq<int>, taskId: int)
    ensures multiset(Without(selected, taskId))[taskId] == 0
    ensures forall x :: x != taskId ==> multiset(Without(selected, taskId))[x] == multiset(selected)[x]
  {
    if selected != [] {
      WithoutCounts(selected[1..], taskId);
      WithoutCountsStep(selected, taskId);
    }
  }

  lemma WithoutCountsStep(selected: seq<int>, taskId: int)
    requires selected != []
    requires multiset(Without(selected[1..], taskId))[taskId] == 0
    requires forall x :: x != taskId ==> multiset(Without(selected[1..], taskId))[x] == multiset(selected[1..])[x]
    ensures multiset(Without(selected, taskId))[taskId] == 0
    ensures forall x :: x != taskId ==> multiset(Without(selected, taskId))[x] == multiset(selected)[x]
  {
    assert selected == [selected[0]] + selected[1..];
  }

  /** Removing an id works piece by piece, so the remaining ids keep their relative order. */
  lemma {:induction false} WithoutAppend(a: seq<int>, b: seq<int>, taskId: int)
    ensures Without(a + b, taskId) == Without(a, taskId) + Without(b, taskId)
  {
    if a == [] {
      assert a + b == b;
    } else {
      WithoutAppend(a[1..], b, taskId);
      AppendTail(a, b);
      AppendAssoc(if a[0] == taskId then [] else [a[0]], Without(a[1..], taskId), Without(b, taskId));
    }
  }

  /** A selection that does not hold the id is left exactly as it was. */
  lemma {:induction false} WithoutAbsent(selected: seq<int>, taskId: int)
    requires taskId !in selected
    ensures Without(selected, taskId) == selected
  {
    if selected != [] {
      WithoutAbsent(selected[1..], taskId);
      assert selected == [selected[0]] + selected[1..];
    }
  }

  /** Membership after removal: exactly the other ids that were selected. */
  lemma WithoutMembers(selected: seq<int>, taskId: int)
    ensures forall x :: x in Without(selected, taskId) <==> x in selected && x != taskId
  {
    WithoutCounts(selected, taskId);
    forall x ensures x in Without(selected, taskId) <==> x in selected && x != taskId {
      assert x in Without(selected, taskId) <==> x in multiset(Without(selected, taskId));
      assert x in selected <==> x in multiset(selected);
    }
  }

  /** Checking a task marks it selected; unchecking clears it; other tasks keep their state. */
  lemma SelectTaskFlags(selected: seq<int>, t: Task, u: Task, checked: bool)
    requires u.id != t.id
    ensures IsSelected(SelectTask(selected, t.id, checked), t) == checked
    ensures IsSelected(SelectTask(selected, t.id, checked), u) == IsSelected(selected, u)
  {
    WithoutMembers(selected, t.id);
    var r := SelectTask(selected, t.id, checked);
    if checked {
      assert r == selected + [t.id];
    }
  }

  /** Checking and then unchecking a task is the same as unchecking it. */
  lemma CheckThenUncheck(selected: seq<int>, taskId: int)
    ensures SelectTask(SelectTask(selected, taskId, true), taskId, false) == Without(selected, taskId)
  {
    WithoutAppend(selected, [taskId], taskId);
    assert Without([taskId], taskId) == [];
    assert Without(selected, taskId) + [] == Without(selected, taskId);
  }

  /** After Select All on a non-empty list the header is checked and every task is selected. */
  lemma SelectAllChecksAll(tasks: seq<Task>)
    requires |tasks| > 0
    ensures IsAllSelected(tasks, SelectAll(true, tasks))
    ensures !IsPartiallySelected(tasks, SelectAll(true, tasks))
    ensures forall i :: 0 <= i < |tasks| ==> IsSelected(SelectAll(true, tasks), tasks[i])
  {
    var r := SelectAll(true, tasks);
    forall i | 0 <= i < |tasks| ensures IsSelected(r, tasks[i]) {
      assert r[i] == tasks[i].id;
    }
  }

  /** After clearing, the header is neither checked nor indeterminate and no task is selected. */
  lemma SelectNoneClears(tasks: seq<Task>, t: Task)
    ensures !IsAllSelected(tasks, SelectAll(false, tasks))
    ensures !IsPartiallySelected(tasks, SelectAll(false, tasks))
    ensures !IsSelected(SelectAll(false, tasks), t)
  {
  }

  /** The header is never both checked and indeterminate. */
  lemma HeaderStatesExclusive(tasks: seq<Task>, selected: seq<int>)
    ensures !(IsAllSelected(tasks, selected) && IsPartiallySelected(tasks, selected))
    ensures |tasks| > 0 && selected == [] ==> !IsAllSelected(tasks, selected) && !IsPartiallySelected(tasks, selected)
  {
  }

  /**
   * "All selected" counts ids, it does not compare sets: a selection holding one id
   * twice checks the header although another task is not selected.
   */
  lemma AllSelectedByCount(tasks: seq<Task>)
    requires |tasks| == 2 && tasks[0].id != tasks[1].id
    ensures IsAllSelected(tasks, [tasks[0].id, tasks[0].id])
    ensures !IsSelected([tasks[0].id, tasks[0].id], tasks[1])
  {
  }

  /** The component's examples: with ids 1, 2, 3 checking task 1 sends [1]; unchecking 1 from [1, 2] sends [2]. */
  lemma SelectionExamples(tasks: seq<Task>)
    requires |tasks| == 3 && tasks[0].id == 1 && tasks[1].id == 2 && tasks[2].id == 3
    ensures SelectAll(true, tasks) == [1, 2, 3]
    ensures IsAllSelected(tasks, [1, 2, 3]) && IsPartiallySelected(tasks, [1, 2])
    ensures SelectTask([], 1, true) == [1]
    ensures SelectTask([1, 2], 1, false) == [2]
  {
    assert SelectAll(true, tasks)[0] == 1;
  }
}
