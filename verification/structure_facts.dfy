/** What the reconciliation guarantees about its output: which tasks are
    filed under which folder and in what order, which contacts become
    assignees and in what order, and the boundary cases. */
module StructureFacts {
  import opened Wrappers
  import opened Seqs
  import opened Structure

  /** Folder `i` of the output holds, in order, exactly the tasks at the
      positions whose parent ids name that folder, each once per occurrence
      in the task collection, however often the folder id is repeated in its
      parent ids. */
  lemma FolderTasksAtMatchingIndices(folders: seq<Folder>, tasks: seq<Task>, contacts: seq<Contact>, i: nat)
    requires i < |folders|
    ensures var out := Reconcile(folders, tasks, contacts)[i].tasks;
            var idx := MatchingIndices(FiledUnder(folders[i]), tasks);
            && Increasing(idx)
            && (forall j :: 0 <= j < |tasks| ==> (j in idx <==> Includes(tasks[j].parentIds, folders[i].id)))
            && |out| == |idx|
            && (forall k :: 0 <= k < |idx| ==> idx[k] < |tasks| && out[k] == StructureTask(tasks[idx[k]], contacts))
  {
  }

  /** A task is filed under every folder its parent ids name, not just one. */
  lemma TaskFiledUnderEveryParent(folders: seq<Folder>, tasks: seq<Task>, contacts: seq<Contact>, j: nat)
    requires j < |tasks|
    ensures forall i :: 0 <= i < |folders| && Includes(tasks[j].parentIds, folders[i].id) ==>
              StructureTask(tasks[j], contacts) in Reconcile(folders, tasks, contacts)[i].tasks
  {
  }

  /** A task whose parent ids name no folder of the collection -- because
      they are absent, or only name folders that were not fetched -- leaves
      the output unchanged: tasks never create folders. */
  lemma UnfiledTaskIsIgnored(folders: seq<Folder>, tasks: seq<Task>, contacts: seq<Contact>, j: nat)
    requires j < |tasks|
    requires forall i :: 0 <= i < |folders| ==> !Includes(tasks[j].parentIds, folders[i].id)
    ensures Reconcile(folders, tasks[..j] + tasks[j + 1..], contacts) == Reconcile(folders, tasks, contacts)
  {
    var r := Reconcile(folders, tasks, contacts);
    var r' := Reconcile(folders, tasks[..j] + tasks[j + 1..], contacts);
    forall i | 0 <= i < |folders|
      ensures r'[i] == r[i]
    {
      FilterSkipsRejected(FiledUnder(folders[i]), tasks, j);
    }
  }

  /** The raw parent ids do not reach the structured task: two tasks that
      differ only in their parent ids structure identically. */
  lemma StructuredTaskForgetsParentIds(t: Task, parents: Option<seq<string>>, contacts: seq<Contact>)
    ensures StructureTask(t.(parentIds := parents), contacts) == StructureTask(t, contacts)
  {
  }

  /** With no tasks, every folder is present and empty. */
  lemma NoTasksGivesEmptyFolders(folders: seq<Folder>, contacts: seq<Contact>)
    ensures forall i :: 0 <= i < |folders| ==> Reconcile(folders, [], contacts)[i].tasks == []
  {
  }

  /** The assignees of a task are exactly the contacts at the positions whose
      id is one of the task's responsible ids, in the order of the contact
      collection (not the order of the responsible ids); responsible ids that
      match no contact are dropped. Each assignee carries the contact's id,
      the name "first last" and the email of the first profile, if any. */
  lemma AssigneesAtMatchingIndices(t: Task, contacts: seq<Contact>)
    ensures var a := Assignees(t, contacts);
            var idx := MatchingIndices(ResponsibleFor(t), contacts);
            && Increasing(idx)
            && (forall j :: 0 <= j < |contacts| ==> (j in idx <==> Includes(t.responsibleIds, contacts[j].id)))
            && |a| == |idx|
            && (forall k :: 0 <= k < |idx| ==>
                  idx[k] < |contacts| &&
                  a[k].id == contacts[idx[k]].id &&
                  a[k].name == contacts[idx[k]].firstName + " " + contacts[idx[k]].lastName &&
                  a[k].email == (if |contacts[idx[k]].profiles| == 0 then None
                                 else contacts[idx[k]].profiles[0].email))
  {
    var p := ResponsibleFor(t);
    var sel := Filter(p, contacts);
    var idx := MatchingIndices(p, contacts);
    FilterAtIndices(p, contacts);
    forall k | 0 <= k < |idx|
      ensures Assignees(t, contacts)[k] == ToAssignee(contacts[idx[k]])
    {
      assert sel[k] == contacts[idx[k]];
    }
  }

  /** Absent responsible ids, or an empty contact collection, give an empty
      (never missing) assignee list. */
  lemma NoAssigneesWithoutResponsiblesOrContacts(t: Task, contacts: seq<Contact>)
    requires t.responsibleIds.None? || |contacts| == 0
    ensures Assignees(t, contacts) == []
  {
  }

  /** With no contacts, every task of every folder has an empty assignee list. */
  lemma NoContactsGivesNoAssignees(folders: seq<Folder>, tasks: seq<Task>)
    ensures forall i, k :: 0 <= i < |folders| && 0 <= k < |Reconcile(folders, tasks, [])[i].tasks| ==>
              Reconcile(folders, tasks, [])[i].tasks[k].assignees == []
  {
  }

  /** Only which ids a task lists as responsible matters, not their order or
      repetitions: two tasks that include the same ids get the same assignees. */
  lemma AssigneesDependOnlyOnIncludedIds(t1: Task, t2: Task, contacts: seq<Contact>)
    requires forall x :: Includes(t1.responsibleIds, x) <==> Includes(t2.responsibleIds, x)
    ensures Assignees(t1, contacts) == Assignees(t2, contacts)
  {
    FilterCongruent(ResponsibleFor(t1), ResponsibleFor(t2), contacts);
  }

  /** Assignees follow the contact collection: a task naming `c2` before `c1`
      still lists `c1` first when `c1` comes first among the contacts. */
  lemma AssigneesFollowContactOrder(t: Task, c1: Contact, c2: Contact)
    requires t.responsibleIds == Some([c2.id, c1.id])
    ensures Assignees(t, [c1, c2]) == [ToAssignee(c1), ToAssignee(c2)]
  {
    var p := ResponsibleFor(t);
    assert p(c1) && p(c2);
    SingletonFilter(p, c1);
    SingletonFilter(p, c2);
    FilterAppend(p, [c1], [c2]);
    assert [c1] + [c2] == [c1, c2];
    var a := Map(ToAssignee, [c1, c2]);
    assert a[0] == ToAssignee(c1) && a[1] == ToAssignee(c2);
  }

  /** A single folder and a single task filed under it give that folder
      holding that one task. */
  lemma SingleFiledTask(f: Folder, t: Task, contacts: seq<Contact>)
    requires Includes(t.parentIds, f.id)
    ensures Reconcile([f], [t], contacts) == [StructuredFolder(f.id, f.title, f.scope, [StructureTask(t, contacts)])]
  {
    assert Filter(FiledUnder(f), [t]) == [t];
    assert Map(StructureWith(contacts), [t]) == [StructureTask(t, contacts)];
    assert StructureFolder(f, [t], contacts) == StructuredFolder(f.id, f.title, f.scope, [StructureTask(t, contacts)]);
  }

  /** A single contact the task lists as responsible is its one assignee. */
  lemma SingleResponsibleContact(t: Task, c: Contact)
    requires Includes(t.responsibleIds, c.id)
    ensures Assignees(t, [c]) == [ToAssignee(c)]
  {
  }

  /** Only which folder ids a task's parent ids include matters, not their
      order or repetitions, nor a missing list against an empty one: swapping
      one task's parent ids for a list that includes the same ids leaves
      every output folder unchanged. */
  lemma FolderDependsOnlyOnIncludedParentIds(f: Folder, tasks: seq<Task>, contacts: seq<Contact>,
                                             j: nat, parents: Option<seq<string>>)
    requires j < |tasks|
    requires forall x :: Includes(parents, x) <==> Includes(tasks[j].parentIds, x)
    ensures StructureFolder(f, tasks[j := tasks[j].(parentIds := parents)], contacts) == StructureFolder(f, tasks, contacts)
  {
    var tasks' := tasks[j := tasks[j].(parentIds := parents)];
    var p := FiledUnder(f);
    assert forall i :: 0 <= i < |tasks| ==> p(tasks'[i]) == p(tasks[i]);
    MatchingIndicesAgree(p, tasks', p, tasks, 0);
    var idx := MatchingIndices(p, tasks);
    var a, b := StructureFolder(f, tasks', contacts), StructureFolder(f, tasks, contacts);
    forall k | 0 <= k < |idx|
      ensures a.tasks[k] == b.tasks[k]
    {
      StructuredTaskForgetsParentIds(tasks[idx[k]], parents, contacts);
    }
  }

  /** A folder id repeated in a task's parent ids files the task once; an
      instance of `FolderDependsOnlyOnIncludedParentIds`, since `[f.id, f.id]`
      includes the same ids as `[f.id]`. */
  lemma RepeatedParentIdFilesOnce(f: Folder, t: Task, contacts: seq<Contact>)
    requires t.parentIds == Some([f.id, f.id])
    ensures Reconcile([f], [t], contacts) == [StructuredFolder(f.id, f.title, f.scope, [StructureTask(t, contacts)])]
  {
    var once := t.(parentIds := Some([f.id]));
    assert forall x :: Includes(Some([f.id]), x) <==> Includes(t.parentIds, x) by {
      forall x ensures Includes(Some([f.id]), x) <==> Includes(t.parentIds, x) {
        if Includes(t.parentIds, x) {
          assert x == f.id;
          assert Some([f.id]).value[0] == x;
        }
      }
    }
    FolderDependsOnlyOnIncludedParentIds(f, [t], contacts, 0, Some([f.id]));
    assert [t][0 := once] == [once];
    assert Includes(once.parentIds, f.id) by { assert once.parentIds.value[0] == f.id; }
    SingleFiledTask(f, once, contacts);
    StructuredTaskForgetsParentIds(t, Some([f.id]), contacts);
    assert Reconcile([f], [t], contacts)[0] == StructureFolder(f, [t], contacts);
    assert Reconcile([f], [once], contacts)[0] == StructureFolder(f, [once], contacts);
  }

  /** The worked example: one folder, one task filed under it with one
      responsible contact who has an email. */
  lemma WorkedExample()
    ensures var folders := [Folder("F1", "Eng", "wbfolder")];
            var tasks := [Task("T1", "Fix bug", "Active", Some(["F1"]), Some(["C1"]),
                               "2024-01-01", "2024-01-02", "http://x/T1")];
            var contacts := [Contact("C1", "Ana", "Lee", [Profile(Some("a@x.com"))])];
            Reconcile(folders, tasks, contacts) ==
              [StructuredFolder("F1", "Eng", "wbfolder",
                 [StructuredTask("T1", "Fix bug", "Active", "2024-01-01", "2024-01-02", "http://x/T1",
                    [Assignee("C1", "Ana Lee", Some("a@x.com"))])])]
  {
    var folder := Folder("F1", "Eng", "wbfolder");
    var task := Task("T1", "Fix bug", "Active", Some(["F1"]), Some(["C1"]),
                     "2024-01-01", "2024-01-02", "http://x/T1");
    var contact := Contact("C1", "Ana", "Lee", [Profile(Some("a@x.com"))]);
    SingleResponsibleContact(task, contact);
    assert ToAssignee(contact) == Assignee("C1", "Ana Lee", Some("a@x.com"));
    SingleFiledTask(folder, task, [contact]);
  }
}
