/** The folder/task/contact reconciliation of the TypeScript exporter
    (index.ts): the record shapes it reads and writes, and the nested
    `folders.map` / `tasks.filter` / `contacts.filter` expression, lifted into
    the pure function `Reconcile`. */
module Structure {
  import opened Wrappers
  import opened Seqs

  /** A task as the tasks endpoint returns it when asked for `parentIds` and
      `responsibleIds`; both id lists are optional. */
  datatype Task = Task(
    id: string,
    title: string,
    status: string,
    parentIds: Option<seq<string>>,
    responsibleIds: Option<seq<string>>,
    createdDate: string,
    updatedDate: string,
    permalink: string)

  /** One entry of a contact's `profiles` list; only its optional email is read. */
  datatype Profile = Profile(email: Option<string>)

  datatype Contact = Contact(id: string, firstName: string, lastName: string, profiles: seq<Profile>)

  datatype Folder = Folder(id: string, title: string, scope: string)

  /** The `{ id, name, email? }` record a contact becomes inside a task. */
  datatype Assignee = Assignee(id: string, name: string, email: Option<string>)

  /** A task without its raw id lists, with its contacts resolved. */
  datatype StructuredTask = StructuredTask(
    id: string,
    title: string,
    status: string,
    createdDate: string,
    updatedDate: string,
    permalink: string,
    assignees: seq<Assignee>)

  /** A folder with the tasks filed under it: one unit of the output document. */
  datatype StructuredFolder = StructuredFolder(
    id: string,
    title: string,
    scope: string,
    tasks: seq<StructuredTask>)

  /** `ids?.includes(x)` read as a condition: an absent list includes nothing. */
  predicate Includes(ids: Option<seq<string>>, x: string)
    ensures Includes(ids, x) <==> ids.Some? && exists i :: 0 <= i < |ids.value| && ids.value[i] == x
  {
    ids.Some? && x in ids.value
  }

  /** `profiles[0]?.email`: absent when there is no first profile or it has no email. */
  function FirstEmail(profiles: seq<Profile>): (r: Option<string>)
    ensures r.Some? <==> |profiles| > 0 && profiles[0].email.Some?
    ensures r.Some? ==> r.value == profiles[0].email.value
  {
    if |profiles| == 0 then None else profiles[0].email
  }

  /** The template `${firstName} ${lastName}`. */
  function FullName(c: Contact): (r: string)
    ensures |r| == |c.firstName| + 1 + |c.lastName|
    ensures r[..|c.firstName|] == c.firstName
    ensures r[|c.firstName|] == ' '
    ensures r[|c.firstName| + 1..] == c.lastName
  {
    c.firstName + " " + c.lastName
  }

  function ToAssignee(c: Contact): Assignee
  {
    Assignee(c.id, FullName(c), FirstEmail(c.profiles))
  }

  /** The filter on contacts for task `t`: the contact's id is one of the
      task's responsible ids. */
  function ResponsibleFor(t: Task): Contact -> bool
  {
    (c: Contact) => Includes(t.responsibleIds, c.id)
  }

  /** The filter on tasks for folder `f`: the folder's id is one of the
      task's parent ids. */
  function FiledUnder(f: Folder): Task -> bool
  {
    (t: Task) => Includes(t.parentIds, f.id)
  }

  /** The contacts responsible for `t`, in the order of the contact
      collection, each turned into an assignee record. */
  function Assignees(t: Task, contacts: seq<Contact>): (r: seq<Assignee>)
    ensures |r| <= |contacts|
    ensures forall k :: 0 <= k < |r| ==> Includes(t.responsibleIds, r[k].id)
  {
    Map(ToAssignee, Filter(ResponsibleFor(t), contacts))
  }

  /** The task record copied field by field, minus the raw id lists, with its
      assignees attached. */
  function StructureTask(t: Task, contacts: seq<Contact>): (r: StructuredTask)
    ensures r.id == t.id && r.title == t.title && r.status == t.status
    ensures r.createdDate == t.createdDate && r.updatedDate == t.updatedDate
    ensures r.permalink == t.permalink
  {
    StructuredTask(t.id, t.title, t.status, t.createdDate, t.updatedDate, t.permalink, Assignees(t, contacts))
  }

  /** `StructureTask` with the contact collection fixed, as the inner `map` applies it. */
  function StructureWith(contacts: seq<Contact>): Task -> StructuredTask
  {
    (t: Task) => StructureTask(t, contacts)
  }

  /** One folder of the output: its own fields and the tasks filed under it. */
  function StructureFolder(f: Folder, tasks: seq<Task>, contacts: seq<Contact>): (r: StructuredFolder)
    ensures r.id == f.id && r.title == f.title && r.scope == f.scope
    ensures |r.tasks| == |MatchingIndices(FiledUnder(f), tasks)|
    ensures forall k :: 0 <= k < |r.tasks| ==>
              r.tasks[k] == StructureTask(tasks[MatchingIndices(FiledUnder(f), tasks)[k]], contacts)
  {
    FilterAtIndices(FiledUnder(f), tasks);
    StructuredFolder(f.id, f.title, f.scope, Map(StructureWith(contacts), Filter(FiledUnder(f), tasks)))
  }

  /** The whole reconciliation: one output folder per input folder, in the
      folder collection's order, each holding the tasks filed under it. */
  function Reconcile(folders: seq<Folder>, tasks: seq<Task>, contacts: seq<Contact>): (r: seq<StructuredFolder>)
    ensures |r| == |folders|
    ensures forall i :: 0 <= i < |folders| ==>
              r[i].id == folders[i].id && r[i].title == folders[i].title && r[i].scope == folders[i].scope
  {
    Map((f: Folder) => StructureFolder(f, tasks, contacts), folders)
  }
}
