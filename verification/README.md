# Wrike export: reconciliation and flat task mapping

A Dafny model of the two pure data-shaping steps of a small Wrike export tool.

- **Reconciliation** (`index.ts`). Folders, tasks and contacts arrive as three
  independent collections. The tool nests them into a folder → tasks →
  assignees tree. A task is filed under a folder when the task's optional
  `parentIds` list includes the folder's id. A contact becomes an assignee of
  a task when the task's optional `responsibleIds` list includes the
  contact's id. In the source this is one nested `folders.map` /
  `tasks.filter` / `contacts.filter` expression inside `fetchAndProcessData`.
  Here it is the pure function `Structure.Reconcile`.
- **Flat task mapping** (`index.js`, `mapTasks`). Each raw task becomes one
  flat record. Fields are renamed, and the optional `responsibles` and
  `parentIds` lists are rendered as `", "`-joined text, or `"N/A"` when the
  list is missing. The mapping reads a field named `responsibles`, not
  `responsibleIds`; `TaskExport.RawTask` keeps that name.

Modules:

- `Wrappers` (`wrappers.dfy`): `Option`, used for every optional property.
- `Seqs` (`seqs.dfy`): `Filter` and `Map` as JavaScript's array methods.
  `MatchingIndices` is an index-based reference: the positions whose element
  passes the filter, in increasing order. `FilterAtIndices` ties the two
  together. Order and multiplicity are stated through it.
- `Text` (`text.dfy`): `Join` (JavaScript's `Array.prototype.join`) and the
  layout of its result, with `Offset` giving where each part starts.
- `Structure` (`structure.dfy`): the record shapes of `index.ts` (`Task`,
  `Contact` with its `profiles`, `Folder`, `StructuredTask`,
  `StructuredFolder`, and the inline `{ id, name, email? }` as `Assignee`),
  plus the reconciliation.
- `StructureFacts` (`structure_facts.dfy`): lemmas about the reconciliation.
- `TaskExport` (`task_export.dfy`): the raw and flat task shapes of
  `index.js`, `RenderIds` and `MapTasks`.

Optional properties are `Option` values. `ids?.includes(x)` is
`Structure.Includes`, which is false for a missing list. `profiles[0]?.email`
is `Structure.FirstEmail`, which is `None` for an empty profile list or a first
profile without an email. Every operation is a pure function, so equal inputs
always give equal outputs.

Behaviours of the code worth spelling out:

- Assignees come out in contact-collection order, not `responsibleIds`
  order, because the filter runs over the contacts
  (`AssigneesFollowContactOrder`).
- A folder id repeated in a task's parent ids files the task once, because
  `includes` is a membership test (`RepeatedParentIdFilesOnce`).
- Tasks are not de-duplicated: a task that occurs twice in the task
  collection occurs twice under each of its folders
  (`FolderTasksAtMatchingIndices`).
- Missing id lists are not defaulted. In the reconciliation a missing list
  includes nothing, so it behaves as an empty one
  (`AssigneesDependOnlyOnIncludedIds`). In the flat mapping a missing list
  renders as `"N/A"` and an empty one as `""` (`RenderedIdsEdgeCases`).

## Model

| member | source | states |
|---|---|---|
| Structure.Reconcile | index.ts:161-190 | one output folder per input folder, in input order, with `id`, `title` and `scope` copied unchanged |
| Structure.Includes | index.ts:163-166 | `ids?.includes(x)` holds exactly when the list is present and some position of it holds `x`; a missing list includes nothing |
| Structure.FirstEmail | index.ts:170 | the email is present exactly when there is a first profile and it has an email, and then it is that email (also stated per assignee by `AssigneesAtMatchingIndices`) |
| Structure.FullName | index.ts:169 | the name is the first name, one space, then the last name, and nothing else |
| Structure.StructureFolder | index.ts:161-189 | one output folder copies `id`, `title` and `scope`, and its tasks are the structured tasks at exactly the matching task positions, in order |
| Structure.Assignees | index.ts:165-171 | there are never more assignees than contacts, and every assignee's id is one the task lists as responsible; each kept contact becomes a `{ id, name, email }` record through `Structure.ToAssignee`, whose three fields `StructureFacts.AssigneesAtMatchingIndices` states |
| Structure.StructureTask | index.ts:173-181 | a structured task copies `id`, `title`, `status`, `createdDate`, `updatedDate` and `permalink` unchanged; the raw id lists are not part of its type |
| StructureFacts.StructuredTaskForgetsParentIds | index.ts:173-181 | the raw parent ids do not reach the structured task: tasks differing only in `parentIds` structure identically |
| StructureFacts.FolderTasksAtMatchingIndices | index.ts:162-164 | a folder's tasks are the tasks at exactly those positions whose parent ids include the folder id, in increasing position order, once per occurrence in the task collection |
| StructureFacts.TaskFiledUnderEveryParent | index.ts:161-163 | a task is filed under every folder its parent ids name, not just one |
| StructureFacts.UnfiledTaskIsIgnored | index.ts:161-163 | removing a task whose parent ids are missing or name no fetched folder does not change the output; tasks never create folders |
| StructureFacts.NoTasksGivesEmptyFolders | index.ts:161-189 | with no tasks, every folder is still output, with an empty task list |
| StructureFacts.AssigneesAtMatchingIndices | index.ts:165-171 | assignees are the contacts at exactly the positions whose id is a responsible id, in contact-collection order; unmatched responsible ids are dropped; each has the contact's id, the name `first + " " + last`, and the email of the first profile, absent without one |
| StructureFacts.NoAssigneesWithoutResponsiblesOrContacts | index.ts:165-166 | a missing `responsibleIds` or an empty contact collection gives an empty assignee list |
| StructureFacts.NoContactsGivesNoAssignees | index.ts:164-181 | with no contacts, every task of every folder has an empty assignee list |
| StructureFacts.AssigneesDependOnlyOnIncludedIds | index.ts:166 | the assignees depend only on which ids are included, not on their order or repetition; a missing list behaves as an empty one |
| StructureFacts.AssigneesFollowContactOrder | index.ts:165-166 | a task naming `c2` before `c1` lists `c1` first when `c1` precedes `c2` among the contacts |
| StructureFacts.FolderDependsOnlyOnIncludedParentIds | index.ts:162-164 | an output folder does not change when one task's `parentIds` is replaced by any list that includes the same ids, so order, repetition and missing-versus-empty make no difference |
| StructureFacts.RepeatedParentIdFilesOnce | index.ts:162-163 | a folder id listed twice in a task's parent ids files the task once |
| StructureFacts.WorkedExample | index.ts:161-190 | one folder, one task and one contact with an email reconcile to the expected nested record |
| Text.Join | index.js:38-40 | the joined text is as long as the parts plus one separator between each consecutive pair |
| Text.PartAt | index.js:38-40 | in the joined text, part `k` occupies the positions from its offset (the lengths of the earlier parts, each plus one separator) |
| Text.SeparatorBefore | index.js:38-40 | in the joined text, every part after the first is immediately preceded by one separator |
| Text.JoinAppend | index.js:38-40 | joining two non-empty lists one after the other equals joining each and putting one separator between them |
| TaskExport.RenderIds | index.js:38-40 | a missing list renders as `"N/A"`, an empty one as `""`, and a non-empty one as text as long as its ids plus one `", "` between each pair (contents fixed by `RenderedIdAt`, `SeparatorBeforeRenderedId`, `RenderAppend`) |
| TaskExport.FlattenTask | index.js:36-43 | one flat record: `name`, `created_at`, `updated_at`, `ticket_url` take `title`, `createdDate`, `updatedDate`, `permalink`; `id` and `status` are copied; `assignee` and `collections` render `responsibles` and `parentIds` |
| TaskExport.MapTasks | index.js:34-45 | one flat record per raw task, same length and order; `name`, `created_at`, `updated_at` and `ticket_url` take `title`, `createdDate`, `updatedDate` and `permalink`; `id` and `status` are copied; `assignee` renders `responsibles` and `collections` renders `parentIds` |
| TaskExport.RenderedIdsEdgeCases | index.js:38-40 | a missing list renders as `"N/A"`, an empty one as `""` (a present array is truthy), and a single id as itself, with no separator |
| TaskExport.RenderedIdAt | index.js:38-40 | in the rendering of a present list, id `k` sits at its offset: the lengths of the earlier ids, each plus `", "` |
| TaskExport.SeparatorBeforeRenderedId | index.js:38-40 | in the rendering of a present list, every id after the first is immediately preceded by `", "` |
| TaskExport.MapTasksAppend | index.js:34-45 | each flat record depends on its own task only: mapping a concatenation maps each half |
| TaskExport.RenderAppend | index.js:38-40 | rendering a concatenation of two non-empty lists is rendering each half with `", "` between them |
| TaskExport.MissingListIndistinguishable | index.js:38-40 | a missing list and the list `["N/A"]` render alike, while a missing list and an empty one do not |

## Left out

- HTTP fetching with axios (`index.ts:140-145`, `index.js:17-31`). This is network I/O through a library that is not part of this model. `index.ts` has no catch, so a failed fetch there does not turn into an empty collection. `index.js` returns `undefined` on failure, and its `main` then skips the mapping.
- Loading the API token from the environment and exiting when it is missing (`index.ts:89-97`, `index.js:6-11`). This is process and environment plumbing.
- Writing files and JSON pretty-printing (`saveToFile`, `index.ts:147-154`; `saveTasksToFile`, `index.js:48-52`). This is filesystem I/O, and `JSON.stringify` is a library serialiser. Omitting `email` when it is undefined matches `Option.None` here.
- Orchestration and async sequencing (`fetchAndProcessData` at `index.ts:156-159` and `192`, `main` at `index.ts:195-199` and `index.js:55-61`). This is control flow only.
- The commented-out earlier variant (`index.ts:1-83`). It saves tasks, contacts and folders to three separate files without joining them, keeps each folder's `childIds` (defaulting to `[]`) and defaults a missing email to `" "`. It is dead code.
- Malformed payloads in `index.ts`: a contact without a `profiles` array, or id lists holding non-strings. The declared record types rule these out. At run time a contact without `profiles` throws a TypeError once it becomes an assignee of a task filed under a fetched folder (`profiles[0]` is read only inside the map at `index.ts:167-171`); a contact that never becomes such an assignee is never read. A non-string id would never equal a string folder or contact id under `includes`.
- Malformed payloads in `index.js`: it declares no record types, so id lists holding non-strings are possible there; `join` would stringify them. The model takes every id to be a string.
- Strings are Dafny strings, sequences of Unicode scalar values, while JavaScript strings are sequences of UTF-16 code units. The positions given by `Offset`, `PartAt` and `RenderedIdAt` therefore count characters, not JavaScript string indices, and a lone surrogate in a payload has no counterpart here. Equality and concatenation, the only string operations the reconciliation and the mapping use, are unaffected.
