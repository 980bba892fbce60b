/** The flat task export of the JavaScript exporter (index.js): each raw task
    becomes one flat record whose id lists are rendered as text. */
module TaskExport {
  import opened Wrappers
  import opened Seqs
  import opened Text

  /** The fields of a raw task that the mapping reads; `responsibles` and
      `parentIds` may be missing. */
  datatype RawTask = RawTask(
    id: string,
    title: string,
    status: string,
    responsibles: Option<seq<string>>,
    parentIds: Option<seq<string>>,
    createdDate: string,
    updatedDate: string,
    permalink: string)

  /** The flat record written out; in the output document its fields are named
      id, name, assignee, status, collections, created_at, updated_at and
      ticket_url. */
  datatype FlatTask = FlatTask(
    id: string,
    name: string,
    assignee: string,
    status: string,
    collections: string,
    createdAt: string,
    updatedAt: string,
    ticketUrl: string)

  /** What a missing id list is rendered as. */
  const NotAvailable: string := "N/A"

  /** What separates the ids of a rendered list. */
  const Separator: string := ", "

  /** `ids ? ids.join(', ') : 'N/A'`: any array is truthy in JavaScript, so
      only a missing list becomes "N/A"; an empty one becomes "". */
  function RenderIds(ids: Option<seq<string>>): (r: string)
    ensures ids.None? ==> r == NotAvailable
    ensures ids.Some? && |ids.value| == 0 ==> r == ""
    ensures ids.Some? && |ids.value| > 0 ==> |r| + |Separator| == Offset(ids.value, Separator, |ids.value|)
  {
    match ids
    case None => NotAvailable
    case Some(list) => Join(list, Separator)
  }

  /** One flat record: the fields renamed, the two id lists rendered. */
  function FlattenTask(t: RawTask): (r: FlatTask)
    ensures r.id == t.id && r.name == t.title && r.status == t.status
    ensures r.createdAt == t.createdDate && r.updatedAt == t.updatedDate && r.ticketUrl == t.permalink
    ensures r.assignee == RenderIds(t.responsibles) && r.collections == RenderIds(t.parentIds)
  {
    FlatTask(t.id, t.title, RenderIds(t.responsibles), t.status, RenderIds(t.parentIds),
             t.createdDate, t.updatedDate, t.permalink)
  }

  /** `mapTasks`: one flat record per raw task, in the same order, with the
      fields renamed and the two id lists rendered as text. */
  function MapTasks(tasks: seq<RawTask>): (r: seq<FlatTask>)
    ensures |r| == |tasks|
    ensures forall i :: 0 <= i < |tasks| ==>
              && r[i].id == tasks[i].id
              && r[i].name == tasks[i].title
              && r[i].status == tasks[i].status
              && r[i].createdAt == tasks[i].createdDate
              && r[i].updatedAt == tasks[i].updatedDate
              && r[i].ticketUrl == tasks[i].permalink
              && r[i].assignee == RenderIds(tasks[i].responsibles)
              && r[i].collections == RenderIds(tasks[i].parentIds)
  {
    Map(FlattenTask, tasks)
  }

  /** The boundary cases of a rendered id list: "N/A" when the list is
      missing, "" when it is empty, the id itself when there is one. */
  lemma RenderedIdsEdgeCases(ids: Option<seq<string>>)
    ensures ids.None? ==> RenderIds(ids) == NotAvailable
    ensures ids == Some([]) ==> RenderIds(ids) == ""
    ensures ids.Some? && |ids.value| == 1 ==> RenderIds(ids) == ids.value[0]
  {
  }

  /** In the text of a present id list, id `k` sits at its offset: the
      lengths of the ids before it, each followed by ", ". */
  lemma RenderedIdAt(list: seq<string>, k: nat)
    requires k < |list|
    ensures Offset(list, Separator, k) + |list[k]| <= |RenderIds(Some(list))|
    ensures RenderIds(Some(list))[Offset(list, Separator, k)..Offset(list, Separator, k) + |list[k]|] == list[k]
  {
    PartAt(list, Separator, k);
  }

  /** In the text of a present id list, every id after the first is
      immediately preceded by ", ". */
  lemma SeparatorBeforeRenderedId(list: seq<string>, k: nat)
    requires 0 < k < |list|
    ensures |Separator| <= Offset(list, Separator, k) <= |RenderIds(Some(list))|
    ensures RenderIds(Some(list))[Offset(list, Separator, k) - |Separator|..Offset(list, Separator, k)] == Separator
  {
    SeparatorBefore(list, Separator, k);
  }

  /** Appending ids to a non-empty list extends its rendering after one more
      separator. */
  lemma RenderAppend(a: seq<string>, b: seq<string>)
    requires |a| > 0 && |b| > 0
    ensures RenderIds(Some(a + b)) == RenderIds(Some(a)) + Separator + RenderIds(Some(b))
  {
    JoinAppend(a, b, Separator);
  }

  /** Each record depends on its own task only: mapping a concatenation maps
      each half. */
  lemma MapTasksAppend(a: seq<RawTask>, b: seq<RawTask>)
    ensures MapTasks(a + b) == MapTasks(a) + MapTasks(b)
  {
  }

  /** The rendering does not tell a missing list from a list holding the one
      id "N/A", while a present empty list stays distinguishable from a
      missing one. */
  lemma MissingListIndistinguishable()
    ensures RenderIds(None) == RenderIds(Some([NotAvailable]))
    ensures RenderIds(None) != RenderIds(Some([]))
  {
  }
}
