/**
 * The notifications controller of the API (`apps/api/notifications/controller.ts`):
 * the paging of a notification query brought into range, and the updates
 * that mark notifications read. The repository and the clock are outside the
 * model; the formatted time of `markAsRead` is an input.
 */
module NotificationsController {
  import opened Wrappers

  /** The paging the repository receives. */
  datatype NotificationQuery = NotificationQuery(pageSize: int, page: int)

  const DefaultPageSize: int := 10
  const MaxPageSize: int := 100

  /** `convertToEntityQuery`: a missing or non-positive page is 0; a missing or non-positive page size is 10, and one above 100 is 100. */
  function ConvertToEntityQuery(page: Option<int>, pageSize: Option<int>): (q: NotificationQuery)
    ensures page.None? || page.value <= 0 ==> q.page == 0
    ensures page.Some? && page.value > 0 ==> q.page == page.value
    ensures pageSize.None? || pageSize.value <= 0 ==> q.pageSize == DefaultPageSize
    ensures pageSize.Some? && pageSize.value > MaxPageSize ==> q.pageSize == MaxPageSize
    ensures pageSize.Some? && 0 < pageSize.value <= MaxPageSize ==> q.pageSize == pageSize.value
  {
    var p := page.GetOr(0);
    var p := if page.Some? && page.value <= 0 then 0 else p;
    var size := pageSize.GetOr(DefaultPageSize);
    var size := if pageSize.Some? && pageSize.value <= 0 then DefaultPageSize else size;
    var size := if pageSize.Some? && pageSize.value > MaxPageSize then MaxPageSize else size;
    NotificationQuery(size, p)
  }

  /** Whatever the input, the page is not negative and the page size lies between 1 and 100. */
  lemma QueryInRange(page: Option<int>, pageSize: Option<int>)
    ensures var q := ConvertToEntityQuery(page, pageSize);
      q.page >= 0 && 1 <= q.pageSize <= MaxPageSize
  {
  }

  /** Converting a converted query again changes nothing. */
  lemma ConvertIdempotent(page: Option<int>, pageSize: Option<int>)
    ensures var q := ConvertToEntityQuery(page, pageSize);
      ConvertToEntityQuery(Some(q.page), Some(q.pageSize)) == q
  {
    QueryInRange(page, pageSize);
  }

  /** One row update of `markAsRead`: the id and the only field it sets. */
  datatype ReadUpdate = ReadUpdate(id: string, readAt: string)

  /** `markAsRead`: one update per id, in order, each setting only `readAt` to the given time. */
  function MarkAsRead(ids: seq<string>, now: string): (updates: seq<ReadUpdate>)
    ensures |updates| == |ids|
    ensures forall i :: 0 <= i < |ids| ==> updates[i].id == ids[i] && updates[i].readAt == now
  {
    seq(|ids|, i requires 0 <= i < |ids| => ReadUpdate(ids[i], now))
  }

  /** Marking a list of ids read is marking each part in turn. */
  lemma MarkAsReadAppend(a: seq<string>, b: seq<string>, now: string)
    ensures MarkAsRead(a + b, now) == MarkAsRead(a, now) + MarkAsRead(b, now)
  {
  }
}
