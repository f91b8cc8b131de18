/** The message-sync panel of one user: the order in which messages are
    shown, when the list is paginated, the placeholders shown for missing
    fields, and how a fetch updates the panel's state. */
module MessageSyncHistory {
  import opened Common
  import opened Seqs

  /** One synchronized message; timestamps are milliseconds since the epoch. */
  datatype Message = Message(
    title: Option<string>,
    content: Option<string>,
    enabled: bool,
    created: Option<int>,
    updated: Option<int>)

  datatype SyncData = SyncData(
    lastSyncTime: Option<int>,
    messageCount: Option<int>,
    team: Option<string>,
    messages: Option<seq<Message>>)

  /** The instant the ordering compares: `Created || 0`. */
  function CreatedKey(m: Message): int {
    m.created.GetOr(0)
  }

  /** Newest first: no message is followed by a strictly newer one. */
  predicate NewestFirstOrdered(s: seq<Message>) {
    forall i, j :: 0 <= i < j < |s| ==> CreatedKey(s[i]) >= CreatedKey(s[j])
  }

  /** Insert `m` in front of the first message that is not strictly newer. */
  function Insert(m: Message, s: seq<Message>): (r: seq<Message>)
    ensures multiset(r) == multiset(s) + multiset{m}
    ensures |r| == |s| + 1
  {
    if s != [] && CreatedKey(s[0]) > CreatedKey(m) then
      assert s == [s[0]] + s[1..];
      [s[0]] + Insert(m, s[1..])
    else
      assert s == [] || s == [s[0]] + s[1..];
      [m] + s
  }

  /** `messages.slice().sort((a, b) => new Date(b.Created || 0) - new Date(a.Created || 0))`:
      a stable sort of a copy, newest first. */
  function NewestFirst(s: seq<Message>): (r: seq<Message>)
    ensures multiset(r) == multiset(s)
    ensures |r| == |s|
  {
    if s == [] then []
    else
      assert s == [s[0]] + s[1..];
      Insert(s[0], NewestFirst(s[1..]))
  }

  lemma {:induction false} InsertOrdered(m: Message, s: seq<Message>)
    requires NewestFirstOrdered(s)
    ensures NewestFirstOrdered(Insert(m, s))
  {
    if s != [] && CreatedKey(s[0]) > CreatedKey(m) {
      InsertOrdered(m, s[1..]);
      var t := Insert(m, s[1..]);
      forall x | x in t ensures CreatedKey(s[0]) >= CreatedKey(x) {
        assert x in multiset(t);
        assert x in multiset(s[1..]) || x == m;
      }
      assert Insert(m, s) == [s[0]] + t;
    }
  }

  /** The displayed list is ordered newest first. */
  lemma {:induction false} NewestFirstIsOrdered(s: seq<Message>)
    ensures NewestFirstOrdered(NewestFirst(s))
  {
    if s != [] {
      NewestFirstIsOrdered(s[1..]);
      InsertOrdered(s[0], NewestFirst(s[1..]));
    }
  }

  function HasKey(k: int): Message -> bool {
    m => CreatedKey(m) == k
  }

  /** The messages of `s` whose key is `k`, in their order in `s`. */
  function WithKey(s: seq<Message>, k: int): seq<Message> {
    Filter(s, HasKey(k))
  }

  lemma {:induction false} InsertWithKey(m: Message, s: seq<Message>, k: int)
    ensures WithKey(Insert(m, s), k) == (if CreatedKey(m) == k then [m] else []) + WithKey(s, k)
  {
    if s != [] && CreatedKey(s[0]) > CreatedKey(m) {
      InsertWithKey(m, s[1..], k);
      FilterCons(s[0], Insert(m, s[1..]), HasKey(k));
      FilterCons(s[0], s[1..], HasKey(k));
      assert s == [s[0]] + s[1..];
      if CreatedKey(m) == k {
        assert CreatedKey(s[0]) != k;
      }
    } else {
      FilterCons(m, s, HasKey(k));
    }
  }

  /** The sort is stable: messages with equal keys keep their original order. */
  lemma {:induction false} NewestFirstIsStable(s: seq<Message>, k: int)
    ensures WithKey(NewestFirst(s), k) == WithKey(s, k)
  {
    if s != [] {
      NewestFirstIsStable(s[1..], k);
      InsertWithKey(s[0], NewestFirst(s[1..]), k);
      FilterCons(s[0], s[1..], HasKey(k));
      assert s == [s[0]] + s[1..];
    }
  }

  /** A message without `Created` counts as the epoch: only messages that are
      not after 1970 may follow it. */
  lemma MissingCreatedSortsLast(s: seq<Message>, i: int, j: int)
    requires 0 <= i < j < |NewestFirst(s)| && NewestFirst(s)[i].created.None?
    ensures CreatedKey(NewestFirst(s)[j]) <= 0
  {
    NewestFirstIsOrdered(s);
  }

  /** `messages.length > 6 && {pageSize: 6, ...}`. */
  datatype ListPagination = NoPagination | Paged(pageSize: nat, small: bool, showSizeChanger: bool)

  const MessagePageSize: nat := 6

  function MessagePagination(count: nat, isMobile: bool): (p: ListPagination)
    ensures p.Paged? <==> count > 6
    ensures p.Paged? ==> p.pageSize == 6 && p.small == isMobile && !p.showSizeChanger
  {
    if count > MessagePageSize then Paged(MessagePageSize, isMobile, false) else NoPagination
  }

  /** A timestamp as shown: "N/A" when missing, otherwise the formatted instant. */
  datatype Stamp = NotAvailable | At(instant: int)

  function RenderTimestamp(t: Option<int>): (s: Stamp)
    ensures s == NotAvailable <==> t.None?
    ensures t.Some? ==> s == At(t.value)
  {
    if t.None? then NotAvailable else At(t.value)
  }

  /** One message card as shown. */
  datatype Card = Card(title: string, enabledTag: string, content: string, created: Stamp, updated: Stamp)

  function MessageCard(m: Message): (c: Card)
    ensures c.title == (if Truthy(m.title) then m.title.value else "Untitled Message")
    ensures c.content == (if Truthy(m.content) then m.content.value else "No content available")
    ensures c.enabledTag == (if m.enabled then "Enabled" else "Disabled")
    ensures c.created == RenderTimestamp(m.created) && c.updated == RenderTimestamp(m.updated)
  {
    Card(OrDefault(m.title, "Untitled Message"), if m.enabled then "Enabled" else "Disabled",
         OrDefault(m.content, "No content available"), RenderTimestamp(m.created), RenderTimestamp(m.updated))
  }

  /** The summary card: last sync time, total messages and team. */
  datatype Summary = Summary(lastSyncTime: Option<int>, totalMessages: int, team: string)

  function SummaryOf(d: SyncData): (s: Summary)
    ensures d.messageCount.None? ==> s.totalMessages == 0
    ensures d.messageCount.Some? ==> s.totalMessages == d.messageCount.value
    ensures s.team == (if Truthy(d.team) then d.team.value else "N/A")
    ensures s.lastSyncTime == d.lastSyncTime
  {
    Summary(d.lastSyncTime, d.messageCount.GetOr(0), OrDefault(d.team, "N/A"))
  }

  datatype MessageList =
    | NoMessagesFound
    | MessageGrid(items: seq<Message>, pagination: ListPagination)

  datatype Panel =
    | Spinner
    | NoSyncData
    | Details(summary: Summary, list: MessageList)

  /** What the panel shows for its state. */
  function PanelOf(loading: bool, syncData: Option<SyncData>, isMobile: bool): (p: Panel)
    ensures loading ==> p == Spinner
    ensures !loading && syncData.None? ==> p == NoSyncData
    ensures !loading && syncData.Some? ==> p.Details? && p.summary == SummaryOf(syncData.value)
    ensures !loading && syncData.Some? && (syncData.value.messages.None? || |syncData.value.messages.value| == 0) ==>
      p.list == NoMessagesFound
  {
    if loading then Spinner
    else if syncData.None? then NoSyncData
    else
      var d := syncData.value;
      var list :=
        if d.messages.Some? && |d.messages.value| > 0 then
          MessageGrid(NewestFirst(d.messages.value), MessagePagination(|d.messages.value|, isMobile))
        else NoMessagesFound;
      Details(SummaryOf(d), list)
  }

  /** The grid shows a reordering of the fetched messages, newest first and
      stable, and is paginated exactly when there are more than six. */
  lemma PanelShowsMessagesNewestFirst(d: SyncData, isMobile: bool)
    requires d.messages.Some? && |d.messages.value| > 0
    ensures var p := PanelOf(false, Some(d), isMobile);
      && p.Details? && p.list.MessageGrid?
      && multiset(p.list.items) == multiset(d.messages.value)
      && NewestFirstOrdered(p.list.items)
      && (forall k :: WithKey(p.list.items, k) == WithKey(d.messages.value, k))
      && (p.list.pagination.Paged? <==> |d.messages.value| > 6)
  {
    NewestFirstIsOrdered(d.messages.value);
    forall k ensures WithKey(NewestFirst(d.messages.value), k) == WithKey(d.messages.value, k) {
      NewestFirstIsStable(d.messages.value, k);
    }
  }

  /** How the awaited `getMessageSync(username)` ended. */
  datatype FetchResult =
    | Fetched(data: Option<SyncData>)      // `response.data`, possibly absent
    | FetchFailed(message: Option<string>) // the thrown error's `message`

  const NoDataMessage: string := "No message sync data found for this user"

  /** The notice a fetch raises: none on success, an info notice when the
      server says there is no data, an error notice otherwise. */
  function FetchNotice(result: FetchResult): (n: Option<Notice>)
    ensures n.None? <==> result.Fetched?
    ensures n == Some(Notice(Info, "No message sync data available for this user"))
      <==> result == FetchFailed(Some(NoDataMessage))
    ensures result.FetchFailed? && result.message != Some(NoDataMessage) ==>
      n == Some(Notice(Error, "Failed to fetch message sync data"))
  {
    match result
    case Fetched(_) => None
    case FetchFailed(message) =>
      if message == Some(NoDataMessage) then Some(Notice(Info, "No message sync data available for this user"))
      else Some(Notice(Error, "Failed to fetch message sync data"))
  }

  /** The panel's state. The messages are sorted on a copy, so nothing here
      reorders `syncData`. */
  class SyncHistory {
    var syncData: Option<SyncData>
    var loading: bool

    constructor ()
      ensures syncData == None && !loading
    {
      syncData := None;
      loading := false;
    }

    /** What the panel shows. */
    function Shown(isMobile: bool): Panel
      reads this
    {
      PanelOf(loading, syncData, isMobile)
    }

    /** `fetchSyncData` up to the awaited call: the spinner is on. */
    method BeginFetch()
      modifies this
      ensures loading && syncData == old(syncData)
      ensures Shown(false) == Spinner && Shown(true) == Spinner
    {
      loading := true;
    }

    /** The rest of `fetchSyncData`: a success replaces the data, a failure
        keeps the previous data, and `finally` turns the spinner off. */
    method FinishFetch(result: FetchResult) returns (notice: Option<Notice>)
      modifies this
      ensures !loading
      ensures result.Fetched? ==> syncData == result.data
      ensures result.FetchFailed? ==> syncData == old(syncData)
      ensures notice == FetchNotice(result)
    {
      match result {
        case Fetched(data) =>
          syncData := data;
        case FetchFailed(_) =>
      }
      notice := FetchNotice(result);
      loading := false;
    }

    /** A whole fetch. */
    method FetchSyncData(result: FetchResult) returns (notice: Option<Notice>)
      modifies this
      ensures !loading
      ensures syncData == if result.Fetched? then result.data else old(syncData)
      ensures notice == FetchNotice(result)
    {
      BeginFetch();
      notice := FinishFetch(result);
    }
  }
}
