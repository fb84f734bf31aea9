// The administrator's review views and actions: the pending queue, the
// filtered and sorted history, the list of processing admins, and the
// handlers that call into the store.

module AdminPanel {
  import opened Types
  import opened Strings
  import opened Collections
  import opened MockStore

  /** `tickets.filter(t => t.status === 'pending')`. */
  function PendingTickets(ts: seq<Ticket>): (r: seq<Ticket>)
    ensures forall i :: 0 <= i < |r| ==> r[i].status == Pending && r[i] in ts
    ensures forall i :: 0 <= i < |ts| && ts[i].status == Pending ==> ts[i] in r
  {
    Filter((t: Ticket) => t.status == Pending, ts)
  }

  /** The queue keeps store order: the pending tickets of a concatenation are
      those of the first part followed by those of the second. */
  lemma PendingInStoreOrder(a: seq<Ticket>, b: seq<Ticket>)
    ensures PendingTickets(a + b) == PendingTickets(a) + PendingTickets(b)
  {
    FilterConcat((t: Ticket) => t.status == Pending, a, b);
  }

  /** A decision never puts a ticket back in the queue: a processed ticket
      stays processed, and the queue shrinks by one exactly when the id named
      a pending ticket. A processed ticket can still be decided again, which
      replaces its status and its processing stamp. */
  lemma ReviewShrinksQueue(ts: seq<Ticket>, id: string, status: Status, admin: string, now: int)
    requires status != Pending
    ensures var r := SetStatus(ts, id, status, admin, now);
            forall j :: 0 <= j < |ts| && ts[j].status != Pending ==> r[j].status != Pending
    ensures |PendingTickets(SetStatus(ts, id, status, admin, now))|
         == |PendingTickets(ts)| - if IdTaken(ts, id) && ts[IndexOfId(ts, id)].status == Pending then 1 else 0
  {
    if IdTaken(ts, id) {
      var i := IndexOfId(ts, id);
      assert SetStatus(ts, id, status, admin, now) == ts[i := Processed(ts[i], status, admin, now)];
      FilterLengthUpdate((t: Ticket) => t.status == Pending, ts, i, Processed(ts[i], status, admin, now));
    }
  }

  /** The identifier recorded as `processedBy`: the configured admin name,
      or the login email when the name is empty. */
  function AdminIdentifier(config: AppConfig, adminEmail: string): (r: string)
    ensures config.adminName != "" ==> r == config.adminName
    ensures config.adminName == "" ==> r == adminEmail
  {
    if config.adminName != "" then config.adminName else adminEmail
  }

  /** The status drop-down of the history tab. */
  datatype StatusFilter = AllStatuses | OnlyApproved | OnlyRejected

  /** The admin drop-down value that switches the admin filter off. */
  const AllAdmins: string := "all"

  /** The sort key `t.processedAt || 0`. */
  function ProcessedKey(t: Ticket): int {
    t.processedAt.GetOr(0)
  }

  /** The search box: empty matches everything; otherwise the lowercased
      query must occur in the lowercased name, ticket number or processing
      admin, or, unchanged in case, in the mobile number. */
  predicate MatchesSearch(t: Ticket, search: string) {
    search == [] ||
    var q := Lower(search);
    Includes(Lower(t.name), q) || Includes(Lower(t.ticketNumber), q)
    || Includes(Lower(t.processedBy.GetOr("")), q) || Includes(t.mobile, q)
  }

  /** The search ignores case: a query typed in any case finds a ticket
      whose name, ticket number or processing admin contains it as typed,
      and two queries that lowercase alike select the same tickets. */
  lemma SearchIgnoresCase(t: Ticket, search: string, other: string)
    requires search != []
    ensures (Includes(t.name, search) || Includes(t.ticketNumber, search)
             || Includes(t.processedBy.GetOr(""), search)) ==> MatchesSearch(t, search)
    ensures Lower(other) == Lower(search) ==> (MatchesSearch(t, other) <==> MatchesSearch(t, search))
  {
    if Includes(t.name, search) {
      IncludesLower(t.name, search);
    } else if Includes(t.ticketNumber, search) {
      IncludesLower(t.ticketNumber, search);
    } else if Includes(t.processedBy.GetOr(""), search) {
      IncludesLower(t.processedBy.GetOr(""), search);
    }
    if Lower(other) == Lower(search) {
      assert |other| == |Lower(other)| == |search|;
    }
  }

  predicate MatchesStatus(t: Ticket, f: StatusFilter) {
    match f
    case AllStatuses => true
    case OnlyApproved => t.status == Approved
    case OnlyRejected => t.status == Rejected
  }

  predicate MatchesAdmin(t: Ticket, adminFilter: string) {
    adminFilter == AllAdmins || t.processedBy == Some(adminFilter)
  }

  /** A ticket belongs in the history view: processed and matching all three
      filters. */
  predicate InHistory(t: Ticket, search: string, f: StatusFilter, adminFilter: string) {
    t.status != Pending && MatchesSearch(t, search) && MatchesStatus(t, f) && MatchesAdmin(t, adminFilter)
  }

  /** The history view: the processed tickets sorted newest-processed first
      (`(b.processedAt || 0) - (a.processedAt || 0)`), then narrowed by the
      search, the status filter and the admin filter, each applied only when
      it is set. The sort works on the filtered copy, never on `ts`. */
  function HistoryTickets(ts: seq<Ticket>, search: string, f: StatusFilter, adminFilter: string): seq<Ticket> {
    var sorted := SortDesc(ProcessedKey, Filter((t: Ticket) => t.status != Pending, ts));
    var bySearch := FilterIf(search != [], (t: Ticket) => MatchesSearch(t, search), sorted);
    var byStatus := FilterIf(f != AllStatuses, (t: Ticket) => MatchesStatus(t, f), bySearch);
    FilterIf(adminFilter != AllAdmins, (t: Ticket) => MatchesAdmin(t, adminFilter), byStatus)
  }

  /** How many copies of `x` the history keeps, stage by stage. */
  lemma HistoryMultiplicity(ts: seq<Ticket>, search: string, f: StatusFilter, adminFilter: string, x: Ticket)
    ensures multiset(HistoryTickets(ts, search, f, adminFilter))[x]
         == multiset(Filter((t: Ticket) => InHistory(t, search, f, adminFilter), ts))[x]
  {
    var sorted := SortDesc(ProcessedKey, Filter((t: Ticket) => t.status != Pending, ts));
    var bySearch := FilterIf(search != [], (t: Ticket) => MatchesSearch(t, search), sorted);
    var byStatus := FilterIf(f != AllStatuses, (t: Ticket) => MatchesStatus(t, f), bySearch);
    FilterMultiplicity((t: Ticket) => t.status != Pending, ts, x);
    FilterMultiplicity((t: Ticket) => InHistory(t, search, f, adminFilter), ts, x);
    FilterIfMultiplicity(search != [], (t: Ticket) => MatchesSearch(t, search), sorted, x);
    FilterIfMultiplicity(f != AllStatuses, (t: Ticket) => MatchesStatus(t, f), bySearch, x);
    FilterIfMultiplicity(adminFilter != AllAdmins, (t: Ticket) => MatchesAdmin(t, adminFilter), byStatus, x);
  }

  /** The history is ordered non-increasingly by processing time, a missing
      time counting as 0. */
  lemma HistorySorted(ts: seq<Ticket>, search: string, f: StatusFilter, adminFilter: string)
    ensures SortedDesc(ProcessedKey, HistoryTickets(ts, search, f, adminFilter))
  {
    var sorted := SortDesc(ProcessedKey, Filter((t: Ticket) => t.status != Pending, ts));
    var bySearch := FilterIf(search != [], (t: Ticket) => MatchesSearch(t, search), sorted);
    var byStatus := FilterIf(f != AllStatuses, (t: Ticket) => MatchesStatus(t, f), bySearch);
    FilterIfSorted(search != [], (t: Ticket) => MatchesSearch(t, search), ProcessedKey, sorted);
    FilterIfSorted(f != AllStatuses, (t: Ticket) => MatchesStatus(t, f), ProcessedKey, bySearch);
    FilterIfSorted(adminFilter != AllAdmins, (t: Ticket) => MatchesAdmin(t, adminFilter), ProcessedKey, byStatus);
  }

  /** The history is exactly the matching tickets, each as often as it is
      stored: sound (every entry is processed and passes every active filter)
      and complete (every such ticket is listed). */
  lemma HistorySoundAndComplete(ts: seq<Ticket>, search: string, f: StatusFilter, adminFilter: string)
    ensures var r := HistoryTickets(ts, search, f, adminFilter);
            && multiset(r) == multiset(Filter((t: Ticket) => InHistory(t, search, f, adminFilter), ts))
            && (forall i :: 0 <= i < |r| ==> r[i] in ts && InHistory(r[i], search, f, adminFilter))
            && (forall i :: 0 <= i < |ts| && InHistory(ts[i], search, f, adminFilter) ==> ts[i] in r)
  {
    var r := HistoryTickets(ts, search, f, adminFilter);
    var expected := Filter((t: Ticket) => InHistory(t, search, f, adminFilter), ts);
    forall x: Ticket ensures multiset(r)[x] == multiset(expected)[x] {
      HistoryMultiplicity(ts, search, f, adminFilter, x);
    }
    assert multiset(r) == multiset(expected);
    forall i | 0 <= i < |r| ensures r[i] in ts && InHistory(r[i], search, f, adminFilter) {
      assert r[i] in multiset(expected);
    }
    forall i | 0 <= i < |ts| && InHistory(ts[i], search, f, adminFilter) ensures ts[i] in r {
      assert ts[i] in multiset(expected);
    }
  }

  /** With an empty search and both filters on 'all', the history holds every
      processed ticket. */
  lemma HistoryUnfilteredIsAllProcessed(ts: seq<Ticket>)
    ensures multiset(HistoryTickets(ts, "", AllStatuses, AllAdmins))
         == multiset(Filter((t: Ticket) => t.status != Pending, ts))
  {
    forall x: Ticket
      ensures multiset(HistoryTickets(ts, "", AllStatuses, AllAdmins))[x]
           == multiset(Filter((t: Ticket) => t.status != Pending, ts))[x]
    {
      HistoryMultiplicity(ts, "", AllStatuses, AllAdmins, x);
      FilterMultiplicity((t: Ticket) => InHistory(t, "", AllStatuses, AllAdmins), ts, x);
      FilterMultiplicity((t: Ticket) => t.status != Pending, ts, x);
    }
  }

  /** `uniqueAdmins`: the distinct non-empty `processedBy` values, collected
      in a set in ticket order. */
  method UniqueAdmins(ts: seq<Ticket>) returns (admins: seq<string>)
    ensures Distinct(admins)
    ensures forall k :: 0 <= k < |admins| ==>
              admins[k] != "" && exists i :: 0 <= i < |ts| && ts[i].processedBy == Some(admins[k])
    ensures forall i :: 0 <= i < |ts| && ts[i].processedBy.Some? && ts[i].processedBy.value != "" ==>
              ts[i].processedBy.value in admins
  {
    admins := [];
    var n := 0;
    while n < |ts|
      invariant 0 <= n <= |ts|
      invariant Distinct(admins)
      invariant forall k :: 0 <= k < |admins| ==>
                  admins[k] != "" && exists i :: 0 <= i < n && ts[i].processedBy == Some(admins[k])
      invariant forall i :: 0 <= i < n && ts[i].processedBy.Some? && ts[i].processedBy.value != "" ==>
                  ts[i].processedBy.value in admins
    {
      match ts[n].processedBy {
        case Some(a) =>
          if a != "" && a !in admins {
            admins := admins + [a];
          }
        case None =>
      }
      n := n + 1;
    }
  }

  /** `handleStatus`: records the decision under the admin identifier and
      returns the refreshed ticket list. */
  method HandleStatus(store: Store, config: AppConfig, adminEmail: string, id: string, status: Status, now: int)
    returns (refreshed: seq<Ticket>)
    requires store.Valid()
    requires status != Pending
    modifies store
    ensures store.Valid()
    ensures store.tickets == SetStatus(old(store.tickets), id, status, AdminIdentifier(config, adminEmail), now)
    ensures refreshed == store.tickets
    ensures store.winners == old(store.winners) && store.config == old(store.config)
    ensures store.announcement == old(store.announcement) && store.archive == old(store.archive)
  {
    var adminIdentifier := AdminIdentifier(config, adminEmail);
    store.UpdateTicketStatus(id, status, adminIdentifier, now);
    refreshed := store.GetTickets();
  }

  /** The row condition for the "Declare Winner" button. */
  predicate CanDeclareWinner(t: Ticket) {
    t.status == Approved && !t.isWinner
  }

  /** A ticket offered for declaration is processed, so it is listed in the
      unfiltered history; and once declared, the first stored ticket with its
      id, the one the store marks, is no longer offered. Another ticket that
      shares the id keeps its button. */
  lemma DeclareButtonOnlyForProcessed(ts: seq<Ticket>, t: Ticket)
    requires t in ts && CanDeclareWinner(t)
    ensures t in HistoryTickets(ts, "", AllStatuses, AllAdmins)
    ensures !CanDeclareWinner(MarkWinner(ts, t.id)[IndexOfId(ts, t.id)])
  {
    var i :| 0 <= i < |ts| && ts[i] == t;
    assert IdTaken(ts, t.id);
    HistorySoundAndComplete(ts, "", AllStatuses, AllAdmins);
  }

  /** `handleDeclareWinner`: declares the ticket only once the operator has
      confirmed (`confirmed` is the answer to the confirmation prompt). */
  method HandleDeclareWinner(store: Store, ticket: Ticket, confirmed: bool, winnerId: string, now: int)
    requires store.Valid()
    modifies store
    ensures store.Valid()
    ensures !confirmed ==> store.tickets == old(store.tickets) && store.winners == old(store.winners)
                           && store.announcement == old(store.announcement) && store.archive == old(store.archive)
    ensures confirmed ==> store.tickets == MarkWinner(old(store.tickets), ticket.id)
                          && store.winners == old(store.winners) + [WinnerOf(ticket, winnerId, now)]
                          && store.announcement == Some(Announcement(WinnerText(ticket), now, true))
                          && store.archive == PushArchive(Announcement(WinnerText(ticket), now, true), old(store.archive))
    ensures store.config == old(store.config)
  {
    if !confirmed {
      return;
    }
    var _ := store.DeclareWinner(ticket, winnerId, now);
  }

  /** `handleBroadcast`: an empty message changes nothing; any other message
      becomes the current, non-breaking announcement. */
  method HandleBroadcast(store: Store, msg: string, now: int) returns (sent: bool)
    requires store.Valid()
    modifies store
    ensures store.Valid()
    ensures sent <==> msg != ""
    ensures !sent ==> store.announcement == old(store.announcement) && store.archive == old(store.archive)
    ensures sent ==> store.announcement == Some(Announcement(msg, now, false))
                     && store.archive == PushArchive(Announcement(msg, now, false), old(store.archive))
    ensures store.tickets == old(store.tickets) && store.winners == old(store.winners)
    ensures store.config == old(store.config)
  {
    if msg == "" {
      return false;
    }
    var _ := store.SaveAnnouncement(msg, false, now);
    sent := true;
  }
}
