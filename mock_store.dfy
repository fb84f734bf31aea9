// The local data store: five keyed records (tickets, winners, the current
// announcement, the news archive and the configuration). Each mutation reads
// a record, changes it and writes the whole record back; here a record is a
// field of `Store` and a write-back is an assignment to that field.

module MockStore {
  import opened Types

  /** The archive keeps the 50 most recent announcements. */
  const ArchiveCap: nat := 50

  const DefaultAnnouncementText: string := "Network Sync Established. VIP Draw Node Active."

  /** The configuration in force while none has been saved. */
  const DefaultConfig: AppConfig := AppConfig(
    jazzCash := "0300-0000000",
    jazzCashName := "Aura Treasury",
    easyPaisa := "0345-0000000",
    easyPaisaName := "Aura Treasury",
    bankAccount := "1234567890123456",
    bankAccountName := "Aura Platinum Executive",
    ticketPrice := 100,
    adminEmail := "Shazib@Aura.com",
    adminName := "Master Admin",
    adminKey := "Shazibpassword7756",
    referralRequirement := 5,
    managementLink := "https://wa.me/923000000000",
    prizeImages := PrizeImages(
      mobile := "https://images.unsplash.com/photo-1598327105666-5b89351aff97?q=80&w=800&auto=format&fit=crop",
      bike := "https://images.unsplash.com/photo-1558981403-c5f9899a28bc?q=80&w=800&auto=format&fit=crop",
      fan := "https://images.unsplash.com/photo-1591154665855-51fa6d6bb10c?q=80&w=800&auto=format&fit=crop"))

  /** `tickets.some(t => t.id === id)`. */
  predicate IdTaken(ts: seq<Ticket>, id: string) {
    exists i | 0 <= i < |ts| :: ts[i].id == id
  }

  /** `tickets.findIndex(t => t.id === id)`: the first position holding `id`,
      or -1 when there is none. */
  function IndexOfId(ts: seq<Ticket>, id: string): (r: int)
    ensures -1 <= r < |ts|
    ensures r == -1 <==> !IdTaken(ts, id)
    ensures r >= 0 ==> ts[r].id == id && forall j :: 0 <= j < r ==> ts[j].id != id
  {
    if ts == [] then -1
    else if ts[0].id == id then 0
    else
      var r := IndexOfId(ts[1..], id);
      assert forall j :: 1 <= j < |ts| ==> ts[j] == ts[1..][j - 1];
      if r == -1 then -1 else r + 1
  }

  /** No two tickets share an id. */
  predicate UniqueIds(ts: seq<Ticket>) {
    forall i, j :: 0 <= i < j < |ts| ==> ts[i].id != ts[j].id
  }

  /** The id `saveTicket` stores: the incoming id, or, when that id is taken,
      the id followed by '-' and a random suffix. */
  function StoredId(ts: seq<Ticket>, id: string, suffix: string): (r: string)
    ensures IdTaken(ts, id) ==> r == id + "-" + suffix && r != id
    ensures !IdTaken(ts, id) ==> r == id
  {
    if IdTaken(ts, id) then id + "-" + suffix else id
  }

  /** After a save, ids stay unique exactly when the stored id was free. */
  lemma SaveKeepsIdsUnique(ts: seq<Ticket>, t: Ticket, suffix: string)
    requires UniqueIds(ts)
    ensures var stored := t.(id := StoredId(ts, t.id, suffix));
            UniqueIds(ts + [stored]) <==> !IdTaken(ts, stored.id)
  {
    var stored := t.(id := StoredId(ts, t.id, suffix));
    var ts' := ts + [stored];
    if IdTaken(ts, stored.id) {
      var i :| 0 <= i < |ts| && ts[i].id == stored.id;
      assert ts'[i].id == ts'[|ts|].id;
    }
  }

  /** The suffix is only a last-resort guard: when the suffixed id is already
      taken, saving creates two tickets with the same id. */
  lemma SuffixedIdCanCollide(t: Ticket)
    ensures var ts := [t.(id := "x"), t.(id := "x-ab")];
            var stored := t.(id := StoredId(ts, "x", "ab"));
            UniqueIds(ts) && !UniqueIds(ts + [stored])
  {
    var ts := [t.(id := "x"), t.(id := "x-ab")];
    assert ts[0].id == "x";
    assert IdTaken(ts, "x");
    assert StoredId(ts, "x", "ab") == "x-ab";
    var ts' := ts + [t.(id := "x-ab")];
    assert ts'[1].id == ts'[2].id;
  }

  /** The fields `updateTicketStatus` assigns on the ticket it finds. */
  function Processed(t: Ticket, status: Status, admin: string, now: int): Ticket {
    t.(status := status, processedBy := Some(admin), processedAt := Some(now))
  }

  /** The ticket list after `updateTicketStatus(id, status, admin)` at time
      `now`: only the first ticket with that id changes, whatever its former
      status; an unknown id leaves the list as it was. */
  function SetStatus(ts: seq<Ticket>, id: string, status: Status, admin: string, now: int): (r: seq<Ticket>)
    ensures |r| == |ts|
    ensures !IdTaken(ts, id) ==> r == ts
    ensures forall j :: 0 <= j < |ts| && j != IndexOfId(ts, id) ==> r[j] == ts[j]
    ensures IdTaken(ts, id) ==>
              var i := IndexOfId(ts, id);
              r[i].status == status && r[i].processedBy == Some(admin) && r[i].processedAt == Some(now)
              && r[i] == ts[i].(status := status, processedBy := Some(admin), processedAt := Some(now))
  {
    var i := IndexOfId(ts, id);
    if i == -1 then ts else ts[i := Processed(ts[i], status, admin, now)]
  }

  /** The ticket list after `declareWinner` looked its ticket up: the first
      ticket with that id gets `isWinner = true`, nothing else changes. */
  function MarkWinner(ts: seq<Ticket>, id: string): (r: seq<Ticket>)
    ensures |r| == |ts|
    ensures !IdTaken(ts, id) ==> r == ts
    ensures forall j :: 0 <= j < |ts| && j != IndexOfId(ts, id) ==> r[j] == ts[j]
    ensures IdTaken(ts, id) ==> r[IndexOfId(ts, id)] == ts[IndexOfId(ts, id)].(isWinner := true)
  {
    var i := IndexOfId(ts, id);
    if i == -1 then ts else ts[i := ts[i].(isWinner := true)]
  }

  /** Marking a winner twice is the same as marking it once: the flag is set,
      never toggled. */
  lemma {:induction false} MarkWinnerIdempotent(ts: seq<Ticket>, id: string)
    ensures MarkWinner(MarkWinner(ts, id), id) == MarkWinner(ts, id)
  {
    var once := MarkWinner(ts, id);
    if IdTaken(ts, id) {
      var i := IndexOfId(ts, id);
      assert once[i].id == id;
      forall j | 0 <= j < i ensures once[j].id != id {
        assert once[j] == ts[j];
      }
      assert IndexOfId(once, id) == i;
    }
  }

  /** The Winner record `declareWinner` creates: a snapshot of the ticket's
      id, name, prize and ticket number. */
  function WinnerOf(t: Ticket, winnerId: string, now: int): (w: Winner)
    ensures w.ticketId == t.id && w.name == t.name && w.prize == t.prize
    ensures w.ticketNumber == t.ticketNumber && w.id == winnerId && w.timestamp == now
    ensures w.celebrationPhoto.None?
  {
    Winner(winnerId, t.id, t.name, t.prize, t.ticketNumber, now, None)
  }

  /** The breaking news `declareWinner` broadcasts. */
  function WinnerText(t: Ticket): string {
    "NEW WINNER: " + t.name + " secured a " + PrizeName(t.prize) + "!"
  }

  /** `[a, ...archive].slice(0, 50)`. */
  function PushArchive(a: Announcement, archive: seq<Announcement>): (r: seq<Announcement>)
    ensures |r| == if |archive| + 1 <= ArchiveCap then |archive| + 1 else ArchiveCap
    ensures r[0] == a
    ensures forall k :: 1 <= k < |r| ==> r[k] == archive[k - 1]
  {
    var whole := [a] + archive;
    if |whole| <= ArchiveCap then whole else whole[..ArchiveCap]
  }

  /** The archive after broadcasting `anns` in order, starting from `archive`. */
  function BroadcastAll(archive: seq<Announcement>, anns: seq<Announcement>): seq<Announcement> {
    if anns == [] then archive
    else PushArchive(anns[|anns| - 1], BroadcastAll(archive, anns[..|anns| - 1]))
  }

  /** After any number of broadcasts the archive holds the newest entries,
      newest first, up to 50: the broadcasts in reverse order followed by
      the oldest entries that still fit. */
  lemma {:induction false} BroadcastAllContents(archive: seq<Announcement>, anns: seq<Announcement>)
    requires |archive| <= ArchiveCap
    ensures var r := BroadcastAll(archive, anns);
            |r| == if |archive| + |anns| <= ArchiveCap then |archive| + |anns| else ArchiveCap
    ensures var r := BroadcastAll(archive, anns);
            forall k :: 0 <= k < |r| ==>
              r[k] == if k < |anns| then anns[|anns| - 1 - k] else archive[k - |anns|]
  {
    if anns != [] {
      var n := |anns|;
      var prev := anns[..n - 1];
      BroadcastAllContents(archive, prev);
      var r' := BroadcastAll(archive, prev);
      var r := BroadcastAll(archive, anns);
      forall k | 0 <= k < |r|
        ensures r[k] == if k < n then anns[n - 1 - k] else archive[k - n]
      {
        if k > 0 {
          assert r[k] == r'[k - 1];
          if k < n {
            assert prev[n - 1 - 1 - (k - 1)] == anns[n - 1 - k];
          }
        }
      }
    }
  }

  /** Broadcasting 51 announcements into an empty archive leaves exactly 50,
      the newest first and the very first one dropped. */
  lemma ArchiveDropsOldest(anns: seq<Announcement>)
    requires |anns| == ArchiveCap + 1
    ensures |BroadcastAll([], anns)| == ArchiveCap
    ensures BroadcastAll([], anns)[0] == anns[ArchiveCap]
    ensures anns[0] !in BroadcastAll([], anns) || anns[0] in anns[1..]
  {
    BroadcastAllContents([], anns);
    var r := BroadcastAll([], anns);
    if anns[0] in r {
      var k :| 0 <= k < |r| && r[k] == anns[0];
      assert anns[0] == anns[1..][ArchiveCap - 1 - k];
    }
  }

  /** The store. A field holds what is saved under one key; `None` (or the
      empty list) stands for a key that was never written. */
  class Store {
    var tickets: seq<Ticket>
    var winners: seq<Winner>
    var announcement: Option<Announcement>
    var archive: seq<Announcement>
    var config: Option<AppConfig>

    /** The announcement and the archive are always written together: the
        archive is bounded and starts with the current announcement. */
    ghost predicate Valid()
      reads this
    {
      && |archive| <= ArchiveCap
      && (announcement.Some? <==> archive != [])
      && (announcement.Some? ==> archive[0] == announcement.value)
    }

    /** A store where nothing has been saved yet. */
    constructor ()
      ensures Valid()
      ensures tickets == [] && winners == [] && archive == []
      ensures announcement == None && config == None
    {
      tickets, winners, archive := [], [], [];
      announcement, config := None, None;
    }

    method GetTickets() returns (ts: seq<Ticket>)
      ensures ts == tickets
    {
      ts := tickets;
    }

    method GetWinners() returns (ws: seq<Winner>)
      ensures ws == winners
    {
      ws := winners;
    }

    method GetNewsArchive() returns (arch: seq<Announcement>)
      requires Valid()
      ensures arch == archive && |arch| <= ArchiveCap
    {
      arch := archive;
    }

    /** The saved announcement, or the fixed default text stamped `now`. */
    method GetAnnouncement(now: int) returns (a: Announcement)
      ensures announcement.Some? ==> a == announcement.value
      ensures announcement.None? ==> a.text == DefaultAnnouncementText && a.timestamp == now && !a.isBreaking
    {
      match announcement
      case Some(saved) => a := saved;
      case None => a := Announcement(DefaultAnnouncementText, now, false);
    }

    /** The saved configuration, or the defaults: ticket price 100, five
        referrals required, an image for every prize. */
    method GetConfig() returns (c: AppConfig)
      ensures config.Some? ==> c == config.value
      ensures config.None? ==> c == DefaultConfig && c.ticketPrice == 100 && c.referralRequirement == 5
      ensures config.None? ==> forall p: PrizeType :: ImageFor(c.prizeImages, p) != ""
    {
      match config
      case Some(saved) => c := saved;
      case None => c := DefaultConfig;
    }

    /** Replaces the configuration wholesale; no field is checked. */
    method SaveConfig(c: AppConfig)
      requires Valid()
      modifies this
      ensures Valid()
      ensures config == Some(c)
      ensures tickets == old(tickets) && winners == old(winners)
      ensures announcement == old(announcement) && archive == old(archive)
    {
      config := Some(c);
    }

    /** Appends a ticket, renaming it with `'-' + suffix` when its id is
        already in the list. `suffix` stands for the random base-36 digits. */
    method SaveTicket(ticket: Ticket, suffix: string) returns (stored: Ticket)
      requires Valid()
      modifies this
      ensures Valid()
      ensures stored == ticket.(id := StoredId(old(tickets), ticket.id, suffix))
      ensures tickets == old(tickets) + [stored]
      ensures winners == old(winners) && config == old(config)
      ensures announcement == old(announcement) && archive == old(archive)
    {
      var ts := tickets;
      stored := ticket;
      if IdTaken(ts, stored.id) {
        stored := stored.(id := stored.id + "-" + suffix);
      }
      ts := ts + [stored];
      tickets := ts;
    }

    /** Records a review decision on the first ticket with `id`, if any. */
    method UpdateTicketStatus(id: string, status: Status, adminIdentifier: string, now: int)
      requires Valid()
      requires status != Pending
      modifies this
      ensures Valid()
      ensures tickets == SetStatus(old(tickets), id, status, adminIdentifier, now)
      ensures winners == old(winners) && config == old(config)
      ensures announcement == old(announcement) && archive == old(archive)
    {
      var ts := tickets;
      var index := IndexOfId(ts, id);
      if index != -1 {
        ts := ts[index := ts[index].(status := status)];
        ts := ts[index := ts[index].(processedBy := Some(adminIdentifier))];
        ts := ts[index := ts[index].(processedAt := Some(now))];
        tickets := ts;
      }
    }

    /** Makes `text` the current announcement and puts it at the head of the
        archive, which is cut back to 50 entries. */
    method SaveAnnouncement(text: string, isBreaking: bool, now: int) returns (a: Announcement)
      requires Valid()
      modifies this
      ensures Valid()
      ensures a == Announcement(text, now, isBreaking)
      ensures announcement == Some(a)
      ensures archive == PushArchive(a, old(archive))
      ensures tickets == old(tickets) && winners == old(winners) && config == old(config)
    {
      a := Announcement(text, now, isBreaking);
      announcement := Some(a);
      var arch := archive;
      arch := [a] + arch;
      archive := if |arch| <= ArchiveCap then arch else arch[..ArchiveCap];
    }

    /** Promotes a ticket: sets the winner flag on the stored ticket with its
        id (if there is one), always appends a Winner snapshot of the
        argument, and broadcasts a breaking announcement. Both clock reads
        are taken as the same instant `now`. */
    method DeclareWinner(ticket: Ticket, winnerId: string, now: int) returns (w: Winner)
      requires Valid()
      modifies this
      ensures Valid()
      ensures tickets == MarkWinner(old(tickets), ticket.id)
      ensures w == WinnerOf(ticket, winnerId, now)
      ensures winners == old(winners) + [w]
      ensures announcement == Some(Announcement(WinnerText(ticket), now, true))
      ensures archive == PushArchive(Announcement(WinnerText(ticket), now, true), old(archive))
      ensures config == old(config)
    {
      var ws := winners;
      var ts := tickets;
      var ticketIndex := IndexOfId(ts, ticket.id);
      if ticketIndex != -1 {
        ts := ts[ticketIndex := ts[ticketIndex].(isWinner := true)];
        tickets := ts;
      }
      w := Winner(winnerId, ticket.id, ticket.name, ticket.prize, ticket.ticketNumber, now, None);
      ws := ws + [w];
      winners := ws;
      var _ := SaveAnnouncement(WinnerText(ticket), true, now);
    }
  }

  /** Declaring the same ticket twice leaves two Winner records for it, while
      the ticket list is as after the first declaration. */
  method DeclareTwice(s: Store, ticket: Ticket, firstId: string, secondId: string, now: int)
    requires s.Valid()
    modifies s
    ensures s.Valid()
    ensures |s.winners| == |old(s.winners)| + 2
    ensures s.winners[|s.winners| - 2].ticketId == s.winners[|s.winners| - 1].ticketId == ticket.id
    ensures s.tickets == MarkWinner(old(s.tickets), ticket.id)
    ensures s.announcement.Some? && s.announcement.value.isBreaking
  {
    var _ := s.DeclareWinner(ticket, firstId, now);
    var _ := s.DeclareWinner(ticket, secondId, now);
    MarkWinnerIdempotent(old(s.tickets), ticket.id);
  }

  /** After a save the configuration read back is the one saved. */
  method ConfigRoundTrip(s: Store, c: AppConfig) returns (read: AppConfig)
    requires s.Valid()
    modifies s
    ensures read == c
  {
    s.SaveConfig(c);
    read := s.GetConfig();
  }
}
