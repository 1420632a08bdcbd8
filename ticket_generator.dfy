/**
 * Ticket generation for one event: a selection of ticket ids, the generated
 * ticket records with their QR code addresses, and the archive naming used
 * when they are downloaded. Rendering to PDF and zipping are outside the model.
 */
module TicketGenerator {
  import opened Options
  import opened Seqs

  datatype Ticket = Ticket(id: string, attendeeName: string, ticketType: string)

  datatype GeneratedTicket = GeneratedTicket(id: string, attendeeName: string, ticketType: string, qrCode: string, downloadUrl: string)

  /** What the generate button reports. */
  datatype GenerateOutcome = NothingSelected | Failed | Generated(count: nat)

  /** The downloaded archive: its file name and the names of the PDF files in it. */
  datatype Archive = Archive(name: string, files: set<string>)

  const QrService := "https://api.qrserver.com/v1/create-qr-code/?size=150x150&data="

  /** The data the QR code encodes. */
  function QrPayload(id: string, eventId: string): string {
    "TICKET-" + id + "-EVENT-" + eventId
  }

  /** Within one event, different tickets get different QR payloads. */
  lemma QrPayloadInjective(id1: string, id2: string, eventId: string)
    requires QrPayload(id1, eventId) == QrPayload(id2, eventId)
    ensures id1 == id2
  {
    var p1, p2 := QrPayload(id1, eventId), QrPayload(id2, eventId);
    assert |id1| == |id2|;
    forall k | 0 <= k < |id1|
      ensures id1[k] == id2[k]
    {
      assert p1[7 + k] == id1[k] && p2[7 + k] == id2[k];
    }
  }

  /** `tickets.find(t => t.id === id)`: the first ticket with that id. */
  function Find(tickets: seq<Ticket>, id: string): (r: Option<Ticket>)
    ensures r.None? <==> forall i | 0 <= i < |tickets| :: tickets[i].id != id
    ensures r.Some? ==> r.value in tickets && r.value.id == id
  {
    if tickets == [] then None
    else if tickets[0].id == id then Some(tickets[0])
    else Find(tickets[1..], id)
  }

  /** The record generated for one selected id, when the ticket exists. */
  function GenerateOne(tickets: seq<Ticket>, id: string, eventId: string): Option<GeneratedTicket> {
    match Find(tickets, id)
    case None => None
    case Some(t) => Some(GeneratedTicket(id, t.attendeeName, t.ticketType, QrService + QrPayload(id, eventId), "#"))
  }

  /**
   * `selectedTickets.map(...)`. A selected id with no ticket makes reading
   * `ticket.attendeeName` throw, which the handler catches: no result then.
   */
  function GenerateAll(selected: seq<string>, tickets: seq<Ticket>, eventId: string): Option<seq<GeneratedTicket>> {
    if selected == [] then Some([])
    else
      match (GenerateOne(tickets, selected[0], eventId), GenerateAll(selected[1..], tickets, eventId))
      case (Some(g), Some(rest)) => Some([g] + rest)
      case _ => None
  }

  /** Generation succeeds exactly when every selected id names a ticket. */
  lemma {:induction false} GenerateAllSucceeds(selected: seq<string>, tickets: seq<Ticket>, eventId: string)
    ensures GenerateAll(selected, tickets, eventId).Some?
        <==> forall k | 0 <= k < |selected| :: Find(tickets, selected[k]).Some?
  {
    if selected != [] {
      GenerateAllSucceeds(selected[1..], tickets, eventId);
      if forall k | 0 <= k < |selected| :: Find(tickets, selected[k]).Some? {
        assert forall k | 0 <= k < |selected[1..]| :: selected[1..][k] == selected[k + 1];
      } else {
        var k :| 0 <= k < |selected| && Find(tickets, selected[k]).None?;
        if k > 0 {
          assert selected[1..][k - 1] == selected[k];
        }
      }
    }
  }

  /**
   * A successful generation yields one record per selected id, in selection
   * order, carrying that ticket's attendee and type and the QR address of its id.
   */
  lemma {:induction false} GenerateAllRecords(selected: seq<string>, tickets: seq<Ticket>, eventId: string)
    requires GenerateAll(selected, tickets, eventId).Some?
    ensures var g := GenerateAll(selected, tickets, eventId).value;
      |g| == |selected|
      && forall k | 0 <= k < |g| ::
           g[k].id == selected[k] && Find(tickets, selected[k]).Some?
           && g[k].attendeeName == Find(tickets, selected[k]).value.attendeeName
           && g[k].ticketType == Find(tickets, selected[k]).value.ticketType
           && g[k].qrCode == QrService + QrPayload(selected[k], eventId)
  {
    if selected != [] {
      assert GenerateAll(selected[1..], tickets, eventId).Some?;
      var rest := GenerateAll(selected[1..], tickets, eventId).value;
      GenerateAllRecords(selected[1..], tickets, eventId);
      var g := GenerateAll(selected, tickets, eventId).value;
      assert g == [GenerateOne(tickets, selected[0], eventId).value] + rest;
      forall k | 0 < k < |g|
        ensures g[k] == rest[k - 1] && selected[k] == selected[1..][k - 1]
      {
      }
    }
  }

  /** The PDF name for one generated ticket. */
  function EntryName(t: GeneratedTicket, eventName: string): string {
    t.attendeeName + "_" + eventName + ".pdf"
  }

  /** The files of the archive: one per generated ticket, where equal names overwrite each other. */
  function ArchiveOf(generated: seq<GeneratedTicket>, eventName: string): (a: Archive)
    ensures a.name == eventName + "_tickets.zip"
    ensures forall f :: f in a.files <==> exists k | 0 <= k < |generated| :: f == EntryName(generated[k], eventName)
  {
    Archive(eventName + "_tickets.zip", set k | 0 <= k < |generated| :: EntryName(generated[k], eventName))
  }

  /** One more generated ticket adds its own file name to the archive and nothing else. */
  lemma ArchiveFilesSnoc(generated: seq<GeneratedTicket>, eventName: string)
    requires generated != []
    ensures ArchiveOf(generated, eventName).files
      == ArchiveOf(generated[..|generated| - 1], eventName).files + {EntryName(generated[|generated| - 1], eventName)}
  {
    var init := generated[..|generated| - 1];
    var last := EntryName(generated[|generated| - 1], eventName);
    forall f
      ensures f in ArchiveOf(generated, eventName).files <==> f in ArchiveOf(init, eventName).files + {last}
    {
      if f in ArchiveOf(generated, eventName).files {
        var k :| 0 <= k < |generated| && f == EntryName(generated[k], eventName);
        if k < |init| {
          assert init[k] == generated[k];
        }
      }
      if f in ArchiveOf(init, eventName).files {
        var k :| 0 <= k < |init| && f == EntryName(init[k], eventName);
        assert init[k] == generated[k];
      }
    }
  }

  /** The archive never holds more files than there are generated tickets. */
  lemma {:induction false} ArchiveSize(generated: seq<GeneratedTicket>, eventName: string)
    ensures |ArchiveOf(generated, eventName).files| <= |generated|
  {
    if generated != [] {
      ArchiveSize(generated[..|generated| - 1], eventName);
      ArchiveFilesSnoc(generated, eventName);
    }
  }

  /** `tickets.map(ticket => ticket.id)`. */
  function Ids(tickets: seq<Ticket>): (r: seq<string>)
    ensures |r| == |tickets| && forall i | 0 <= i < |r| :: r[i] == tickets[i].id
  {
    seq(|tickets|, i requires 0 <= i < |tickets| => tickets[i].id)
  }

  class Generator {
    var selectedTickets: seq<string>
    var generatedTickets: seq<GeneratedTicket>
    const tickets: seq<Ticket>
    const eventId: string
    const eventName: string

    constructor(tickets: seq<Ticket>, eventId: string, eventName: string)
      ensures this.tickets == tickets && this.eventId == eventId && this.eventName == eventName
      ensures selectedTickets == [] && generatedTickets == []
    {
      this.tickets, this.eventId, this.eventName := tickets, eventId, eventName;
      selectedTickets, generatedTickets := [], [];
    }

    /** The select-all box is ticked when as many ids are selected as there are tickets. */
    predicate AllSelected()
      reads this
    {
      |selectedTickets| == |tickets|
    }

    /** Ticking select-all selects every ticket id in list order; unticking clears the selection. */
    method SelectAll(checked: bool)
      modifies this
      ensures selectedTickets == (if checked then Ids(tickets) else [])
      ensures generatedTickets == old(generatedTickets)
      ensures checked ==> AllSelected()
    {
      selectedTickets := if checked then Ids(tickets) else [];
    }

    /** A row checkbox toggles that id in the selection. */
    method Select(id: string)
      modifies this
      ensures selectedTickets == Toggle(old(selectedTickets), id)
      ensures id in selectedTickets <==> id !in old(selectedTickets)
      ensures generatedTickets == old(generatedTickets)
    {
      selectedTickets := Toggle(selectedTickets, id);
    }

    /**
     * Refused with an empty selection; fails, keeping the earlier results,
     * when a selected id has no ticket; otherwise replaces the generated list.
     */
    method Generate() returns (outcome: GenerateOutcome)
      modifies this
      ensures selectedTickets == old(selectedTickets)
      ensures old(selectedTickets) == [] ==> outcome == NothingSelected && generatedTickets == old(generatedTickets)
      ensures old(selectedTickets) != [] && GenerateAll(old(selectedTickets), tickets, eventId).None? ==>
        outcome == Failed && generatedTickets == old(generatedTickets)
      ensures old(selectedTickets) != [] && GenerateAll(old(selectedTickets), tickets, eventId).Some? ==>
        generatedTickets == GenerateAll(old(selectedTickets), tickets, eventId).value
        && outcome == Generated(|selectedTickets|)
    {
      if selectedTickets == [] {
        return NothingSelected;
      }
      var generated := GenerateAll(selectedTickets, tickets, eventId);
      if generated.None? {
        return Failed;
      }
      GenerateAllRecords(selectedTickets, tickets, eventId);
      generatedTickets := generated.value;
      return Generated(|generated.value|);
    }

    /** The download button: refused when nothing has been generated. */
    method DownloadZip() returns (archive: Option<Archive>)
      ensures generatedTickets == [] ==> archive == None
      ensures generatedTickets != [] ==> archive == Some(ArchiveOf(generatedTickets, eventName))
    {
      if generatedTickets == [] {
        return None;
      }
      return Some(ArchiveOf(generatedTickets, eventName));
    }
  }
}
