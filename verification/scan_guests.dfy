/** The check-in scanner of an event: the first code the camera detects
    is taken, scanning stops, and the payload decides which `event_guest`
    rows of the event get `assisted` set. The `guest` and `event_guest`
    tables are in memory; the scanner writes only the `assisted` column of
    rows of its own event. */
module ScanGuests {
  import opened Basics
  import opened Seqs
  import opened Text
  import opened Tables
  import opened Qr
  import EventGuestTable2

  /** The scanner's own state: whether the camera is on and the last text
      read. */
  datatype ScanState = ScanState(isScanning: bool, scannedData: Option<string>)

  /** What a scan leaves behind: the scanner state and the `event_guest`
      table. */
  datatype Outcome = Outcome(state: ScanState, eventGuests: seq<EventGuestRow>)

  /** The row with `assisted` set and every other column as it was. */
  function MarkRow(r: EventGuestRow): EventGuestRow
  {
    r.(body := r.body.(assisted := true))
  }

  /** `update({ assisted: true })` on the rows `sel` picks. */
  function MarkAssisted(rows: seq<EventGuestRow>, sel: EventGuestRow -> bool): (r: seq<EventGuestRow>)
    ensures |r| == |rows|
    ensures forall i :: 0 <= i < |rows| ==> r[i] == if sel(rows[i]) then MarkRow(rows[i]) else rows[i]
  {
    if |rows| == 0 then []
    else [if sel(rows[0]) then MarkRow(rows[0]) else rows[0]] + MarkAssisted(rows[1..], sel)
  }

  function GuestId(g: Guest): nat { g.id }

  /** `guest.select('id').eq('executive_id', id)`: the ids of the guests of
      executive `execId`, from every list. */
  function GuestIdsOf(guests: seq<Guest>, execId: nat): (ids: seq<nat>)
    ensures forall id :: id in ids <==> exists g :: g in guests && g.executiveId == Some(execId) && g.id == id
  {
    var mine := Filter(guests, (g: Guest) => g.executiveId == Some(execId));
    var ids := MapSeq(mine, GuestId);
    assert forall k :: 0 <= k < |mine| ==> ids[k] == mine[k].id;
    ids
  }

  /** Rows of event `eventId` standing for one of the guests `ids`. */
  function OfGuests(eventId: nat, ids: seq<nat>): EventGuestRow -> bool
  {
    (r: EventGuestRow) => r.eventId == eventId && r.body.guestId in ids
  }

  /** Rows of event `eventId` with e-mail `email`. */
  function WithEmail(eventId: nat, email: string): EventGuestRow -> bool
  {
    (r: EventGuestRow) => r.eventId == eventId && r.body.email == Some(email)
  }

  /** The row with id `id`. */
  function HasId(id: nat): EventGuestRow -> bool
  {
    (x: EventGuestRow) => x.id == id
  }

  /** `event_guest.select('email').eq('id', id).single()` followed by the
      `!guestEmail` check: the e-mail of the one row with that id, of any
      event, when it is neither null nor empty. No row, several rows, a
      null or an empty e-mail all end the scan. */
  function ExternalEmail(rows: seq<EventGuestRow>, id: nat): (r: Option<string>)
    ensures r.Some? <==>
      var hits := Filter(rows, HasId(id));
      |hits| == 1 && hits[0].body.email.Some? && hits[0].body.email.value != ""
    ensures r.Some? ==> r.value != "" && exists x :: x in rows && x.id == id && x.body.email == Some(r.value)
  {
    var hits := Filter(rows, HasId(id));
    if |hits| == 1 && hits[0].body.email.Some? && hits[0].body.email.value != "" then
      assert hits[0] in hits;
      hits[0].body.email
    else None
  }

  /** The number after the dash, when there is one and it reads as a
      non-negative integer; any other id makes the database reject the
      query. */
  function ScanId(s: Scanned): (r: Option<nat>)
    ensures r.Some? <==> s.id.Some? && |s.id.value| > 0 && IsDigits(s.id.value)
  {
    if s.id.None? then None else ParseNat(s.id.value)
  }

  /** The id of a generated payload is read back from its scan. */
  lemma ScanIdOfPayload(prefix: string, id: nat)
    requires '-' !in prefix
    ensures ScanId(ParsePayload(Payload(prefix, id))) == Some(id)
  {
    PayloadRoundTrip(prefix, id);
  }

  /** The table after `handleScan` has read `text` at event `eventId`. */
  function Dispatch(text: string, eventId: nat, guests: seq<Guest>, rows: seq<EventGuestRow>): (r: seq<EventGuestRow>)
    ensures |r| == |rows|
    ensures forall i :: 0 <= i < |rows| ==> r[i] == rows[i] || r[i] == MarkRow(rows[i])
    ensures forall i :: 0 <= i < |rows| && rows[i].eventId != eventId ==> r[i] == rows[i]
    ensures var s := ParsePayload(text); s.prefix != Internal && s.prefix != External ==> r == rows
  {
    var s := ParsePayload(text);
    var id := ScanId(s);
    if id.None? then rows
    else if s.prefix == Internal then
      MarkAssisted(rows, OfGuests(eventId, GuestIdsOf(guests, id.value)))
    else if s.prefix == External then
      match ExternalEmail(rows, id.value)
      case None => rows
      case Some(email) => MarkAssisted(rows, WithEmail(eventId, email))
    else rows
  }

  /** `handleScan`: nothing happens when no code was detected; otherwise
      only the first code is read, the camera stops, the text is kept for
      display, and the table is updated from that text alone. */
  function HandleScan(detected: seq<string>, eventId: nat, state: ScanState,
                      guests: seq<Guest>, rows: seq<EventGuestRow>): (o: Outcome)
    ensures |detected| == 0 ==> o == Outcome(state, rows)
    ensures |detected| > 0 ==> !o.state.isScanning && o.state.scannedData == Some(detected[0])
    ensures |detected| > 0 ==> o.eventGuests == Dispatch(detected[0], eventId, guests, rows)
  {
    if |detected| == 0 then Outcome(state, rows)
    else Outcome(ScanState(false, Some(detected[0])), Dispatch(detected[0], eventId, guests, rows))
  }

  /** A scan only ever sets `assisted`: every other column of every row is
      kept, and no flag that was set is cleared. */
  lemma OnlyAssistedWritten(text: string, eventId: nat, guests: seq<Guest>, rows: seq<EventGuestRow>)
    ensures var r := Dispatch(text, eventId, guests, rows);
      forall i :: 0 <= i < |rows| ==>
        && r[i].id == rows[i].id && r[i].eventId == rows[i].eventId
        && r[i].body == rows[i].body.(assisted := r[i].body.assisted)
        && (rows[i].body.assisted ==> r[i].body.assisted)
  {
    var r := Dispatch(text, eventId, guests, rows);
    forall i | 0 <= i < |rows|
      ensures r[i].id == rows[i].id && r[i].eventId == rows[i].eventId
      ensures r[i].body == rows[i].body.(assisted := r[i].body.assisted)
      ensures rows[i].body.assisted ==> r[i].body.assisted
    {
      if r[i] != rows[i] {
        assert r[i] == MarkRow(rows[i]);
      }
    }
  }

  /** An `I-<id>` code sets `assisted` on exactly the rows of the event
      whose guest belongs to executive `id`, in any list. */
  lemma InternalScan(text: string, execId: nat, eventId: nat, guests: seq<Guest>, rows: seq<EventGuestRow>)
    requires ParsePayload(text).prefix == Internal
    requires ScanId(ParsePayload(text)) == Some(execId)
    ensures var r := Dispatch(text, eventId, guests, rows);
      forall i :: 0 <= i < |rows| ==>
        (r[i].body.assisted <==>
          || rows[i].body.assisted
          || (rows[i].eventId == eventId &&
              exists g :: g in guests && g.executiveId == Some(execId) && g.id == rows[i].body.guestId))
  {
  }

  /** An `E-<id>` code whose row has an e-mail sets `assisted` on exactly
      the rows of the event with that e-mail; when the row is missing or
      has no e-mail nothing changes. */
  lemma ExternalScan(text: string, id: nat, eventId: nat, guests: seq<Guest>, rows: seq<EventGuestRow>)
    requires ParsePayload(text).prefix == External
    requires ScanId(ParsePayload(text)) == Some(id)
    ensures ExternalEmail(rows, id).None? ==> Dispatch(text, eventId, guests, rows) == rows
    ensures ExternalEmail(rows, id).Some? ==>
      var email := ExternalEmail(rows, id).value;
      var r := Dispatch(text, eventId, guests, rows);
      forall i :: 0 <= i < |rows| ==>
        (r[i].body.assisted <==> rows[i].body.assisted || (rows[i].eventId == eventId && rows[i].body.email == Some(email)))
  {
  }

  /** A code without a readable number changes nothing. */
  lemma UnreadableIdNoChange(text: string, eventId: nat, guests: seq<Guest>, rows: seq<EventGuestRow>)
    requires ScanId(ParsePayload(text)).None?
    ensures Dispatch(text, eventId, guests, rows) == rows
  {
  }

  /** Scanning the same code twice leaves the table as scanning it once. */
  lemma ScanIdempotent(text: string, eventId: nat, guests: seq<Guest>, rows: seq<EventGuestRow>)
    ensures var once := Dispatch(text, eventId, guests, rows);
      Dispatch(text, eventId, guests, once) == once
  {
    var s := ParsePayload(text);
    var id := ScanId(s);
    var once := Dispatch(text, eventId, guests, rows);
    if id.Some? && s.prefix == Internal {
      MarkTwice(rows, OfGuests(eventId, GuestIdsOf(guests, id.value)));
    } else if id.Some? && s.prefix == External && ExternalEmail(rows, id.value).Some? {
      SameEmailAfterMarking(rows, once, id.value);
      MarkTwice(rows, WithEmail(eventId, ExternalEmail(rows, id.value).value));
    }
  }

  /** Marking again the rows a selection picks changes nothing, when the
      selection does not look at `assisted`. */
  lemma MarkTwice(rows: seq<EventGuestRow>, sel: EventGuestRow -> bool)
    requires forall x :: sel(MarkRow(x)) == sel(x)
    ensures MarkAssisted(MarkAssisted(rows, sel), sel) == MarkAssisted(rows, sel)
  {
  }

  /** Setting flags keeps every row's id and e-mail, so the e-mail lookup
      of an `E-` code gives the same answer afterwards. */
  lemma SameEmailAfterMarking(rows: seq<EventGuestRow>, marked: seq<EventGuestRow>, id: nat)
    requires |marked| == |rows|
    requires forall i :: 0 <= i < |rows| ==> marked[i] == rows[i] || marked[i] == MarkRow(rows[i])
    ensures ExternalEmail(marked, id) == ExternalEmail(rows, id)
  {
    SameIdsSameHits(rows, marked, id);
  }

  /** A row and the same row with its flag possibly set. */
  predicate SameOrMarked(x: EventGuestRow, y: EventGuestRow)
  {
    y == x || y == MarkRow(x)
  }

  /** Rows that differ only in their flags are hit by the same id lookups,
      at the same positions. */
  lemma SameIdsSameHits(rows: seq<EventGuestRow>, marked: seq<EventGuestRow>, id: nat)
    requires |marked| == |rows|
    requires forall i :: 0 <= i < |rows| ==> marked[i] == rows[i] || marked[i] == MarkRow(rows[i])
    ensures var a := Filter(rows, HasId(id));
      var b := Filter(marked, HasId(id));
      |a| == |b| && forall k :: 0 <= k < |a| ==> b[k] == a[k] || b[k] == MarkRow(a[k])
  {
    FilterRelated(rows, marked, HasId(id), SameOrMarked);
  }

  /** A code generated by the event view for an external row of this event
      checks that row in, provided its id is unique and its e-mail is
      neither null nor empty. (The list view encodes a `guest` id after
      `E-`, which the scanner looks up as an `event_guest` id; no such
      statement holds for it.) */
  lemma EventViewCodeChecksIn(j: EventGuestTable2.EventGuestJoin, guests: seq<Guest>, rows: seq<EventGuestRow>, k: nat)
    requires !j.row.body.isUser
    requires k < |rows| && rows[k] == j.row
    requires forall i :: 0 <= i < |rows| && i != k ==> rows[i].id != j.row.id
    requires j.row.body.email.Some? && j.row.body.email.value != ""
    ensures EventGuestTable2.QrPayload(j).Some?
    ensures Dispatch(EventGuestTable2.QrPayload(j).value, j.row.eventId, guests, rows)[k].body.assisted
  {
    var text := EventGuestTable2.QrPayload(j).value;
    DecimalRoundTrip(j.row.id);
    OnlyHit(rows, k);
    ExternalScan(text, j.row.id, j.row.eventId, guests, rows);
  }

  /** The only row with a unique id is the one hit by a lookup of it. */
  lemma OnlyHit(rows: seq<EventGuestRow>, k: nat)
    requires k < |rows|
    requires forall i :: 0 <= i < |rows| && i != k ==> rows[i].id != rows[k].id
    ensures Filter(rows, HasId(rows[k].id)) == [rows[k]]
  {
    FilterUnique(rows, HasId(rows[k].id), k);
  }
}
