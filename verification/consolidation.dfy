/** The merge of internal and external guests into one row shape, shared
    by the campaign table and the list's guest table: personal data from
    the executive for internal guests, company from the joined company for
    client companies, `''` for anything missing, and attendance from the
    attendance dictionary. */
module Consolidation {
  import opened Basics
  import opened Seqs
  import opened Text
  import opened Tables
  import opened Attendance

  /** The columns both guest tables show for a consolidated guest, plus
      the attendance entry they attach (`event_guest`). */
  datatype GuestCore = GuestCore(
    id: nat,
    name: string,
    company: string,
    position: string,
    email: string,
    tipoUsuario: string,
    tipoMembresia: string,
    endDate: string,
    assisted: bool,
    registered: bool,
    eventGuest: Option<Entry>)

  function Lookup(att: map<nat, Entry>, id: nat): Option<Entry>
  {
    if id in att then Some(att[id]) else None
  }

  /** The consolidated row of guest `g` under display name `name`: position,
      user type and membership type from the executive exactly for internal
      guests, the company from the join exactly for client companies, `''`
      for a missing value in every case, and the flags and `event_guest` of
      the guest's attendance entry, if any. */
  function Consolidate(g: Guest, name: string, att: map<nat, Entry>): (c: GuestCore)
    ensures c.id == g.id && c.name == name && c.email == GetOr(g.email, "")
    ensures g.isUser && g.executive.Some? ==>
      && c.position == GetOr(g.executive.value.position, "")
      && c.tipoUsuario == GetOr(g.executive.value.userType, "")
      && c.tipoMembresia == GetOr(g.executive.value.membershipType, "")
    ensures g.isUser && g.executive.None? ==> c.position == "" && c.tipoUsuario == "" && c.tipoMembresia == ""
    ensures !g.isUser ==>
      && c.position == GetOr(g.position, "") && c.tipoUsuario == GetOr(g.tipoUsuario, "")
      && c.tipoMembresia == GetOr(g.tipoMembresia, "")
    ensures g.isClientCompany && g.company.Some? ==> c.company == GetOr(g.company.value.razonSocial, "")
    ensures g.isClientCompany && g.company.None? ==> c.company == ""
    ensures !g.isClientCompany ==> c.company == GetOr(g.companyRazonSocial, "")
    ensures c.assisted <==> g.id in att && att[g.id].assisted
    ensures c.registered <==> g.id in att && att[g.id].registered
    ensures c.eventGuest.Some? <==> g.id in att
    ensures g.id in att ==> c.eventGuest == Some(att[g.id])
  {
    var entry := Lookup(att, g.id);
    GuestCore(
      g.id,
      name,
      if g.isClientCompany then GetOr(JoinedCompanyName(g.company), "") else GetOr(g.companyRazonSocial, ""),
      if g.isUser then GetOr(ExecField(g.executive, ExecPosition), "") else GetOr(g.position, ""),
      GetOr(g.email, ""),
      if g.isUser then GetOr(ExecField(g.executive, ExecUserType), "") else GetOr(g.tipoUsuario, ""),
      if g.isUser then GetOr(ExecField(g.executive, ExecMembershipType), "") else GetOr(g.tipoMembresia, ""),
      GetOr(ExecField(g.executive, ExecEndDate), ""),
      entry.Some? && entry.value.assisted,
      entry.Some? && entry.value.registered,
      entry)
  }

  /** A guest without an attendance entry is neither assisted nor
      registered, and has no `event_guest` attached. */
  lemma NoEntryNoAttendance(g: Guest, name: string, att: map<nat, Entry>)
    requires g.id !in att
    ensures !Consolidate(g, name, att).assisted
    ensures !Consolidate(g, name, att).registered
    ensures Consolidate(g, name, att).eventGuest.None?
  {
  }

  /** In list-wide mode a guest is shown as assisted (registered) exactly
      when one of its `event_guest` rows, for any event the list is invited
      to, is assisted (registered). */
  lemma ListWideAttendance(g: Guest, name: string, eventId: Option<nat>, listId: nat,
                           rows: seq<EventGuestRow>, links: seq<EventList>)
    requires !Truthy(eventId)
    ensures var ids := ListEventIds(links, listId);
      var mine := Filter(rows, (r: EventGuestRow) => r.eventId in ids);
      var c := Consolidate(g, name, AttendanceMap(eventId, listId, Fetched(rows), Fetched(links)));
      && (c.assisted <==> AnyRow(mine, g.id, Assisted))
      && (c.registered <==> AnyRow(mine, g.id, Registered))
  {
    var ids := ListEventIds(links, listId);
    var mine := Filter(rows, (r: EventGuestRow) => r.eventId in ids);
    var m := AttendanceMap(eventId, listId, Fetched(rows), Fetched(links));
    assert m == OrMerge(mine);
    if g.id !in m {
      assert g.id !in GuestIds(mine);
    }
  }

  /** In single-event mode a guest with rows for the event shows the flags
      of its last such row. */
  lemma SingleEventAttendance(g: Guest, name: string, eventId: nat, listId: nat,
                              rows: seq<EventGuestRow>, links: Fetch<EventList>, k: nat)
    requires eventId != 0
    requires var mine := Filter(rows, (r: EventGuestRow) => r.eventId == eventId);
      k < |mine| && mine[k].body.guestId == g.id && IsLastOfGuest(mine, k)
    ensures var mine := Filter(rows, (r: EventGuestRow) => r.eventId == eventId);
      var c := Consolidate(g, name, AttendanceMap(Some(eventId), listId, Fetched(rows), links));
      c.assisted == mine[k].body.assisted && c.registered == mine[k].body.registered
      && c.eventGuest == Some(EntryOf(mine[k]))
  {
  }
}
