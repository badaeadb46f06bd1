/** The database rows the dashboard reads and writes, as immutable records.
    A table is a `seq` of rows. Nullable columns are `Option`s; the boolean
    flags `assisted` and `registered` are plain `bool`s, because every
    component reads a null flag as `false`. */
module Tables {
  import opened Basics

  /** An `executive` row (an internal user), as joined from a guest. */
  datatype Executive = Executive(
    id: nat,
    name: Option<string>,
    lastName: Option<string>,
    apodo: Option<string>,
    estimado: Option<string>,
    tareco: Option<string>,
    position: Option<string>,
    endDate: Option<string>,
    userType: Option<string>,
    membershipType: Option<string>)

  /** A `company` row, as joined through a `company_id`. */
  datatype Company = Company(razonSocial: Option<string>)

  /** A `guest` row of an invitation list, with its executive and company
      joins (`None` when the foreign key is null). Internal guests
      (`isUser`) take their personal data from the executive; external
      guests carry it themselves. */
  datatype Guest = Guest(
    id: nat,
    listId: nat,
    isUser: bool,
    isClientCompany: bool,
    name: Option<string>,
    email: Option<string>,
    position: Option<string>,
    companyRazonSocial: Option<string>,
    tipoUsuario: Option<string>,
    tipoMembresia: Option<string>,
    executiveId: Option<nat>,
    executive: Option<Executive>,
    company: Option<Company>)

  /** The columns of an `event_guest` row other than its `id` and
      `event_id`: the guest it stands for, its attendance flags, and the
      guest data copied into it. */
  datatype EventGuestBody = EventGuestBody(
    guestId: nat,
    assisted: bool,
    registered: bool,
    name: Option<string>,
    email: Option<string>,
    position: Option<string>,
    companyRazonSocial: Option<string>,
    tipoUsuario: Option<string>,
    tipoMembresia: Option<string>,
    isUser: bool,
    isClientCompany: bool,
    executiveId: Option<nat>,
    companyId: Option<nat>,
    virtualSessionTime: Option<nat>)

  /** An `event_guest` row: one guest invited to one event. */
  datatype EventGuestRow = EventGuestRow(id: nat, eventId: nat, body: EventGuestBody)

  /** An `event` row. */
  datatype Event = Event(id: nat, name: string, eventType: string, macroEventId: nat)

  /** A `list` row: an invitation list of a macro-event. */
  datatype ListRow = ListRow(id: nat, name: string, macroEventId: nat)

  /** An `event_list` row: a list invited to an event. */
  datatype EventList = EventList(id: nat, eventId: nat, listId: nat)

  /** A `sendgridLogs` row: one e-mail of one type sent to one address. */
  datatype SendgridLog = SendgridLog(email: string, emailType: string, macroEventId: int, createdAt: int)

  /** The joined company name `company?.razon_social`. */
  function JoinedCompanyName(c: Option<Company>): Option<string>
  {
    match c
    case Some(co) => co.razonSocial
    case None => None
  }

  /** An optional field of an optional executive, `executive?.field`. */
  function ExecField(e: Option<Executive>, f: Executive -> Option<string>): Option<string>
  {
    match e
    case Some(x) => f(x)
    case None => None
  }

  /** The company sort key of an `event_guest` row:
      `is_client_company ? company?.razon_social : company_razon_social`,
      or `''`. The tables that sort by it select no `company` join at the
      `event_guest` level, so client-company rows all sort under `''`. */
  function CompanySortKey(b: EventGuestBody): string
  {
    if b.isClientCompany then "" else GetOr(b.companyRazonSocial, "")
  }

  /** The optional columns of an executive, for `ExecField`. */
  function ExecName(e: Executive): Option<string> { e.name }
  function ExecLastName(e: Executive): Option<string> { e.lastName }
  function ExecApodo(e: Executive): Option<string> { e.apodo }
  function ExecEstimado(e: Executive): Option<string> { e.estimado }
  function ExecTareco(e: Executive): Option<string> { e.tareco }
  function ExecPosition(e: Executive): Option<string> { e.position }
  function ExecUserType(e: Executive): Option<string> { e.userType }
  function ExecMembershipType(e: Executive): Option<string> { e.membershipType }
  function ExecEndDate(e: Executive): Option<string> { e.endDate }
}
