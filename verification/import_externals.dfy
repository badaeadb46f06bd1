/** The spreadsheet import of external guests into a list: every row's
    user type and membership type is checked, ignoring case and surrounding
    blanks, against the fixed type lists; any invalid field rejects the
    whole file, and otherwise one normalised `guest` record per row is
    upserted. */
module ImportExternals {
  import opened Basics
  import opened Seqs
  import opened Text

  /** The user types an executive or a guest can have. */
  const UserTypes: seq<string> := [
    "Titular", "Cupo de cortesía", "Cupo adicional", "Cortesía de reuniones",
    "Cortesía de reportes", "Titular adicional", "Titular virtual", "Cliente potencial",
    "Titular Axpen", "Titular Vitalicio", "Titular indefinido",
    "Invitado por transición laboral", "Cliente beca", "Reemplazo", "AC", "Otros"]

  /** The membership types. */
  const MembershipTypes: seq<string> := [
    "SAE Ejecutivo", "SAE Reuniones", "SAE Virtual", "SAE Virtual Nuevo", "SAE Virtual Power",
    "SAE Básico", "SAE Básico Nuevo", "SAE Básico reuniones", "SAE Completo", "SAE Especial", "AC"]

  /** One sheet row, every cell read as text (`defval: ''` makes a missing
      cell the empty string). */
  datatype SheetRow = SheetRow(
    empresa: string,
    nombre: string,
    apellido: string,
    correo: string,
    cargo: string,
    tipoUsuario: string,
    tipoMembresia: string)

  /** What is stored in `tipo_membresia`: a type name, or the boolean
      `true` that an empty cell produces. */
  datatype MembershipValue = MembershipName(name: string) | BlankFlag

  /** One `guest` record to upsert. */
  datatype GuestRecord = GuestRecord(
    listId: nat,
    companyRazonSocial: string,
    name: string,
    email: string,
    position: string,
    tipoUsuario: string,
    tipoMembresia: MembershipValue,
    isUser: bool,
    isClientCompany: bool)

  /** How a cell is compared: lower-cased, then trimmed. */
  function CellKey(cell: string): string
  {
    Trim(Lower(cell))
  }

  /** Entry `i` is the first whose lower-cased form is `key`. */
  predicate FirstMatch(types: seq<string>, key: string, i: int)
  {
    0 <= i < |types| && Lower(types[i]) == key && forall k :: 0 <= k < i ==> Lower(types[k]) != key
  }

  /** `types.find(t => t.toLowerCase() === key)`: the first entry whose
      lower-cased form is `key`. */
  function FindType(types: seq<string>, key: string): (r: Option<string>)
    ensures r.None? <==> forall i :: 0 <= i < |types| ==> Lower(types[i]) != key
    ensures r.Some? ==> exists i :: FirstMatch(types, key, i) && types[i] == r.value
  {
    if |types| == 0 then None
    else if Lower(types[0]) == key then Some(types[0])
    else
      var r := FindType(types[1..], key);
      assert forall i :: 1 <= i < |types| ==> types[i] == types[1..][i - 1];
      if r.Some? then
        var i :| FirstMatch(types[1..], key, i) && types[1..][i] == r.value;
        assert FirstMatch(types, key, i + 1);
        r
      else r
  }

  /** The row's user type: the list entry it names, if any. */
  function UserTypeOf(row: SheetRow): Option<string>
  {
    FindType(UserTypes, CellKey(row.tipoUsuario))
  }

  /** The row's membership type: the list entry it names, `true` for an
      empty cell, nothing otherwise. A cell of blanks only is not empty. */
  function MembershipOf(row: SheetRow): (r: Option<MembershipValue>)
    ensures r.Some? <==> FindType(MembershipTypes, CellKey(row.tipoMembresia)).Some? || row.tipoMembresia == ""
    ensures r == Some(BlankFlag) ==> row.tipoMembresia == ""
  {
    match FindType(MembershipTypes, CellKey(row.tipoMembresia))
    case Some(t) => Some(MembershipName(t))
    case None => if row.tipoMembresia == "" then Some(BlankFlag) else None
  }

  /** The messages a row contributes: one per invalid field, user type
      first, each naming the row's e-mail and the rejected cell. */
  function RowErrors(row: SheetRow): (errs: seq<string>)
    ensures |errs| == (if UserTypeOf(row).None? then 1 else 0) + (if MembershipOf(row).None? then 1 else 0)
  {
    (if UserTypeOf(row).None? then
       ["Error en el correo " + row.correo + ": Tipo de usuario \"" + row.tipoUsuario + "\" no válido. "]
     else [])
    + (if MembershipOf(row).None? then
         ["Error en el correo " + row.correo + ": Tipo de membresía \"" + row.tipoMembresia + "\" no válido. "]
       else [])
  }

  /** The messages of all rows, row by row. */
  function Errors(rows: seq<SheetRow>): seq<string>
  {
    if |rows| == 0 then [] else RowErrors(rows[0]) + Errors(rows[1..])
  }

  predicate BadUserType(row: SheetRow) { UserTypeOf(row).None? }
  predicate BadMembership(row: SheetRow) { MembershipOf(row).None? }

  /** The record of one row: an external guest of list `listId` with the
      trimmed first and last name, the lower-cased trimmed e-mail, and the
      canonical type names (the raw cell when there is none). */
  function Record(listId: nat, row: SheetRow): (g: GuestRecord)
    ensures g.listId == listId && !g.isUser && !g.isClientCompany
    ensures g.name == Trim(row.nombre) + " " + Trim(row.apellido)
    ensures g.email == Trim(Lower(row.correo))
    ensures g.companyRazonSocial == row.empresa && g.position == row.cargo
    ensures UserTypeOf(row).Some? ==> g.tipoUsuario in UserTypes
    ensures MembershipOf(row).Some? ==> Some(g.tipoMembresia) == MembershipOf(row)
  {
    GuestRecord(
      listId,
      row.empresa,
      Trim(row.nombre) + " " + Trim(row.apellido),
      Trim(Lower(row.correo)),
      row.cargo,
      match UserTypeOf(row) case Some(t) => t case None => row.tipoUsuario,
      match MembershipOf(row) case Some(m) => m case None => MembershipName(row.tipoMembresia),
      false,
      false)
  }

  function Records(listId: nat, rows: seq<SheetRow>): (r: seq<GuestRecord>)
    ensures |r| == |rows|
    ensures forall i :: 0 <= i < |rows| ==> r[i] == Record(listId, rows[i])
  {
    MapSeq(rows, (row: SheetRow) => Record(listId, row))
  }

  /** What the upload does. */
  datatype Upload = NoFile | Rejected(errors: seq<string>) | Upserted(records: seq<GuestRecord>)

  /** `handleFileUpload`: without a file nothing is read or written; with
      any invalid field the messages are shown and nothing is written;
      otherwise every row's record is upserted, in sheet order. */
  function HandleFileUpload(file: Option<seq<SheetRow>>, listId: nat): (u: Upload)
    ensures file.None? <==> u.NoFile?
    ensures file.Some? ==> (u.Upserted? <==> forall i :: 0 <= i < |file.value| ==> !BadUserType(file.value[i]) && !BadMembership(file.value[i]))
    ensures u.Rejected? ==> u.errors == Errors(file.value) && |u.errors| > 0
    ensures u.Upserted? ==> |u.records| == |file.value|
    ensures u.Upserted? ==> forall i :: 0 <= i < |file.value| ==> u.records[i] == Record(listId, file.value[i])
  {
    match file
    case None => NoFile
    case Some(rows) =>
      ErrorCount(rows);
      var errs := Errors(rows);
      if |errs| > 0 then Rejected(errs) else Upserted(Records(listId, rows))
  }

  /** Every invalid field of every row contributes exactly one message. */
  lemma {:induction false} ErrorCount(rows: seq<SheetRow>)
    ensures |Errors(rows)| == Count(rows, BadUserType) + Count(rows, BadMembership)
  {
    if |rows| > 0 {
      ErrorCount(rows[1..]);
    }
  }

  /** A type is accepted exactly when it is one of the list's entries
      up to case and surrounding blanks, and the entry is what is stored. */
  lemma UserTypeAccepted(row: SheetRow)
    ensures UserTypeOf(row).Some? <==> exists t :: t in UserTypes && Lower(t) == CellKey(row.tipoUsuario)
    ensures UserTypeOf(row).Some? ==> UserTypeOf(row).value in UserTypes
    ensures UserTypeOf(row).Some? ==> Lower(UserTypeOf(row).value) == CellKey(row.tipoUsuario)
  {
  }

  /** The stored names are already canonical: importing a row whose cells
      hold what was stored accepts them and stores the same names. */
  lemma CanonicalIsStable(row: SheetRow, t: string, m: string)
    requires UserTypeOf(row) == Some(t)
    requires MembershipOf(row) == Some(MembershipName(m))
    ensures UserTypeOf(row.(tipoUsuario := t)) == Some(t)
    ensures MembershipOf(row.(tipoMembresia := m)) == Some(MembershipName(m))
  {
    TrimIdempotent(Lower(row.tipoUsuario));
    TrimIdempotent(Lower(row.tipoMembresia));
  }
}
