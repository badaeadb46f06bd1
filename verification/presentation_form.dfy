/** The presentation form: the two assignee checkbox lists, the company
    select (which clears the chosen executive), and the submit, which
    updates an existing presentation or inserts a new one. */
module PresentationForm {
  import opened Basics
  import opened Seqs
  import opened Text

  /** The SAE staff offered in both assignee lists. */
  const SaeNames: seq<string> := [
    "Juan Pérez", "María García", "Carlos Rodríguez", "Ana Martínez", "Luis López",
    "Laura Sánchez", "Diego Fernández", "Sofía Torres", "Andrés Ramírez", "Valentina Herrera"]

  /** The form state; the two selects hold their option values as text. */
  datatype Form = Form(
    companyId: string,
    executiveId: string,
    elaborationAssignee: seq<string>,
    presentationAssignee: seq<string>,
    orderSource: string,
    orderDate: string,
    presentationDateHour: string,
    presentationType: string,
    modalidad: string,
    comments: string)

  /** `handleElaborationAssigneeChange`: a listed name is removed
      (every occurrence of it), an unlisted one is appended; the other
      names keep their order, and nothing else in the form changes. */
  function ToggleElaboration(f: Form, name: string): (r: Form)
    ensures r.(elaborationAssignee := f.elaborationAssignee) == f
    ensures name in f.elaborationAssignee ==> name !in r.elaborationAssignee
    ensures name !in f.elaborationAssignee ==> r.elaborationAssignee == f.elaborationAssignee + [name]
    ensures Filter(r.elaborationAssignee, Other(name)) == Filter(f.elaborationAssignee, Other(name))
  {
    f.(elaborationAssignee := Toggle(f.elaborationAssignee, name))
  }

  /** `handlePresentationAssigneeChange`: the same toggle on the other list. */
  function TogglePresentation(f: Form, name: string): (r: Form)
    ensures r.(presentationAssignee := f.presentationAssignee) == f
    ensures name in f.presentationAssignee ==> name !in r.presentationAssignee
    ensures name !in f.presentationAssignee ==> r.presentationAssignee == f.presentationAssignee + [name]
    ensures Filter(r.presentationAssignee, Other(name)) == Filter(f.presentationAssignee, Other(name))
  {
    f.(presentationAssignee := Toggle(f.presentationAssignee, name))
  }

  /** Ticking and then unticking a name that was not chosen restores the
      form. */
  lemma ToggleTwiceRestores(f: Form, name: string)
    requires name !in f.elaborationAssignee && name !in f.presentationAssignee
    ensures ToggleElaboration(ToggleElaboration(f, name), name) == f
    ensures TogglePresentation(TogglePresentation(f, name), name) == f
  {
    ToggleTwiceAbsent(f.elaborationAssignee, name);
    ToggleTwiceAbsent(f.presentationAssignee, name);
  }

  /** The toggles of the two lists do not interfere: applied in either
      order they give the same form. */
  lemma TogglesCommute(f: Form, a: string, b: string)
    ensures ToggleElaboration(TogglePresentation(f, b), a) == TogglePresentation(ToggleElaboration(f, a), b)
  {
  }

  /** `handleCompanyChange`: the new company is chosen, the executive is
      cleared, and the executives of `parseInt(value)` are loaded (the id
      is `None` for `NaN`). */
  function ChangeCompany(f: Form, value: string): (r: (Form, Option<int>))
    ensures r.0 == f.(companyId := value, executiveId := "")
    ensures r.1 == ParseIntJs(value)
  {
    (f.(companyId := value, executiveId := ""), ParseIntJs(value))
  }

  /** Choosing a company by its option value (its id in decimal) loads
      that company's executives and leaves no executive chosen. */
  lemma CompanyOptionLoadsItsExecutives(f: Form, id: nat)
    ensures ChangeCompany(f, Decimal(id)).1 == Some(id)
    ensures ChangeCompany(f, Decimal(id)).0.executiveId == ""
  {
    ParseIntJsDecimal(id);
  }

  /** The `presentation` record: both ids go through `parseInt`, so an
      unchosen select is `NaN` (`None`). */
  datatype Presentation = Presentation(
    companyId: Option<int>,
    executiveId: Option<int>,
    elaborationAssignee: seq<string>,
    presentationAssignee: seq<string>,
    orderSource: string,
    orderDate: string,
    presentationDateHour: string,
    presentationType: string,
    modalidad: string,
    comments: string)

  function Record(f: Form): Presentation
  {
    Presentation(ParseIntJs(f.companyId), ParseIntJs(f.executiveId), f.elaborationAssignee, f.presentationAssignee,
                 f.orderSource, f.orderDate, f.presentationDateHour, f.presentationType, f.modalidad, f.comments)
  }

  /** The write of a submit. */
  datatype Write = Update(id: nat, record: Presentation) | Insert(record: Presentation)

  /** `handleSubmit`: an update of `presentationId` when it is truthy, an
      insert otherwise; the page goes to the presentation list only when
      the write succeeds. */
  function HandleSubmit(f: Form, presentationId: Option<nat>, fails: bool): (r: (Write, bool))
    ensures r.0.Update? <==> Truthy(presentationId)
    ensures r.0.Update? ==> r.0.id == presentationId.value
    ensures r.0.record.elaborationAssignee == f.elaborationAssignee
    ensures r.0.record.presentationAssignee == f.presentationAssignee
    ensures r.1 <==> !fails
  {
    if Truthy(presentationId) then (Update(presentationId.value, Record(f)), !fails)
    else (Insert(Record(f)), !fails)
  }

  /** Submitting right after a company change, before an executive is
      chosen again, sends the chosen company and a `NaN` executive id. */
  lemma SubmitAfterCompanyChange(f: Form, id: nat, presentationId: Option<nat>, fails: bool)
    ensures var r := HandleSubmit(ChangeCompany(f, Decimal(id)).0, presentationId, fails);
      r.0.record.companyId == Some(id) && r.0.record.executiveId.None?
  {
    ParseIntJsDecimal(id);
  }
}
