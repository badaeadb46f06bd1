/** The cells of the project list: who asked for the project, who is
    responsible for it, and its two dates. */
module Projects {
  import opened Basics
  import opened Seqs
  import opened Text
  import opened Dates

  /** A `project` row with its executive join, reduced to the columns the
      list shows. A null text renders as nothing. */
  datatype Project = Project(
    id: nat,
    projectCode: string,
    otherExecutive: bool,
    otherFullname: Option<string>,
    executiveName: Option<string>,
    executiveLastName: Option<string>,
    assignee: seq<string>,
    startDate: Option<string>,
    endDate: Option<string>)

  /** The "Solicitante" cell: the free-text requester when the project was
      asked for by someone other than a registered executive, otherwise
      `{name} {last_name}` of the executive. */
  function Requester(p: Project): (r: string)
    ensures p.otherExecutive ==> r == GetOr(p.otherFullname, "")
    ensures !p.otherExecutive ==> r == GetOr(p.executiveName, "") + " " + GetOr(p.executiveLastName, "")
  {
    if p.otherExecutive then GetOr(p.otherFullname, "")
    else GetOr(p.executiveName, "") + " " + GetOr(p.executiveLastName, "")
  }

  /** The executive's name can be read back from the cell: everything
      before its first blank, when the first name has no blank. */
  lemma RequesterNamesExecutive(p: Project)
    requires !p.otherExecutive && ' ' !in GetOr(p.executiveName, "")
    ensures Split(Requester(p), ' ')[0] == GetOr(p.executiveName, "")
  {
    var a := GetOr(p.executiveName, "");
    var rest := GetOr(p.executiveLastName, "");
    SplitCons(a, ' ', rest);
    assert Requester(p) == a + [' '] + rest;
  }

  /** The "Responsable(s)" cell: `assignee.join(', ')`. */
  function Responsables(p: Project): (r: string)
    ensures |p.assignee| == 0 ==> r == ""
    ensures |p.assignee| >= 1 ==> |r| == SumLengths(p.assignee) + 2 * (|p.assignee| - 1)
  {
    if |p.assignee| == 0 then ""
    else
      JoinLength(p.assignee, ", ");
      Join(p.assignee, ", ")
  }

  /** Every name with a blank in front. */
  function Spaced(names: seq<string>): (r: seq<string>)
    ensures |r| == |names|
    ensures forall i :: 0 <= i < |names| ==> r[i] == " " + names[i]
  {
    if |names| == 0 then [] else [" " + names[0]] + Spaced(names[1..])
  }

  /** Joining with `", "` is joining with `","` names that carry their
      blank in front. */
  lemma {:induction false} JoinCommaSpace(names: seq<string>)
    requires |names| >= 1
    ensures " " + Join(names, ", ") == Join(Spaced(names), ",")
  {
    if |names| > 1 {
      JoinCommaSpace(names[1..]);
      assert Spaced(names)[1..] == Spaced(names[1..]);
      assert " " + Join(names, ", ") == (" " + names[0]) + "," + (" " + Join(names[1..], ", "));
    }
  }

  /** When no assignee has a comma, splitting the cell on `','` gives the
      first assignee and then the others, each after the blank of the
      separator: the cell lists exactly the assignees, in order. */
  lemma ResponsablesListsAssignees(p: Project)
    requires |p.assignee| >= 1
    requires forall i :: 0 <= i < |p.assignee| ==> ',' !in p.assignee[i]
    ensures Split(Responsables(p), ',') == [p.assignee[0]] + Spaced(p.assignee[1..])
  {
    var a := p.assignee;
    var parts := [a[0]] + Spaced(a[1..]);
    if |a| > 1 {
      JoinCommaSpace(a[1..]);
      assert Join(a, ", ") == a[0] + "," + Join(Spaced(a[1..]), ",");
      assert parts[1..] == Spaced(a[1..]);
      assert Join(parts, ",") == Join(a, ", ");
    }
    forall k | 0 <= k < |parts| ensures ',' !in parts[k] {
      if k > 0 {
        assert parts[k] == " " + a[k];
      }
    }
    SplitJoin(parts, ',');
  }

  /** The "Fecha de ingreso" and "Fecha de cierre" cells. */
  function DateCells(p: Project): (r: (string, string))
    ensures r.0 == "" <==> p.startDate.None? || p.startDate.value == ""
    ensures r.1 == "" <==> p.endDate.None? || p.endDate.value == ""
  {
    (ConvertDate(p.startDate), ConvertDate(p.endDate))
  }
}
