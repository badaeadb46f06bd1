/** The CSV mail-out page: the e-mails of an uploaded CSV are kept when
    present and not blank, and "send" posts them to the mailing route in
    batches of 1000 with one fixed template. A failed batch is only
    logged: the later batches are still sent and the final status counts
    every loaded e-mail. */
module LoadEmails {
  import opened Basics
  import opened Seqs
  import opened Text
  import opened Paging
  import opened Batching

  /** The template every batch is sent with. */
  const LoadTemplateId: string := "d-06a8253663564735bdbbcdfb031e0ec3"

  /** A parsed CSV row: its `email` column, when the row has one. */
  datatype CsvRow = CsvRow(email: Option<string>)

  /** One recipient of a request, `{ to: email }`. */
  datatype Personalization = Personalization(to: string)

  /** The body posted for one batch. */
  datatype Request = Request(templateId: string, personalizations: seq<Personalization>)

  /** The page state: the loaded e-mails and the status line. */
  datatype Loader = Loader(csvData: seq<string>, status: Option<string>)

  /** A row whose trimmed e-mail is not empty. */
  predicate HasEmail(row: CsvRow)
  {
    row.email.Some? && Trim(row.email.value) != ""
  }

  function TrimmedEmail(row: CsvRow): string
  {
    Trim(GetOr(row.email, ""))
  }

  /** `rows.map(row => ({ email: row.email?.trim() })).filter(row => row.email)`:
      the trimmed e-mail of every row that has a non-blank one, in file
      order. */
  function Recipients(rows: seq<CsvRow>): (r: seq<string>)
    ensures r == MapSeq(Filter(rows, HasEmail), TrimmedEmail)
  {
    if |rows| == 0 then []
    else
      var rest := Recipients(rows[1..]);
      FilterMapCons(rows, HasEmail, TrimmedEmail);
      if HasEmail(rows[0]) then [TrimmedEmail(rows[0])] + rest else rest
  }

  /** `handleFileUpload`: with no file nothing changes; a CSV that cannot
      be parsed only sets the error status; otherwise the kept e-mails
      replace the loaded ones and the status counts them. */
  function HandleFileUpload(st: Loader, file: Option<Fetch<CsvRow>>): (r: Loader)
    ensures file.None? ==> r == st
    ensures file == Some(FetchFailed) ==> r == st.(status := Some("Error procesando el archivo CSV."))
    ensures file.Some? && file.value.Fetched? ==>
      r == Loader(Recipients(file.value.rows), Some("Se cargaron " + Decimal(|Recipients(file.value.rows)|) + " registros."))
  {
    match file
    case None => st
    case Some(FetchFailed) => st.(status := Some("Error procesando el archivo CSV."))
    case Some(Fetched(rows)) =>
      var data := Recipients(rows);
      Loader(data, Some("Se cargaron " + Decimal(|data|) + " registros."))
  }

  /** The trimmed e-mail of a row that has one is not empty and has no
      blanks around it. */
  lemma TrimmedEmailOf(row: CsvRow)
    requires HasEmail(row)
    ensures TrimmedEmail(row) != "" && Trim(TrimmedEmail(row)) == TrimmedEmail(row)
  {
    TrimIdempotent(row.email.value);
  }

  /** Every kept e-mail is trimmed and not empty. */
  lemma KeptAreTrimmed(kept: seq<CsvRow>)
    requires forall i :: 0 <= i < |kept| ==> HasEmail(kept[i])
    ensures forall i :: 0 <= i < |kept| ==> MapSeq(kept, TrimmedEmail)[i] != "" && Trim(MapSeq(kept, TrimmedEmail)[i]) == MapSeq(kept, TrimmedEmail)[i]
  {
    forall i | 0 <= i < |kept| ensures MapSeq(kept, TrimmedEmail)[i] != "" && Trim(MapSeq(kept, TrimmedEmail)[i]) == MapSeq(kept, TrimmedEmail)[i] {
      TrimmedEmailOf(kept[i]);
    }
  }

  /** Every row of `kept` has its trimmed e-mail among the mapped ones. */
  lemma KeptAreListed(kept: seq<CsvRow>)
    ensures forall row :: row in kept ==> TrimmedEmail(row) in MapSeq(kept, TrimmedEmail)
  {
    forall row | row in kept ensures TrimmedEmail(row) in MapSeq(kept, TrimmedEmail) {
      var i :| 0 <= i < |kept| && kept[i] == row;
      assert MapSeq(kept, TrimmedEmail)[i] == TrimmedEmail(row);
    }
  }

  /** The kept e-mails are exactly the trimmed non-blank ones: one per row
      whose trimmed e-mail is not empty, each already trimmed and never
      empty, and every such row's e-mail among them. */
  lemma KeptRowsAreNonBlank(rows: seq<CsvRow>)
    ensures |Recipients(rows)| == Count(rows, HasEmail)
    ensures forall i :: 0 <= i < |Recipients(rows)| ==> Recipients(rows)[i] != "" && Trim(Recipients(rows)[i]) == Recipients(rows)[i]
    ensures forall row :: row in rows && HasEmail(row) ==> TrimmedEmail(row) in Recipients(rows)
  {
    var kept := Filter(rows, HasEmail);
    KeptAreTrimmed(kept);
    KeptAreListed(kept);
  }

  function Personalize(email: string): Personalization
  {
    Personalization(email)
  }

  function RequestOf(batch: seq<string>): Request
  {
    Request(LoadTemplateId, MapSeq(batch, Personalize))
  }

  function PersonalizationsOf(q: Request): seq<Personalization>
  {
    q.personalizations
  }

  /** The status after a send of `n` e-mails. */
  function SentStatus(n: nat): string
  {
    "Se enviaron " + Decimal(n) + " correos."
  }

  /** The outcome of `sendEmails`. */
  datatype Sending =
    | NothingToSend
    | Sent(requests: seq<Request>, delivered: seq<bool>)

  /** `sendEmails`: with no e-mails loaded nothing is sent; otherwise one
      request per batch of the loaded e-mails, every batch attempted
      whatever happened to the earlier ones (`failed` holds the indices of
      the batches the route rejects), and the final status counts all the
      loaded e-mails. */
  function SendEmails(csvData: seq<string>, failed: set<nat>): (r: (Sending, string))
    ensures r.0.NothingToSend? <==> |csvData| == 0
    ensures r.0.NothingToSend? ==> r.1 == "No hay correos para enviar."
    ensures r.0.Sent? ==> r.1 == SentStatus(|csvData|)
    ensures r.0.Sent? ==> |r.0.requests| == |r.0.delivered| == CeilDiv(|csvData|, BatchSize)
    ensures r.0.Sent? ==> forall k :: 0 <= k < |r.0.requests| ==>
      r.0.requests[k].templateId == LoadTemplateId && 0 < |r.0.requests[k].personalizations| <= BatchSize
    ensures r.0.Sent? ==> forall k :: 0 <= k < |r.0.delivered| ==> (r.0.delivered[k] <==> k !in failed)
  {
    if |csvData| == 0 then (NothingToSend, "No hay correos para enviar.")
    else
      var batches := Chunks(csvData, BatchSize);
      var delivered := seq(|batches|, k requires 0 <= k < |batches| => k !in failed);
      (Sent(MapSeq(batches, RequestOf), delivered), SentStatus(|csvData|))
  }

  /** The requests, concatenated, hold one personalization per loaded
      e-mail, in order. */
  lemma RequestsCoverEmails(csvData: seq<string>, failed: set<nat>)
    requires |csvData| > 0
    ensures Concat(MapSeq(SendEmails(csvData, failed).0.requests, PersonalizationsOf)) == MapSeq(csvData, Personalize)
  {
    var batches := Chunks(csvData, BatchSize);
    assert MapSeq(MapSeq(batches, RequestOf), PersonalizationsOf)
        == MapSeq(batches, (part: seq<string>) => MapSeq(part, Personalize));
    ConcatMapSeq(batches, Personalize);
  }

  /** Failures change neither the requests sent nor the status shown. */
  lemma FailuresDoNotStopSending(csvData: seq<string>, failed: set<nat>)
    ensures SendEmails(csvData, failed).0.NothingToSend? == SendEmails(csvData, {}).0.NothingToSend?
    ensures SendEmails(csvData, failed).1 == SendEmails(csvData, {}).1
    ensures |csvData| > 0 ==> SendEmails(csvData, failed).0.requests == SendEmails(csvData, {}).0.requests
  {
  }

  /** Sending what was loaded from a file posts each kept e-mail once, in
      file order. */
  lemma UploadThenSend(st: Loader, rows: seq<CsvRow>, failed: set<nat>)
    requires Count(rows, HasEmail) > 0
    ensures var loaded := HandleFileUpload(st, Some(Fetched(rows))).csvData;
      Concat(MapSeq(SendEmails(loaded, failed).0.requests, PersonalizationsOf))
        == MapSeq(MapSeq(Filter(rows, HasEmail), TrimmedEmail), Personalize)
  {
    KeptRowsAreNonBlank(rows);
    RequestsCoverEmails(Recipients(rows), failed);
  }
}
