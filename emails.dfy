/**
 * The email routes (backend/routes/emails.js): listing with cached summaries,
 * summarising one email, and summarising a batch, over the email_summaries and
 * activity_logs tables.
 *
 * Each handler runs after `requireAuth` has let the request through and takes
 * `user`, the verified user id. The Gmail API is a parameter: these routes never
 * load Gmail credentials, so it stands for whatever Gmail answers to the token
 * the handler passes on.
 */
module Emails {
  import opened Wrappers
  import opened Text
  import Json
  import Seqs
  import Gmail
  import Summarizer
  import opened Store
  import opened Http

  const DefaultMaxResults: int := 20
  const DefaultQuery: string := "is:inbox"
  const BatchLimit: nat := 10

  const FetchFailed: string := "Failed to fetch emails"
  const SummarizeFailed: string := "Failed to summarize email"
  const BatchFailed: string := "Failed to batch summarize"
  const IdsRequired: string := "emailIds required"

  /**
   * The library calls the handlers make: `fetchEmails`, `fetchEmailById` and
   * `summarizeEmail`. Live binds them to the Gmail and model services.
   */
  datatype Services = Services(fetchEmails: (int, string) -> Option<seq<Gmail.Email>>,
                               fetchEmailById: EmailId -> Option<Gmail.Email>,
                               summarizeEmail: Gmail.Email -> Result<Json.Value, Summarizer.Failure>)

  /** The services as backend/lib/gmail.js and backend/lib/summarizer.js provide them. */
  function Live(api: Gmail.MailApi, decode: Gmail.Decoder, llm: Summarizer.Llm, parse: Summarizer.JsonParser)
    : (svc: Services)
    ensures forall n, q :: svc.fetchEmails(n, q) == Gmail.FetchEmails(api, decode, n, q)
    ensures forall id :: svc.fetchEmailById(id) == Gmail.FetchEmailById(api, decode, id)
    ensures forall e :: svc.summarizeEmail(e) == Summarizer.SummarizeEmail(e, llm, parse)
  {
    Services((n, q) => Gmail.FetchEmails(api, decode, n, q),
             id => Gmail.FetchEmailById(api, decode, id),
             e => Summarizer.SummarizeEmail(e, llm, parse))
  }

  // ---------------------------------------------------------------- GET /

  /** An email of the listing: the email's fields plus `summary` and `summarized`. */
  datatype Listed = Listed(email: Gmail.Email, summary: Json.Value, summarized: bool)

  function Ids(emails: seq<Gmail.Email>): (r: seq<EmailId>)
    ensures |r| == |emails| && forall i :: 0 <= i < |emails| ==> r[i] == emails[i].id
  {
    seq(|emails|, i requires 0 <= i < |emails| => emails[i].id)
  }

  /** The rows `.in('email_id', ids).eq('user_id', user)` selects, in table order. */
  function CachedRows(rows: seq<SummaryRow>, user: UserId, ids: seq<EmailId>): (r: seq<SummaryRow>)
    ensures forall x :: x in r <==> x in rows && x.userId == user && x.emailId in ids
  {
    if rows == [] then []
    else
      var rest := CachedRows(rows[1..], user, ids);
      assert forall x :: x in rows <==> x == rows[0] || x in rows[1..];
      if rows[0].userId == user && rows[0].emailId in ids then [rows[0]] + rest else rest
  }

  function RowKey(row: SummaryRow): EmailId
  {
    row.emailId
  }

  function RowItself(row: SummaryRow): SummaryRow
  {
    row
  }

  /** `cachedMap`, filled by `forEach`: each email id mapped to its row, a later row replacing an earlier one. */
  method IndexCached(cached: seq<SummaryRow>) returns (m: map<EmailId, SummaryRow>)
    ensures m == Seqs.IndexBy(cached, RowKey, RowItself)
  {
    m := map[];
    var i := 0;
    while i < |cached|
      invariant 0 <= i <= |cached|
      invariant m == Seqs.IndexBy(cached[..i], RowKey, RowItself)
    {
      assert cached[..i + 1][..i] == cached[..i];
      m := m[cached[i].emailId := cached[i]];
      i := i + 1;
    }
    assert cached[..i] == cached;
  }

  /** The `emails.map` that attaches `cachedMap[email.id]?.summary_data || null` and `!!cachedMap[email.id]`. */
  function Attach(emails: seq<Gmail.Email>, cachedMap: map<EmailId, SummaryRow>): (r: seq<Listed>)
    ensures |r| == |emails|
    ensures forall i :: 0 <= i < |r| ==> r[i].email == emails[i] && (r[i].summarized <==> emails[i].id in cachedMap)
  {
    seq(|emails|, i requires 0 <= i < |emails| =>
      var id := emails[i].id;
      var summary := if id in cachedMap && Json.Truthy(cachedMap[id].summary) then cachedMap[id].summary
                     else Json.JNull;
      Listed(emails[i], summary, id in cachedMap))
  }

  /** The listing GET / answers with for `emails` and the summary table `rows`. */
  function Listing(rows: seq<SummaryRow>, user: UserId, emails: seq<Gmail.Email>): seq<Listed>
  {
    Attach(emails, Seqs.IndexBy(CachedRows(rows, user, Ids(emails)), RowKey, RowItself))
  }

  /**
   * Each listed email carries the summary stored for (user, id), or null when
   * there is none or it is falsy, and is marked summarized exactly when a row exists.
   */
  lemma ListingMatchesTable(rows: seq<SummaryRow>, user: UserId, emails: seq<Gmail.Email>, i: nat)
    requires UniqueKeys(rows) && i < |emails|
    ensures |Listing(rows, user, emails)| == |emails|
    ensures Listing(rows, user, emails)[i].email == emails[i]
    ensures Listing(rows, user, emails)[i].summarized <==> FindSummary(rows, user, emails[i].id).Some?
    ensures Listing(rows, user, emails)[i].summary ==
            var found := FindSummary(rows, user, emails[i].id);
            if found.Some? && Json.Truthy(found.value.summary) then found.value.summary else Json.JNull
  {
    var cached := CachedRows(rows, user, Ids(emails));
    var m := Seqs.IndexBy(cached, RowKey, RowItself);
    var id := emails[i].id;
    assert Ids(emails)[i] == id;
    Seqs.IndexByLastWins(cached, RowKey, RowItself, id);
    var found := FindSummary(rows, user, id);
    if found.Some? {
      assert found.value in cached;
      var k :| 0 <= k < |cached| && cached[k] == found.value;
      assert RowKey(cached[k]) == id;
      var j :| Seqs.IsLastWithKey(cached, RowKey, id, j) && m[id] == RowItself(cached[j]);
      assert cached[j] in rows;
      var q :| 0 <= q < |rows| && rows[q] == cached[j];
      FindUnique(rows, q);
      assert m[id] == found.value;
    } else {
      forall k | 0 <= k < |cached|
        ensures RowKey(cached[k]) != id
      {
        assert cached[k] in rows;
        var q :| 0 <= q < |rows| && rows[q] == cached[k];
        assert !HasKey(rows[q], user, id);
      }
      assert id !in m;
    }
  }

  /** GET /: fetch the emails, attach cached summaries, log the fetch. */
  method ListEmails(db: Database, user: UserId, svc: Services, maxResults: Option<int>, query: Option<string>)
    returns (r: Response<seq<Listed>>)
    modifies db
    ensures db.summaries == old(db.summaries) && db.connections == old(db.connections)
    ensures var n := if maxResults.Some? then maxResults.value else DefaultMaxResults;
            var q := if query.Some? then query.value else DefaultQuery;
            match svc.fetchEmails(n, q)
            case None =>
              r == Failed(500, FetchFailed) && db.activity == old(db.activity)
            case Some(emails) =>
              r == Done(Listing(old(db.summaries), user, emails))
              && db.activity == old(db.activity) + [LogEntry(user, "fetch_emails",
                   Json.JObj([("count", Json.JNum(|emails|)), ("query", Json.JStr(q))]))]
  {
    var n := if maxResults.Some? then maxResults.value else DefaultMaxResults;
    var q := if query.Some? then query.value else DefaultQuery;
    var emails := svc.fetchEmails(n, q);
    if emails.None? {
      return Failed(500, FetchFailed);
    }
    var cached := CachedRows(db.summaries, user, Ids(emails.value));
    var cachedMap := IndexCached(cached);
    var result := Attach(emails.value, cachedMap);
    db.Log(user, "fetch_emails", Json.JObj([("count", Json.JNum(|emails.value|)), ("query", Json.JStr(q))]));
    r := Done(result);
  }

  // ---------------------------------------------------------------- POST /:id/summarize

  /** What summarising one email comes to: the stored row, a freshly computed row, or a thrown error. */
  datatype Step = Cached(row: SummaryRow) | Fresh(row: SummaryRow) | Broken

  /** Look the pair up; on a miss fetch the email and summarise it into a new row. */
  function SummarizeStep(rows: seq<SummaryRow>, user: UserId, id: EmailId, svc: Services): (s: Step)
    ensures s.Cached? <==> FindSummary(rows, user, id).Some?
    ensures s.Cached? ==> s.row == FindSummary(rows, user, id).value
    ensures s.Fresh? ==> HasKey(s.row, user, id)
  {
    match FindSummary(rows, user, id)
    case Some(row) => Cached(row)
    case None =>
      match svc.fetchEmailById(id)
      case None => Broken
      case Some(email) =>
        match svc.summarizeEmail(email)
        case Err(_) => Broken
        case Ok(summary) => Fresh(SummaryRow(user, id, email.subject, email.from, summary))
  }

  /**
   * On a miss the new row holds the fetched email's subject and sender and the
   * summary parsed from the model's reply; the step throws exactly when the
   * email cannot be fetched or summarised.
   */
  lemma MissComputesRow(rows: seq<SummaryRow>, user: UserId, id: EmailId, svc: Services)
    requires FindSummary(rows, user, id).None?
    ensures SummarizeStep(rows, user, id, svc).Broken? <==>
              svc.fetchEmailById(id).None? || svc.summarizeEmail(svc.fetchEmailById(id).value).Err?
    ensures SummarizeStep(rows, user, id, svc).Fresh? ==>
              var email := svc.fetchEmailById(id).value;
              var row := SummarizeStep(rows, user, id, svc).row;
              row.subject == email.subject && row.from == email.from
              && svc.summarizeEmail(email) == Ok(row.summary)
  {
  }

  /**
   * With the live services, a miss stores the Subject and From headers of the
   * message Gmail holds under the id, with the summary that the model's reply
   * parses to; it throws exactly when Gmail has no such message or the
   * summariser fails.
   */
  lemma LiveMissStoresHeaders(rows: seq<SummaryRow>, user: UserId, id: EmailId, api: Gmail.MailApi,
                              decode: Gmail.Decoder, llm: Summarizer.Llm, parse: Summarizer.JsonParser)
    requires FindSummary(rows, user, id).None?
    ensures SummarizeStep(rows, user, id, Live(api, decode, llm, parse)).Broken? <==>
              id !in api.messages
              || Summarizer.SummarizeEmail(Gmail.ParseEmail(api.messages[id], decode), llm, parse).Err?
    ensures SummarizeStep(rows, user, id, Live(api, decode, llm, parse)).Fresh? ==>
              var row := SummarizeStep(rows, user, id, Live(api, decode, llm, parse)).row;
              id in api.messages
              && row.subject == Gmail.GetHeader(Gmail.HeadersOf(api.messages[id].payload), "Subject")
              && row.from == Gmail.GetHeader(Gmail.HeadersOf(api.messages[id].payload), "From")
              && Ok(row.summary) == Summarizer.SummarizeEmail(Gmail.ParseEmail(api.messages[id], decode), llm, parse)
  {
    var svc := Live(api, decode, llm, parse);
    MissComputesRow(rows, user, id, svc);
  }

  /** A cache hit fetches nothing and calls no model: the outcome is the same whatever the services do. */
  lemma HitIgnoresServices(rows: seq<SummaryRow>, user: UserId, id: EmailId, svc: Services, other: Services)
    requires FindSummary(rows, user, id).Some?
    ensures SummarizeStep(rows, user, id, svc) == SummarizeStep(rows, user, id, other)
  {
  }

  /** Once a miss has inserted its row, the next request for the same pair is a hit on that row. */
  lemma SecondCallHits(rows: seq<SummaryRow>, user: UserId, id: EmailId, svc: Services, later: Services)
    requires SummarizeStep(rows, user, id, svc).Fresh?
    ensures SummarizeStep(rows + [SummarizeStep(rows, user, id, svc).row], user, id, later)
            == Cached(SummarizeStep(rows, user, id, svc).row)
  {
    FindAfterInsert(rows, SummarizeStep(rows, user, id, svc).row, user, id);
  }

  /** The details of a summarize_email entry; `priority` is left out when the summary has none. */
  function SummarizeDetails(id: EmailId, row: SummaryRow): (d: Json.Value)
    ensures Json.Field(d, "email_id") == Some(Json.JStr(id))
    ensures Json.Field(d, "subject") == Some(Json.JStr(row.subject))
    ensures Json.Field(d, "priority") == Json.Field(row.summary, "priority")
  {
    var base := [("email_id", Json.JStr(id)), ("subject", Json.JStr(row.subject))];
    assert Json.Field(Json.JObj(base), "email_id") == Some(Json.JStr(id)) by {
      assert base[..1] == [("email_id", Json.JStr(id))];
    }
    match Json.Field(row.summary, "priority")
    case None => Json.JObj(base)
    case Some(p) =>
      assert (base + [("priority", p)])[..2] == base;
      Json.JObj(base + [("priority", p)])
  }

  /** The body of POST /:id/summarize. */
  datatype Summary = Summary(summary: Json.Value, cached: bool)

  /** POST /:id/summarize: answer from the cache, or compute, insert and log. */
  method SummarizeOne(db: Database, user: UserId, id: EmailId, svc: Services) returns (r: Response<Summary>)
    requires db.Valid()
    modifies db
    ensures db.Valid() && db.connections == old(db.connections)
    ensures match SummarizeStep(old(db.summaries), user, id, svc)
            case Cached(row) =>
              r == Done(Summary(row.summary, true))
              && db.summaries == old(db.summaries) && db.activity == old(db.activity)
            case Fresh(row) =>
              r == Done(Summary(row.summary, false))
              && db.summaries == old(db.summaries) + [row]
              && db.activity == old(db.activity) + [LogEntry(user, "summarize_email", SummarizeDetails(id, row))]
            case Broken =>
              r == Failed(500, SummarizeFailed)
              && db.summaries == old(db.summaries) && db.activity == old(db.activity)
  {
    var existing := FindSummary(db.summaries, user, id);
    if existing.Some? {
      return Done(Summary(existing.value.summary, true));
    }
    var email := svc.fetchEmailById(id);
    if email.None? {
      return Failed(500, SummarizeFailed);
    }
    var summary := svc.summarizeEmail(email.value);
    if summary.Err? {
      return Failed(500, SummarizeFailed);
    }
    var row := SummaryRow(user, id, email.value.subject, email.value.from, summary.value);
    InsertKeepsUnique(db.summaries, row);
    db.InsertSummary(row);
    db.Log(user, "summarize_email", SummarizeDetails(id, row));
    r := Done(Summary(summary.value, false));
  }

  // ---------------------------------------------------------------- POST /summarize-all

  /** A `results` entry of the batch. */
  datatype BatchItem = BatchItem(emailId: EmailId, summary: Json.Value, cached: bool)

  /** The table and the results after a run over some ids; `complete` is false once a step threw. */
  datatype Batch = Batch(rows: seq<SummaryRow>, items: seq<BatchItem>, complete: bool)

  /** One turn of the loop: record the step's result, or stop the batch at a thrown error. */
  function Advance(prev: Batch, id: EmailId, step: Step): Batch
  {
    match step
    case Cached(row) => Batch(prev.rows, prev.items + [BatchItem(id, row.summary, true)], true)
    case Fresh(row) => Batch(prev.rows + [row], prev.items + [BatchItem(id, row.summary, false)], true)
    case Broken => Batch(prev.rows, prev.items, false)
  }

  /** The sequential loop over `ids`: each id in turn is one SummarizeStep on the table as the earlier ones left it. */
  function RunBatch(rows: seq<SummaryRow>, user: UserId, ids: seq<EmailId>, svc: Services): (b: Batch)
    decreases |ids|
  {
    if ids == [] then Batch(rows, [], true)
    else
      var prev := RunBatch(rows, user, ids[..|ids| - 1], svc);
      if !prev.complete then prev
      else Advance(prev, ids[|ids| - 1], SummarizeStep(prev.rows, user, ids[|ids| - 1], svc))
  }

  /** A completed batch has one result per id, in the order of the ids. */
  lemma {:induction false} BatchFollowsIds(rows: seq<SummaryRow>, user: UserId, ids: seq<EmailId>, svc: Services)
    requires RunBatch(rows, user, ids, svc).complete
    ensures |RunBatch(rows, user, ids, svc).items| == |ids|
    ensures forall k :: 0 <= k < |ids| ==> RunBatch(rows, user, ids, svc).items[k].emailId == ids[k]
  {
    if ids != [] {
      var front := ids[..|ids| - 1];
      var prev := RunBatch(rows, user, front, svc);
      BatchFollowsIds(rows, user, front, svc);
      var step := SummarizeStep(prev.rows, user, ids[|ids| - 1], svc);
      var b := RunBatch(rows, user, ids, svc);
      assert prev.complete && b == Advance(prev, ids[|ids| - 1], step);
      assert !step.Broken? && b.items == prev.items + [BatchItem(ids[|ids| - 1], step.row.summary, step.Cached?)];
    }
  }

  /** The batch only appends rows, and only rows for pairs not yet in the table. */
  lemma {:induction false} BatchKeepsUnique(rows: seq<SummaryRow>, user: UserId, ids: seq<EmailId>, svc: Services)
    ensures rows <= RunBatch(rows, user, ids, svc).rows
    ensures UniqueKeys(rows) ==> UniqueKeys(RunBatch(rows, user, ids, svc).rows)
  {
    if ids != [] {
      var front := ids[..|ids| - 1];
      BatchKeepsUnique(rows, user, front, svc);
      var prev := RunBatch(rows, user, front, svc);
      if prev.complete {
        var step := SummarizeStep(prev.rows, user, ids[|ids| - 1], svc);
        if step.Fresh? {
          InsertKeepsUnique(prev.rows, step.row);
        }
      }
    }
  }

  /** After a completed run, every processed id has a row for the user. */
  lemma {:induction false} BatchStoresEveryId(rows: seq<SummaryRow>, user: UserId, ids: seq<EmailId>, svc: Services,
                                              i: nat)
    requires RunBatch(rows, user, ids, svc).complete && i < |ids|
    ensures FindSummary(RunBatch(rows, user, ids, svc).rows, user, ids[i]).Some?
  {
    var n := |ids| - 1;
    var front := ids[..n];
    var prev := RunBatch(rows, user, front, svc);
    var step := SummarizeStep(prev.rows, user, ids[n], svc);
    assert RunBatch(rows, user, ids, svc) == Advance(prev, ids[n], step);
    if i < n {
      BatchStoresEveryId(rows, user, front, svc, i);
      assert front[i] == ids[i];
    }
    if step.Fresh? {
      FindAfterInsert(prev.rows, step.row, user, ids[i]);
    }
  }

  /**
   * An id that occurs again later in the batch is served from the table on its
   * later occurrence, so each email is summarised at most once per batch.
   */
  lemma {:induction false} RepeatIsCached(rows: seq<SummaryRow>, user: UserId, ids: seq<EmailId>, svc: Services,
                                          i: nat, j: nat)
    requires RunBatch(rows, user, ids, svc).complete && i < j < |ids| && ids[i] == ids[j]
    ensures |RunBatch(rows, user, ids, svc).items| == |ids| && RunBatch(rows, user, ids, svc).items[j].cached
  {
    BatchFollowsIds(rows, user, ids, svc);
    var n := |ids| - 1;
    var front := ids[..n];
    var prev := RunBatch(rows, user, front, svc);
    var step := SummarizeStep(prev.rows, user, ids[n], svc);
    assert RunBatch(rows, user, ids, svc) == Advance(prev, ids[n], step);
    BatchFollowsIds(rows, user, front, svc);
    if j < n {
      RepeatIsCached(rows, user, front, svc, i, j);
    } else {
      BatchStoresEveryId(rows, user, front, svc, i);
      assert front[i] == ids[j];
    }
  }

  /** Once a step throws, no later id is processed: the run ends as it stood at that step. */
  lemma {:induction false} AbortSticks(rows: seq<SummaryRow>, user: UserId, ids: seq<EmailId>, svc: Services, k: nat)
    requires k <= |ids| && !RunBatch(rows, user, ids[..k], svc).complete
    ensures RunBatch(rows, user, ids, svc) == RunBatch(rows, user, ids[..k], svc)
  {
    if k < |ids| {
      var front := ids[..|ids| - 1];
      assert front[..k] == ids[..k];
      AbortSticks(rows, user, front, svc, k);
    } else {
      assert ids[..k] == ids;
    }
  }

  /** POST /summarize-all: summarise the first BatchLimit ids in order, then log the batch. */
  method SummarizeAll(db: Database, user: UserId, emailIds: Option<seq<EmailId>>, svc: Services)
    returns (r: Response<seq<BatchItem>>)
    requires db.Valid()
    modifies db
    ensures db.Valid() && db.connections == old(db.connections)
    ensures emailIds.None? || emailIds.value == [] ==>
              r == Failed(400, IdsRequired) && db.summaries == old(db.summaries) && db.activity == old(db.activity)
    ensures emailIds.Some? && emailIds.value != [] ==>
              var b := RunBatch(old(db.summaries), user, Take(emailIds.value, BatchLimit), svc);
              db.summaries == b.rows
              && (b.complete ==>
                    r == Done(b.items)
                    && db.activity == old(db.activity) + [LogEntry(user, "batch_summarize",
                                                          Json.JObj([("count", Json.JNum(|b.items|))]))])
              && (!b.complete ==> r == Failed(500, BatchFailed) && db.activity == old(db.activity))
  {
    if emailIds.None? || emailIds.value == [] {
      return Failed(400, IdsRequired);
    }
    var ids := Take(emailIds.value, BatchLimit);
    ghost var rows0 := db.summaries;
    var results: seq<BatchItem> := [];
    var i := 0;
    while i < |ids|
      invariant 0 <= i <= |ids|
      invariant RunBatch(rows0, user, ids[..i], svc) == Batch(db.summaries, results, true)
      invariant db.Valid() && db.activity == old(db.activity) && db.connections == old(db.connections)
    {
      var id := ids[i];
      assert ids[..i + 1][..i] == ids[..i];
      ghost var prev := Batch(db.summaries, results, true);
      var existing := FindSummary(db.summaries, user, id);
      if existing.Some? {
        results := results + [BatchItem(id, existing.value.summary, true)];
        i := i + 1;
        continue;
      }
      var email := svc.fetchEmailById(id);
      if email.None? {
        assert SummarizeStep(prev.rows, user, id, svc) == Broken;
        AbortSticks(rows0, user, ids, svc, i + 1);
        return Failed(500, BatchFailed);
      }
      var summary := svc.summarizeEmail(email.value);
      if summary.Err? {
        assert SummarizeStep(prev.rows, user, id, svc) == Broken;
        AbortSticks(rows0, user, ids, svc, i + 1);
        return Failed(500, BatchFailed);
      }
      var row := SummaryRow(user, id, email.value.subject, email.value.from, summary.value);
      InsertKeepsUnique(db.summaries, row);
      db.InsertSummary(row);
      results := results + [BatchItem(id, summary.value, false)];
      i := i + 1;
    }
    assert ids[..i] == ids;
    db.Log(user, "batch_summarize", Json.JObj([("count", Json.JNum(|results|))]));
    r := Done(results);
  }
}
