/**
 * The dashboard's list handling (frontend/src/components/Dashboard.jsx): which
 * emails a "summarize all" asks for, and how summaries returned by the server
 * are merged into the list and the selected email.
 */
module Dashboard {
  import opened Wrappers
  import Json
  import Seqs
  import opened Store
  import opened Http
  import Emails

  /** `emails.filter((e) => !e.summarized).map((e) => e.id)`. */
  function UnsummarizedIds(emails: seq<Emails.Listed>): (ids: seq<EmailId>)
    ensures |ids| <= |emails|
    ensures forall id :: id in ids <==> exists i :: 0 <= i < |emails| && !emails[i].summarized && emails[i].email.id == id
    ensures ids == [] <==> forall i :: 0 <= i < |emails| ==> emails[i].summarized
  {
    if emails == [] then []
    else
      var rest := UnsummarizedIds(emails[1..]);
      assert forall i :: 0 < i < |emails| ==> emails[i] == emails[1..][i - 1];
      if emails[0].summarized then rest else [emails[0].email.id] + rest
  }

  /**
   * The ids keep the list's order and its repetitions: the ids of a list are
   * those of its front followed by those of its back, and one email
   * contributes its own id exactly when it is not summarized.
   */
  lemma {:induction false} UnsummarizedIdsInOrder(a: seq<Emails.Listed>, b: seq<Emails.Listed>)
    ensures UnsummarizedIds(a + b) == UnsummarizedIds(a) + UnsummarizedIds(b)
    ensures |a| == 1 ==> UnsummarizedIds(a) == if a[0].summarized then [] else [a[0].email.id]
  {
    if a == [] {
      assert a + b == b;
    } else {
      var head := if a[0].summarized then [] else [a[0].email.id];
      assert (a + b)[0] == a[0] && (a + b)[1..] == a[1..] + b;
      assert UnsummarizedIds(a + b) == head + UnsummarizedIds(a[1..] + b);
      UnsummarizedIdsInOrder(a[1..], b);
      if |a| == 1 {
        assert a[1..] == [];
      }
    }
  }

  /** The list update of handleSummarize: the emails with the id get the summary and are marked summarized. */
  function MarkSummarized(emails: seq<Emails.Listed>, id: EmailId, summary: Json.Value): (r: seq<Emails.Listed>)
    ensures |r| == |emails|
    ensures forall i :: 0 <= i < |r| ==> r[i].email == emails[i].email
    ensures forall i :: 0 <= i < |r| && emails[i].email.id != id ==> r[i] == emails[i]
    ensures forall i :: 0 <= i < |r| && emails[i].email.id == id ==> r[i].summarized && r[i].summary == summary
  {
    seq(|emails|, i requires 0 <= i < |emails| =>
      if emails[i].email.id == id then emails[i].(summary := summary, summarized := true) else emails[i])
  }

  /** After one email is summarised, a "summarize all" no longer asks for it. */
  lemma MarkedLeavesBatch(emails: seq<Emails.Listed>, id: EmailId, summary: Json.Value)
    ensures id !in UnsummarizedIds(MarkSummarized(emails, id, summary))
  {
    var r := MarkSummarized(emails, id, summary);
    forall i | 0 <= i < |r| && !r[i].summarized
      ensures r[i].email.id != id
    {
      assert r[i].email == emails[i].email;
    }
  }

  function ItemId(item: Emails.BatchItem): EmailId
  {
    item.emailId
  }

  function ItemSummary(item: Emails.BatchItem): Json.Value
  {
    item.summary
  }

  /** `summaryMap`, filled by `forEach` over the results: each id to its summary, a later entry replacing an earlier one. */
  method SummaryMapOf(results: seq<Emails.BatchItem>) returns (m: map<EmailId, Json.Value>)
    ensures m == Seqs.IndexBy(results, ItemId, ItemSummary)
  {
    m := map[];
    var i := 0;
    while i < |results|
      invariant 0 <= i <= |results|
      invariant m == Seqs.IndexBy(results[..i], ItemId, ItemSummary)
    {
      assert results[..i + 1][..i] == results[..i];
      m := m[results[i].emailId := results[i].summary];
      i := i + 1;
    }
    assert results[..i] == results;
  }

  /** The list update of handleSummarizeAll: an email whose id maps to a truthy summary takes it and is marked. */
  function Merge(emails: seq<Emails.Listed>, summaryMap: map<EmailId, Json.Value>): (r: seq<Emails.Listed>)
    ensures |r| == |emails|
    ensures forall i :: 0 <= i < |r| ==> r[i].email == emails[i].email && (emails[i].summarized ==> r[i].summarized)
  {
    seq(|emails|, i requires 0 <= i < |emails| =>
      var id := emails[i].email.id;
      if id in summaryMap && Json.Truthy(summaryMap[id]) then
        emails[i].(summary := summaryMap[id], summarized := true)
      else emails[i])
  }

  /**
   * Each email takes the summary of the last result for its id when that
   * summary is truthy; an email with no result, or whose last result has a
   * falsy summary, is left as it was.
   */
  lemma MergeTakesLastResult(emails: seq<Emails.Listed>, results: seq<Emails.BatchItem>, i: nat)
    requires i < |emails|
    ensures |Merge(emails, Seqs.IndexBy(results, ItemId, ItemSummary))| == |emails|
    ensures (forall j :: 0 <= j < |results| ==> results[j].emailId != emails[i].email.id) ==>
              Merge(emails, Seqs.IndexBy(results, ItemId, ItemSummary))[i] == emails[i]
    ensures forall j :: Seqs.IsLastWithKey(results, ItemId, emails[i].email.id, j) ==>
              Merge(emails, Seqs.IndexBy(results, ItemId, ItemSummary))[i] ==
              if Json.Truthy(results[j].summary) then emails[i].(summary := results[j].summary, summarized := true)
              else emails[i]
  {
    var id := emails[i].email.id;
    Seqs.IndexByLastWins(results, ItemId, ItemSummary, id);
    forall j | Seqs.IsLastWithKey(results, ItemId, id, j)
      ensures Seqs.IndexBy(results, ItemId, ItemSummary)[id] == results[j].summary
    {
      var k :| Seqs.IsLastWithKey(results, ItemId, id, k)
               && Seqs.IndexBy(results, ItemId, ItemSummary)[id] == ItemSummary(results[k]);
      assert k == j;
    }
  }

  /** apiFetch's error text: the response's `error`, or 'Request failed' when it has none. */
  function ErrorMessage(error: string): (m: string)
    ensures m != ""
    ensures error != "" ==> m == error
  {
    if error == "" then "Request failed" else error
  }

  /** The dashboard state the handlers update through their setters. */
  class State {
    var emails: seq<Emails.Listed>
    var selected: Option<Emails.Listed>
    var error: Option<string>

    constructor ()
      ensures emails == [] && selected == None && error == None
    {
      emails := [];
      selected := None;
      error := None;
    }

    /** handleSummarize, given the server's answer to POST /emails/:id/summarize. */
    method HandleSummarize(emailId: EmailId, reply: Response<Emails.Summary>)
      modifies this
      ensures reply.Done? ==>
                emails == MarkSummarized(old(emails), emailId, reply.body.summary) && error == old(error)
                && selected == if old(selected).Some? && old(selected).value.email.id == emailId
                               then Some(old(selected).value.(summary := reply.body.summary, summarized := true))
                               else old(selected)
      ensures reply.Failed? ==>
                emails == old(emails) && selected == old(selected) && error == Some(ErrorMessage(reply.error))
    {
      if reply.Failed? {
        error := Some(ErrorMessage(reply.error));
        return;
      }
      emails := MarkSummarized(emails, emailId, reply.body.summary);
      if selected.Some? && selected.value.email.id == emailId {
        selected := Some(selected.value.(summary := reply.body.summary, summarized := true));
      }
    }

    /**
     * handleSummarizeAll, given the server's answer to POST /emails/summarize-all
     * for the ids sent. `requested` is the ids it sent, None when it sent nothing.
     */
    method HandleSummarizeAll(server: seq<EmailId> -> Response<seq<Emails.BatchItem>>)
      returns (requested: Option<seq<EmailId>>)
      modifies this
      ensures requested == if UnsummarizedIds(old(emails)) == [] then None else Some(UnsummarizedIds(old(emails)))
      ensures selected == old(selected)
      ensures requested.None? ==> emails == old(emails) && error == old(error)
      ensures requested.Some? && server(requested.value).Done? ==>
                emails == Merge(old(emails), Seqs.IndexBy(server(requested.value).body, ItemId, ItemSummary))
                && error == old(error)
      ensures requested.Some? && server(requested.value).Failed? ==>
                emails == old(emails) && error == Some(ErrorMessage(server(requested.value).error))
    {
      var unsummarized := UnsummarizedIds(emails);
      if unsummarized == [] {
        return None;
      }
      requested := Some(unsummarized);
      var reply := server(unsummarized);
      if reply.Failed? {
        error := Some(ErrorMessage(reply.error));
        return;
      }
      var summaryMap := SummaryMapOf(reply.body);
      emails := Merge(emails, summaryMap);
    }
  }
}
