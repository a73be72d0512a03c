/**
 * The Supabase tables the backend uses (email_summaries, gmail_connections,
 * activity_logs), held in memory. The service-role client bypasses row-level
 * security, so every query sees every row.
 */
module Store {
  import opened Wrappers
  import Json

  type UserId = string
  type EmailId = string

  /** An instant as an integer; ISO formatting and parsing are not modelled. */
  type Time = int

  /** A row of email_summaries. */
  datatype SummaryRow = SummaryRow(userId: UserId, emailId: EmailId, subject: string, from: string,
                                   summary: Json.Value)

  /** A row of gmail_connections; the table is keyed by user id. */
  datatype Connection = Connection(email: string, accessToken: string, refreshToken: Option<string>,
                                   tokenExpiry: Option<Time>, connectedAt: Time, updatedAt: Time)

  /** A row of activity_logs. */
  datatype LogEntry = LogEntry(userId: UserId, action: string, details: Json.Value)

  predicate HasKey(row: SummaryRow, user: UserId, id: EmailId)
  {
    row.userId == user && row.emailId == id
  }

  /** No two summary rows share a (user, email) pair. */
  ghost predicate UniqueKeys(rows: seq<SummaryRow>)
  {
    forall i, j :: 0 <= i < j < |rows| && rows[i].userId == rows[j].userId ==> rows[i].emailId != rows[j].emailId
  }

  /**
   * `.eq('email_id', id).eq('user_id', user).single()` on email_summaries: the
   * earliest row for the pair (under UniqueKeys, the only one).
   */
  function FindSummary(rows: seq<SummaryRow>, user: UserId, id: EmailId): (r: Option<SummaryRow>)
    ensures r.None? <==> forall i :: 0 <= i < |rows| ==> !HasKey(rows[i], user, id)
    ensures r.Some? ==> r.value in rows && HasKey(r.value, user, id)
  {
    if rows == [] then None
    else if HasKey(rows[0], user, id) then
      Some(rows[0])
    else
      var r := FindSummary(rows[1..], user, id);
      assert forall k :: 0 < k < |rows| ==> rows[k] == rows[1..][k - 1];
      r
  }

  /** With unique keys, a row holding the pair is the one the lookup finds. */
  lemma FindUnique(rows: seq<SummaryRow>, i: nat)
    requires UniqueKeys(rows) && i < |rows|
    ensures FindSummary(rows, rows[i].userId, rows[i].emailId) == Some(rows[i])
  {
    var r := FindSummary(rows, rows[i].userId, rows[i].emailId);
    var j :| 0 <= j < |rows| && rows[j] == r.value;
    assert j == i;
  }

  /** Inserting a row leaves earlier answers alone and makes the new pair findable. */
  lemma {:induction false} FindAfterInsert(rows: seq<SummaryRow>, row: SummaryRow, user: UserId, id: EmailId)
    ensures FindSummary(rows + [row], user, id) ==
            if FindSummary(rows, user, id).Some? then FindSummary(rows, user, id)
            else if HasKey(row, user, id) then Some(row)
            else None
  {
    if rows != [] {
      assert (rows + [row])[1..] == rows[1..] + [row];
      FindAfterInsert(rows[1..], row, user, id);
    }
  }

  /** Inserting only on a miss keeps (user, email) pairs unique. */
  lemma InsertKeepsUnique(rows: seq<SummaryRow>, row: SummaryRow)
    requires FindSummary(rows, row.userId, row.emailId).None?
    ensures UniqueKeys(rows) ==> UniqueKeys(rows + [row])
  {
    var s := rows + [row];
    if !UniqueKeys(rows) {
      return;
    }
    forall i, j | 0 <= i < j < |s| && s[i].userId == s[j].userId
      ensures s[i].emailId != s[j].emailId
    {
      if j == |rows| {
        assert !HasKey(rows[i], row.userId, row.emailId);
      }
    }
  }

  /** The backend's database: its three tables, which the route handlers read and write in place. */
  class Database {
    var summaries: seq<SummaryRow>
    var connections: map<UserId, Connection>
    var activity: seq<LogEntry>

    ghost predicate Valid()
      reads this
    {
      UniqueKeys(summaries)
    }

    constructor ()
      ensures Valid() && summaries == [] && connections == map[] && activity == []
    {
      summaries := [];
      connections := map[];
      activity := [];
    }

    /** `insert` into activity_logs. */
    method Log(user: UserId, action: string, details: Json.Value)
      modifies this
      ensures activity == old(activity) + [LogEntry(user, action, details)]
      ensures summaries == old(summaries) && connections == old(connections)
    {
      activity := activity + [LogEntry(user, action, details)];
    }

    /** `insert` into email_summaries. */
    method InsertSummary(row: SummaryRow)
      modifies this
      ensures summaries == old(summaries) + [row]
      ensures activity == old(activity) && connections == old(connections)
    {
      summaries := summaries + [row];
    }
  }
}
