/** The details column of the activity log view (frontend/src/components/ActivityLog.jsx). */
module ActivityLog {
  import opened Wrappers
  import opened Text
  import Json

  /** The distinct keys of an object's fields, in order of first appearance. */
  function Keys(fields: seq<(string, Json.Value)>): (ks: seq<string>)
    ensures forall k :: k in ks <==> exists i :: 0 <= i < |fields| && fields[i].0 == k
    ensures forall i, j :: 0 <= i < j < |ks| ==> ks[i] != ks[j]
  {
    if fields == [] then []
    else
      var front := fields[..|fields| - 1];
      var ks := Keys(front);
      var k := fields[|fields| - 1].0;
      assert forall i :: 0 <= i < |front| ==> front[i] == fields[i];
      if k in ks then ks else ks + [k]
  }

  /** Position `j` is where key `k` first appears among the fields. */
  ghost predicate IsFirstKey(fields: seq<(string, Json.Value)>, k: string, j: int)
  {
    0 <= j < |fields| && fields[j].0 == k && forall i :: 0 <= i < j ==> fields[i].0 != k
  }

  /** A key already written before the last field first appears before it. */
  lemma FirstKeyInFront(fields: seq<(string, Json.Value)>, k: string, j: int)
    requires IsFirstKey(fields, k, j) && k in Keys(fields[..|fields| - 1])
    ensures j < |fields| - 1 && IsFirstKey(fields[..|fields| - 1], k, j)
  {
    var front := fields[..|fields| - 1];
    var i :| 0 <= i < |front| && front[i].0 == k;
    assert fields[i].0 == k;
  }

  /** The keys are listed in the order of their first appearance. */
  lemma {:induction false} KeysInFirstAppearanceOrder(fields: seq<(string, Json.Value)>)
    ensures var ks := Keys(fields);
            forall a, b, ja, jb :: 0 <= a < b < |ks| && IsFirstKey(fields, ks[a], ja) && IsFirstKey(fields, ks[b], jb)
                                   ==> ja < jb
  {
    if fields != [] {
      var n := |fields| - 1;
      var front := fields[..n];
      KeysInFirstAppearanceOrder(front);
      var ks := Keys(fields);
      var kf := Keys(front);
      assert ks == kf || ks == kf + [fields[n].0];
      forall a, b, ja, jb | 0 <= a < b < |ks| && IsFirstKey(fields, ks[a], ja) && IsFirstKey(fields, ks[b], jb)
        ensures ja < jb
      {
        assert ks[a] == kf[a] && ks[a] in kf;
        FirstKeyInFront(fields, ks[a], ja);
        if b < |kf| {
          assert ks[b] == kf[b] && ks[b] in kf;
          FirstKeyInFront(fields, ks[b], jb);
        } else {
          assert ks[b] == fields[n].0 && ks[b] !in kf;
        }
      }
    }
  }

  /**
   * `Object.entries(details)`: for an object, each key once, where it first
   * appeared, with the value the parse kept; for an array, each index printed
   * as a key; for anything else, nothing.
   */
  function Entries(details: Json.Value): (es: seq<(string, Json.Value)>)
    ensures details.JObj? ==> |es| == |Keys(details.fields)|
    ensures details.JObj? ==>
              forall i :: 0 <= i < |es| ==> es[i].0 == Keys(details.fields)[i] && Some(es[i].1) == Json.Field(details, es[i].0)
    ensures details.JArr? ==> |es| == |details.items|
    ensures details.JArr? ==> forall i :: 0 <= i < |es| ==> es[i] == (NatToString(i), details.items[i])
    ensures !details.JObj? && !details.JArr? ==> es == []
  {
    match details
    case JObj(fields) =>
      var ks := Keys(fields);
      assert forall i :: 0 <= i < |ks| ==> Json.Field(details, ks[i]).Some? by {
        forall i | 0 <= i < |ks|
          ensures Json.Field(details, ks[i]).Some?
        {
          assert ks[i] in ks;
        }
      }
      seq(|ks|, i requires 0 <= i < |ks| => (ks[i], Json.Field(details, ks[i]).value))
    case JArr(items) =>
      seq(|items|, i requires 0 <= i < |items| => (NatToString(i), items[i]))
    case _ => []
  }

  /** "key: value" for each entry, as a template literal prints it. */
  function EntryLines(es: seq<(string, Json.Value)>): (lines: seq<string>)
    ensures |lines| == |es|
    ensures forall i :: 0 <= i < |es| ==> lines[i] == es[i].0 + ": " + Json.ToText(es[i].1)
  {
    seq(|es|, i requires 0 <= i < |es| => es[i].0 + ": " + Json.ToText(es[i].1))
  }

  /** `formatDetails`: "-" for falsy details, a string as it is, otherwise the entries joined by ", ". */
  function FormatDetails(details: Json.Value): (r: string)
    ensures !Json.Truthy(details) ==> r == "-"
    ensures Json.Truthy(details) && details.JStr? ==> r == details.s
    ensures details == Json.JObj([]) ==> r == ""
    ensures Json.Truthy(details) && (details.JNum? || details.JBool?) ==> r == ""
    ensures Json.Truthy(details) && !details.JStr? ==> r == Join(EntryLines(Entries(details)), ", ")
  {
    if !Json.Truthy(details) then "-"
    else if details.JStr? then details.s
    else Join(EntryLines(Entries(details)), ", ")
  }

  /** Keys that are all distinct are their own first appearances. */
  lemma {:induction false} KeysOfDistinct(fields: seq<(string, Json.Value)>)
    requires forall i, j :: 0 <= i < j < |fields| ==> fields[i].0 != fields[j].0
    ensures |Keys(fields)| == |fields| && forall i :: 0 <= i < |fields| ==> Keys(fields)[i] == fields[i].0
  {
    if fields != [] {
      var front := fields[..|fields| - 1];
      KeysOfDistinct(front);
      assert fields[|fields| - 1].0 !in Keys(front);
    }
  }

  /** With distinct keys, each key's value is the one written with it. */
  lemma {:induction false} FieldOfDistinct(fields: seq<(string, Json.Value)>, i: nat)
    requires forall a, b :: 0 <= a < b < |fields| ==> fields[a].0 != fields[b].0
    requires i < |fields|
    ensures Json.Field(Json.JObj(fields), fields[i].0) == Some(fields[i].1)
  {
    if i < |fields| - 1 {
      var front := fields[..|fields| - 1];
      FieldOfDistinct(front, i);
    }
  }

  /** An object with distinct keys shows each "key: value" in the order written, joined by ", ". */
  lemma DistinctObjectLines(fields: seq<(string, Json.Value)>)
    requires forall i, j :: 0 <= i < j < |fields| ==> fields[i].0 != fields[j].0
    ensures Entries(Json.JObj(fields)) == fields
    ensures FormatDetails(Json.JObj(fields)) == Join(EntryLines(fields), ", ")
  {
    KeysOfDistinct(fields);
    forall i | 0 <= i < |fields|
      ensures Entries(Json.JObj(fields))[i] == fields[i]
    {
      FieldOfDistinct(fields, i);
    }
  }

  lemma JoinTwo(parts: seq<string>, sep: string)
    requires |parts| == 2
    ensures Join(parts, sep) == parts[0] + sep + parts[1]
  {
    assert parts[1..] == [parts[1]];
  }

  /** An object with two distinct keys shows as "k1: v1, k2: v2". */
  lemma TwoFieldLines(fields: seq<(string, Json.Value)>)
    requires |fields| == 2 && fields[0].0 != fields[1].0
    ensures FormatDetails(Json.JObj(fields))
            == fields[0].0 + ": " + Json.ToText(fields[0].1) + ", " + fields[1].0 + ": " + Json.ToText(fields[1].1)
  {
    DistinctObjectLines(fields);
    JoinTwo(EntryLines(fields), ", ");
  }

  /** The fetch_emails details, line by line. */
  lemma FetchEmailsLines(count: nat, query: string)
    ensures FormatDetails(Json.JObj([("count", Json.JNum(count)), ("query", Json.JStr(query))]))
            == "count" + ": " + Json.ToText(Json.JNum(count)) + ", " + "query" + ": " + query
  {
    TwoFieldLines([("count", Json.JNum(count)), ("query", Json.JStr(query))]);
  }

  lemma FetchEmailsText(count: nat, query: string)
    ensures "count" + ": " + Json.ToText(Json.JNum(count)) + ", " + "query" + ": " + query
            == "count: " + NatToString(count) + ", query: " + query
  {
    assert Json.ToText(Json.JNum(count)) == NatToString(count);
  }

  /** The details of a fetch_emails entry show as "count: N, query: Q". */
  lemma FetchEmailsDetails(count: nat, query: string)
    ensures FormatDetails(Json.JObj([("count", Json.JNum(count)), ("query", Json.JStr(query))]))
            == "count: " + NatToString(count) + ", query: " + query
  {
    FetchEmailsLines(count, query);
    FetchEmailsText(count, query);
  }
}
