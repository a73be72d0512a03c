/**
 * The pure helpers of the email list (frontend/src/components/EmailList.jsx):
 * the sender's display name and the priority badge colour.
 */
module EmailList {
  import opened Wrappers
  import opened Text
  import Json

  /** Where the run of characters other than '"' and '<' that starts at `p` ends. */
  function RunEnd(s: string, p: nat): (e: nat)
    requires p <= |s|
    ensures p <= e <= |s|
    ensures forall k :: p <= k < e ==> s[k] != '"' && s[k] != '<'
    ensures e < |s| ==> s[e] == '"' || s[e] == '<'
    decreases |s| - p
  {
    if p == |s| || s[p] == '"' || s[p] == '<' then p else RunEnd(s, p + 1)
  }

  /** Where the run of whitespace that starts at `p` ends. */
  function SpacesEnd(s: string, p: nat): (e: nat)
    requires p <= |s|
    ensures p <= e <= |s|
    ensures forall k :: p <= k < e ==> IsSpace(s[k])
    ensures e < |s| ==> !IsSpace(s[e])
    decreases |s| - p
  {
    if p == |s| || !IsSpace(s[p]) then p else SpacesEnd(s, p + 1)
  }

  /** Where the name may start: after a leading quote, if there is one. */
  function Opening(s: string): (p: nat)
    ensures p <= |s| && (p == 1 <==> s != [] && s[0] == '"')
  {
    if |s| > 0 && s[0] == '"' then 1 else 0
  }

  /**
   * The pattern's name run ends at `e`: it is non-empty, free of '"' and '<',
   * and followed by '<', or by a quote, whitespace and '<'.
   */
  ghost predicate IsNameEnd(s: string, e: int)
  {
    Opening(s) < e < |s|
    && (forall k :: Opening(s) <= k < e ==> s[k] != '"' && s[k] != '<')
    && (s[e] == '<' || (s[e] == '"' && exists k :: e < k < |s| && s[k] == '<' && forall j :: e < j < k ==> IsSpace(s[j])))
  }

  /**
   * `from.match(/^"?([^"<]+)"?\s*</)`, as its first group: after an optional
   * leading quote, the longest run free of '"' and '<', which must be followed
   * by '<', or by a quote, whitespace and '<'.
   */
  function NameMatch(s: string): (m: Option<string>)
    ensures m.Some? ==> m.value != [] && '"' !in m.value && '<' !in m.value
    ensures m.Some? ==> m.value <= s || (s != [] && s[0] == '"' && m.value <= s[1..])
    ensures m.Some? ==> '<' in s
  {
    var p := Opening(s);
    var e := RunEnd(s, p);
    if e == p || e == |s| then None
    else if s[e] == '<' then Some(s[p..e])
    else
      var k := SpacesEnd(s, e + 1);
      if k < |s| && s[k] == '<' then Some(s[p..e]) else None
  }

  /** `extractName`: "Unknown" for an empty sender, the trimmed display name when there is one, else the part before '@'. */
  function ExtractName(from: string): (r: string)
    ensures from == [] ==> r == "Unknown"
    ensures from != [] && NameMatch(from).Some? ==> r == Trim(NameMatch(from).value) && '"' !in r && '<' !in r
    ensures from != [] && NameMatch(from).None? ==> r <= from && '@' !in r
    ensures from != [] && NameMatch(from).None? ==> |r| == |from| || from[|r|] == '@'
    ensures from != [] && NameMatch(from).None? && '@' !in from ==> r == from
  {
    if from == [] then "Unknown"
    else
      match NameMatch(from)
      case Some(name) =>
        Trim(name)
      case None =>
        SplitHead(from, '@');
        Split(from, '@')[0]
  }

  /** A run free of '"' and '<' that is followed by one of them ends exactly there. */
  lemma {:induction false} RunEndAt(s: string, p: nat, e: nat)
    requires p <= e <= |s|
    requires forall k :: p <= k < e ==> s[k] != '"' && s[k] != '<'
    requires e < |s| ==> s[e] == '"' || s[e] == '<'
    ensures RunEnd(s, p) == e
    decreases e - p
  {
    if p < e {
      RunEndAt(s, p + 1, e);
    }
  }

  /** A run of whitespace followed by something else ends exactly there. */
  lemma {:induction false} SpacesEndAt(s: string, p: nat, e: nat)
    requires p <= e <= |s|
    requires forall k :: p <= k < e ==> IsSpace(s[k])
    requires e < |s| ==> !IsSpace(s[e])
    ensures SpacesEnd(s, p) == e
    decreases e - p
  {
    if p < e {
      SpacesEndAt(s, p + 1, e);
    }
  }

  /** The pattern matches exactly when its name run can end somewhere, and the group is that run. */
  lemma NameMatchExact(s: string)
    ensures NameMatch(s).Some? <==> exists e :: IsNameEnd(s, e)
    ensures forall e :: IsNameEnd(s, e) ==> NameMatch(s) == Some(s[Opening(s)..e])
  {
    var p := Opening(s);
    forall e | IsNameEnd(s, e)
      ensures NameMatch(s) == Some(s[p..e])
    {
      RunEndAt(s, p, e);
      if s[e] == '"' {
        var k :| e < k < |s| && s[k] == '<' && forall j :: e < j < k ==> IsSpace(s[j]);
        SpacesEndAt(s, e + 1, k);
      }
    }
    if NameMatch(s).Some? {
      var e := RunEnd(s, p);
      if s[e] == '"' {
        var k := SpacesEnd(s, e + 1);
        assert s[k] == '<';
      }
      assert IsNameEnd(s, e);
    }
  }

  /** `Name <address>` gives the name, trimmed. */
  lemma AngleForm(name: string, rest: string)
    requires name != [] && '"' !in name && '<' !in name
    ensures ExtractName(name + "<" + rest) == Trim(name)
  {
    var s := name + "<" + rest;
    assert s[0] == name[0];
    RunEndAt(s, 0, |name|);
    assert s[0..|name|] == name;
  }

  /** `"Name" <address>` gives the name without its quotes, trimmed. */
  lemma QuotedForm(name: string, gap: string, rest: string)
    requires name != [] && '"' !in name && '<' !in name
    requires forall k :: 0 <= k < |gap| ==> IsSpace(gap[k])
    ensures ExtractName("\"" + name + "\"" + gap + "<" + rest) == Trim(name)
  {
    var s := "\"" + name + "\"" + gap + "<" + rest;
    var e := |name| + 1;
    var k := e + 1 + |gap|;
    assert forall i :: 1 <= i < e ==> s[i] == name[i - 1];
    assert forall i :: e + 1 <= i < k ==> s[i] == gap[i - e - 1];
    assert s[0] == '"' && s[e] == '"' && s[k] == '<';
    RunEndAt(s, 1, e);
    SpacesEndAt(s, e + 1, k);
    assert s[1..e] == name;
    assert NameMatch(s) == Some(name);
  }

  /** An address alone gives the part before '@'. */
  lemma BareAddress(local: string, domain: string)
    requires local != [] && '@' !in local && '<' !in local && '<' !in domain
    ensures ExtractName(local + "@" + domain) == local
  {
    var s := local + "@" + domain;
    assert '<' !in s;
    SplitPrefix(local, domain, '@');
  }

  const DefaultColor: string := "#666"

  /** `priorityColors[summary?.priority] || '#666'`: the priority, printed as a key, picks the colour. */
  function BadgeColor(summary: Json.Value): (r: string)
    ensures r == "#ef4444" <==> Json.Field(summary, "priority").Some? && Json.ToText(Json.Field(summary, "priority").value) == "high"
    ensures r == "#f59e0b" <==> Json.Field(summary, "priority").Some? && Json.ToText(Json.Field(summary, "priority").value) == "medium"
    ensures r == "#22c55e" <==> Json.Field(summary, "priority").Some? && Json.ToText(Json.Field(summary, "priority").value) == "low"
    ensures r == DefaultColor || r == "#ef4444" || r == "#f59e0b" || r == "#22c55e"
  {
    match Json.Field(summary, "priority")
    case None => DefaultColor
    case Some(p) =>
      var key := Json.ToText(p);
      if key == "high" then "#ef4444"
      else if key == "medium" then "#f59e0b"
      else if key == "low" then "#22c55e"
      else DefaultColor
  }
}
