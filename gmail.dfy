/**
 * The Gmail gateway (backend/lib/gmail.js): normalising a Gmail API message
 * into an email record, fetching messages, and building the base64url RFC 5322
 * text of a reply.
 */
module Gmail {
  import opened Wrappers
  import opened Text
  import Base64Url
  import Utf8

  datatype Header = Header(name: string, value: string)

  /** A MIME part of a payload; `data` is its `body.data`, None when the body or its data is absent. */
  datatype Part = Part(mimeType: string, data: Option<string>)

  /** `message.payload`: optional headers, optional parts and the optional top-level `body.data`. */
  datatype Payload = Payload(headers: Option<seq<Header>>, parts: Option<seq<Part>>, data: Option<string>)

  /** A message as `users.messages.get` with format 'full' returns it. */
  datatype Message = Message(id: string, threadId: string, snippet: string, payload: Payload,
                             labelIds: Option<seq<string>>)

  /** The normalised record the routes and the client work with. */
  datatype Email = Email(id: string, threadId: string, snippet: string, from: string, to: string,
                         subject: string, date: string, body: string, labels: seq<string>)

  /** What the Gmail API answers: `messages.list` for (maxResults, query), None when the call fails, and the messages by id. */
  datatype MailApi = MailApi(list: (int, string) -> Option<seq<string>>, messages: map<string, Message>)

  /** `Buffer.from(data, 'base64').toString('utf-8')`, supplied by the caller. */
  type Decoder = string -> string

  /** The largest body a normalised email carries. */
  const BodyCap: nat := 10000

  /** Header names compare after lower-casing both. */
  predicate SameName(a: string, b: string)
  {
    Lower(a) == Lower(b)
  }

  /** Position `i` holds the first header whose name matches `name`. */
  predicate IsFirstHeader(headers: seq<Header>, name: string, i: int)
  {
    0 <= i < |headers| && SameName(headers[i].name, name) &&
    forall j :: 0 <= j < i ==> !SameName(headers[j].name, name)
  }

  /** `getHeader(name)`: the value of the first header whose name matches case-insensitively, or "". */
  function GetHeader(headers: seq<Header>, name: string): (v: string)
    ensures forall i :: IsFirstHeader(headers, name, i) ==> v == headers[i].value
    ensures (forall i :: 0 <= i < |headers| ==> !SameName(headers[i].name, name)) ==> v == ""
  {
    if headers == [] then ""
    else if SameName(headers[0].name, name) then headers[0].value
    else
      assert forall i :: IsFirstHeader(headers, name, i) ==> i > 0 && IsFirstHeader(headers[1..], name, i - 1);
      GetHeader(headers[1..], name)
  }

  /** Position `i` holds the first part of type `mime`. */
  predicate IsFirstPart(parts: seq<Part>, mime: string, i: int)
  {
    0 <= i < |parts| && parts[i].mimeType == mime && forall j :: 0 <= j < i ==> parts[j].mimeType != mime
  }

  /** `parts.find(p => p.mimeType === mime)`, as a position. */
  function FirstPart(parts: seq<Part>, mime: string): (r: Option<nat>)
    ensures r.Some? ==> IsFirstPart(parts, mime, r.value)
    ensures r.None? <==> forall i :: 0 <= i < |parts| ==> parts[i].mimeType != mime
  {
    if parts == [] then None
    else if parts[0].mimeType == mime then Some(0)
    else
      match FirstPart(parts[1..], mime)
      case None => None
      case Some(k) => Some(k + 1)
  }

  /** No '<' of `s` is followed, anywhere later, by a '>'. */
  predicate NoTag(s: string)
  {
    forall i, j :: 0 <= i < j < |s| && s[i] == '<' ==> s[j] != '>'
  }

  /**
   * `replace(/<[^>]*>/g, ' ')`: from left to right, each '<' with a '>' after it
   * is replaced, through the first such '>', by one space.
   */
  function StripTags(s: string): (r: string)
    ensures NoTag(r)
    ensures forall i :: 0 <= i < |r| ==> r[i] == ' ' || r[i] in s
    decreases |s|
  {
    if s == [] then ""
    else if s[0] == '<' && IndexOf(s, '>').Some? then
      var rest := StripTags(s[IndexOf(s, '>').value + 1..]);
      assert forall j :: 0 <= j < |rest| ==> (" " + rest)[j + 1] == rest[j];
      " " + rest
    else
      var rest := StripTags(s[1..]);
      assert forall j :: 0 <= j < |rest| ==> ([s[0]] + rest)[j + 1] == rest[j];
      [s[0]] + rest
  }

  /** Text before the first '<' is kept as it is. */
  lemma {:induction false} StripKeepsText(a: string, b: string)
    requires '<' !in a
    ensures StripTags(a + b) == a + StripTags(b)
  {
    if a == [] {
      assert a + b == b;
    } else {
      assert (a + b)[0] == a[0] != '<' && (a + b)[1..] == a[1..] + b;
      assert StripTags(a + b) == [a[0]] + StripTags(a[1..] + b);
      StripKeepsText(a[1..], b);
    }
  }

  /** A tag, from '<' through the first '>', becomes one space. */
  lemma StripTagBecomesSpace(t: string, b: string)
    requires '>' !in t
    ensures StripTags("<" + t + ">" + b) == " " + StripTags(b)
  {
    var s := "<" + t + ">" + b;
    assert s[|t| + 1] == '>' && s[..|t| + 1] == "<" + t;
    assert IndexOf(s, '>') == Some(|t| + 1);
    assert s[|t| + 2..] == b;
  }

  /** No two whitespace characters of `s` are adjacent. */
  predicate NoAdjacentSpaces(s: string)
  {
    forall i :: 0 <= i < |s| - 1 ==> !(IsSpace(s[i]) && IsSpace(s[i + 1]))
  }

  /** `replace(/\s+/g, ' ')`: each maximal run of whitespace becomes one space. */
  function CollapseSpaces(s: string): (r: string)
    ensures NoAdjacentSpaces(r)
    ensures forall i :: 0 <= i < |r| && IsSpace(r[i]) ==> r[i] == ' '
    ensures s == [] || !IsSpace(s[0]) ==> r == [] || !IsSpace(r[0])
    ensures |r| <= |s|
    ensures (forall i :: 0 <= i < |s| ==> !IsSpace(s[i])) ==> r == s
    ensures s != [] ==> r != []
    decreases |s|
  {
    if s == [] then ""
    else if IsSpace(s[0]) then
      var t := TrimStart(s);
      assert |t| < |s|;
      var rest := CollapseSpaces(t);
      assert forall j :: 0 <= j < |rest| ==> (" " + rest)[j + 1] == rest[j];
      " " + rest
    else
      var rest := CollapseSpaces(s[1..]);
      assert forall j :: 0 <= j < |rest| ==> ([s[0]] + rest)[j + 1] == rest[j];
      [s[0]] + rest
  }

  /** The characters of `s` that are not whitespace, in order. */
  function Visible(s: string): string
  {
    if s == [] then [] else (if IsSpace(s[0]) then [] else [s[0]]) + Visible(s[1..])
  }

  lemma {:induction false} VisibleAppend(a: string, b: string)
    ensures Visible(a + b) == Visible(a) + Visible(b)
  {
    if a == [] {
      assert a + b == b;
    } else {
      var head := if IsSpace(a[0]) then [] else [a[0]];
      assert (a + b)[0] == a[0] && (a + b)[1..] == a[1..] + b;
      assert Visible(a + b) == head + Visible(a[1..] + b);
      assert Visible(a) == head + Visible(a[1..]);
      VisibleAppend(a[1..], b);
    }
  }

  lemma {:induction false} VisibleOfSpaces(s: string)
    requires forall i :: 0 <= i < |s| ==> IsSpace(s[i])
    ensures Visible(s) == []
  {
    if s != [] {
      VisibleOfSpaces(s[1..]);
    }
  }

  /** Collapsing whitespace keeps every other character, in order. */
  lemma {:induction false} CollapseKeepsText(s: string)
    ensures Visible(CollapseSpaces(s)) == Visible(s)
    decreases |s|
  {
    if s != [] {
      if IsSpace(s[0]) {
        var k := LeadingSpaces(s);
        var t := s[k..];
        CollapseKeepsText(t);
        assert s == s[..k] + t;
        VisibleAppend(s[..k], t);
        VisibleOfSpaces(s[..k]);
        var r := CollapseSpaces(s);
        assert r == " " + CollapseSpaces(t);
        assert r[1..] == CollapseSpaces(t);
      } else {
        CollapseKeepsText(s[1..]);
        var r := CollapseSpaces(s);
        assert r[1..] == CollapseSpaces(s[1..]);
      }
    }
  }

  /** The HTML fallback: tags become spaces, whitespace runs collapse to one space, then the ends are trimmed. */
  function CleanHtml(html: string): string
  {
    Trim(CollapseSpaces(StripTags(html)))
  }

  /** A block cut out of text without adjacent whitespace has none either. */
  lemma NoAdjacentSpacesSlice(s: string, k: nat, n: nat)
    requires NoAdjacentSpaces(s) && k + n <= |s|
    ensures NoAdjacentSpaces(s[k..k + n])
  {
    var t := s[k..k + n];
    assert forall i :: 0 <= i < |t| ==> t[i] == s[k + i];
  }

  /** The cleaned HTML neither starts nor ends with whitespace and has no two whitespace characters in a row. */
  lemma CleanHtmlShape(html: string)
    ensures var r := CleanHtml(html); r == [] || (!IsSpace(r[0]) && !IsSpace(r[|r| - 1]))
    ensures NoAdjacentSpaces(CleanHtml(html))
  {
    var c := CollapseSpaces(StripTags(html));
    TrimNoAdjacentSpaces(c);
  }

  lemma TrimNoAdjacentSpaces(c: string)
    requires NoAdjacentSpaces(c)
    ensures NoAdjacentSpaces(Trim(c))
  {
    NoAdjacentSpacesSlice(c, TrimOffset(c), |Trim(c)|);
  }

  /** The HTML fallback over the parts: the cleaned first text/html part if it has data, else "". */
  function HtmlFallback(parts: seq<Part>, decode: Decoder): string
  {
    var html := FirstPart(parts, "text/html");
    if html.Some? && Present(parts[html.value].data) then CleanHtml(decode(parts[html.value].data.value))
    else ""
  }

  /**
   * The body text before capping: with `parts`, the first text/plain part's
   * data if it has any, else the HTML fallback; without `parts`, the
   * top-level body data or "".
   */
  function BodyText(payload: Payload, decode: Decoder): string
  {
    match payload.parts
    case Some(parts) =>
      var plain := FirstPart(parts, "text/plain");
      if plain.Some? && Present(parts[plain.value].data) then decode(parts[plain.value].data.value)
      else HtmlFallback(parts, decode)
    case None =>
      if Present(payload.data) then decode(payload.data.value) else ""
  }

  /** `payload.headers || []`. */
  function HeadersOf(payload: Payload): seq<Header>
  {
    if payload.headers.Some? then payload.headers.value else []
  }

  /** `parseEmail`: the normalised record of a message. */
  function ParseEmail(m: Message, decode: Decoder): (e: Email)
    ensures e.id == m.id && e.threadId == m.threadId && e.snippet == m.snippet
    ensures e.from == GetHeader(HeadersOf(m.payload), "From") && e.to == GetHeader(HeadersOf(m.payload), "To")
    ensures e.subject == GetHeader(HeadersOf(m.payload), "Subject")
    ensures e.date == GetHeader(HeadersOf(m.payload), "Date")
    ensures e.labels == if m.labelIds.Some? then m.labelIds.value else []
    ensures e.body <= BodyText(m.payload, decode) && |e.body| <= BodyCap
    ensures |BodyText(m.payload, decode)| <= BodyCap ==> e.body == BodyText(m.payload, decode)
    ensures |BodyText(m.payload, decode)| > BodyCap ==> |e.body| == BodyCap
  {
    var headers := HeadersOf(m.payload);
    Email(m.id, m.threadId, m.snippet,
          GetHeader(headers, "From"), GetHeader(headers, "To"), GetHeader(headers, "Subject"),
          GetHeader(headers, "Date"),
          Take(BodyText(m.payload, decode), BodyCap),
          if m.labelIds.Some? then m.labelIds.value else [])
  }

  /** Looking a header up under two spellings that differ only in ASCII case finds the same value. */
  lemma {:induction false} GetHeaderIgnoresCase(headers: seq<Header>, a: string, b: string)
    requires Lower(a) == Lower(b)
    ensures GetHeader(headers, a) == GetHeader(headers, b)
  {
    if headers != [] {
      GetHeaderIgnoresCase(headers[1..], a, b);
    }
  }

  /** With `parts` present (even an empty list), the top-level body is never consulted. */
  lemma PartsShadowTopLevelBody(payload: Payload, decode: Decoder, other: Option<string>)
    requires payload.parts.Some?
    ensures BodyText(payload, decode) == BodyText(payload.(data := other), decode)
  {
  }

  /**
   * Only the first text/plain part is examined: when it has no data, the body
   * is the HTML fallback, whatever later text/plain parts hold.
   */
  lemma FirstPlainPartDecides(payload: Payload, decode: Decoder, i: nat)
    requires payload.parts.Some? && IsFirstPart(payload.parts.value, "text/plain", i)
    requires !Present(payload.parts.value[i].data)
    ensures BodyText(payload, decode) == HtmlFallback(payload.parts.value, decode)
  {
    var parts := payload.parts.value;
    var plain := FirstPart(parts, "text/plain");
    assert plain.Some?;
    assert plain.value == i;
  }

  /**
   * A multipart message whose only text part is HTML gets as its body the
   * tag-stripped, whitespace-collapsed, trimmed HTML, capped at BodyCap.
   */
  lemma HtmlOnlyBody(m: Message, decode: Decoder, i: nat)
    requires m.payload.parts.Some?
    requires forall j :: 0 <= j < |m.payload.parts.value| ==> m.payload.parts.value[j].mimeType != "text/plain"
    requires IsFirstPart(m.payload.parts.value, "text/html", i) && Present(m.payload.parts.value[i].data)
    ensures ParseEmail(m, decode).body == Take(CleanHtml(decode(m.payload.parts.value[i].data.value)), BodyCap)
  {
    var parts := m.payload.parts.value;
    var text := CleanHtml(decode(parts[i].data.value));
    HtmlOnlyText(m.payload, decode, i);
    var e := ParseEmail(m, decode);
    assert e.body <= text && |e.body| <= BodyCap;
    if |text| <= BodyCap {
      assert e.body == text;
    } else {
      assert |e.body| == BodyCap;
      assert e.body == text[..BodyCap];
    }
  }

  lemma HtmlOnlyText(payload: Payload, decode: Decoder, i: nat)
    requires payload.parts.Some?
    requires forall j :: 0 <= j < |payload.parts.value| ==> payload.parts.value[j].mimeType != "text/plain"
    requires IsFirstPart(payload.parts.value, "text/html", i) && Present(payload.parts.value[i].data)
    ensures BodyText(payload, decode) == CleanHtml(decode(payload.parts.value[i].data.value))
  {
    var parts := payload.parts.value;
    assert FirstPart(parts, "text/plain").None?;
    var html := FirstPart(parts, "text/html");
    assert parts[i].mimeType == "text/html";
    assert html.Some?;
    assert IsFirstPart(parts, "text/html", html.value);
    assert html.value == i;
    assert HtmlFallback(parts, decode) == CleanHtml(decode(parts[i].data.value));
  }

  /** `fetchEmailById`: None when the API has no such message (the call throws). */
  function FetchEmailById(api: MailApi, decode: Decoder, id: string): (r: Option<Email>)
    ensures r.Some? <==> id in api.messages
    ensures r.Some? ==> r.value == ParseEmail(api.messages[id], decode)
  {
    if id in api.messages then Some(ParseEmail(api.messages[id], decode)) else None
  }

  /** Fetching every listed id in turn; one failure fails the whole (as `Promise.all` rejects). */
  function FetchAll(api: MailApi, decode: Decoder, ids: seq<string>): (r: Option<seq<Email>>)
    ensures r.Some? <==> forall i :: 0 <= i < |ids| ==> ids[i] in api.messages
    ensures r.Some? ==> |r.value| == |ids| &&
                        forall i :: 0 <= i < |ids| ==> r.value[i] == ParseEmail(api.messages[ids[i]], decode)
  {
    if ids == [] then Some([])
    else
      match FetchEmailById(api, decode, ids[0])
      case None => None
      case Some(e) =>
        match FetchAll(api, decode, ids[1..])
        case None => None
        case Some(rest) => Some([e] + rest)
  }

  /** `fetchEmails`: the listed messages, normalised, in the order the list gave them. */
  function FetchEmails(api: MailApi, decode: Decoder, maxResults: int, query: string): (r: Option<seq<Email>>)
    ensures api.list(maxResults, query).None? ==> r.None?
    ensures r.Some? ==> var ids := api.list(maxResults, query).value;
      |r.value| == |ids| &&
      forall i :: 0 <= i < |ids| ==> ids[i] in api.messages && r.value[i] == ParseEmail(api.messages[ids[i]], decode)
  {
    match api.list(maxResults, query)
    case None => None
    case Some(ids) => FetchAll(api, decode, ids)
  }

  const CRLF: string := "\r\n"

  /** The header lines of a reply: To, Subject, Content-Type, MIME-Version, then In-Reply-To and References when `messageId` is given. */
  function HeaderLines(to: string, subject: string, messageId: Option<string>): seq<string>
  {
    ["To: " + to, "Subject: " + subject, "Content-Type: text/plain; charset=\"UTF-8\"", "MIME-Version: 1.0"]
    + (if Present(messageId) then ["In-Reply-To: " + messageId.value, "References: " + messageId.value] else [])
  }

  /** The message text `createRawEmail` encodes: its lines joined with CRLF. */
  function RawText(to: string, subject: string, body: string, messageId: Option<string>): string
  {
    Join(HeaderLines(to, subject, messageId) + ["", body], CRLF)
  }

  /** The text is the header lines, an empty line, and the body: "headers CRLF CRLF body". */
  lemma RawTextLayout(to: string, subject: string, body: string, messageId: Option<string>)
    ensures RawText(to, subject, body, messageId) == Join(HeaderLines(to, subject, messageId), CRLF) + CRLF + CRLF + body
  {
    var h := HeaderLines(to, subject, messageId);
    JoinSnoc(h, "", CRLF);
    JoinSnoc(h + [""], body, CRLF);
    assert h + ["", body] == (h + [""]) + [body];
  }

  /** Without a message id the reply carries exactly the four fixed header lines, so no In-Reply-To or References. */
  lemma NoThreadingHeadersWithoutId(to: string, subject: string, messageId: Option<string>)
    requires !Present(messageId)
    ensures HeaderLines(to, subject, messageId) ==
      ["To: " + to, "Subject: " + subject, "Content-Type: text/plain; charset=\"UTF-8\"", "MIME-Version: 1.0"]
  {
  }

  /** The text a base64url string stands for, when it is the encoding of UTF-8 text. */
  function DecodeRaw(raw: string): Option<string>
  {
    match Base64Url.Decode(raw)
    case None => None
    case Some(bytes) => Utf8.Decode(bytes)
  }

  /** `createRawEmail`: the base64url encoding of the UTF-8 bytes of the message text. */
  method CreateRawEmail(to: string, subject: string, body: string, messageId: Option<string>) returns (raw: string)
    ensures DecodeRaw(raw) == Some(RawText(to, subject, body, messageId))
  {
    var lines := ["To: " + to, "Subject: " + subject, "Content-Type: text/plain; charset=\"UTF-8\"", "MIME-Version: 1.0"];
    if Present(messageId) {
      lines := lines + ["In-Reply-To: " + messageId.value];
      lines := lines + ["References: " + messageId.value];
    }
    lines := lines + ["", body];
    assert lines == HeaderLines(to, subject, messageId) + ["", body];
    var email := Join(lines, CRLF);
    var bytes := Utf8.Encode(email);
    raw := Base64Url.Encode(bytes);
    Base64Url.DecodeEncode(bytes);
    Utf8.DecodeEncode(email);
  }

  /** The request `sendReply` hands to `messages.send`. */
  datatype SendRequest = SendRequest(raw: string, threadId: string)

  /** `sendReply`: a message with the subject prefixed "Re: ", sent under the given thread. */
  method SendReply(to: string, subject: string, body: string, threadId: string, messageId: Option<string>)
    returns (req: SendRequest)
    ensures req.threadId == threadId
    ensures DecodeRaw(req.raw) == Some(RawText(to, "Re: " + subject, body, messageId))
  {
    var raw := CreateRawEmail(to, "Re: " + subject, body, messageId);
    req := SendRequest(raw, threadId);
  }
}
