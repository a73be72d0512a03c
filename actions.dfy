/**
 * The action routes (backend/routes/actions.js): running an instruction on an
 * email through the model, and sending a reply through Gmail.
 *
 * Each handler runs after `requireGmail` has let the request through and takes
 * the session it produced: the user id and the Gmail access token that every
 * Gmail call of the handler uses.
 */
module Actions {
  import opened Wrappers
  import opened Text
  import Json
  import Gmail
  import Summarizer
  import opened Store
  import opened Http
  import Auth

  const InstructionRequired: string := "emailId and instruction required"
  const ReplyRequired: string := "emailId and replyBody required"
  const ExecuteFailed: string := "Failed to execute instruction"
  const ReplyFailed: string := "Failed to send reply"

  /**
   * The library calls the handlers make, each given the access token:
   * `fetchEmailById`, `processInstruction`, and the Gmail send, which is
   * false when it throws. Live binds them to the Gmail and model services.
   */
  datatype Services = Services(fetchEmailById: (string, EmailId) -> Option<Gmail.Email>,
                               processInstruction: (string, Gmail.Email) -> Result<string, Summarizer.Failure>,
                               send: (string, Gmail.SendRequest) -> bool)

  /** The services as backend/lib/gmail.js and backend/lib/summarizer.js provide them; `apiFor` is Gmail as a token sees it. */
  function Live(apiFor: string -> Gmail.MailApi, decode: Gmail.Decoder, llm: Summarizer.Llm,
                send: (string, Gmail.SendRequest) -> bool): (svc: Services)
    ensures forall token, id :: svc.fetchEmailById(token, id) == Gmail.FetchEmailById(apiFor(token), decode, id)
    ensures forall instruction, e :: svc.processInstruction(instruction, e)
                                     == Summarizer.ProcessInstruction(instruction, e, llm)
    ensures svc.send == send
  {
    Services((token, id) => Gmail.FetchEmailById(apiFor(token), decode, id),
             (instruction, e) => Summarizer.ProcessInstruction(instruction, e, llm),
             send)
  }

  /**
   * With the live services, the email a handler works on is the message Gmail
   * holds under the id for the session's token: a reply goes to its From
   * header, with its Subject header after "Re: ", in its thread; the handler
   * fails when Gmail has no such message.
   */
  lemma LiveEmailIsMessage(apiFor: string -> Gmail.MailApi, decode: Gmail.Decoder, llm: Summarizer.Llm,
                           send: (string, Gmail.SendRequest) -> bool, token: string, id: EmailId)
    ensures Live(apiFor, decode, llm, send).fetchEmailById(token, id).Some? <==> id in apiFor(token).messages
    ensures Live(apiFor, decode, llm, send).fetchEmailById(token, id).Some? ==>
              var m := apiFor(token).messages[id];
              var e := Live(apiFor, decode, llm, send).fetchEmailById(token, id).value;
              e.from == Gmail.GetHeader(Gmail.HeadersOf(m.payload), "From")
              && e.subject == Gmail.GetHeader(Gmail.HeadersOf(m.payload), "Subject")
              && e.threadId == m.threadId && e.id == m.id
  {
  }

  /** The body of POST /execute: the model's text and only the email's id and subject. */
  datatype Executed = Executed(result: string, id: EmailId, subject: string)

  /** POST /execute: check the input, fetch the email, run the instruction on it, log, answer. */
  method Execute(db: Database, session: Auth.GmailSession, emailId: Option<string>, instruction: Option<string>,
                 svc: Services) returns (r: Response<Executed>)
    modifies db
    ensures db.summaries == old(db.summaries) && db.connections == old(db.connections)
    ensures !Present(emailId) || !Present(instruction) ==>
              r == Failed(400, InstructionRequired) && db.activity == old(db.activity)
    ensures Present(emailId) && Present(instruction) ==>
              match svc.fetchEmailById(session.accessToken, emailId.value)
              case None => r == Failed(500, ExecuteFailed) && db.activity == old(db.activity)
              case Some(email) =>
                match svc.processInstruction(instruction.value, email)
                case Err(_) => r == Failed(500, ExecuteFailed) && db.activity == old(db.activity)
                case Ok(result) =>
                  r == Done(Executed(result, email.id, email.subject))
                  && db.activity == old(db.activity) + [LogEntry(session.userId, "execute_instruction",
                       Json.JObj([("email_id", Json.JStr(emailId.value)), ("instruction", Json.JStr(instruction.value))]))]
  {
    if !Present(emailId) || !Present(instruction) {
      return Failed(400, InstructionRequired);
    }
    var email := svc.fetchEmailById(session.accessToken, emailId.value);
    if email.None? {
      return Failed(500, ExecuteFailed);
    }
    var result := svc.processInstruction(instruction.value, email.value);
    if result.Err? {
      return Failed(500, ExecuteFailed);
    }
    db.Log(session.userId, "execute_instruction",
           Json.JObj([("email_id", Json.JStr(emailId.value)), ("instruction", Json.JStr(instruction.value))]));
    r := Done(Executed(result.value, email.value.id, email.value.subject));
  }

  /** The body of POST /reply. */
  datatype Sent = Sent(success: bool, message: string)

  /**
   * POST /reply: check the input, fetch the email, send the reply to its sender
   * in its thread, log, answer. `sent` is the request handed to Gmail, if any.
   */
  method Reply(db: Database, session: Auth.GmailSession, emailId: Option<string>, replyBody: Option<string>,
               svc: Services) returns (r: Response<Sent>, sent: Option<Gmail.SendRequest>)
    modifies db
    ensures db.summaries == old(db.summaries) && db.connections == old(db.connections)
    ensures !Present(emailId) || !Present(replyBody) ==>
              r == Failed(400, ReplyRequired) && sent.None? && db.activity == old(db.activity)
    ensures Present(emailId) && Present(replyBody) ==>
              match svc.fetchEmailById(session.accessToken, emailId.value)
              case None => r == Failed(500, ReplyFailed) && sent.None? && db.activity == old(db.activity)
              case Some(email) =>
                sent.Some? && sent.value.threadId == email.threadId
                && Gmail.DecodeRaw(sent.value.raw)
                   == Some(Gmail.RawText(email.from, "Re: " + email.subject, replyBody.value, None))
                && if svc.send(session.accessToken, sent.value) then
                     r == Done(Sent(true, "Reply sent"))
                     && db.activity == old(db.activity) + [LogEntry(session.userId, "send_reply",
                          Json.JObj([("email_id", Json.JStr(emailId.value)), ("to", Json.JStr(email.from)),
                                     ("subject", Json.JStr(email.subject))]))]
                   else
                     r == Failed(500, ReplyFailed) && db.activity == old(db.activity)
  {
    sent := None;
    if !Present(emailId) || !Present(replyBody) {
      return Failed(400, ReplyRequired), sent;
    }
    var email := svc.fetchEmailById(session.accessToken, emailId.value);
    if email.None? {
      return Failed(500, ReplyFailed), sent;
    }
    var e := email.value;
    var request := Gmail.SendReply(e.from, e.subject, replyBody.value, e.threadId, None);
    sent := Some(request);
    if !svc.send(session.accessToken, request) {
      return Failed(500, ReplyFailed), sent;
    }
    db.Log(session.userId, "send_reply",
           Json.JObj([("email_id", Json.JStr(emailId.value)), ("to", Json.JStr(e.from)), ("subject", Json.JStr(e.subject))]));
    r := Done(Sent(true, "Reply sent"));
  }

  /**
   * The reply's text has only the four fixed header lines, with no In-Reply-To
   * or References, then an empty line and the body.
   */
  lemma ReplyHasNoThreadingHeaders(email: Gmail.Email, body: string)
    ensures Gmail.RawText(email.from, "Re: " + email.subject, body, None)
            == Join(["To: " + email.from, "Subject: Re: " + email.subject,
                     "Content-Type: text/plain; charset=\"UTF-8\"", "MIME-Version: 1.0"], Gmail.CRLF)
               + Gmail.CRLF + Gmail.CRLF + body
  {
    Gmail.RawTextLayout(email.from, "Re: " + email.subject, body, None);
    Gmail.NoThreadingHeadersWithoutId(email.from, "Re: " + email.subject, None);
    assert "Subject: " + ("Re: " + email.subject) == "Subject: Re: " + email.subject;
  }
}
