/** The `/chat` handler (server.js:107-189) over the process-wide map from session id to
    history (server.js:25). */
module ChatServer {
  import opened Strings
  import opened Leads
  import opened LeadExtraction
  import opened Intent
  import opened LeadJson
  import opened History

  // ---------------------------------------------------------------------------------------
  // Request fields, the language model and the response
  // ---------------------------------------------------------------------------------------

  const DefaultSession := "default"

  /** `getSessionId(req)`: the session id sent with the request when it is present and
      non-empty, "default" otherwise. */
  function SessionId(sent: Option<string>): (r: string)
    ensures r != []
    ensures Truthy(sent) ==> r == sent.value
    ensures !Truthy(sent) ==> r == DefaultSession
  {
    if Truthy(sent) then sent.value else DefaultSession
  }

  /** `(req.body?.message || "").toString().trim()`: the message with the white space
      around it removed. */
  function MessageText(sent: Option<string>): (r: string)
    ensures sent.Some? ==> exists a :: TrimmedAt(sent.value, r, a)
    ensures r == [] <==> sent.None? || AllIn(sent.value, 0, |sent.value|, Space)
    ensures r != [] ==> !IsSpace(r[0]) && !IsSpace(r[|r| - 1])
  {
    match sent
    case None => []
    case Some(s) => Trim(s)
  }

  /** What the language model call does: it throws, or it answers with a first choice whose
      message content may be missing. */
  datatype Completion = Threw | Answered(content: Option<string>)

  const Fallback := "Je peux vous aider à acheter, vendre ou louer. Que souhaitez-vous faire ?"

  /** `completion.choices?.[0]?.message?.content?.trim() || fallback`: the trimmed answer,
      or the fallback sentence when it is missing or blank. */
  function AnswerText(content: Option<string>): (r: string)
    ensures r != []
    ensures content.Some? && Trim(content.value) != [] ==> r == Trim(content.value)
    ensures content.None? || Trim(content.value) == [] ==> r == Fallback
  {
    var t := if content.Some? then Trim(content.value) else [];
    if t != [] then t else Fallback
  }

  /** `res.status(status).json({ reply })`. */
  datatype Response = Response(status: int, reply: string)

  const EmptyMessageReply := "Pouvez-vous écrire votre message ?"
  const ServerErrorReply := "Erreur serveur. Merci de réessayer."

  // ---------------------------------------------------------------------------------------
  // One turn on a session's history
  // ---------------------------------------------------------------------------------------

  /** The history after a turn with non-empty text, and the response. With a contact intent
      the lead is qualified; otherwise the text goes to the language model. Every turn
      replies, with status 500 only when the model call throws. */
  function Turn(h: seq<Message>, text: string, llm: seq<Message> -> Completion): (r: (seq<Message>, Response))
    ensures r.1.status == 200 || r.1.status == 500
    ensures r.1.status == 500 <==> !ShouldAskForLead(text) && llm(Window(h + [Message(User, text)])).Threw?
    ensures r.1.reply != []
  {
    if ShouldAskForLead(text) then LeadTurn(h, text) else ModelTurn(h, text, llm)
  }

  /** The contact-intent branch: the lead is merged, written back and the next question
      asked; the text itself is not recorded. It always succeeds. */
  function LeadTurn(h: seq<Message>, text: string): (r: (seq<Message>, Response))
    ensures r.1.status == 200
  {
    var merged := Merge(ExtractLead(text), ReadLead(h));
    (StoreLead(h, merged), Response(200, Reply(merged)))
  }

  /** The dialogue branch: the text is recorded, the last 16 messages go to the model, and
      its answer is recorded and returned, unless the call throws. The history only grows,
      with the text right after what was there. */
  function ModelTurn(h: seq<Message>, text: string, llm: seq<Message> -> Completion): (r: (seq<Message>, Response))
    ensures |r.0| > |h| && r.0[..|h|] == h && r.0[|h|] == Message(User, text)
    ensures r.1.status == 500 <==> llm(Window(h + [Message(User, text)])).Threw?
    ensures r.1.reply != []
  {
    var h1 := h + [Message(User, text)];
    match llm(Window(h1))
    case Threw => (h1, Response(500, ServerErrorReply))
    case Answered(c) =>
      assert (h1 + [Message(Assistant, AnswerText(c))])[..|h|] == h;
      (h1 + [Message(Assistant, AnswerText(c))], Response(200, AnswerText(c)))
  }

  /** Every turn keeps a history well formed: the system prompt stays first and there is
      never more than one LEAD message. */
  lemma TurnWellFormed(h: seq<Message>, text: string, llm: seq<Message> -> Completion)
    requires WellFormed(h)
    ensures WellFormed(Turn(h, text, llm).0)
    ensures Turn(h, text, llm).0[0] == SystemMessage
  {
    if ShouldAskForLead(text) {
      StoreLeadWellFormed(h, Merge(ExtractLead(text), ReadLead(h)));
    } else {
      var h1 := h + [Message(User, text)];
      AppendWellFormed(h, Message(User, text));
      if llm(Window(h1)).Answered? {
        AppendWellFormed(h1, Message(Assistant, AnswerText(llm(Window(h1)).content)));
      }
    }
  }

  /** A contact-intent turn: the stored lead becomes the merge of what the text supplies with
      what was stored, the reply is the question that merge calls for, and the history only
      has its LEAD slot written: it grows by at most one message, every other message is
      kept, and the text itself is not recorded. */
  lemma QualificationTurn(h: seq<Message>, text: string, llm: seq<Message> -> Completion)
    requires ShouldAskForLead(text)
    ensures var merged := Merge(ExtractLead(text), ReadLead(h));
      Turn(h, text, llm).0 == StoreLead(h, merged) && ReadLead(Turn(h, text, llm).0) == merged
      && Turn(h, text, llm).1 == Response(200, Reply(merged))
    ensures FindLead(h).Some? ==>
      Turn(h, text, llm).0[FindLead(h).value] == Message(System, LeadContent(Merge(ExtractLead(text), ReadLead(h))))
    ensures |h| <= |Turn(h, text, llm).0| <= |h| + 1
    ensures forall j | 0 <= j < |h| && !IsLeadMessage(h[j]) :: Turn(h, text, llm).0[j] == h[j]
    ensures forall j | |h| <= j < |Turn(h, text, llm).0| :: Turn(h, text, llm).0[j].role == System
  {
    var merged := Merge(ExtractLead(text), ReadLead(h));
    ReadStoreLead(h, merged);
  }

  /** A turn without a contact intent: the text is recorded first, the model is sent the
      window that ends with it, the stored lead is untouched, and either the answer (or the
      fallback) is recorded and returned with status 200, or, when the call throws, status
      500 is returned and the text stays recorded with no answer after it. */
  lemma DialogueTurn(h: seq<Message>, text: string, llm: seq<Message> -> Completion)
    requires !ShouldAskForLead(text)
    ensures var h1 := h + [Message(User, text)];
      Window(h1)[|Window(h1)| - 1] == Message(User, text) && |Window(h1)| <= WindowSize
    ensures var h1 := h + [Message(User, text)];
      llm(Window(h1)).Threw? ==> Turn(h, text, llm) == (h1, Response(500, ServerErrorReply))
    ensures var h1 := h + [Message(User, text)];
      llm(Window(h1)).Answered? ==>
        var a := AnswerText(llm(Window(h1)).content);
        Turn(h, text, llm) == (h1 + [Message(Assistant, a)], Response(200, a))
    ensures ReadLead(Turn(h, text, llm).0) == ReadLead(h)
  {
    var h1 := h + [Message(User, text)];
    AppendKeepsLead(h, Message(User, text));
    if llm(Window(h1)).Answered? {
      AppendKeepsLead(h1, Message(Assistant, AnswerText(llm(Window(h1)).content)));
    }
  }

  /** The stored lead changes only on turns with a contact intent. */
  lemma LeadChangesOnlyOnIntent(h: seq<Message>, text: string, llm: seq<Message> -> Completion)
    requires ReadLead(Turn(h, text, llm).0) != ReadLead(h)
    ensures ShouldAskForLead(text)
  {
    if !ShouldAskForLead(text) {
      DialogueTurn(h, text, llm);
    }
  }

  /** Once a session's lead is complete, every later contact-intent turn confirms, and names
      whoever the latest text introduces, or else the stored name. */
  lemma CompleteLeadConfirms(h: seq<Message>, text: string, llm: seq<Message> -> Completion)
    requires ShouldAskForLead(text) && Complete(ReadLead(h))
    ensures Turn(h, text, llm).1 == Response(200, Confirmation(Merge(ExtractLead(text), ReadLead(h)).name.value))
  {
  }

  // ---------------------------------------------------------------------------------------
  // The session store and the handler
  // ---------------------------------------------------------------------------------------

  /** Every history in a session map is well formed. */
  ghost predicate AllWellFormed(m: map<string, seq<Message>>) {
    forall id | id in m :: WellFormed(m[id])
  }

  /** Storing a well-formed history keeps every history of the map well formed. */
  lemma StoreWellFormed(m: map<string, seq<Message>>, id: string, h: seq<Message>)
    requires AllWellFormed(m) && WellFormed(h)
    ensures AllWellFormed(m[id := h])
  {
  }

  /** `sessions`: the process-wide map from session id to history. */
  class SessionStore {
    var sessions: map<string, seq<Message>>

    /** Every history in the store is well formed. */
    ghost predicate Valid()
      reads this
    {
      AllWellFormed(sessions)
    }

    constructor()
      ensures sessions == map[] && Valid()
    {
      sessions := map[];
    }

    /** The history a turn starts from: the stored one, or `[system prompt]` for a new
        session. */
    function HistoryOf(id: string): (h: seq<Message>)
      reads this
      ensures Valid() ==> WellFormed(h)
      ensures id !in sessions ==> h == [SystemMessage] && ReadLead(h) == EmptyLead
    {
      if id in sessions then sessions[id] else NewHistoryWellFormed(); [SystemMessage]
    }

    /** `POST /chat` with body `{ message, sessionId }`. An empty message is refused with
        status 400 before any session is looked up; otherwise the session's history
        (created if new) becomes the one the turn produces, and only that session changes. */
    method Chat(message: Option<string>, sessionId: Option<string>, llm: seq<Message> -> Completion)
      returns (r: Response)
      requires Valid()
      modifies this
      ensures Valid()
      ensures MessageText(message) == [] ==> r == Response(400, EmptyMessageReply) && sessions == old(sessions)
      ensures MessageText(message) != [] ==>
        var id := SessionId(sessionId);
        var t := Turn(old(HistoryOf(id)), MessageText(message), llm);
        sessions == old(sessions)[id := t.0] && r == t.1
    {
      var text := MessageText(message);
      if text == [] {
        return Response(400, EmptyMessageReply);
      }
      var id := SessionId(sessionId);
      ghost var h0 := HistoryOf(id);
      if id !in sessions {
        NewHistoryWellFormed();
        sessions := sessions[id := [SystemMessage]];
      }
      assert sessions[id] == h0;
      ghost var mid := sessions;
      r := TakeTurn(id, text, llm);
      assert sessions == mid[id := Turn(h0, text, llm).0];
    }

    /** One turn on a stored session: its history becomes the one `Turn` gives, and no other
        session changes. */
    method TakeTurn(id: string, text: string, llm: seq<Message> -> Completion) returns (r: Response)
      requires id in sessions && Valid()
      modifies this
      ensures Valid()
      ensures sessions == old(sessions)[id := Turn(old(sessions[id]), text, llm).0]
      ensures r == Turn(old(sessions[id]), text, llm).1
    {
      ghost var h0 := sessions[id];
      if ShouldAskForLead(text) {
        r := AskForLead(id, text);
      } else {
        r := AskModel(id, text, llm);
      }
      TurnWellFormed(h0, text, llm);
      StoreWellFormed(old(sessions), id, Turn(h0, text, llm).0);
    }

    /** The contact-intent branch: the stored lead merged with what the text supplies is
        written back into the history, and the question it calls for is the reply. */
    method AskForLead(id: string, text: string) returns (r: Response)
      requires id in sessions
      modifies this
      ensures sessions == old(sessions)[id := LeadTurn(old(sessions[id]), text).0]
      ensures r == LeadTurn(old(sessions[id]), text).1
    {
      var history := sessions[id];
      var lead := ExtractLead(text);
      var stored := ReadLead(history);
      var merged := Merge(lead, stored);
      history := StoreLead(history, merged);
      sessions := sessions[id := history];
      r := Response(200, Reply(merged));
    }

    /** The dialogue branch: the text is pushed, the window goes to the model, and its
        answer is pushed and returned; a throwing call gives status 500. */
    method AskModel(id: string, text: string, llm: seq<Message> -> Completion) returns (r: Response)
      requires id in sessions
      modifies this
      ensures sessions == old(sessions)[id := ModelTurn(old(sessions[id]), text, llm).0]
      ensures r == ModelTurn(old(sessions[id]), text, llm).1
    {
      var history := sessions[id];
      ghost var t := ModelTurn(history, text, llm);
      history := history + [Message(User, text)];
      sessions := sessions[id := history];
      var completion := llm(Window(history));
      if completion.Threw? {
        assert t == (history, Response(500, ServerErrorReply));
        return Response(500, ServerErrorReply);
      }
      var reply := AnswerText(completion.content);
      history := history + [Message(Assistant, reply)];
      sessions := sessions[id := history];
      r := Response(200, reply);
      assert t == (history, r);
    }
  }
}
