/** The conversation kept per session: its messages, the system prompt that opens it, the
    LEAD system message that stores the qualified lead (server.js:129-147) and the window of
    recent messages sent to the language model (server.js:175). */
module History {
  import opened Strings
  import opened Leads
  import opened LeadJson

  datatype Role = System | User | Assistant

  /** `{ role, content }`. */
  datatype Message = Message(role: Role, content: string)

  /** `SYSTEM_PROMPT` (server.js:68-94): the template literal opens with a line break. */
  const SystemPrompt: string := "\n" + PromptText

  /** The body of the prompt after its opening line break. Its wording matters to the
      language model only; the handler never inspects it. */
  const PromptText: string

  /** The message every history starts with. */
  const SystemMessage := Message(System, SystemPrompt)

  /** The handler's `m.role === "system" && m.content.startsWith("LEAD:")`. */
  predicate IsLeadMessage(m: Message) {
    m.role == System && StartsWith(m.content, LeadTag)
  }

  /** The system prompt is not mistaken for the LEAD message. */
  lemma PromptIsNotLead()
    ensures !IsLeadMessage(SystemMessage)
  {
    assert SystemPrompt[0] == '\n' && LeadTag[0] == 'L';
  }

  // ---------------------------------------------------------------------------------------
  // The LEAD slot
  // ---------------------------------------------------------------------------------------

  /** `history.find(...)` for the LEAD message, searching from index k: its index. */
  function FindLeadFrom(h: seq<Message>, k: nat): (r: Option<nat>)
    requires k <= |h|
    ensures r.Some? ==> k <= r.value < |h| && IsLeadMessage(h[r.value])
    ensures r.Some? ==> forall j | k <= j < r.value :: !IsLeadMessage(h[j])
    ensures r.None? ==> forall j | k <= j < |h| :: !IsLeadMessage(h[j])
    decreases |h| - k
  {
    if k == |h| then None
    else if IsLeadMessage(h[k]) then Some(k)
    else FindLeadFrom(h, k + 1)
  }

  /** The index of the first LEAD message of the history, if there is one. */
  function FindLead(h: seq<Message>): (r: Option<nat>)
    ensures r.Some? ==> r.value < |h| && IsLeadMessage(h[r.value]) && NoLeadBefore(h, r.value)
    ensures r.None? ==> forall j | 0 <= j < |h| :: !IsLeadMessage(h[j])
  {
    FindLeadFrom(h, 0)
  }

  /** No message before index i is a LEAD message. */
  predicate NoLeadBefore(h: seq<Message>, i: nat)
    requires i <= |h|
  {
    forall j | 0 <= j < i :: !IsLeadMessage(h[j])
  }

  /** `stored`: the lead read from the first LEAD message, or all-null without one. */
  function ReadLead(h: seq<Message>): (r: Lead)
    ensures NoLeadBefore(h, |h|) ==> r == EmptyLead
  {
    match FindLead(h)
    case None => EmptyLead
    case Some(i) => DecodeLead(h[i].content)
  }

  /** The lead read is the one the first LEAD message holds. */
  lemma ReadFirstLead(h: seq<Message>, i: nat)
    requires i < |h| && IsLeadMessage(h[i]) && NoLeadBefore(h, i)
    ensures ReadLead(h) == DecodeLead(h[i].content)
  {
    FirstLeadAt(h, i);
  }

  /** The history after the lead is written back: the LEAD message's content replaced in
      place, or a LEAD message pushed when there was none. Only that slot changes; it then
      holds the new lead as a system message, and the history grows by one exactly when
      there was no LEAD message. */
  function StoreLead(h: seq<Message>, l: Lead): (r: seq<Message>)
    ensures FindLead(h).None? ==> |r| == |h| + 1 && r[|h|] == Message(System, LeadContent(l))
    ensures FindLead(h).Some? ==> |r| == |h| && r[FindLead(h).value] == Message(System, LeadContent(l))
    ensures forall j | 0 <= j < |h| && Some(j) != FindLead(h) :: r[j] == h[j]
  {
    match FindLead(h)
    case None => h + [Message(System, LeadContent(l))]
    case Some(i) => h[i := h[i].(content := LeadContent(l))]
  }

  /** A history as the handler keeps it: the system prompt first; every later system
      message a LEAD message; at most one LEAD message. */
  ghost predicate WellFormed(h: seq<Message>) {
    |h| >= 1 && h[0] == SystemMessage && LeadsWritten(h) && AtMostOneLead(h)
  }

  /** Every system message after the first is a LEAD message. */
  ghost predicate LeadsWritten(h: seq<Message>) {
    forall i | 1 <= i < |h| && h[i].role == System :: IsLeadMessage(h[i])
  }

  ghost predicate AtMostOneLead(h: seq<Message>) {
    forall i, j | 0 <= i < |h| && 0 <= j < |h| && IsLeadMessage(h[i]) && IsLeadMessage(h[j]) :: i == j
  }

  /** A new session's history. */
  lemma NewHistoryWellFormed()
    ensures WellFormed([SystemMessage])
    ensures FindLead([SystemMessage]).None? && ReadLead([SystemMessage]) == EmptyLead
  {
    PromptIsNotLead();
  }

  /** The first LEAD message is at n. */
  lemma FirstLeadAt(h: seq<Message>, n: nat)
    requires n < |h| && IsLeadMessage(h[n]) && NoLeadBefore(h, n)
    ensures FindLead(h) == Some(n)
  {
  }

  /** Writing a lead and reading it back gives that lead. */
  lemma ReadStoreLead(h: seq<Message>, l: Lead)
    ensures ReadLead(StoreLead(h, l)) == l
  {
    DecodeLeadContent(l);
    LeadContentTagged(l);
    var h' := StoreLead(h, l);
    match FindLead(h)
    case None =>
      FirstLeadAt(h', |h|);
    case Some(i) =>
      FirstLeadAt(h', i);
  }

  /** The write-back keeps a history well formed. */
  lemma StoreLeadWellFormed(h: seq<Message>, l: Lead)
    requires WellFormed(h)
    ensures WellFormed(StoreLead(h, l))
  {
    PromptIsNotLead();
    StoreLeadWritten(h, l);
    match FindLead(h)
    case None => PushLeadOnlyLead(h, l);
    case Some(k) => UpdateLeadOnlyLead(h, l, k);
  }

  lemma StoreLeadWritten(h: seq<Message>, l: Lead)
    requires LeadsWritten(h)
    ensures LeadsWritten(StoreLead(h, l))
  {
    LeadContentTagged(l);
  }

  lemma PushLeadOnlyLead(h: seq<Message>, l: Lead)
    requires FindLead(h).None?
    ensures AtMostOneLead(StoreLead(h, l))
  {
    var h' := StoreLead(h, l);
    assert forall i | 0 <= i < |h| :: h'[i] == h[i];
  }

  lemma UpdateLeadOnlyLead(h: seq<Message>, l: Lead, k: nat)
    requires AtMostOneLead(h) && FindLead(h) == Some(k)
    ensures AtMostOneLead(StoreLead(h, l))
  {
    var h' := StoreLead(h, l);
    assert forall i | 0 <= i < |h| && i != k :: h'[i] == h[i];
  }

  /** Appending a user or assistant message leaves the stored lead as it was. */
  lemma AppendKeepsLead(h: seq<Message>, m: Message)
    requires m.role != System
    ensures FindLead(h + [m]) == FindLead(h)
    ensures ReadLead(h + [m]) == ReadLead(h)
  {
    var h' := h + [m];
    match FindLead(h)
    case None =>
      assert forall j | 0 <= j < |h'| :: !IsLeadMessage(h'[j]) by {
        assert forall j | 0 <= j < |h| :: h'[j] == h[j];
      }
    case Some(i) =>
      FirstLeadAt(h', i);
  }

  /** Appending a user or assistant message keeps a history well formed. */
  lemma AppendWellFormed(h: seq<Message>, m: Message)
    requires WellFormed(h) && m.role != System
    ensures WellFormed(h + [m])
  {
    var h' := h + [m];
    assert forall i | 0 <= i < |h| :: h'[i] == h[i];
  }

  // ---------------------------------------------------------------------------------------
  // The window sent to the language model
  // ---------------------------------------------------------------------------------------

  /** Most messages sent to the model. */
  const WindowSize := 16

  /** `history.slice(-16)`: the last min(16, |h|) messages, so it ends with the latest one. */
  function Window(h: seq<Message>): (r: seq<Message>)
    ensures |r| == Min(WindowSize, |h|)
    ensures r == h[|h| - |r|..]
    ensures h != [] ==> r[|r| - 1] == h[|h| - 1]
  {
    if |h| <= WindowSize then h else h[|h| - WindowSize..]
  }

  /** Once a well-formed history has more than 16 messages, the system prompt is no longer
      in what the model is sent. */
  lemma LongWindowDropsPrompt(h: seq<Message>)
    requires WellFormed(h) && |h| > WindowSize
    ensures SystemMessage !in Window(h)
  {
    PromptIsNotLead();
    forall k | 0 <= k < |Window(h)| ensures Window(h)[k] != SystemMessage {
      assert Window(h)[k] == h[|h| - WindowSize + k];
    }
  }
}
