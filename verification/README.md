# Lead qualification in the marioconte.com chat backend, in Dafny

`server.js` is the backend of a real-estate chat widget. Each `POST /chat` carries a visitor's
message and a session id. The server keeps one conversation history per session in a
process-wide `Map`. Every turn does one of two things:

- **Contact intent.** When the lower-cased message contains one of nine French keywords
  ("visite", "rdv", "contact", ...), the turn goes to lead qualification. The server
  extracts a name, an e-mail and a telephone with three regular expressions. It merges them
  with the lead stored in a `LEAD: {json}` system message, writes that message back, and
  asks for the first missing field or confirms.
- **Dialogue.** Otherwise the message is appended to the history. The last 16 messages go
  to a language model, and its answer, or a fixed fallback sentence, is appended and
  returned.

The Dafny model follows that structure:

| file | module | what it models |
|---|---|---|
| `strings.dfy` | `Strings` | JavaScript white space, `trim()`, `toLowerCase()`, `includes()`, `startsWith()`, `replace()` with a string pattern, and the character classes of the three regular expressions |
| `leads.dfy` | `Leads` | the lead record, the `a \|\| b` merge with JavaScript truthiness, and the four replies of the qualification path |
| `extraction.dfy` | `LeadExtraction` | `extractLead`: each regular expression as a matcher that scans start positions from left to right. It is proved to return the leftmost match and, at that start, the longest one, which is what the backtracking engine returns for these three patterns. `.trim()` is proved to leave the match unchanged |
| `intent.dfy` | `Intent` | `shouldAskForLead` |
| `leadjson.dfy` | `LeadJson` | `JSON.stringify` of the lead, `JSON.parse` of what it writes (round trip proved), and the `LEAD:` message content |
| `history.dfy` | `History` | messages, the system prompt, finding, reading and writing the LEAD message, the well-formedness a history keeps, and `slice(-16)` |
| `chatserver.dfy` | `ChatServer` | `getSessionId`, the request text, the model's answer, a pure specification `Turn` of one turn, and the class `SessionStore`: its `sessions` map and the `/chat` handler as the method `Chat` |

`SessionStore.Chat` changes the map in place, as the handler does. It is proved equal to
`Turn` applied to the session's history, with every other session left untouched. The
properties of a turn are lemmas about `Turn`.

Three behaviours of the code are easy to misread, and the model keeps each as written:

- **Merge.** A first-non-null merge would never overwrite a stored field. The code writes
  `lead.name || stored.name` (server.js:137-139), so a newly extracted value replaces the
  stored one (`Leads.Merge`, `Leads.MergeNotCommutative`).
- **Window.** Keeping the system instruction in every request would need the prompt added
  to the window. The code sends `history.slice(-16)` (server.js:175), which drops the
  prompt once the history has more than 16 messages (`History.LongWindowDropsPrompt`).
- **Where leads are merged.** A visitor who writes only "Je m'appelle Marc Dubois" does
  not have that name stored. The code merges leads only on turns that contain an intent
  keyword (server.js:127, `ChatServer.LeadChangesOnlyOnIntent`). That sentence contains
  none of the keywords, so it goes down the dialogue path.

## Model

| member | source | states |
|---|---|---|
| Strings.Trim | server.js:109 | `trim()` returns the empty string exactly when the text is all white space; otherwise the result has no white space at either end and is the text with only white space removed around it |
| Strings.LowerConcat | server.js:51 | `toLowerCase()` works character by character, so it distributes over concatenation |
| Strings.Lower | server.js:51 | `toLowerCase()` moves each ASCII or Latin-1 capital to its small letter (32 code points on) and keeps every other character, so no capital is left; the model keeps the length, as JavaScript does for these capitals |
| Strings.Includes | server.js:53-61 | `includes(w)` is true exactly when w occurs somewhere in the text |
| Strings.RemoveFirst | server.js:133 | `replace("LEAD:", "")` with a string pattern: when the pattern occurs, the result is the text with its first occurrence cut out (the text before it followed by the text after it), one pattern length shorter; otherwise the text is unchanged |
| Strings.RemoveFirstAtStart | server.js:133 | on a text that starts with the pattern, the occurrence removed is the leading one |
| Leads.Merge | server.js:136-140 | each merged field is the extracted value when that is non-empty, and the stored value otherwise; so a merged field is set exactly when one of the two is set, a stored field is never lost, and a complete lead stays complete |
| Leads.MergeIdempotent | server.js:136-140 | merging the same extraction twice, or the stored lead again, changes nothing |
| Leads.MergeNotCommutative | server.js:137-139 | swapping the arguments can change the merge: there are leads a, b with different results |
| Leads.Reply | server.js:150-158 | the name prompt is sent exactly when the merged lead has no name, and the e-mail prompt exactly when it has a name and a phone but no e-mail |
| Leads.ReplyNeverAsksForSetField | server.js:150-166 | the phone prompt is sent exactly when the name is set and the phone is not, and the confirmation exactly when the lead is complete; both carry the lead's name and no other, so no reply asks for a field the merged lead holds |
| Leads.PhonePromptContents | server.js:154 | the phone prompt contains the visitor's name |
| Leads.ConfirmationContents | server.js:161-166 | the confirmation contains the visitor's name, "(514) 894-9400" and "mario@marioconte.com" |
| Leads.AllFieldsAtOnceConfirm | server.js:136-166 | a message that supplies all three fields gets the confirmation in that same turn, whatever was stored |
| LeadExtraction.MatchEmailAt | server.js:37 | what the e-mail matcher reports at a start reads the pattern local-part `@` domain `.` two or more letters |
| LeadExtraction.EmailLongest | server.js:37 | no e-mail match at a start ends after the one the matcher reports |
| LeadExtraction.MatchPhoneAt | server.js:38 | what the phone matcher reports reads the pattern: optional `+1` and space, 3 digits optionally in parentheses, 3 and 4 digits with optional separators |
| LeadExtraction.PhoneParseForced | server.js:38 | every reading of the phone pattern takes each optional character that is present |
| LeadExtraction.CountryReadingLonger | server.js:38 | when the readings with and without the country code both match, the one with it is longer |
| LeadExtraction.PhoneLongest | server.js:38 | no phone match at a start is longer than the one the matcher reports |
| LeadExtraction.MatchNameAt | server.js:41 | what the name matcher reports follows a trigger phrase and white space and is a list of one to four words |
| LeadExtraction.NamesSound | server.js:41 | the words the matcher collects form a list of at most the allowed number of words of two or more name characters |
| LeadExtraction.NamesLongest | server.js:41 | no such list of words is longer than the one the matcher collects |
| LeadExtraction.NameLongest | server.js:41 | no name match at a start gives a different capture start or a later end than the matcher's |
| LeadExtraction.MatchAtSound | server.js:37-41 | for each of the three patterns, what the matcher reports at a start is a match of that pattern there |
| LeadExtraction.MatchAtLongest | server.js:37-41 | for each of the three patterns, every match at a start is covered by the matcher's result there |
| LeadExtraction.TrimKeepsMatch | server.js:44-46 | what a pattern keeps has no white space at either end, so the `.trim()` on it changes nothing |
| LeadExtraction.FindFrom | server.js:37-41 | the scan returns the first start where the pattern matches, and reports none only when it matches at no start |
| LeadExtraction.Capture | server.js:43-47 | a captured field is non-empty and a substring of the message |
| LeadExtraction.ExtractLead | server.js:36-48 | each field of the extracted lead is null or a non-empty piece of the message, and an extracted e-mail contains `@` |
| LeadExtraction.CaptureLeftmostLongest | server.js:37-47 | a field is null exactly when its pattern matches nowhere; otherwise it is the leftmost match, and the longest at that start |
| LeadExtraction.NameNeedsPhrase | server.js:41 | a name is only found after "je m'appelle" or "mon nom est", in any case, followed by white space |
| LeadExtraction.NameShape | server.js:41-44 | a found name is one to four white-space-separated words of at least two letters, apostrophes or hyphens, taken from the message |
| LeadExtraction.EmailHasAt | server.js:37 | a found e-mail contains `@` |
| LeadExtraction.PhoneShape | server.js:38 | a found telephone reads the phone pattern: ten digits grouped 3-3-4 with the optional parts |
| Intent.ShouldAskForLead | server.js:50-63 | true exactly when the lower-cased message contains at least one of the nine keywords |
| Intent.CaseInsensitive | server.js:51 | a message and its lower-cased form give the same decision |
| Intent.IntentSurvivesContext | server.js:50-63 | a message that shows intent still does with any text added before or after it |
| LeadJson.Encode | server.js:144 | `JSON.stringify` of the lead is one object text: it opens with `{` and closes with `}` |
| LeadJson.Parse | server.js:133 | only a text that opens with the `name` key is parsed as a lead; anything else is a failure |
| LeadJson.ParseEscape | server.js:144 | an escaped string parses back to itself, up to its closing quote, leaving the text after it |
| LeadJson.ParseEncode | server.js:133-146 | parsing what `JSON.stringify` writes for a lead gives back that lead |
| LeadJson.DecodeLeadContent | server.js:133-146 | reading back the content of a LEAD message gives back the lead that was written |
| LeadJson.LeadContentTagged | server.js:129-146 | the content written starts with "LEAD:", so the `find` recognises it |
| LeadJson.DecodeLead | server.js:130-134 | the definition of the read-back: the first "LEAD:" removed, the rest trimmed and parsed, the all-null lead when the parse fails; `LeadJson.DecodeLeadContent` and `LeadJson.DecodeGarbage` state its effect |
| LeadJson.DecodeGarbage | server.js:132-134 | for every payload that does not parse, a LEAD message holding it is read as the all-null lead, as the empty `catch` leaves `stored` |
| LeadJson.DecodeOops | server.js:132-134 | such payloads exist: a LEAD message holding `{oops}` is read as the all-null lead |
| History.PromptIsNotLead | server.js:117-129 | the system prompt message is not taken for the LEAD message |
| History.FindLead | server.js:129 | `find` returns the first LEAD message, and returns none only when there is none |
| History.ReadLead | server.js:129-134 | a history without a LEAD message gives the all-null lead |
| History.ReadFirstLead | server.js:129-134 | the lead read is the one decoded from the first LEAD message of the history |
| History.NewHistoryWellFormed | server.js:115-119 | a new history `[system prompt]` is well formed and holds no lead |
| History.ReadStoreLead | server.js:129-147 | after a lead is written, reading the history gives that lead |
| History.StoreLead | server.js:143-147 | writing a lead either replaces the content of the LEAD message found, which then holds `"LEAD: " + JSON.stringify(lead)` as a system message with the history's length kept, or appends exactly one such message when there was none; every other message stays where it was |
| History.StoreLeadWellFormed | server.js:143-147 | writing a lead keeps the system prompt first and at most one LEAD message |
| History.AppendKeepsLead | server.js:170-181 | appending a user or assistant message leaves the LEAD message and the stored lead as they were |
| History.AppendWellFormed | server.js:170-181 | appending a user or assistant message keeps a history well formed |
| History.Window | server.js:175 | `slice(-16)` is the last min(16, length) messages of the history, so it ends with the latest one |
| History.LongWindowDropsPrompt | server.js:175 | once a well-formed history has more than 16 messages, the system prompt is not in the window |
| ChatServer.SessionId | server.js:27-31 | the session id sent when it is present and non-empty, "default" otherwise; never empty |
| ChatServer.MessageText | server.js:109 | the message with only the white space around it removed: a piece of the message with white space alone before and after it, and no white space at either end; empty exactly when the message is missing or all white space |
| ChatServer.AnswerText | server.js:178 | the trimmed answer when it is present and not blank, the fallback sentence otherwise; never empty |
| ChatServer.Turn | server.js:124-187 | every turn with a non-empty message replies with a non-empty text, with status 500 exactly when there is no contact intent and the model call throws, and 200 otherwise |
| ChatServer.LeadTurn | server.js:127-167 | the contact-intent branch always answers with status 200 |
| ChatServer.ModelTurn | server.js:169-187 | the dialogue branch keeps the whole history and records the message right after it; it replies with a non-empty text, with status 500 exactly when the model call throws |
| ChatServer.TurnWellFormed | server.js:115-181 | every turn keeps the history well formed, with the system prompt first |
| ChatServer.QualificationTurn | server.js:127-167 | with intent, the new history is the write-back of the merged lead: the LEAD message found now holds the merged lead, reading the history gives the merge, and the reply is the question the merge calls for; the history grows by at most one system message, every other message is kept, and no user or assistant message is added |
| ChatServer.DialogueTurn | server.js:170-187 | without intent, the user message is appended first, and the window sent ends with it and holds at most 16 messages. The answer or fallback is appended and returned with 200; if the call throws, the reply is 500 with the user message kept and no answer. The stored lead is unchanged |
| ChatServer.LeadChangesOnlyOnIntent | server.js:127-183 | a turn that changes the stored lead contains an intent keyword |
| ChatServer.CompleteLeadConfirms | server.js:136-166 | once the stored lead is complete, every intent turn gets the confirmation |
| ChatServer.SessionStore.constructor | server.js:25 | the store starts with no session |
| ChatServer.SessionStore.HistoryOf | server.js:115-121 | the history a turn starts from: the stored one, or `[system prompt]` for an unknown session, which holds no lead; in a valid store it is well formed. `SessionStore.Chat` states that the new session is stored |
| ChatServer.SessionStore.Chat | server.js:107-189 | an empty message gives 400 "Pouvez-vous écrire votre message ?" with the map unchanged. Otherwise the session's history becomes the one `Turn` gives and the response is `Turn`'s; no other session changes, and every history stays well formed |
| ChatServer.SessionStore.TakeTurn | server.js:121-188 | on a stored session, the history becomes the one `Turn` gives, the response is `Turn`'s, no other session changes and every history stays well formed |
| ChatServer.SessionStore.AskForLead | server.js:127-167 | the intent branch: the merged lead is written into the session's history in place and the reply is its question |
| ChatServer.SessionStore.AskModel | server.js:170-188 | the dialogue branch: the message is pushed and the window sent; the answer is pushed and returned, or a throw gives 500 |

## Left out

- The Express, CORS and dotenv set-up, the health route and `app.listen` (server.js:1-19, 99-101, 191-192) are HTTP plumbing. The handler is a method that returns a status and a reply.
- The OpenAI call (server.js:173-176) is a parameter `llm` of `Chat`, a function from the window to `Threw` or `Answered` with an optional content. The model name is not modelled. An answer whose content is present but not a string is not modelled either; `.trim()` would throw on it.
- `async`/`await` and concurrent requests to the same session are not modelled: each call of `Chat` is one whole turn.
- The `console.error` logging (server.js:186) is not modelled.
- `widget.js` is not part of this model. It is browser UI and `fetch`.
- ChatServer.SessionId, ChatServer.MessageText: `message` and `sessionId` are modelled as absent or a string. The `String(...)` and `.toString()` conversions of numbers, booleans or objects are not modelled.
- History.PromptText: the wording of `SYSTEM_PROMPT` (server.js:68-94) is a constant without a value. The model uses only its opening line break, which is what keeps the prompt from being taken for the LEAD message.
- LeadJson.Parse: `JSON.parse` is modelled only for the exact text `JSON.stringify` writes for a lead object, and any other text counts as a failure. The handler only ever reads back what it wrote itself, so the other JSON that JavaScript would accept (extra white space, other key orders, missing or extra keys) never reaches it.
- Strings.LowerChar: `toLowerCase()` is modelled on ASCII and Latin-1 capitals only, one character for one. Other capitals are left as they are, including U+0130, which JavaScript lower-cases to two characters. For the keyword test this is exact: no other character lower-cases into a sequence that completes one of the nine keywords.
- Strings are sequences of code points, not of UTF-16 code units. No character outside the Basic Multilingual Plane belongs to any class of the three regular expressions or to a keyword, and no index is exposed, so the results are the same.
