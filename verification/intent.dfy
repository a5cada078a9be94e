/** `shouldAskForLead` (server.js:50-63): does the visitor want a visit, a call back or a
    contact? Decided by a substring test of the lower-cased message against nine French
    keywords. */
module Intent {
  import opened Strings

  /** The keywords, in the order the source tests them. */
  const Keywords: seq<string> :=
    ["visite", "rendez", "rdv", "rappel", "appeler", "contact", "disponible", "intéressé", "interessé"]

  /** The lower-cased message contains at least one keyword. */
  ghost predicate MentionsKeyword(text: string) {
    exists k :: 0 <= k < |Keywords| && IsSubstring(Keywords[k], Lower(text))
  }

  /** `shouldAskForLead(text)`: true exactly when a keyword occurs in the lower-cased text. */
  function ShouldAskForLead(text: string): (r: bool)
    ensures r <==> MentionsKeyword(text)
  {
    var t := Lower(text);
    assert Keywords[0] == "visite" && Keywords[1] == "rendez" && Keywords[2] == "rdv";
    assert Keywords[3] == "rappel" && Keywords[4] == "appeler" && Keywords[5] == "contact";
    assert Keywords[6] == "disponible" && Keywords[7] == "intéressé" && Keywords[8] == "interessé";
    Includes(t, "visite") || Includes(t, "rendez") || Includes(t, "rdv")
    || Includes(t, "rappel") || Includes(t, "appeler") || Includes(t, "contact")
    || Includes(t, "disponible") || Includes(t, "intéressé") || Includes(t, "interessé")
  }

  /** The test ignores letter case: a message and its lower-cased form ask alike. */
  lemma CaseInsensitive(text: string)
    ensures ShouldAskForLead(Lower(text)) == ShouldAskForLead(text)
  {
    assert Lower(Lower(text)) == Lower(text);
  }

  /** Adding text never takes an intent away: a keyword found in part of a message is found in
      the whole message. */
  lemma {:induction false} IntentSurvivesContext(a: string, text: string, b: string)
    requires ShouldAskForLead(text)
    ensures ShouldAskForLead(a + text + b)
  {
    var k :| 0 <= k < |Keywords| && IsSubstring(Keywords[k], Lower(text));
    var p: nat :| OccursAt(Lower(text), Keywords[k], p);
    LowerConcat(a, text);
    LowerConcat(a + text, b);
    OccursInContext(Lower(a), Lower(text), Lower(b), Keywords[k], p);
    assert IsSubstring(Keywords[k], Lower(a + text + b));
  }
}
