/** The lead record of a session, the field-by-field merge the handler performs on every
    contact-intent turn, and the single reply it then sends (server.js:130-166). */
module Leads {
  import opened Strings

  /** A captured lead; a field is `None` where the JavaScript object holds `null`. The field
      order is that of the object literal the handler builds and serialises. */
  datatype Lead = Lead(name: Option<string>, email: Option<string>, phone: Option<string>)

  /** `{ name: null, email: null, phone: null }`: nothing captured yet. */
  const EmptyLead := Lead(None, None, None)

  /** JavaScript truthiness of a string-or-null value: `null` and `""` are falsy. */
  predicate Truthy(v: Option<string>) {
    v.Some? && v.value != ""
  }

  /** JavaScript `a || b` on string-or-null values. */
  function Or(a: Option<string>, b: Option<string>): Option<string> {
    if Truthy(a) then a else b
  }

  /** `{ name: lead.name || stored.name, email: lead.email || stored.email, phone: lead.phone || stored.phone }`.
      A merged field is set exactly when one of the two records sets it, so a field once
      stored stays set; where the message supplies a value, that value replaces the stored
      one, and where it does not, the stored value is kept as it was. */
  function Merge(extracted: Lead, stored: Lead): (r: Lead)
    ensures Truthy(r.name) <==> Truthy(extracted.name) || Truthy(stored.name)
    ensures Truthy(r.phone) <==> Truthy(extracted.phone) || Truthy(stored.phone)
    ensures Truthy(r.email) <==> Truthy(extracted.email) || Truthy(stored.email)
    ensures Truthy(extracted.name) ==> r.name == extracted.name
    ensures Truthy(extracted.phone) ==> r.phone == extracted.phone
    ensures Truthy(extracted.email) ==> r.email == extracted.email
    ensures !Truthy(extracted.name) ==> r.name == stored.name
    ensures !Truthy(extracted.phone) ==> r.phone == stored.phone
    ensures !Truthy(extracted.email) ==> r.email == stored.email
    ensures Complete(stored) || Complete(extracted) ==> Complete(r)
  {
    Lead(Or(extracted.name, stored.name), Or(extracted.email, stored.email), Or(extracted.phone, stored.phone))
  }

  /** All three fields are set: the qualification is finished. */
  predicate Complete(l: Lead) {
    Truthy(l.name) && Truthy(l.phone) && Truthy(l.email)
  }

  /** The brokerage's direct contact channels quoted in the confirmation. */
  const BrokerPhone := "(514) 894-9400"
  const BrokerEmail := "mario@marioconte.com"

  const NamePrompt := "Parfait \U{1F642} Quel est votre prénom ?"

  function PhonePrompt(name: string): string {
    "Merci " + name + " ! Quel est votre numéro de téléphone pour que Mario vous rappelle ?"
  }

  const EmailPrompt := "Super. Et votre adresse email ?"

  function Confirmation(name: string): string {
    "Parfait \U{2705} Merci " + name + ConfirmationMiddle + BrokerPhone + " ou à " + BrokerEmail + "."
  }

  const ConfirmationMiddle := " ! Je transmets votre demande à Mario Conte. Vous pouvez aussi le joindre directement au "

  /** The one reply of a contact-intent turn, checked on the merged record in the fixed order
      name, phone, email, confirmation. */
  function Reply(l: Lead): (r: string)
    ensures r == NamePrompt <==> !Truthy(l.name)
    ensures r == EmailPrompt <==> Truthy(l.name) && Truthy(l.phone) && !Truthy(l.email)
  {
    if !Truthy(l.name) then NamePrompt
    else if !Truthy(l.phone) then
      assert PhonePrompt(l.name.value)[0] == 'M';
      PhonePrompt(l.name.value)
    else if !Truthy(l.email) then EmailPrompt
    else
      assert Confirmation(l.name.value)[0] == 'P' && Confirmation(l.name.value)[8] == '\U{2705}';
      Confirmation(l.name.value)
  }

  /** Merging the same extraction a second time changes nothing, and neither does merging
      the stored record again. */
  lemma MergeIdempotent(extracted: Lead, stored: Lead)
    ensures Merge(extracted, Merge(extracted, stored)) == Merge(extracted, stored)
    ensures Merge(Merge(extracted, stored), stored) == Merge(extracted, stored)
  {
  }

  /** The merge is not symmetric: when both records hold a field, the extracted one is kept,
      so swapping the arguments can change the result. */
  lemma MergeNotCommutative()
    ensures exists a: Lead, b: Lead :: Merge(a, b) != Merge(b, a)
  {
    var a := Lead(Some("Marc"), None, None);
    var b := Lead(Some("Luc"), None, None);
    assert Merge(a, b).name == Some("Marc") && Merge(b, a).name == Some("Luc");
  }

  /** The phone prompt is sent exactly when the name is known and the phone is not, and the
      confirmation exactly when the lead is complete; each addresses the visitor by the
      stored name. With Reply's own contract, the reply tells which fields the record holds. */
  lemma {:induction false} ReplyNeverAsksForSetField(l: Lead)
    ensures forall n :: Reply(l) == PhonePrompt(n) <==> Truthy(l.name) && !Truthy(l.phone) && l.name.value == n
    ensures forall n :: Reply(l) == Confirmation(n) <==> Complete(l) && l.name.value == n
  {
    forall n ensures PhonePrompt(n) != NamePrompt && PhonePrompt(n) != EmailPrompt {
      assert PhonePrompt(n)[0] == 'M';
    }
    forall n ensures Confirmation(n) != NamePrompt && Confirmation(n) != EmailPrompt {
      assert Confirmation(n)[8] == '\U{2705}';
      assert Confirmation(n)[0] == 'P';
    }
    forall n, m ensures PhonePrompt(n) != Confirmation(m) {
      assert PhonePrompt(n)[0] != Confirmation(m)[0];
    }
    forall n, m | PhonePrompt(n) == PhonePrompt(m) ensures n == m {
      PhonePromptInjective(n, m);
    }
    forall n, m | Confirmation(n) == Confirmation(m) ensures n == m {
      ConfirmationInjective(n, m);
    }
  }

  lemma PhonePromptInjective(n: string, m: string)
    requires PhonePrompt(n) == PhonePrompt(m)
    ensures n == m
  {
    assert |n| == |m|;
    assert n == PhonePrompt(n)[6..6 + |n|];
  }

  lemma ConfirmationInjective(n: string, m: string)
    requires Confirmation(n) == Confirmation(m)
    ensures n == m
  {
    assert |n| == |m|;
    assert n == Confirmation(n)[16..16 + |n|];
  }

  /** The phone prompt addresses the visitor by name. */
  lemma PhonePromptContents(name: string)
    ensures IsSubstring(name, PhonePrompt(name))
  {
    assert OccursAt(PhonePrompt(name), name, 6);
  }

  /** The confirmation names the visitor and gives the brokerage's telephone and e-mail. */
  lemma ConfirmationContents(name: string)
    ensures IsSubstring(name, Confirmation(name))
    ensures IsSubstring(BrokerPhone, Confirmation(name))
    ensures IsSubstring(BrokerEmail, Confirmation(name))
  {
    var head := "Parfait \U{2705} Merci ";
    var a := head + name;
    var b := a + ConfirmationMiddle;
    var c := b + BrokerPhone;
    var d := c + " ou à ";
    var e := d + BrokerEmail;
    assert Confirmation(name) == e + ".";
    assert e[|d|..] == BrokerEmail && (e + ".")[..|e|] == e;
    assert OccursAt(e + ".", BrokerEmail, |d|);
    assert c[|b|..] == BrokerPhone && (e + ".")[..|c|] == c;
    assert OccursAt(e + ".", BrokerPhone, |b|);
    assert a[|head|..] == name && (e + ".")[..|a|] == a;
    assert OccursAt(e + ".", name, |head|);
  }

  /** A message that supplies all three fields reaches the confirmation in that same turn,
      whatever was stored before. */
  lemma AllFieldsAtOnceConfirm(extracted: Lead, stored: Lead)
    requires Complete(extracted)
    ensures Reply(Merge(extracted, stored)) == Confirmation(extracted.name.value)
  {
  }
}
