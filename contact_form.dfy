/** The portfolio contact form (script.js): validation of the four required
    fields, the submitted record, the WhatsApp message built from it, and the
    restoring of a saved draft into the inputs. */
module ContactForm {
  import opened Text
  import opened Sequences

  // ---------------------------------------------------------------------
  // The e-mail pattern /^[^\s@]+@[^\s@]+\.[^\s@]+$/

  /** Characters `[^\s@]` accepts. */
  predicate PlainChar(c: char) {
    !IsWhitespace(c) && c != '@'
  }

  predicate AllPlain(s: string) {
    forall i :: 0 <= i < |s| ==> PlainChar(s[i])
  }

  /** The strings the pattern matches: local part, "@", a domain part, ".", and a
      last part, each non-empty and free of white space and "@". */
  ghost predicate MatchesEmailPattern(e: string) {
    exists a, d :: 0 < a && a + 1 < d < |e| - 1 && e[a] == '@' && e[d] == '.'
      && AllPlain(e[..a]) && AllPlain(e[a + 1..d]) && AllPlain(e[d + 1..])
  }

  /** The first index of c in s. */
  function IndexOf(s: string, c: char): (i: nat)
    requires c in s
    ensures i < |s| && s[i] == c && c !in s[..i]
    decreases |s|
  {
    if s[0] == c then 0 else
      var j := IndexOf(s[1..], c);
      assert s[..j + 1] == [s[0]] + s[1..][..j];
      j + 1
  }

  /** A direct test for the pattern: no white space, exactly one "@" and not in
      front, and a "." after it that is neither next to it nor last. */
  predicate IsEmail(e: string) {
    && (forall i :: 0 <= i < |e| ==> !IsWhitespace(e[i]))
    && '@' in e
    && var a := IndexOf(e, '@');
      && a > 0 && '@' !in e[a + 1..]
      && exists d :: a + 1 < d < |e| - 1 && e[d] == '.'
  }

  /** Whatever the direct test accepts, the pattern matches ... */
  lemma IsEmailSound(e: string)
    requires IsEmail(e)
    ensures MatchesEmailPattern(e)
  {
    var a := IndexOf(e, '@');
    var d :| a + 1 < d < |e| - 1 && e[d] == '.';
    forall i | 0 <= i < a
      ensures e[i] != '@'
    {
      assert e[i] == e[..a][i];
    }
    forall i | a < i < |e|
      ensures e[i] != '@'
    {
      assert e[i] == e[a + 1..][i - a - 1];
    }
    assert AllPlain(e[..a]) && AllPlain(e[a + 1..d]) && AllPlain(e[d + 1..]);
  }

  /** A string made of three plain parts joined by "@" and "." has no white space
      and its only "@" is the joining one. */
  lemma PatternChars(e: string, a: nat, d: nat)
    requires 0 < a && a + 1 < d < |e| - 1 && e[a] == '@' && e[d] == '.'
    requires AllPlain(e[..a]) && AllPlain(e[a + 1..d]) && AllPlain(e[d + 1..])
    ensures forall i :: 0 <= i < |e| ==> !IsWhitespace(e[i]) && (e[i] == '@' ==> i == a)
  {
    forall i | 0 <= i < |e|
      ensures !IsWhitespace(e[i]) && (e[i] == '@' ==> i == a)
    {
      if i < a {
        assert e[i] == e[..a][i];
      } else if a < i < d {
        assert e[i] == e[a + 1..d][i - a - 1];
      } else if d < i {
        assert e[i] == e[d + 1..][i - d - 1];
      }
    }
  }

  /** When e[a] is the only "@" of e, it is the first one and none follows it. */
  lemma OnlyAt(e: string, a: nat)
    requires a < |e| && e[a] == '@'
    requires forall i :: 0 <= i < |e| && e[i] == '@' ==> i == a
    ensures '@' in e && IndexOf(e, '@') == a && '@' !in e[a + 1..]
  {
    var rest := e[a + 1..];
    assert forall j :: 0 <= j < |rest| ==> rest[j] == e[a + 1 + j];
  }

  /** ... and whatever the pattern matches, the direct test accepts. */
  lemma IsEmailComplete(e: string)
    requires MatchesEmailPattern(e)
    ensures IsEmail(e)
  {
    var a, d :| 0 < a && a + 1 < d < |e| - 1 && e[a] == '@' && e[d] == '.'
      && AllPlain(e[..a]) && AllPlain(e[a + 1..d]) && AllPlain(e[d + 1..]);
    PatternChars(e, a, d);
    OnlyAt(e, a);
  }

  /** The direct test accepts exactly the strings the pattern matches. */
  lemma IsEmailIffPattern(e: string)
    ensures IsEmail(e) <==> MatchesEmailPattern(e)
  {
    if IsEmail(e) {
      IsEmailSound(e);
    }
    if MatchesEmailPattern(e) {
      IsEmailComplete(e);
    }
  }

  // ---------------------------------------------------------------------
  // validateForm

  datatype FormError = NameTooShort | EmailMissing | EmailInvalid | SubjectTooShort | MessageTooShort

  datatype Validation = Valid | Invalid(error: FormError)

  /** The status line shown for each failure. */
  function ErrorMessage(e: FormError): string {
    match e
    case NameTooShort => "Please enter your name (minimum 2 characters)"
    case EmailMissing => "Please enter your email address"
    case EmailInvalid => "Please enter a valid email address"
    case SubjectTooShort => "Please enter a subject (minimum 5 characters)"
    case MessageTooShort => "Please write a more detailed message (minimum 20 characters)"
  }

  /** validateForm on the raw input values: the checks run in the order name, e-mail
      present, e-mail well formed, subject, message, on the trimmed values, and the
      first that fails decides the error. */
  function ValidateForm(name: string, email: string, subject: string, message: string): (v: Validation)
    ensures v == Invalid(NameTooShort) <==> |Trim(name)| < 2
    ensures v == Invalid(EmailMissing) <==> |Trim(name)| >= 2 && Trim(email) == []
    ensures v == Invalid(EmailInvalid) <==>
      |Trim(name)| >= 2 && Trim(email) != [] && !MatchesEmailPattern(Trim(email))
    ensures v == Invalid(SubjectTooShort) <==>
      |Trim(name)| >= 2 && MatchesEmailPattern(Trim(email)) && |Trim(subject)| < 5
    ensures v == Invalid(MessageTooShort) <==>
      |Trim(name)| >= 2 && MatchesEmailPattern(Trim(email)) && |Trim(subject)| >= 5 && |Trim(message)| < 20
    ensures v == Valid <==>
      |Trim(name)| >= 2 && MatchesEmailPattern(Trim(email)) && |Trim(subject)| >= 5 && |Trim(message)| >= 20
  {
    var name, email, subject, message := Trim(name), Trim(email), Trim(subject), Trim(message);
    IsEmailIffPattern(email);
    assert MatchesEmailPattern(email) ==> email != [];
    if name == [] || |name| < 2 then Invalid(NameTooShort)
    else if email == [] then Invalid(EmailMissing)
    else if !IsEmail(email) then Invalid(EmailInvalid)
    else if subject == [] || |subject| < 5 then Invalid(SubjectTooShort)
    else if message == [] || |message| < 20 then Invalid(MessageTooShort)
    else Valid
  }

  // ---------------------------------------------------------------------
  // getFormData

  /** What getFormData returns; `timestamp` is the clock reading as text. */
  datatype FormData = FormData(
    name: string, email: string, phone: string, subject: string, message: string,
    timestamp: string, source: string)

  const NotProvided: string := "Not provided"

  /** getFormData: every field trimmed, an empty phone replaced by "Not provided". */
  function GetFormData(name: string, email: string, phone: string, subject: string, message: string,
                       timestamp: string): (d: FormData)
    ensures d.name == Trim(name) && d.email == Trim(email) && d.subject == Trim(subject)
    ensures d.message == Trim(message) && d.timestamp == timestamp && d.source == "Portfolio Website"
    ensures AllWhitespace(phone) ==> d.phone == NotProvided
    ensures !AllWhitespace(phone) ==> d.phone == Trim(phone) && d.phone != []
  {
    var p := Trim(phone);
    FormData(Trim(name), Trim(email), if p == [] then NotProvided else p, Trim(subject), Trim(message),
             timestamp, "Portfolio Website")
  }

  // ---------------------------------------------------------------------
  // The WhatsApp message

  const Header: string := "*New Portfolio Inquiry*\n\n"

  function NameLine(d: FormData): string { "\U{00F0}\U{0178}\U{2018}\U{00A4} *Name:* " + d.name + "\n" }
  function EmailLine(d: FormData): string { "\U{00F0}\U{0178}\U{201C}\U{00A7} *Email:* " + d.email + "\n" }
  function PhoneLine(d: FormData): string { "\U{00F0}\U{0178}\U{201C}\U{00B1} *Phone:* " + d.phone + "\n" }
  function SubjectLine(d: FormData): string { "\U{00F0}\U{0178}\U{201C}\U{2039} *Subject:* " + d.subject + "\n\n" }
  function MessageLines(d: FormData): string { "\U{00F0}\U{0178}\U{2019}\U{00AC} *Message:*\n" + d.message + "\n\n" }
  function Footer(sentAt: string): string { "---\n" + "Sent from portfolio website at " + sentAt }

  /** Whether the message carries a phone line. */
  predicate HasPhone(d: FormData) {
    d.phone != NotProvided
  }

  /** The phone line when a phone was given, nothing otherwise. */
  function PhonePart(d: FormData): string {
    if HasPhone(d) then PhoneLine(d) else []
  }

  /** The message: header, name, e-mail, the phone only when one was given,
      subject, message, and the footer with the local time it was sent. */
  function WhatsAppText(d: FormData, sentAt: string): string {
    Header + NameLine(d) + EmailLine(d) + PhonePart(d)
      + SubjectLine(d) + MessageLines(d) + Footer(sentAt)
  }

  /** Builds the message by appending its parts one after another. */
  method BuildWhatsAppMessage(d: FormData, sentAt: string) returns (m: string)
    ensures m == WhatsAppText(d, sentAt)
  {
    m := Header;
    m := m + NameLine(d);
    m := m + EmailLine(d);
    if d.phone != NotProvided {
      m := m + PhoneLine(d);
    }
    m := m + SubjectLine(d);
    m := m + MessageLines(d);
    m := m + "---\n";
    m := m + "Sent from portfolio website at " + sentAt;
  }

  /** p is a prefix of t. */
  predicate IsPrefix(p: string, t: string) {
    |p| <= |t| && t[..|p|] == p
  }

  lemma PrefixOfAppend(p: string, x: string, t: string)
    requires IsPrefix(p + x, t)
    ensures IsPrefix(p, t) && OccursAt(t, x, |p|)
  {
    assert t[..|p|] == (p + x)[..|p|];
    assert t[|p|..|p| + |x|] == (p + x)[|p|..];
  }

  /** Where the phone line would start: right after the e-mail line. */
  function PhoneStart(d: FormData): nat {
    |Header| + |NameLine(d)| + |EmailLine(d)|
  }

  /** Where the subject line starts: after the phone line, if there is one. */
  function SubjectStart(d: FormData): nat {
    PhoneStart(d) + |PhonePart(d)|
  }

  /** In a concatenation of seven parts, each part sits where the lengths of the
      parts before it say. */
  lemma SevenParts(a: string, b: string, c: string, e: string, f: string, g: string, h: string)
    ensures var t := a + b + c + e + f + g + h;
      && OccursAt(t, a, 0) && OccursAt(t, b, |a|) && OccursAt(t, c, |a| + |b|)
      && OccursAt(t, e, |a| + |b| + |c|) && OccursAt(t, f, |a| + |b| + |c| + |e|)
      && OccursAt(t, g, |a| + |b| + |c| + |e| + |f|)
      && OccursAt(t, h, |a| + |b| + |c| + |e| + |f| + |g|) && OccursAt(t, h, |t| - |h|)
  {
    var t := a + b + c + e + f + g + h;
    PrefixOfAppend(a + b + c + e + f + g, h, t);
    PrefixOfAppend(a + b + c + e + f, g, t);
    PrefixOfAppend(a + b + c + e, f, t);
    PrefixOfAppend(a + b + c, e, t);
    PrefixOfAppend(a + b, c, t);
    PrefixOfAppend(a, b, t);
    PrefixOfAppend([], a, t);
  }

  /** The header, the name line and the e-mail line open the message. */
  lemma WhatsAppHead(d: FormData, sentAt: string)
    ensures var t := WhatsAppText(d, sentAt);
      && OccursAt(t, Header, 0) && OccursAt(t, NameLine(d), |Header|)
      && OccursAt(t, EmailLine(d), |Header| + |NameLine(d)|)
  {
    SevenParts(Header, NameLine(d), EmailLine(d), PhonePart(d), SubjectLine(d), MessageLines(d), Footer(sentAt));
  }

  /** The subject line and the message follow the optional phone line. */
  lemma WhatsAppTail(d: FormData, sentAt: string)
    ensures var t := WhatsAppText(d, sentAt);
      && OccursAt(t, SubjectLine(d), SubjectStart(d))
      && OccursAt(t, MessageLines(d), SubjectStart(d) + |SubjectLine(d)|)
  {
    SevenParts(Header, NameLine(d), EmailLine(d), PhonePart(d), SubjectLine(d), MessageLines(d), Footer(sentAt));
  }

  /** The footer closes the message. */
  lemma WhatsAppFooter(d: FormData, sentAt: string)
    ensures var t := WhatsAppText(d, sentAt); OccursAt(t, Footer(sentAt), |t| - |Footer(sentAt)|)
  {
    SevenParts(Header, NameLine(d), EmailLine(d), PhonePart(d), SubjectLine(d), MessageLines(d), Footer(sentAt));
  }

  /** Right after the e-mail line comes the phone line exactly when a phone was
      given: otherwise the subject line starts there, and the two lines' icons
      differ in their fourth character. */
  lemma WhatsAppPhone(d: FormData, sentAt: string)
    ensures OccursAt(WhatsAppText(d, sentAt), PhoneLine(d), PhoneStart(d)) <==> HasPhone(d)
  {
    var t := WhatsAppText(d, sentAt);
    if HasPhone(d) {
      SevenParts(Header, NameLine(d), EmailLine(d), PhonePart(d), SubjectLine(d), MessageLines(d), Footer(sentAt));
    } else {
      WhatsAppTail(d, sentAt);
      assert t[PhoneStart(d) + 3] == SubjectLine(d)[3];
      assert PhoneLine(d)[3] != SubjectLine(d)[3];
    }
  }

  /** The message starts with the header and then gives name, e-mail, subject and
      message in this order; right after the e-mail line comes the phone line
      exactly when a phone was given, and the subject line otherwise. */
  lemma WhatsAppLayout(d: FormData, sentAt: string)
    ensures var t := WhatsAppText(d, sentAt);
      && OccursAt(t, Header, 0) && OccursAt(t, NameLine(d), |Header|)
      && OccursAt(t, EmailLine(d), |Header| + |NameLine(d)|)
      && (OccursAt(t, PhoneLine(d), PhoneStart(d)) <==> HasPhone(d))
      && OccursAt(t, SubjectLine(d), SubjectStart(d))
      && OccursAt(t, MessageLines(d), SubjectStart(d) + |SubjectLine(d)|)
      && OccursAt(t, Footer(sentAt), |t| - |Footer(sentAt)|)
  {
    WhatsAppHead(d, sentAt);
    WhatsAppPhone(d, sentAt);
    WhatsAppTail(d, sentAt);
    WhatsAppFooter(d, sentAt);
  }

  /** Leaving the phone blank drops the phone line; so does typing "Not provided". */
  lemma PhoneLineShown(name: string, email: string, phone: string, subject: string, message: string,
                       timestamp: string)
    ensures var d := GetFormData(name, email, phone, subject, message, timestamp);
      HasPhone(d) <==> !AllWhitespace(phone) && Trim(phone) != NotProvided
  {
  }

  // ---------------------------------------------------------------------
  // loadFormDraft

  /** One of the form's inputs: its id, its value and whether it is marked touched. */
  datatype Field = Field(id: string, value: string, touched: bool)

  /** What loadFormDraft does to one input: a saved value that is present and
      non-empty replaces the input's value, and marks it touched when it is not
      blank; otherwise the input stays as it is. */
  function Restored(f: Field, draft: map<string, string>): (g: Field)
    ensures g.id == f.id
    ensures f.id !in draft || draft[f.id] == [] ==> g == f
    ensures f.id in draft && draft[f.id] != [] ==>
      g.value == draft[f.id] && g.touched == (f.touched || !AllWhitespace(draft[f.id]))
  {
    if f.id in draft && draft[f.id] != [] then
      var v := draft[f.id];
      f.(value := v, touched := f.touched || Trim(v) != [])
    else f
  }

  /** Restoring the same draft twice is restoring it once. */
  lemma RestoredIdempotent(f: Field, draft: map<string, string>)
    ensures Restored(Restored(f, draft), draft) == Restored(f, draft)
  {
  }

  /** The loop body of loadFormDraft for one input. */
  method RestoreInput(f: Field, data: map<string, string>) returns (input: Field)
    ensures input == Restored(f, data)
  {
    input := f;
    if input.id in data && data[input.id] != [] {
      var saved := data[input.id];
      input := input.(value := saved);
      if Trim(saved) != [] {
        input := input.(touched := true);
      }
    }
  }

  /** loadFormDraft over the form's inputs; `draft` is the parsed saved draft, None
      when nothing was saved. Returns whether a draft was restored. */
  method LoadFormDraft(inputs: array<Field>, draft: Option<map<string, string>>) returns (restored: bool)
    modifies inputs
    ensures restored <==> draft.Some?
    ensures draft.None? ==> inputs[..] == old(inputs[..])
    ensures draft.Some? ==> forall i :: 0 <= i < inputs.Length ==> inputs[i] == Restored(old(inputs[i]), draft.value)
  {
    if draft.None? {
      return false;
    }
    var data := draft.value;
    ghost var before := inputs[..];
    for i := 0 to inputs.Length
      invariant forall k :: 0 <= k < i ==> inputs[k] == Restored(before[k], data)
      invariant forall k :: i <= k < inputs.Length ==> inputs[k] == before[k]
    {
      var input := RestoreInput(inputs[i], data);
      inputs[i] := input;
    }
    restored := true;
  }
}
