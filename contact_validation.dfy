/**
  `validateFormData` of pages/api/contact.ts: each of the four fields is checked on
  its own and every failing check adds its message, in the order name, e-mail,
  subject, message.
 */
module ContactValidation {
  import opened Text
  import opened Email
  import opened JsonFile

  /** The four properties of the posted JSON body. */
  datatype Fields = Fields(name: Value, email: Value, subject: Value, message: Value)

  const NameError := "Name is required and must be at least 2 characters long"
  const EmailError := "Valid email address is required"
  const SubjectError := "Subject is required and must be at least 3 characters long"
  const MessageError := "Message is required and must be at least 10 characters long"

  /**
    Truthy (a non-empty string), a string, and at least `min` long once trimmed, the
    length being JavaScript's count of UTF-16 code units.
   */
  predicate LongEnough(v: Value, min: nat)
    ensures LongEnough(v, min) ==> v.Text? && min <= 2 * |v.s|
  {
    v.Text? && v.s != "" && Utf16Length(Trim(v.s)) >= min
  }

  predicate NameOk(f: Fields) { LongEnough(f.name, 2) }
  predicate SubjectOk(f: Fields) { LongEnough(f.subject, 3) }
  predicate MessageOk(f: Fields) { LongEnough(f.message, 10) }

  predicate AllOk(f: Fields) {
    NameOk(f) && EmailOk(f.email) && SubjectOk(f) && MessageOk(f)
  }

  /** Position of a message in the fixed field order; 4 for anything else. */
  function Rank(msg: string): nat {
    if msg == NameError then 0
    else if msg == EmailError then 1
    else if msg == SubjectError then 2
    else if msg == MessageError then 3
    else 4
  }

  /** `if (!ok) errors.push(msg)`: the list with the message of one check added when it fails. */
  function Pushed(errs: seq<string>, ok: bool, msg: string): (r: seq<string>)
    ensures forall x :: x in r <==> x in errs || (!ok && x == msg)
    ensures |r| <= |errs| + 1
  {
    if ok then errs else errs + [msg]
  }

  /** Adding a message of a later field than every message so far keeps the field order. */
  lemma PushedInOrder(errs: seq<string>, ok: bool, msg: string)
    requires InFieldOrder(errs) && forall e :: e in errs ==> Rank(e) < Rank(msg)
    ensures InFieldOrder(Pushed(errs, ok, msg))
    ensures forall e :: e in Pushed(errs, ok, msg) ==> Rank(e) <= Rank(msg)
  {
  }

  /** Messages appear in strictly increasing field order. */
  predicate InFieldOrder(errs: seq<string>) {
    forall i, j :: 0 <= i < j < |errs| ==> Rank(errs[i]) < Rank(errs[j])
  }

  /** The error list for the four check results, in field order. */
  function ErrorList(nameOk: bool, emailOk: bool, subjectOk: bool, messageOk: bool): (errs: seq<string>)
    ensures NameError in errs <==> !nameOk
    ensures EmailError in errs <==> !emailOk
    ensures SubjectError in errs <==> !subjectOk
    ensures MessageError in errs <==> !messageOk
    ensures forall e :: e in errs ==> Rank(e) < 4
    ensures InFieldOrder(errs)
    ensures |errs| <= 4
  {
    assert Rank(NameError) == 0 && Rank(EmailError) == 1 && Rank(SubjectError) == 2 && Rank(MessageError) == 3;
    var upToName := Pushed([], nameOk, NameError);
    PushedInOrder([], nameOk, NameError);
    var upToEmail := Pushed(upToName, emailOk, EmailError);
    PushedInOrder(upToName, emailOk, EmailError);
    var upToSubject := Pushed(upToEmail, subjectOk, SubjectError);
    PushedInOrder(upToEmail, subjectOk, SubjectError);
    PushedInOrder(upToSubject, messageOk, MessageError);
    Pushed(upToSubject, messageOk, MessageError)
  }

  /**
    The error list of a body: one message per failing field and no other, in field
    order (so at most four, none repeated); empty exactly when every field passes.
   */
  function FormErrors(f: Fields): (errs: seq<string>)
    ensures NameError in errs <==> !NameOk(f)
    ensures EmailError in errs <==> !EmailOk(f.email)
    ensures SubjectError in errs <==> !SubjectOk(f)
    ensures MessageError in errs <==> !MessageOk(f)
    ensures forall e :: e in errs ==> Rank(e) < 4
    ensures InFieldOrder(errs)
    ensures |errs| <= 4
    ensures errs == [] <==> AllOk(f)
  {
    ErrorList(NameOk(f), EmailOk(f.email), SubjectOk(f), MessageOk(f))
  }

  /** `validateFormData(data)`: pushes each failing field's message onto `errors`. */
  method ValidateFormData(data: Fields) returns (isValid: bool, errors: seq<string>)
    ensures errors == FormErrors(data)
    ensures isValid <==> AllOk(data)
  {
    var nameOk, emailOk, subjectOk, messageOk := NameOk(data), EmailOk(data.email), SubjectOk(data), MessageOk(data);
    errors := [];
    if !nameOk {
      errors := errors + [NameError];
    }
    ghost var upToName := Pushed([], nameOk, NameError);
    assert errors == upToName;
    if !emailOk {
      errors := errors + [EmailError];
    }
    ghost var upToEmail := Pushed(upToName, emailOk, EmailError);
    assert errors == upToEmail;
    if !subjectOk {
      errors := errors + [SubjectError];
    }
    ghost var upToSubject := Pushed(upToEmail, subjectOk, SubjectError);
    assert errors == upToSubject;
    if !messageOk {
      errors := errors + [MessageError];
    }
    assert errors == Pushed(upToSubject, messageOk, MessageError);
    isValid := |errors| == 0;
  }

  /** When every check fails, the list is all four messages in field order. */
  lemma AllFieldsFail(f: Fields)
    requires !NameOk(f) && !EmailOk(f.email) && !SubjectOk(f) && !MessageOk(f)
    ensures FormErrors(f) == [NameError, EmailError, SubjectError, MessageError]
  {
  }

  lemma OneLetterNameFails()
    ensures !NameOk(Fields(Text("J"), Absent, Absent, Absent))
  {
    TrimKeepsUnpadded(['J']);
    Utf16LengthOne('J');
  }

  /**
    A name of one character above the Basic Multilingual Plane is two UTF-16 code units
    long, so it passes the two-character minimum.
   */
  lemma AstralNamePasses()
    ensures NameOk(Fields(Text("\U{1F600}"), Absent, Absent, Absent))
  {
    TrimKeepsUnpadded(['\U{1F600}']);
    Utf16LengthOne('\U{1F600}');
  }

  /** A body holding only a one-letter name fails all four checks, in order. */
  lemma OnlyShortName()
    ensures FormErrors(Fields(Text("J"), Absent, Absent, Absent))
         == [NameError, EmailError, SubjectError, MessageError]
  {
    OneLetterNameFails();
    AllFieldsFail(Fields(Text("J"), Absent, Absent, Absent));
  }
}
