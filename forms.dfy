/**
 * The forms of the application: the multi-line list field and the declarative
 * validation rules of the movie and account forms, evaluated the way WTForms
 * evaluates a field's validators on submission.
 */
module Forms {
  import opened Wrappers
  import opened Text

  /** The values a request carries under one field name (WTForms' `raw_data`); empty when the name is missing. */
  type RawData = seq<string>

  /** A submitted form: field name to the values sent under it. */
  type FormData = map<string, RawData>

  function Raw(data: FormData, name: string): RawData
  {
    if name in data then data[name] else []
  }

  /**
   * What the model takes as given rather than defining: Python's `int()` on a
   * submitted text (None when it raises), and the address grammar of the
   * `Email()` validator.
   */
  datatype Parsers = Parsers(parseInt: string -> Option<int>, isEmail: string -> bool)

  // ---------------------------------------------------------------------------
  // StringListField

  /**
   * `StringListField.process_formdata`: a missing or empty submission gives no
   * entries; otherwise entry i is line i with its white space stripped, so every
   * entry is trimmed and newline-free and blank lines are kept as "".
   */
  function ProcessFormdata(valuelist: RawData): (data: seq<string>)
    ensures |valuelist| == 0 || valuelist[0] == "" ==> data == []
    ensures |valuelist| > 0 && valuelist[0] != "" ==>
      && |data| == |Split(valuelist[0])| == Count(valuelist[0], Newline) + 1
      && (forall i :: 0 <= i < |data| ==> data[i] == Strip(Split(valuelist[0])[i]))
      && (forall i :: 0 <= i < |data| ==> Trimmed(data[i]) && Newline !in data[i])
      && (forall i :: 0 <= i < |data| ==> (data[i] == "" <==> AllSpace(Split(valuelist[0])[i])))
  {
    if |valuelist| > 0 && valuelist[0] != "" then
      var lines := Split(valuelist[0]);
      SplitCount(valuelist[0]);
      seq(|lines|, i requires 0 <= i < |lines| => Strip(lines[i]))
    else
      []
  }

  /** `StringListField._value`: the text the field shows for its current data (None before any data). */
  function Value(data: Option<seq<string>>): (text: string)
    ensures text == "" <==> data == None || data.value == [] || data.value == [""]
    ensures data.Some? && data.value != [] && NoNewlines(data.value) ==> Split(text) == data.value
  {
    if data.Some? && data.value != [] then
      var text := Join(data.value);
      assert NoNewlines(data.value) ==> Split(text) == data.value by {
        if NoNewlines(data.value) {
          SplitJoin(data.value);
        }
      }
      text
    else
      ""
  }

  /** Entries that can be written back into a text area and read again unchanged. */
  predicate Representable(entries: seq<string>)
  {
    NoNewlines(entries) && forall i :: 0 <= i < |entries| ==> Trimmed(entries[i])
  }

  /**
   * Showing a list and submitting the shown text gives the same list back, provided
   * every entry is trimmed and free of newlines and the shown text is not empty.
   */
  lemma RenderThenParse(entries: seq<string>)
    requires Representable(entries) && Join(entries) != ""
    ensures ProcessFormdata([Value(Some(entries))]) == entries
  {
    assert entries != [];
    SplitJoin(entries);
    ReadLines(Join(entries), entries, entries);
  }

  /** Reading a non-empty text whose lines strip to `entries`. */
  lemma ReadLines(text: string, lines: seq<string>, entries: seq<string>)
    requires text != "" && Split(text) == lines && |entries| == |lines|
    requires forall i :: 0 <= i < |lines| ==> Strip(lines[i]) == entries[i]
    ensures ProcessFormdata([text]) == entries
  {
  }

  /** The round trip fails for the single blank entry: it is shown as "" and read back as no entries. */
  lemma BlankEntryIsLost()
    ensures Value(Some([""])) == ""
    ensures ProcessFormdata([Value(Some([""]))]) == []
  {
  }

  /** Every list read from a submission is representable. */
  lemma ParsedIsRepresentable(valuelist: RawData)
    ensures Representable(ProcessFormdata(valuelist))
  {
  }

  /**
   * Reading a submission, showing the result and reading that again is stable:
   * the text shown after one save is shown unchanged after the next.
   */
  lemma ShownTextSettles(text: string)
    ensures var shown := Value(Some(ProcessFormdata([text])));
      Value(Some(ProcessFormdata([shown]))) == shown
  {
    var entries := ProcessFormdata([text]);
    if Join(entries) != "" {
      ParsedIsRepresentable([text]);
      RenderThenParse(entries);
    }
  }

  /** Three entries with an empty line between the second and the third: the blank line is kept as "". */
  lemma BlankLineKept(a: string, b: string, c: string)
    requires Trimmed(a) && Trimmed(b) && Trimmed(c)
    requires Newline !in a && Newline !in b && Newline !in c
    ensures ProcessFormdata([a + [Newline] + b + [Newline, Newline] + c]) == [a, b, "", c]
  {
    var text := a + [Newline] + b + [Newline, Newline] + c;
    SplitBlankLine(a, b, c);
    ReadLines(text, [a, b, "", c], [a, b, "", c]);
  }

  /** Two entries on lines ending in "\r\n", as browsers send text areas: the carriage return is stripped. */
  lemma CarriageReturnDropped(a: string, b: string)
    requires Trimmed(a) && Trimmed(b) && Newline !in a && Newline !in b
    ensures ProcessFormdata([a + ['\r', Newline] + b]) == [a, b]
  {
    var first := a + ['\r'];
    var text := a + ['\r', Newline] + b;
    assert text == first + [Newline] + b;
    SplitTwo(first, b);
    StripTrailingSpace(a, '\r');
    ReadLines(text, [first, b], [a, b]);
  }

  // ---------------------------------------------------------------------------
  // Validators

  const RequiredMessage := "This field is required."
  const NotAnIntegerMessage := "Not a valid integer value."
  const InvalidEmailMessage := "Invalid email address."
  const YearMessage := "Please enter a year in the format YYYY."
  const PasswordLengthMessage := "Your password must be between 4 and 20 characters long."
  const PasswordMismatchMessage := "This password did not match the one in the password."

  const MinYear := 1878
  const MaxYear := 2023
  const MinPassword := 4
  const MaxPassword := 20

  datatype Validator =
    | InputRequired
    | NumberRange(min: int, max: int, message: string)
    | Length(min: int, max: int, message: string)
    | EqualTo(other: string, message: string)
    | Email

  datatype Kind = TextKind | IntegerKind | StringListKind

  datatype Field = Field(name: string, kind: Kind, validators: seq<Validator>)

  /** A text field's data: the first submitted value, or what it held before when nothing was sent. */
  function TextData(raw: RawData, prior: Option<string>): Option<string>
  {
    if |raw| > 0 then Some(raw[0]) else prior
  }

  /** An integer field's data: the first submitted value converted, or what it held before. */
  function IntegerData(raw: RawData, p: Parsers, prior: Option<int>): Option<int>
  {
    if |raw| > 0 then p.parseInt(raw[0]) else prior
  }

  /** `InputRequired`'s test: a first value was sent and it is not empty. */
  predicate Present(raw: RawData)
  {
    |raw| > 0 && raw[0] != ""
  }

  /** What one validator does: let the chain go on, stop it, or record an error and go on. */
  datatype Verdict = Pass | Stop(message: string) | Fail(message: string)

  /**
   * Only `InputRequired` stops a chain, and only when no value was sent; a failing
   * validator records its own message, `Email` the fixed invalid-address message.
   */
  function Check(v: Validator, f: Field, data: FormData, p: Parsers): (verdict: Verdict)
    ensures verdict.Stop? <==> v == InputRequired && !Present(Raw(data, f.name))
    ensures verdict.Stop? ==> verdict.message == RequiredMessage
    ensures verdict.Fail? && v == Email ==> verdict.message == InvalidEmailMessage
    ensures verdict.Fail? && v != Email ==> v != InputRequired && verdict.message == v.message
  {
    var raw := Raw(data, f.name);
    match v
    case InputRequired =>
      if Present(raw) then Pass else Stop(RequiredMessage)
    case NumberRange(lo, hi, message) =>
      var n := IntegerData(raw, p, None);
      if n.Some? && lo <= n.value <= hi then Pass else Fail(message)
    case Length(lo, hi, message) =>
      var length := match TextData(raw, None) case Some(s) => |s| case None => 0;
      if lo <= length <= hi then Pass else Fail(message)
    case EqualTo(other, message) =>
      if TextData(raw, None) == TextData(Raw(data, other), None) then Pass else Fail(message)
    case Email =>
      var s := TextData(raw, None);
      if s.Some? && p.isEmail(s.value) then Pass else Fail(InvalidEmailMessage)
  }

  /**
   * Runs the validators in order. A stopping validator (`InputRequired`) discards the
   * errors collected so far and ends the chain with its own message.
   */
  function RunChain(vs: seq<Validator>, f: Field, data: FormData, p: Parsers, errors: seq<string>): (r: seq<string>)
    ensures (exists i :: 0 <= i < |vs| && Check(vs[i], f, data, p).Stop?) ==> r == [RequiredMessage]
    ensures (forall i :: 0 <= i < |vs| ==> !Check(vs[i], f, data, p).Stop?) ==>
      && errors <= r
      && (r == errors <==> forall i :: 0 <= i < |vs| ==> Check(vs[i], f, data, p).Pass?)
  {
    if vs == [] then errors
    else
      assert forall i :: 0 < i < |vs| ==> vs[1..][i - 1] == vs[i];
      match Check(vs[0], f, data, p)
      case Pass => RunChain(vs[1..], f, data, p, errors)
      case Stop(message) => [message]
      case Fail(message) => RunChain(vs[1..], f, data, p, errors + [message])
  }

  /** The error an integer field records while converting a value that is not a number. */
  function ProcessErrors(f: Field, data: FormData, p: Parsers): seq<string>
  {
    var raw := Raw(data, f.name);
    if f.kind == IntegerKind && |raw| > 0 && p.parseInt(raw[0]).None? then [NotAnIntegerMessage] else []
  }

  /** A field has no error exactly when its data converted and every one of its validators passes. */
  function FieldErrors(f: Field, data: FormData, p: Parsers): (r: seq<string>)
    ensures r == [] <==>
      ProcessErrors(f, data, p) == [] && forall i :: 0 <= i < |f.validators| ==> Check(f.validators[i], f, data, p).Pass?
  {
    RunChain(f.validators, f, data, p, ProcessErrors(f, data, p))
  }

  /**
   * `form.validate()`: every field is checked and none has an error, so the form is
   * accepted exactly when every field's data converted and every validator of every
   * field passed.
   */
  function Accepts(form: seq<Field>, data: FormData, p: Parsers): (ok: bool)
    ensures ok <==>
      && (forall i :: 0 <= i < |form| ==> ProcessErrors(form[i], data, p) == [])
      && (forall i, j :: 0 <= i < |form| && 0 <= j < |form[i].validators| ==>
            Check(form[i].validators[j], form[i], data, p).Pass?)
  {
    forall i :: 0 <= i < |form| ==> FieldErrors(form[i], data, p) == []
  }

  // ---------------------------------------------------------------------------
  // The four forms

  const TitleField := Field("title", TextKind, [InputRequired])
  const DirectorField := Field("director", TextKind, [InputRequired])
  const YearField := Field("year", IntegerKind, [InputRequired, NumberRange(MinYear, MaxYear, YearMessage)])

  const MovieForm: seq<Field> := [TitleField, DirectorField, YearField]

  const ExtendedMovieForm: seq<Field> := MovieForm + [
    Field("cast", StringListKind, []),
    Field("series", StringListKind, []),
    Field("tags", StringListKind, []),
    Field("description", TextKind, []),
    Field("video_link", TextKind, [])]

  const EmailField := Field("email", TextKind, [InputRequired, Email])
  const PasswordField := Field("password", TextKind, [InputRequired, Length(MinPassword, MaxPassword, PasswordLengthMessage)])
  const ConfirmField := Field("confirm_password", TextKind, [InputRequired, EqualTo("password", PasswordMismatchMessage)])

  const RegisterForm: seq<Field> := [EmailField, PasswordField, ConfirmField]

  const LoginForm: seq<Field> := [EmailField, Field("password", TextKind, [InputRequired])]

  /** The text submitted under `name`, when there is one. */
  function Submitted(data: FormData, name: string): Option<string>
  {
    TextData(Raw(data, name), None)
  }

  /**
   * The text submitted under `name`, or "" when none was: what a handler reads from
   * a field it has just validated.
   */
  function Entered(data: FormData, name: string): string
  {
    match Submitted(data, name)
    case Some(text) => text
    case None => ""
  }

  /** The year submitted, when one was sent and it converts to a number. */
  function SubmittedYear(data: FormData, p: Parsers): Option<int>
  {
    var raw := Raw(data, "year");
    if Present(raw) then p.parseInt(raw[0]) else None
  }

  // ---------------------------------------------------------------------------
  // What the rules accept

  /** A chain of one validator. */
  lemma RunOne(v: Validator, f: Field, data: FormData, p: Parsers, errors: seq<string>)
    ensures var verdict := Check(v, f, data, p);
      RunChain([v], f, data, p, errors) ==
        if verdict.Pass? then errors
        else if verdict.Stop? then [verdict.message]
        else errors + [verdict.message]
  {
    assert [v][1..] == [];
  }

  /** A chain that starts with `InputRequired`: the rest runs only when a value was sent. */
  lemma RequiredFirst(f: Field, data: FormData, p: Parsers)
    requires |f.validators| > 0 && f.validators[0] == InputRequired
    ensures FieldErrors(f, data, p) ==
      if Present(Raw(data, f.name)) then RunChain(f.validators[1..], f, data, p, ProcessErrors(f, data, p))
      else [RequiredMessage]
  {
  }

  /** A field whose only validator is `InputRequired` has an error exactly when no value was sent. */
  lemma RequiredOnly(f: Field, data: FormData, p: Parsers)
    requires f.kind != IntegerKind && f.validators == [InputRequired]
    ensures FieldErrors(f, data, p) == if Present(Raw(data, f.name)) then [] else [RequiredMessage]
  {
    RequiredFirst(f, data, p);
    assert f.validators[1..] == [];
  }

  /**
   * The year's errors: required when missing or empty, the conversion error and the
   * range message when not a number, the range message alone outside [1878, 2023].
   */
  lemma YearErrors(data: FormData, p: Parsers)
    ensures var raw := Raw(data, "year");
      FieldErrors(YearField, data, p) ==
        if !Present(raw) then [RequiredMessage]
        else if p.parseInt(raw[0]).None? then [NotAnIntegerMessage, YearMessage]
        else if MinYear <= p.parseInt(raw[0]).value <= MaxYear then []
        else [YearMessage]
  {
    RequiredFirst(YearField, data, p);
    RunOne(YearField.validators[1], YearField, data, p, ProcessErrors(YearField, data, p));
    assert YearField.validators[1..] == [YearField.validators[1]];
  }

  /** The basic movie form accepts exactly a title, a director and a year in [1878, 2023]. */
  lemma MovieFormAccepts(data: FormData, p: Parsers)
    ensures Accepts(MovieForm, data, p) <==>
      && Present(Raw(data, "title"))
      && Present(Raw(data, "director"))
      && SubmittedYear(data, p).Some?
      && MinYear <= SubmittedYear(data, p).value <= MaxYear
  {
    RequiredOnly(TitleField, data, p);
    RequiredOnly(DirectorField, data, p);
    YearErrors(data, p);
    assert MovieForm[0] == TitleField && MovieForm[1] == DirectorField && MovieForm[2] == YearField;
  }

  /**
   * The extended form checks title, director and year exactly as the basic form does,
   * and its list and text fields never have errors.
   */
  lemma ExtendedFormSameRules(data: FormData, p: Parsers)
    ensures ExtendedMovieForm[..|MovieForm|] == MovieForm
    ensures forall i :: |MovieForm| <= i < |ExtendedMovieForm| ==> FieldErrors(ExtendedMovieForm[i], data, p) == []
    ensures Accepts(ExtendedMovieForm, data, p) <==> Accepts(MovieForm, data, p)
  {
    forall i | |MovieForm| <= i < |ExtendedMovieForm|
      ensures FieldErrors(ExtendedMovieForm[i], data, p) == []
    {
      assert ExtendedMovieForm[i].validators == [] && ExtendedMovieForm[i].kind != IntegerKind;
    }
  }

  /**
   * Registration is accepted exactly when an address of the right shape is given, the
   * password has 4 to 20 characters and the confirmation repeats it.
   */
  lemma RegisterFormAccepts(data: FormData, p: Parsers)
    ensures Accepts(RegisterForm, data, p) <==>
      && Present(Raw(data, "email")) && p.isEmail(Raw(data, "email")[0])
      && Present(Raw(data, "password"))
      && MinPassword <= |Raw(data, "password")[0]| <= MaxPassword
      && Present(Raw(data, "confirm_password"))
      && Raw(data, "confirm_password")[0] == Raw(data, "password")[0]
  {
    EmailErrors(data, p);
    RequiredFirst(PasswordField, data, p);
    RunOne(PasswordField.validators[1], PasswordField, data, p, []);
    assert PasswordField.validators[1..] == [PasswordField.validators[1]];
    RequiredFirst(ConfirmField, data, p);
    RunOne(ConfirmField.validators[1], ConfirmField, data, p, []);
    assert ConfirmField.validators[1..] == [ConfirmField.validators[1]];
    assert RegisterForm[0] == EmailField && RegisterForm[1] == PasswordField && RegisterForm[2] == ConfirmField;
  }

  /** Login is accepted exactly when an address of the right shape and some password are given. */
  lemma LoginFormAccepts(data: FormData, p: Parsers)
    ensures Accepts(LoginForm, data, p) <==>
      && Present(Raw(data, "email")) && p.isEmail(Raw(data, "email")[0])
      && Present(Raw(data, "password"))
  {
    EmailErrors(data, p);
    RequiredOnly(LoginForm[1], data, p);
    assert LoginForm[0] == EmailField;
  }

  /** The address field has no error exactly when an address of the right shape was sent. */
  lemma EmailErrors(data: FormData, p: Parsers)
    ensures FieldErrors(EmailField, data, p) == [] <==>
      Present(Raw(data, "email")) && p.isEmail(Raw(data, "email")[0])
  {
    RequiredFirst(EmailField, data, p);
    RunOne(EmailField.validators[1], EmailField, data, p, []);
    assert EmailField.validators[1..] == [EmailField.validators[1]];
  }
}
