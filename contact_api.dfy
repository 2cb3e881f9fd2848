/**
  The POST /api/contact handler (pages/api/contact.ts): method check, rate limit,
  validation, trimming, e-mail, file fallback, in that order. `Respond` is the
  handler as a function of the module-level state; `ContactEndpoint.Handle` runs
  the same steps on that state in place.
 */
module ContactApi {
  import opened Wrappers
  import opened Text
  import opened Email
  import opened JsonFile
  import opened Http
  import opened RateLimit
  import opened ContactValidation
  import opened ContactDelivery

  const ContactMax: nat := 5

  /**
    The parsed body: one whose property reads throw (`null`), or one whose four
    properties are read.
   */
  datatype Body = NullBody | Parsed(fields: ContactValidation.Fields)

  /** `clientKey` is the `x-forwarded-for` / remote-address string, taken as given. */
  datatype Request = Request(httpMethod: string, clientKey: string, body: Body)

  /** The clock readings, environment and I/O answers of one request. */
  datatype Env = Env(now: int, id: string, timestamp: string, config: Config, providers: Providers, io: StoreIo)

  /** The rate-limit table and data/messages.json. */
  datatype State = State(rates: map<string, Entry>, messages: FileState<Message>)

  datatype Outcome = Outcome(response: Response, state: State)

  const ValidationFailed := "Validation failed"
  const FailedMessage := "Failed to process message. Please try again later."

  const SentByEmail := Response(200, Success("Message sent successfully", Some("email"), None))
  const SavedToFile := Response(200, Success("Message saved successfully", Some("file"),
    Some("Email configuration not available. Message saved to local file.")))

  /** `formData`: each of the four validated strings trimmed. */
  function Trimmed(f: ContactValidation.Fields): (data: FormData)
    requires AllOk(f)
    ensures data.email == f.email.s
  {
    TrimKeepsEmail(f.email.s);
    FormData(Trim(f.name.s), Trim(f.email.s), Trim(f.subject.s), Trim(f.message.s))
  }

  /**
    The e-mail / file / failure tail of the handler, for a valid body: it answers 200
    or 500, never touches the rate table, and changes the messages file only on the
    file path, that is when no e-mail went out.
   */
  function Deliver(st: State, data: FormData, env: Env): (r: Outcome)
    ensures r.response.status in {200, 500}
    ensures r.state.rates == st.rates
    ensures r.state.messages != st.messages ==>
      r.response == SavedToFile && !SendEmail(env.config, env.providers)
  {
    if SendEmail(env.config, env.providers) then
      Outcome(SentByEmail, st)
    else
      var saved := SaveMessage(st.messages, ToMessage(data, env.id, env.timestamp), env.io);
      if saved.ok then
        Outcome(SavedToFile, st.(messages := saved.file))
      else
        Outcome(Response(500, Failure(FailedMessage)), st)
  }

  /**
    The handler. Its status is 405 exactly for a method other than POST (and then nothing
    changes), 429 exactly when the limiter refuses, 400 exactly when validation fails;
    every POST is counted by the limiter, whatever happens after; a body whose properties
    cannot be read gets 500 "Internal server error"; the messages file changes only when
    the e-mail was not sent and the file write succeeded.
   */
  function Respond(st: State, req: Request, env: Env): (r: Outcome)
    ensures r.response.status in {200, 400, 405, 429, 500}
    ensures r.response.status == 405 <==> req.httpMethod != "POST"
    ensures req.httpMethod != "POST" ==> r.state == st
    ensures req.httpMethod == "POST" ==> r.state.rates == Admit(st.rates, req.clientKey, env.now, ContactMax).store
    ensures r.response.status == 429 <==>
      req.httpMethod == "POST" && !Admit(st.rates, req.clientKey, env.now, ContactMax).allowed
    ensures r.response.status == 400 <==>
      req.httpMethod == "POST" && Admit(st.rates, req.clientKey, env.now, ContactMax).allowed
      && req.body.Parsed? && !AllOk(req.body.fields)
    ensures r.response.status == 400 ==> r.response.payload == Invalid(ValidationFailed, FormErrors(req.body.fields))
    ensures (req.httpMethod == "POST" && Admit(st.rates, req.clientKey, env.now, ContactMax).allowed
      && req.body.NullBody?) ==> r.response == InternalError && r.state.messages == st.messages
    ensures r.state.messages != st.messages ==>
      r.response == SavedToFile && !SendEmail(env.config, env.providers)
  {
    if req.httpMethod != "POST" then
      Outcome(MethodNotAllowed, st)
    else
      var decision := Admit(st.rates, req.clientKey, env.now, ContactMax);
      var counted := st.(rates := decision.store);
      if !decision.allowed then
        Outcome(TooManyRequests, counted)
      else match req.body
        case NullBody => Outcome(InternalError, counted)
        case Parsed(f) =>
          var errors := FormErrors(f);
          if errors != [] then
            Outcome(Response(400, Invalid(ValidationFailed, errors)), counted)
          else
            Deliver(counted, Trimmed(f), env)
  }

  /** A delivered e-mail answers 200 "email" and leaves the messages file alone. */
  lemma EmailSentSkipsFile(st: State, req: Request, env: Env)
    requires req.httpMethod == "POST" && Admit(st.rates, req.clientKey, env.now, ContactMax).allowed
    requires req.body.Parsed? && AllOk(req.body.fields)
    requires SendEmail(env.config, env.providers)
    ensures Respond(st, req, env).response == SentByEmail
    ensures Respond(st, req, env).state.messages == st.messages
  {
  }

  /**
    Without e-mail, a successful write answers 200 "file" and appends exactly the trimmed
    submission; a failed write answers 500 and leaves the file as it was.
   */
  lemma FileFallback(st: State, req: Request, env: Env)
    requires req.httpMethod == "POST" && Admit(st.rates, req.clientKey, env.now, ContactMax).allowed
    requires req.body.Parsed? && AllOk(req.body.fields)
    requires !SendEmail(env.config, env.providers)
    ensures var saved := SaveMessage(st.messages, ToMessage(Trimmed(req.body.fields), env.id, env.timestamp), env.io);
      var r := Respond(st, req, env);
      if saved.ok then
        r.response == SavedToFile && r.state.messages == saved.file
      else
        r.response == Response(500, Failure(FailedMessage)) && r.state.messages == st.messages
  {
    ValidGoesToDeliver(st, req, env);
  }

  /** An admitted POST with a valid body is answered by the delivery tail, on the counted table. */
  lemma ValidGoesToDeliver(st: State, req: Request, env: Env)
    requires req.httpMethod == "POST" && Admit(st.rates, req.clientKey, env.now, ContactMax).allowed
    requires req.body.Parsed? && AllOk(req.body.fields)
    ensures Respond(st, req, env)
      == Deliver(st.(rates := Admit(st.rates, req.clientKey, env.now, ContactMax).store), Trimmed(req.body.fields), env)
  {
    var f := req.body.fields;
    assert req.body == Parsed(f);
    assert FormErrors(f) == [];
  }

  /** The contact submission used as the worked example below. */
  const ExampleFields := ContactValidation.Fields(Text("John Doe"), Text("john@example.com"), Text("general"), Text("This is a test message"))

  /** The same submission after trimming: nothing to trim. */
  const ExampleData := FormData("John Doe", "john@example.com", "general", "This is a test message")

  lemma ExampleFieldsValid()
    ensures AllOk(ExampleFields)
    ensures Trimmed(ExampleFields) == ExampleData
  {
    ExampleEmailValid();
    ExampleNameTrimmed();
    ExampleSubjectTrimmed();
    ExampleMessageTrimmed();
  }

  lemma ExampleEmailValid() ensures IsEmail("john@example.com") {
    RegexToEmail("john@example.com", 4, 12);
  }

  lemma ExampleNameTrimmed() ensures Trim("John Doe") == "John Doe" {
    TrimKeepsUnpadded("John Doe");
  }

  lemma ExampleSubjectTrimmed() ensures Trim("general") == "general" {
    TrimKeepsUnpadded("general");
  }

  lemma ExampleMessageTrimmed() ensures Trim("This is a test message") == "This is a test message" {
    TrimKeepsUnpadded("This is a test message");
  }

  /**
    A valid submission with no channel configured and no messages file yet: the answer
    is 200 "file" and the file then holds exactly the one new record. `ExampleFieldsValid`
    shows the worked example is such a submission, with nothing to trim.
   */
  lemma NoChannelFirstMessage(st: State, req: Request, env: Env)
    requires st.messages == Missing
    requires req.httpMethod == "POST" && req.body.Parsed? && AllOk(req.body.fields)
    requires Admit(st.rates, req.clientKey, env.now, ContactMax).allowed
    requires env.config == Config("", "", "", "") && env.io == StoreIo(true, true)
    ensures Respond(st, req, env).response == SavedToFile
    ensures Respond(st, req, env).state.messages == Stored([ToMessage(Trimmed(req.body.fields), env.id, env.timestamp)])
  {
    NothingConfigured(env.config, env.providers);
    FileFallback(st, req, env);
  }

  /**
    The endpoint: the module-level rate-limit table (limit 5) and the messages file,
    both updated in place by each request.
   */
  class ContactEndpoint {
    const limiter: RateLimiter
    const store: MessageStore

    ghost predicate Valid()
      reads this, limiter
    {
      limiter.Valid() && limiter.max == ContactMax
    }

    ghost function Snapshot(): State
      reads this, limiter, store
    {
      State(limiter.store, store.file)
    }

    constructor (messages: FileState<Message>)
      ensures Valid() && fresh(limiter) && fresh(store)
      ensures Snapshot() == State(map[], messages)
    {
      limiter := new RateLimiter(ContactMax);
      store := new MessageStore(messages);
    }

    /** `handler(req, res)`: answers the request and leaves the state `Respond` describes. */
    method Handle(req: Request, env: Env) returns (response: Response)
      requires Valid()
      modifies limiter, store
      ensures Valid()
      ensures Outcome(response, Snapshot()) == Respond(old(Snapshot()), req, env)
    {
      if req.httpMethod != "POST" {
        return MethodNotAllowed;
      }
      var allowed := limiter.Allow(req.clientKey, env.now);
      if !allowed {
        return TooManyRequests;
      }
      match req.body {
        case NullBody =>
          return InternalError;
        case Parsed(f) =>
          var isValid, errors := ValidateFormData(f);
          if !isValid {
            return Response(400, Invalid(ValidationFailed, errors));
          }
          var formData := FormData(Trim(f.name.s), Trim(f.email.s), Trim(f.subject.s), Trim(f.message.s));
          var emailSent := SendEmail(env.config, env.providers);
          if emailSent {
            return SentByEmail;
          }
          var fileSaved := store.SaveToFile(formData, env.id, env.timestamp, env.io);
          if fileSaved {
            return SavedToFile;
          }
          return Response(500, Failure(FailedMessage));
      }
    }
  }
}
