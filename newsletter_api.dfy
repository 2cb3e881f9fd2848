/**
  The POST /api/newsletter handler (pages/api/newsletter.ts): method check, rate limit
  (3 per window), address check, trim, `saveSubscription`, in that order. `Respond` is
  the handler as a function of the module-level state; `NewsletterEndpoint.Handle` runs
  the same steps on that state in place.
 */
module NewsletterApi {
  import opened Wrappers
  import opened Text
  import opened Email
  import opened JsonFile
  import opened Http
  import opened RateLimit
  import opened NewsletterStore

  const NewsletterMax: nat := 3

  /** The parsed body: one whose destructuring throws (`null`), or its `email` property. */
  datatype Body = NullBody | Parsed(email: Value)

  datatype Request = Request(httpMethod: string, clientKey: string, body: Body)

  /** The clock readings and I/O answers of one request. */
  datatype Env = Env(now: int, id: string, subscribedAt: string, io: StoreIo)

  /** The rate-limit table and data/newsletter.json. */
  datatype State = State(rates: map<string, Entry>, subscriptions: FileState<Subscription>)

  datatype Outcome = Outcome(response: Response, state: State)

  const AddressRequired := "Valid email address is required"

  const InvalidAddress := Response(400, Failure(AddressRequired))
  const Subscribed := Response(200, Success("Successfully subscribed to newsletter", None, None))
  const NotSubscribed := Response(500, Failure("Failed to subscribe. Please try again later."))

  /**
    The handler. 405 exactly for a method other than POST (and then nothing changes),
    429 exactly when the limiter refuses, 400 exactly when the address is missing, not
    a string or not of the accepted shape, 500 "Internal server error" for a body that
    cannot be destructured; otherwise 200 exactly when `saveSubscription` succeeds, with
    the file it leaves. Every POST is counted by the limiter.
   */
  function Respond(st: State, req: Request, env: Env): (r: Outcome)
    ensures r.response.status in {200, 400, 405, 429, 500}
    ensures r.response.status == 405 <==> req.httpMethod != "POST"
    ensures req.httpMethod != "POST" ==> r.state == st
    ensures req.httpMethod == "POST" ==> r.state.rates == Admit(st.rates, req.clientKey, env.now, NewsletterMax).store
    ensures r.response.status == 429 <==>
      req.httpMethod == "POST" && !Admit(st.rates, req.clientKey, env.now, NewsletterMax).allowed
    ensures r.response.status == 400 <==>
      && req.httpMethod == "POST" && Admit(st.rates, req.clientKey, env.now, NewsletterMax).allowed
      && req.body.Parsed? && !EmailOk(req.body.email)
    ensures r.response.status == 200 <==>
      && req.httpMethod == "POST" && Admit(st.rates, req.clientKey, env.now, NewsletterMax).allowed
      && req.body.Parsed? && EmailOk(req.body.email)
      && Subscribe(st.subscriptions, req.body.email.s, env.id, env.subscribedAt, env.io).ok
    ensures r.response.status == 200 ==>
      r.state.subscriptions == Subscribe(st.subscriptions, req.body.email.s, env.id, env.subscribedAt, env.io).file
    ensures r.response.status != 200 ==> r.state.subscriptions == st.subscriptions
    ensures (req.httpMethod == "POST" && Admit(st.rates, req.clientKey, env.now, NewsletterMax).allowed
      && req.body.NullBody?) ==> r.response == InternalError
  {
    if req.httpMethod != "POST" then
      Outcome(MethodNotAllowed, st)
    else
      var decision := Admit(st.rates, req.clientKey, env.now, NewsletterMax);
      var counted := st.(rates := decision.store);
      if !decision.allowed then
        Outcome(TooManyRequests, counted)
      else match req.body
        case NullBody => Outcome(InternalError, counted)
        case Parsed(email) =>
          if !EmailOk(email) then
            Outcome(InvalidAddress, counted)
          else
            TrimKeepsEmail(email.s);
            var saved := Subscribe(st.subscriptions, Trim(email.s), env.id, env.subscribedAt, env.io);
            if saved.ok then
              Outcome(Subscribed, counted.(subscriptions := saved.file))
            else
              Outcome(NotSubscribed, counted)
  }

  /**
    Two accepted requests for the same address, the second in any casing: when the first
    adds the address, both answer 200 and the file then holds exactly one record for it.
   */
  lemma SubscribeTwiceThroughHandler(st: State, req: Request, req2: Request, env: Env, env2: Env)
    requires req.httpMethod == "POST" && req.body.Parsed? && EmailOk(req.body.email)
    requires Admit(st.rates, req.clientKey, env.now, NewsletterMax).allowed
    requires env.io.dirReady && env.io.writeOk && !st.subscriptions.Corrupt?
    requires Find(Load(st.subscriptions).value, ToLower(req.body.email.s)) == NotFound
    requires req2.httpMethod == "POST" && req2.body.Parsed? && EmailOk(req2.body.email)
    requires ToLower(req2.body.email.s) == ToLower(req.body.email.s)
    requires Admit(Respond(st, req, env).state.rates, req2.clientKey, env2.now, NewsletterMax).allowed
    requires env2.io.dirReady
    ensures var first := Respond(st, req, env);
      var second := Respond(first.state, req2, env2);
      && first.response == Subscribed && second.response == Subscribed
      && second.state.subscriptions == first.state.subscriptions
      && second.state.subscriptions.Stored?
      && Matches(second.state.subscriptions.records, ToLower(req.body.email.s)) == 1
  {
    SubscribeTwice(st.subscriptions, req.body.email.s, req2.body.email.s,
                   env.id, env.subscribedAt, env.io, env2.id, env2.subscribedAt, env2.io);
  }

  /**
    The endpoint: the module-level rate-limit table (limit 3) and the subscriptions
    file, both updated in place by each request.
   */
  class NewsletterEndpoint {
    const limiter: RateLimiter
    const store: SubscriptionStore

    ghost predicate Valid()
      reads this, limiter
    {
      limiter.Valid() && limiter.max == NewsletterMax
    }

    ghost function Snapshot(): State
      reads this, limiter, store
    {
      State(limiter.store, store.file)
    }

    constructor (subscriptions: FileState<Subscription>)
      ensures Valid() && fresh(limiter) && fresh(store)
      ensures Snapshot() == State(map[], subscriptions)
    {
      limiter := new RateLimiter(NewsletterMax);
      store := new SubscriptionStore(subscriptions);
    }

    /** `handler(req, res)`: answers the request and leaves the state `Respond` describes. */
    method Handle(req: Request, env: Env) returns (response: Response)
      requires Valid()
      modifies limiter, store
      ensures Valid()
      ensures Outcome(response, Snapshot()) == Respond(old(Snapshot()), req, env)
    {
      if req.httpMethod != "POST" {
        return MethodNotAllowed;
      }
      var allowed := limiter.Allow(req.clientKey, env.now);
      if !allowed {
        return TooManyRequests;
      }
      match req.body {
        case NullBody =>
          return InternalError;
        case Parsed(email) =>
          if !EmailOk(email) {
            return InvalidAddress;
          }
          var saved := store.SaveSubscription(Trim(email.s), env.id, env.subscribedAt, env.io);
          if saved {
            return Subscribed;
          }
          return NotSubscribed;
      }
    }
  }
}
