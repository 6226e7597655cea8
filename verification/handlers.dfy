/** The Express server's request handling outside the statistics route:
    which store serves requests, the contact and blog-subscription handlers
    of the three servers, the global error handler and the request log
    line. */
module Handlers {
  import opened Wrappers
  import opened Storage
  import Text

  // ---------------------------------------------------------------------
  // Storage selection (server/index.ts)

  datatype Backend = Memory | Document

  /** The state of the asynchronous database connection: not settled yet,
      settled with the flag `connectDB` resolved to, or thrown. */
  datatype ConnectOutcome = Pending | Resolved(connected: bool) | Threw

  /** The store that serves a request: the in-memory one until the
      connection settles, the document store only once it resolved to
      true. */
  function StorageFor(outcome: ConnectOutcome): (b: Backend)
    ensures b == Document <==> outcome == Resolved(true)
    ensures outcome == Pending ==> b == Memory
  {
    match outcome
    case Resolved(true) => Document
    case _ => Memory
  }

  /** The startup of server/index.ts: the memory store serves from the
      start, and the connection attempt may replace it once. */
  class StorageSelection {
    var storage: Backend
    var isMongoConnected: bool

    constructor()
      ensures storage == Memory && !isMongoConnected
    {
      storage, isMongoConnected := Memory, false;
    }

    /** The connection attempt settling: a resolved flag is recorded, and
        only a true one switches to the document store; a throw changes
        nothing. Settling the initial state yields `StorageFor(outcome)`. */
    method Settle(outcome: ConnectOutcome)
      requires outcome != Pending
      modifies this
      ensures isMongoConnected == if outcome.Resolved? then outcome.connected else old(isMongoConnected)
      ensures storage == if outcome == Resolved(true) then Document else old(storage)
      ensures old(storage) == Memory ==> storage == StorageFor(outcome)
    {
      if outcome.Resolved? {
        isMongoConnected := outcome.connected;
        if isMongoConnected {
          storage := Document;
        }
      }
    }
  }

  /** server/mernServer.js ignores the result of the connection attempt and
      always serves from the document store. */
  function MernStorageFor(outcome: ConnectOutcome): (b: Backend)
    ensures b == Document
    ensures b != StorageFor(outcome) <==> outcome != Resolved(true)
  {
    Document
  }

  // ---------------------------------------------------------------------
  // Requests and responses

  /** A JSON request body: a field is absent, or holds a string. */
  datatype ContactBody = ContactBody(name: Option<string>, email: Option<string>,
                                     subject: Option<string>, message: Option<string>)
  datatype SubscribeBody = SubscribeBody(email: Option<string>)

  /** What the contact handlers of server/index.ts and server/mernServer.js
      echo back: the record without its message and update time. */
  datatype ContactEcho = ContactEcho(id: nat, name: string, email: string, subject: string, createdAt: nat)
  datatype SubscriberEcho = SubscriberEcho(id: nat, email: string, createdAt: nat)

  datatype Body =
    | Failure(error: string)
    | ContactSent(message: string, contact: ContactEcho)
    | ContactStored(message: string, stored: Contact)
    | Subscribed(message: string, subscriber: SubscriberEcho)
    | SubscriberStored(message: string, storedSubscriber: Subscriber)
    | ErrorMessage(message: string)

  datatype Response = Response(status: int, body: Body)

  const ContactOk := "Message sent successfully!"
  const SubscribeOk := "Successfully subscribed to blog updates!"
  const ContactFailed := "Failed to save contact message"
  const SubscribeFailed := "Failed to subscribe to blog updates"
  const AlreadySubscribed := "Email already subscribed"

  /** `!value`: absent or the empty string. */
  predicate Falsy(v: Option<string>) {
    v.None? || v.value == ""
  }

  // ---------------------------------------------------------------------
  // Contact and subscription in server/index.ts and server/mernServer.js

  /** The presence check: every field must be truthy. */
  function ValidateContact(body: ContactBody): (r: Option<ContactInput>)
    ensures r.Some? <==> !Falsy(body.name) && !Falsy(body.email) && !Falsy(body.subject) && !Falsy(body.message)
    ensures r.Some? ==> && Some(r.value.name) == body.name && Some(r.value.email) == body.email
                        && Some(r.value.subject) == body.subject && Some(r.value.message) == body.message
    ensures r.Some? ==> r.value.name != "" && r.value.email != "" && r.value.subject != "" && r.value.message != ""
  {
    if Falsy(body.name) || Falsy(body.email) || Falsy(body.subject) || Falsy(body.message) then None
    else Some(ContactInput(body.name.value, body.email.value, body.subject.value, body.message.value))
  }

  /** `POST /api/contact`: 400 without touching the store when a field is
      missing or empty; otherwise the contact is appended and echoed. */
  method HandleContact(store: MemoryStorage, body: ContactBody, now: nat) returns (resp: Response)
    requires store.Valid() && now >= store.lastStamp
    modifies store
    ensures store.Valid() && old(store.lastStamp) <= store.lastStamp <= now
    ensures resp.status == 400 <==> ValidateContact(body).None?
    ensures resp.status == 400 ==> resp.body == Failure("All fields are required")
    ensures resp.status == 400 ==> store.contacts == old(store.contacts) && store.nextId == old(store.nextId)
    ensures resp.status != 400 ==>
              && resp.status == 200 && |store.contacts| == |old(store.contacts)| + 1
              && store.contacts[..|old(store.contacts)|] == old(store.contacts)
              && var c := store.contacts[|old(store.contacts)|];
                 && c.id == old(store.nextId) && c.createdAt == now
                 && Some(c.name) == body.name && Some(c.email) == body.email
                 && Some(c.subject) == body.subject && Some(c.message) == body.message
                 && resp.body == ContactSent(ContactOk, ContactEcho(c.id, c.name, c.email, c.subject, c.createdAt))
    ensures store.users == old(store.users) && store.blogSubscribers == old(store.blogSubscribers)
    ensures store.projectStats == old(store.projectStats)
    ensures store.statsOrder == old(store.statsOrder)
    ensures store.nextId == old(store.nextId) + (if resp.status == 200 then 1 else 0)
  {
    var data := ValidateContact(body);
    if data.None? {
      return Response(400, Failure("All fields are required"));
    }
    var contact := store.CreateContact(data.value, now);
    resp := Response(200, ContactSent(ContactOk, ContactEcho(contact.id, contact.name, contact.email,
                                                             contact.subject, contact.createdAt)));
  }

  /** The catch block of the subscription handlers: a duplicate key becomes
      400, every other failure 500. */
  function SubscribeFailure(e: StorageError): (r: Response)
    ensures r.status == 400 <==> e.code == DuplicateKeyCode
    ensures r.status == 400 ==> r.body == Failure(AlreadySubscribed)
    ensures r.status != 400 ==> r == Response(500, Failure(SubscribeFailed))
  {
    if e.code == DuplicateKeyCode then Response(400, Failure(AlreadySubscribed))
    else Response(500, Failure(SubscribeFailed))
  }

  /** `POST /api/blog-subscribe`: 400 for a missing or empty address and
      for one already subscribed (the store is then unchanged); otherwise
      the subscriber is appended and echoed. */
  method HandleSubscribe(store: MemoryStorage, body: SubscribeBody, now: nat) returns (resp: Response)
    requires store.Valid() && now >= store.lastStamp
    modifies store
    ensures store.Valid() && old(store.lastStamp) <= store.lastStamp <= now
    ensures Falsy(body.email) ==> resp == Response(400, Failure("Email is required"))
    ensures !Falsy(body.email) && HasEmail(old(store.blogSubscribers), body.email.value) ==>
              resp == Response(400, Failure(AlreadySubscribed))
    ensures resp.status == 400 ==> store.blogSubscribers == old(store.blogSubscribers)
    ensures resp.status != 400 <==> !Falsy(body.email) && !HasEmail(old(store.blogSubscribers), body.email.value)
    ensures resp.status != 400 ==>
              && resp.status == 200 && |store.blogSubscribers| == |old(store.blogSubscribers)| + 1
              && store.blogSubscribers[..|old(store.blogSubscribers)|] == old(store.blogSubscribers)
              && var s := store.blogSubscribers[|old(store.blogSubscribers)|];
                 && Some(s.email) == body.email && s.id == old(store.nextId) && s.createdAt == now
                 && resp.body == Subscribed(SubscribeOk, SubscriberEcho(s.id, s.email, s.createdAt))
    ensures store.users == old(store.users) && store.contacts == old(store.contacts)
    ensures store.projectStats == old(store.projectStats)
    ensures store.statsOrder == old(store.statsOrder)
    ensures store.nextId == old(store.nextId) + (if resp.status == 200 then 1 else 0)
  {
    if Falsy(body.email) {
      return Response(400, Failure("Email is required"));
    }
    var created := store.CreateBlogSubscriber(SubscriberInput(body.email.value), now);
    match created
    case Err(e) =>
      resp := SubscribeFailure(e);
    case Ok(s) =>
      resp := Response(200, Subscribed(SubscribeOk, SubscriberEcho(s.id, s.email, s.createdAt)));
  }

  /** Subscribing the same address twice through `POST /api/blog-subscribe`:
      the first request succeeds and the second is answered with 400
      "Email already subscribed", leaving a single subscriber for it. */
  method SubscribeTwice(store: MemoryStorage, email: string, now1: nat, now2: nat)
    returns (first: Response, second: Response)
    requires store.Valid() && store.lastStamp <= now1 <= now2 && email != ""
    requires !HasEmail(store.blogSubscribers, email)
    modifies store
    ensures first.status == 200
    ensures second == Response(400, Failure(AlreadySubscribed))
    ensures |store.blogSubscribers| == |old(store.blogSubscribers)| + 1
  {
    first := HandleSubscribe(store, SubscribeBody(Some(email)), now1);
    assert HasEmail(store.blogSubscribers, email) by {
      assert store.blogSubscribers[|old(store.blogSubscribers)|].email == email;
    }
    second := HandleSubscribe(store, SubscribeBody(Some(email)), now2);
  }

  // ---------------------------------------------------------------------
  // Contact and subscription in server/routes.ts

  /** The schema parse: every field must be a string; the empty string
      passes. */
  function ParseContact(body: ContactBody): (r: Option<ContactInput>)
    ensures r.Some? <==> body.name.Some? && body.email.Some? && body.subject.Some? && body.message.Some?
    ensures r.Some? ==> && Some(r.value.name) == body.name && Some(r.value.email) == body.email
                        && Some(r.value.subject) == body.subject && Some(r.value.message) == body.message
  {
    if body.name.None? || body.email.None? || body.subject.None? || body.message.None? then None
    else Some(ContactInput(body.name.value, body.email.value, body.subject.value, body.message.value))
  }

  /** The schema parse accepts every body the presence check accepts, with
      the same record, and also bodies with empty fields. */
  lemma ParseAcceptsMore(body: ContactBody)
    ensures ValidateContact(body).Some? ==> ParseContact(body) == ValidateContact(body)
    ensures var empty := ContactBody(Some(""), Some(""), Some(""), Some(""));
            ParseContact(empty).Some? && ValidateContact(empty).None?
  {
  }

  /** `POST /api/contact` of server/routes.ts: any failure is answered with
      500; success returns the stored record. */
  method RoutesContact(store: MemoryStorage, body: ContactBody, now: nat) returns (resp: Response)
    requires store.Valid() && now >= store.lastStamp
    modifies store
    ensures store.Valid() && old(store.lastStamp) <= store.lastStamp <= now
    ensures resp.status == 200 || resp == Response(500, Failure(ContactFailed))
    ensures resp.status == 200 <==> ParseContact(body).Some?
    ensures resp.status != 200 ==> store.contacts == old(store.contacts) && store.nextId == old(store.nextId)
    ensures resp.status == 200 ==>
              && resp.body.ContactStored? && resp.body.message == ContactOk
              && store.contacts == old(store.contacts) + [resp.body.stored]
              && resp.body.stored.id == old(store.nextId) && resp.body.stored.createdAt == now
              && Some(resp.body.stored.name) == body.name && Some(resp.body.stored.email) == body.email
              && Some(resp.body.stored.subject) == body.subject && Some(resp.body.stored.message) == body.message
    ensures store.users == old(store.users) && store.blogSubscribers == old(store.blogSubscribers)
    ensures store.projectStats == old(store.projectStats)
    ensures store.statsOrder == old(store.statsOrder)
    ensures store.nextId == old(store.nextId) + (if resp.status == 200 then 1 else 0)
  {
    var data := ParseContact(body);
    if data.None? {
      return Response(500, Failure(ContactFailed));
    }
    var contact := store.CreateContact(data.value, now);
    resp := Response(200, ContactStored(ContactOk, contact));
  }

  /** `POST /api/blog-subscribe` of server/routes.ts: a missing address and
      a duplicate one are both answered with 500. */
  method RoutesSubscribe(store: MemoryStorage, body: SubscribeBody, now: nat) returns (resp: Response)
    requires store.Valid() && now >= store.lastStamp
    modifies store
    ensures store.Valid() && old(store.lastStamp) <= store.lastStamp <= now
    ensures resp.status == 200 || resp == Response(500, Failure(SubscribeFailed))
    ensures resp.status == 200 <==> body.email.Some? && !HasEmail(old(store.blogSubscribers), body.email.value)
    ensures resp.status != 200 ==> store.blogSubscribers == old(store.blogSubscribers)
    ensures resp.status == 200 ==>
              && resp.body.SubscriberStored? && resp.body.message == SubscribeOk
              && store.blogSubscribers == old(store.blogSubscribers) + [resp.body.storedSubscriber]
              && Some(resp.body.storedSubscriber.email) == body.email
              && resp.body.storedSubscriber.id == old(store.nextId) && resp.body.storedSubscriber.createdAt == now
    ensures store.users == old(store.users) && store.contacts == old(store.contacts)
    ensures store.projectStats == old(store.projectStats)
    ensures store.statsOrder == old(store.statsOrder)
    ensures store.nextId == old(store.nextId) + (if resp.status == 200 then 1 else 0)
  {
    if body.email.None? {
      return Response(500, Failure(SubscribeFailed));
    }
    var created := store.CreateBlogSubscriber(SubscriberInput(body.email.value), now);
    match created
    case Err(_) =>
      resp := Response(500, Failure(SubscribeFailed));
    case Ok(s) =>
      resp := Response(200, SubscriberStored(SubscribeOk, s));
  }

  // ---------------------------------------------------------------------
  // Global error handler (server/mernServer.js)

  /** The properties the handler reads off an error; a number is falsy
      when absent or zero. */
  datatype ErrorInfo = ErrorInfo(status: Option<int>, statusCode: Option<int>, message: Option<string>)

  predicate TruthyNumber(v: Option<int>) {
    v.Some? && v.value != 0
  }

  /** `err.status || err.statusCode || 500` and `err.message || "Internal
      Server Error"`. */
  function GlobalErrorResponse(err: ErrorInfo): (r: Response)
    ensures r.status != 0 && r.body.ErrorMessage? && r.body.message != ""
    ensures TruthyNumber(err.status) ==> r.status == err.status.value
    ensures !TruthyNumber(err.status) && TruthyNumber(err.statusCode) ==> r.status == err.statusCode.value
    ensures !TruthyNumber(err.status) && !TruthyNumber(err.statusCode) ==> r.status == 500
    ensures !Falsy(err.message) ==> r.body.message == err.message.value
    ensures Falsy(err.message) ==> r.body.message == "Internal Server Error"
  {
    var status := if TruthyNumber(err.status) then err.status.value
                  else if TruthyNumber(err.statusCode) then err.statusCode.value
                  else 500;
    var message := if !Falsy(err.message) then err.message.value else "Internal Server Error";
    Response(status, ErrorMessage(message))
  }

  // ---------------------------------------------------------------------
  // Request log lines

  const MaxLogLength := 80

  /** The suffix server/index.ts appends: the UTF-8 bytes of "…" read as
      Windows-1252, three characters. */
  const MojibakeEllipsis := "\U{E2}\U{20AC}\U{A6}"

  /** The single ellipsis character the truncation means to append. */
  const Ellipsis := "\U{2026}"

  function Digit(d: nat): (c: char)
    requires d < 10
    ensures '0' <= c <= '9'
  {
    "0123456789"[d]
  }

  /** The decimal text of a number. */
  function NatToString(n: nat): (s: string)
    ensures |s| >= 1 && forall i :: 0 <= i < |s| ==> '0' <= s[i] <= '9'
  {
    if n < 10 then [Digit(n)] else NatToString(n / 10) + [Digit(n % 10)]
  }

  predicate StartsWith(s: string, prefix: string) {
    |prefix| <= |s| && s[..|prefix|] == prefix
  }

  /** `${method} ${path} ${status} in ${duration}ms`, followed by
      ` :: ` and the JSON text of the response body when one was sent. */
  function FullLogLine(verb: string, path: string, status: nat, duration: nat, json: Option<string>): (r: string)
    ensures StartsWith(r, verb + " " + path + " ")
    ensures json.Some? ==> |json.value| < |r| && r[|r| - |json.value|..] == json.value
  {
    var head := verb + " " + path + " " + NatToString(status) + " in " + NatToString(duration) + "ms";
    if json.Some? then head + " :: " + json.value else head
  }

  /** A line longer than the limit cut to 79 characters plus a suffix. */
  function Truncate(line: string, suffix: string): (r: string)
    ensures |line| <= MaxLogLength ==> r == line
    ensures |line| > MaxLogLength ==> |r| == MaxLogLength - 1 + |suffix| && r[..MaxLogLength - 1] == line[..MaxLogLength - 1]
  {
    if |line| > MaxLogLength then line[..MaxLogLength - 1] + suffix else line
  }

  /** With the single-character ellipsis the truncated line fits the limit,
      keeps a short line as it is and keeps the first 79 characters of a
      long one. */
  lemma TruncateFits(line: string)
    ensures |Truncate(line, Ellipsis)| <= MaxLogLength
    ensures |line| <= MaxLogLength ==> Truncate(line, Ellipsis) == line
    ensures |line| > MaxLogLength ==>
              Truncate(line, Ellipsis) == line[..79] + Ellipsis && |Truncate(line, Ellipsis)| == MaxLogLength
  {
  }

  /** With the suffix as written, every truncated line is 82 characters
      long; a stats response with an 80-character body already triggers
      it. */
  lemma MojibakeOverflows(line: string)
    ensures |line| > MaxLogLength ==> |Truncate(line, MojibakeEllipsis)| == MaxLogLength + 2
    ensures var long := FullLogLine("GET", "/api/github-stats", 200, 12, Some(seq(80, i => 'x')));
            |long| > MaxLogLength && |Truncate(long, MojibakeEllipsis)| == 82
  {
    var long := FullLogLine("GET", "/api/github-stats", 200, 12, Some(seq(80, i => 'x')));
    assert |long| >= 80 + 4;
  }

  /** The logging middleware of server/index.ts as written: only `/api`
      paths are logged, and an over-long line is cut to 79 characters
      followed by the three-character suffix. */
  method ApiLogLineAsWritten(verb: string, path: string, status: nat, duration: nat, json: Option<string>)
    returns (line: Option<string>)
    ensures line.Some? <==> StartsWith(path, "/api")
    ensures line.Some? ==> line.value == Truncate(FullLogLine(verb, path, status, duration, json), MojibakeEllipsis)
  {
    if !StartsWith(path, "/api") {
      return None;
    }
    var logLine := verb + " " + path + " " + NatToString(status) + " in " + NatToString(duration) + "ms";
    if json.Some? {
      logLine := logLine + " :: " + json.value;
    }
    if |logLine| > 80 {
      logLine := logLine[..79] + MojibakeEllipsis;
    }
    line := Some(logLine);
  }

  /** The same middleware with the single ellipsis character: every logged
      line fits in 80 characters. */
  method ApiLogLine(verb: string, path: string, status: nat, duration: nat, json: Option<string>)
    returns (line: Option<string>)
    ensures line.Some? <==> StartsWith(path, "/api")
    ensures line.Some? ==> line.value == Truncate(FullLogLine(verb, path, status, duration, json), Ellipsis)
    ensures line.Some? ==> |line.value| <= MaxLogLength
  {
    if !StartsWith(path, "/api") {
      return None;
    }
    var logLine := verb + " " + path + " " + NatToString(status) + " in " + NatToString(duration) + "ms";
    if json.Some? {
      logLine := logLine + " :: " + json.value;
    }
    TruncateFits(logLine);
    if |logLine| > 80 {
      logLine := logLine[..79] + Ellipsis;
    }
    line := Some(logLine);
  }

  /** The logging middleware of server/mernServer.js: the JSON text is cut
      to its first 80 characters and the line itself is not truncated. */
  method MernLogLine(verb: string, path: string, status: nat, duration: nat, json: Option<string>)
    returns (line: Option<string>)
    ensures line.Some? <==> StartsWith(path, "/api")
    ensures line.Some? ==>
              var cut := if json.Some? then Some(Text.Substring(json.value, 0, 80)) else None;
              line.value == FullLogLine(verb, path, status, duration, cut)
    ensures line.Some? && json.Some? ==>
              |line.value| <= |FullLogLine(verb, path, status, duration, None)| + 4 + 80
  {
    if !StartsWith(path, "/api") {
      return None;
    }
    var logLine := verb + " " + path + " " + NatToString(status) + " in " + NatToString(duration) + "ms";
    if json.Some? {
      logLine := logLine + " :: " + Text.Substring(json.value, 0, 80);
    }
    line := Some(logLine);
  }
}
