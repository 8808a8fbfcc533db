/** Retaining conversations over a lossy network: operation ids, uncertain outcomes and retries. */
module Retain {
  import opened Wrappers

  // ---------------------------------------------------------------------------------------------
  // The network and the engine behind it
  // ---------------------------------------------------------------------------------------------

  /** The list of ids an engine may answer with: none or null, ids, or something else. */
  datatype Ids = NoIds | Ids(ids: seq<nat>) | OtherIds

  /** An engine's answer, so far as it is read: what is missing or of another type is None or false. */
  datatype Body = Body(
    success: bool,
    isAsync: bool,
    operationId: Option<nat>,
    operationIds: Ids,
    status: Option<string>)

  /** What becomes of one request. `reached` says whether the engine received it. */
  datatype Fate =
    | Late
    | Lost(reached: bool, transient: bool)
    | Interrupted(reached: bool)
    | Status(code: nat, reached: bool, body: Option<Body>)

  /** The fates to come, and what the engine holds: the item each operation id was accepted with. */
  datatype Net = Net(fates: seq<Fate>, accepted: map<nat, string>, completed: set<nat>)

  /** What a request comes back with; a refusal is certain when nothing sent before it can have been
      accepted. */
  datatype Reply = Answered(body: Body) | Transient | Refused(certain: bool) | Garbled | Unavailable | Stopped

  datatype Exchange = Exchange(net: Net, reply: Reply)

  predicate IsTransient(code: nat) {
    code == 429 || code == 502 || code == 503 || code == 504
  }

  predicate IsSuccess(code: nat) {
    200 <= code < 300
  }

  /** The engine takes an operation id once. */
  function Accept(net: Net, operation: nat, item: string): Net {
    if operation in net.accepted then net else net.(accepted := net.accepted[operation := item])
  }

  function Read(code: nat, body: Option<Body>): Reply {
    if IsTransient(code) then Transient
    else if !IsSuccess(code) then Refused(true)
    else if body.None? then Garbled
    else Answered(body.value)
  }

  /** At most `most` requests were sent, each of which met one of the fates. */
  predicate Sends(before: Net, after: Net, most: nat) {
    |after.fates| <= |before.fates| <= |after.fates| + most
  }

  /** One POST of an operation: a refusal means the engine did not take it, a success that it did. */
  function PostOnce(net: Net, operation: nat, item: string): (r: Exchange)
    ensures r.net.completed == net.completed
    ensures r.net.accepted == net.accepted || r.net == Accept(r.net.(accepted := net.accepted), operation, item)
    ensures r.reply.Refused? ==> r.net.accepted == net.accepted
    ensures r.reply.Answered? ==> operation in r.net.accepted
    ensures Sends(net, r.net, 1)
  {
    if net.fates == [] then Exchange(net, Unavailable)
    else
      var rest := net.(fates := net.fates[1..]);
      match net.fates[0]
      case Late => Exchange(rest, Unavailable)
      case Lost(reached, transient) =>
        Exchange(if reached then Accept(rest, operation, item) else rest, if transient then Transient else Unavailable)
      case Interrupted(reached) => Exchange(if reached then Accept(rest, operation, item) else rest, Stopped)
      case Status(code, reached, body) =>
        var taken := IsSuccess(code) || (IsTransient(code) && reached);
        Exchange(if taken then Accept(rest, operation, item) else rest, Read(code, body))
  }

  /** What the engine says of an operation: never that one completed which it does not have. */
  function Reported(net: Net, operation: nat, status: Option<string>): Option<string> {
    if status == Some("completed") && operation !in net.accepted then Some("not_found") else status
  }

  function GetOnce(net: Net, operation: nat): (r: Exchange)
    ensures r.net.accepted == net.accepted
    ensures net.completed <= r.net.completed <= net.completed + (if operation in net.accepted then {operation} else {})
    ensures r.reply.Answered? && r.reply.body.status == Some("completed") ==> operation in r.net.completed
    ensures Sends(net, r.net, 1)
  {
    if net.fates == [] then Exchange(net, Unavailable)
    else
      var rest := net.(fates := net.fates[1..]);
      match net.fates[0]
      case Late => Exchange(rest, Unavailable)
      case Lost(reached, transient) => Exchange(rest, if transient then Transient else Unavailable)
      case Interrupted(reached) => Exchange(rest, Stopped)
      case Status(code, reached, body) =>
        match Read(code, body)
        case Answered(b) =>
          var status := Reported(rest, operation, b.status);
          var done := if status == Some("completed") then rest.completed + {operation} else rest.completed;
          Exchange(rest.(completed := done), Answered(b.(status := status)))
        case other => Exchange(rest, other)
  }

  // ---------------------------------------------------------------------------------------------
  // The client
  // ---------------------------------------------------------------------------------------------

  datatype Settings = Settings(
    fingerprint: string -> string,
    bodySize: (string, nat) -> nat,
    maxBytes: nat,
    maxAttempts: nat)

  const MAX_UNCERTAIN := 128

  datatype Uncertain = Uncertain(fingerprint: string, operation: nat)

  /** What is known of an operation: uncertain still; refused before it was taken; ended by the
      engine's verdict; or given up because its document came with other content, as operation `next`. */
  datatype Standing = Pending | Rejected | Settled(completed: bool) | Superseded(next: nat)

  /** An operation id ever minted, and what for. */
  datatype Operation = Operation(document: string, item: string, standing: Standing)

  datatype World = World(pending: map<string, Uncertain>, minted: seq<Operation>, net: Net)

  datatype Outcome = Retained | MemoryRejected | MemoryUnavailable | RunInterrupted

  datatype Step = Step(world: World, outcome: Outcome)

  /** The POST with its retries. Once an attempt's answer was lost, no refusal is certain. */
  function Post(net: Net, operation: nat, item: string, attempts: nat): (r: Exchange)
    requires attempts > 0
    ensures r.reply != Transient && r.net.completed == net.completed
    ensures r.net.accepted == net.accepted || r.net == Accept(r.net.(accepted := net.accepted), operation, item)
    ensures r.reply == Refused(true) ==> r.net.accepted == net.accepted
    ensures r.reply.Answered? ==> operation in r.net.accepted
    ensures Sends(net, r.net, attempts)
    decreases attempts
  {
    var once := PostOnce(net, operation, item);
    if once.reply != Transient then once
    else if attempts == 1 then Exchange(once.net, Unavailable)
    else
      var rest := Post(once.net, operation, item, attempts - 1);
      Exchange(rest.net, Doubt(rest.reply))
  }

  /** A refusal that comes after a lost answer decides nothing. */
  function Doubt(reply: Reply): Reply {
    if reply.Refused? then Refused(false) else reply
  }

  function Get(net: Net, operation: nat, attempts: nat): (r: Exchange)
    requires attempts > 0
    ensures r.reply != Transient && r.net.accepted == net.accepted
    ensures net.completed <= r.net.completed <= net.completed + (if operation in net.accepted then {operation} else {})
    ensures r.reply.Answered? && r.reply.body.status == Some("completed") ==> operation in r.net.completed
    ensures r.reply.Answered? ==> |r.net.fates| < |net.fates|
    ensures Sends(net, r.net, attempts)
    decreases attempts
  {
    var once := GetOnce(net, operation);
    if once.reply != Transient then once
    else if attempts == 1 then Exchange(once.net, Unavailable)
    else Get(once.net, operation, attempts - 1)
  }

  predicate Holds(w: World, document: string) {
    document in w.pending && w.pending[document].operation < |w.minted|
  }

  /** The document's operation is uncertain no more. */
  function Forget(w: World, document: string, standing: Standing): World
    requires Holds(w, document)
  {
    var operation := w.pending[document].operation;
    w.(pending := w.pending - {document}, minted := w.minted[operation := w.minted[operation].(standing := standing)])
  }

  predicate Replays(s: Settings, w: World, document: string, item: string) {
    document in w.pending && w.pending[document].fingerprint == s.fingerprint(item)
  }

  /** A new operation id for a document, in the place of any it had. */
  function Mint(s: Settings, w: World, document: string, item: string): World {
    var next := |w.minted|;
    var before := if Holds(w, document) then Forget(w, document, Superseded(next)) else w;
    before.(
      pending := before.pending[document := Uncertain(s.fingerprint(item), next)],
      minted := before.minted + [Operation(document, item, Pending)])
  }

  /** The table as it stands when the request goes out. */
  function Prepared(s: Settings, w: World, document: string, item: string): World {
    if Replays(s, w, document, item) then w else Mint(s, w, document, item)
  }

  /** An acknowledgement of this operation and no other. */
  predicate Acknowledges(body: Body, operation: nat) {
    && body.success && body.isAsync && body.operationId == Some(operation)
    && (body.operationIds == NoIds || body.operationIds == Ids([operation]))
  }

  function OutcomeOf(reply: Reply): Outcome {
    match reply
    case Unavailable => MemoryUnavailable
    case Stopped => RunInterrupted
    case _ => MemoryRejected
  }

  /** Asking after the operation until its verdict, or until asking fails. */
  function AwaitStep(s: Settings, w: World, document: string): Step
    requires s.maxAttempts > 0 && Holds(w, document)
    decreases |w.net.fates|
  {
    var got := Get(w.net, w.pending[document].operation, s.maxAttempts);
    var now := w.(net := got.net);
    if !got.reply.Answered? then Step(now, OutcomeOf(got.reply))
    else
      match got.reply.body.status
      case None => Step(now, MemoryRejected)
      case Some(status) =>
        if status == "completed" then Step(Forget(now, document, Settled(true)), Retained)
        else if status == "failed" || status == "cancelled" then Step(Forget(now, document, Settled(false)), MemoryRejected)
        else if status == "not_found" then Step(now, MemoryUnavailable)
        else if status != "pending" && status != "processing" then Step(now, MemoryRejected)
        else AwaitStep(s, now, document)
  }

  /** The document's operation is sent, and awaited when it was acknowledged. */
  function SubmitStep(s: Settings, w: World, document: string, item: string, replaying: bool): Step
    requires s.maxAttempts > 0 && Holds(w, document)
  {
    var operation := w.pending[document].operation;
    var posted := Post(w.net, operation, item, s.maxAttempts);
    var now := w.(net := posted.net);
    match posted.reply
    case Answered(body) => if Acknowledges(body, operation) then AwaitStep(s, now, document) else Step(now, MemoryRejected)
    case Refused(certain) =>
      Step(if certain && !replaying then Forget(now, document, Rejected) else now, MemoryRejected)
    case other => Step(now, OutcomeOf(other))
  }

  function RetainStep(s: Settings, w: World, document: string, item: string): Step
    requires s.maxAttempts > 0 && (document in w.pending ==> Holds(w, document))
  {
    var replaying := Replays(s, w, document, item);
    var operation := if replaying then w.pending[document].operation else |w.minted|;
    if s.bodySize(item, operation) > s.maxBytes then Step(w, MemoryRejected)
    else if document !in w.pending && |w.pending| >= MAX_UNCERTAIN then Step(w, MemoryUnavailable)
    else SubmitStep(s, Prepared(s, w, document, item), document, item, replaying)
  }

  // ---------------------------------------------------------------------------------------------
  // What every run keeps
  // ---------------------------------------------------------------------------------------------

  ghost predicate Injective(f: string -> string) {
    forall a, b {:trigger f(a), f(b)} :: f(a) == f(b) ==> a == b
  }

  /** An operation and its standing agree with the table, the engine and the operations after it. */
  ghost predicate Stands(s: Settings, w: World, operation: nat)
    requires operation < |w.minted|
  {
    var o := w.minted[operation];
    && (operation in w.net.accepted ==> w.net.accepted[operation] == o.item)
    && (operation in w.net.completed ==> operation in w.net.accepted)
    && match o.standing
       case Pending => o.document in w.pending && w.pending[o.document] == Uncertain(s.fingerprint(o.item), operation)
       case Rejected => operation !in w.net.accepted
       case Settled(completed) => completed ==> operation in w.net.completed
       case Superseded(next) => operation < next < |w.minted| && w.minted[next].document == o.document && w.minted[next].item != o.item
  }

  /** Every id is accounted for: at most one per document is uncertain, at most 128 in all, and the
      engine holds no operation but as it was minted. */
  ghost predicate Good(s: Settings, w: World) {
    && |w.pending| <= MAX_UNCERTAIN
    && (forall operation | operation in w.net.accepted :: operation < |w.minted|)
    && (forall operation | operation in w.net.completed :: operation < |w.minted|)
    && (forall operation | 0 <= operation < |w.minted| :: Stands(s, w, operation))
    && (forall document | document in w.pending ::
      && Holds(w, document)
      && var o := w.minted[w.pending[document].operation]; o.document == document && o.standing == Pending)
  }

  lemma {:induction false} SentKeepsGood(s: Settings, w: World, document: string, net: Net)
    requires Good(s, w) && document in w.pending && net.completed == w.net.completed
    requires var operation := w.pending[document].operation;
      || net.accepted == w.net.accepted
      || (operation !in w.net.accepted && net.accepted == w.net.accepted[operation := w.minted[operation].item])
    ensures Good(s, w.(net := net))
  {
    forall operation | 0 <= operation < |w.minted| ensures Stands(s, w.(net := net), operation) {
      assert Stands(s, w, operation);
    }
  }

  lemma {:induction false} AskedKeepsGood(s: Settings, w: World, document: string, net: Net)
    requires Good(s, w) && document in w.pending && net.accepted == w.net.accepted
    requires var operation := w.pending[document].operation;
      w.net.completed <= net.completed <= w.net.completed + (if operation in net.accepted then {operation} else {})
    ensures Good(s, w.(net := net))
  {
    forall operation | 0 <= operation < |w.minted| ensures Stands(s, w.(net := net), operation) {
      assert Stands(s, w, operation);
    }
  }

  lemma {:induction false} OneDocument(s: Settings, w: World, a: string, b: string)
    requires Good(s, w) && a in w.pending && b in w.pending && w.pending[a].operation == w.pending[b].operation
    ensures a == b
  {
  }

  /** A definite verdict leaves everything accounted for. */
  lemma {:induction false} ForgetKeepsGood(s: Settings, w: World, document: string, standing: Standing)
    requires Good(s, w) && document in w.pending
    requires var operation := w.pending[document].operation;
      match standing
      case Rejected => operation !in w.net.accepted
      case Settled(completed) => completed ==> operation in w.net.completed
      case _ => false
    ensures Good(s, Forget(w, document, standing))
  {
    var after := Forget(w, document, standing);
    assert after.pending.Keys == w.pending.Keys - {document};
    forall operation | 0 <= operation < |w.minted| ensures Stands(s, after, operation) {
      assert Stands(s, w, operation);
    }
    forall other | other in after.pending
      ensures Holds(after, other)
      ensures var o := after.minted[after.pending[other].operation]; o.document == other && o.standing == Pending
    {
      if after.pending[other].operation == w.pending[document].operation {
        OneDocument(s, w, other, document);
      }
    }
  }

  lemma {:induction false} MintStands(s: Settings, w: World, document: string, item: string, operation: nat)
    requires Good(s, w) && !Replays(s, w, document, item)
    requires operation < |Mint(s, w, document, item).minted|
    ensures Stands(s, Mint(s, w, document, item), operation)
  {
    if operation < |w.minted| {
      assert Stands(s, w, operation);
    }
  }

  /** Other content for a document whose operation is uncertain, or a document with none. */
  lemma {:induction false} MintKeepsGood(s: Settings, w: World, document: string, item: string)
    requires Good(s, w) && !Replays(s, w, document, item)
    requires document in w.pending || |w.pending| < MAX_UNCERTAIN
    ensures Good(s, Mint(s, w, document, item))
  {
    var after := Mint(s, w, document, item);
    assert after.pending.Keys == w.pending.Keys + {document};
    forall operation | 0 <= operation < |after.minted| ensures Stands(s, after, operation) {
      MintStands(s, w, document, item, operation);
    }
    forall other | other in after.pending
      ensures Holds(after, other)
      ensures var o := after.minted[after.pending[other].operation]; o.document == other && o.standing == Pending
    {
      if other != document && document in w.pending && after.pending[other].operation == w.pending[document].operation {
        OneDocument(s, w, other, document);
      }
    }
  }

  lemma {:induction false} AwaitKeepsGood(s: Settings, w: World, document: string)
    requires s.maxAttempts > 0 && Good(s, w) && document in w.pending
    ensures Good(s, AwaitStep(s, w, document).world)
    decreases |w.net.fates|
  {
    var got := Get(w.net, w.pending[document].operation, s.maxAttempts);
    var now := w.(net := got.net);
    AskedKeepsGood(s, w, document, got.net);
    if got.reply.Answered? && got.reply.body.status.Some? {
      var status := got.reply.body.status.value;
      if status == "completed" {
        ForgetKeepsGood(s, now, document, Settled(true));
      } else if status == "failed" || status == "cancelled" {
        ForgetKeepsGood(s, now, document, Settled(false));
      } else if status == "pending" || status == "processing" {
        AwaitKeepsGood(s, now, document);
      }
    }
  }

  lemma {:induction false} SubmitKeepsGood(s: Settings, w: World, document: string, item: string, replaying: bool)
    requires s.maxAttempts > 0 && Good(s, w) && document in w.pending
    requires w.minted[w.pending[document].operation].item == item
    requires !replaying ==> w.pending[document].operation !in w.net.accepted
    ensures Good(s, SubmitStep(s, w, document, item, replaying).world)
  {
    var operation := w.pending[document].operation;
    var posted := Post(w.net, operation, item, s.maxAttempts);
    var now := w.(net := posted.net);
    SentKeepsGood(s, w, document, posted.net);
    match posted.reply {
      case Answered(body) =>
        if Acknowledges(body, operation) {
          AwaitKeepsGood(s, now, document);
        }
      case Refused(certain) =>
        if certain && !replaying {
          ForgetKeepsGood(s, now, document, Rejected);
        }
      case _ =>
    }
  }

  /** The request goes out under an id that carries exactly this content; a new id the engine has not
      seen. */
  lemma {:induction false} PreparedIsGood(s: Settings, w: World, document: string, item: string)
    requires Good(s, w) && Injective(s.fingerprint) && (document in w.pending || |w.pending| < MAX_UNCERTAIN)
    ensures var ready := Prepared(s, w, document, item);
      && Good(s, ready) && document in ready.pending
      && ready.minted[ready.pending[document].operation].item == item
      && (!Replays(s, w, document, item) ==> ready.pending[document].operation !in ready.net.accepted)
  {
    if Replays(s, w, document, item) {
      assert Stands(s, w, w.pending[document].operation);
    } else {
      MintKeepsGood(s, w, document, item);
    }
  }

  lemma {:induction false} RetainKeepsGood(s: Settings, w: World, document: string, item: string)
    requires s.maxAttempts > 0 && Injective(s.fingerprint) && Good(s, w)
    ensures Good(s, RetainStep(s, w, document, item).world)
  {
    if document in w.pending || |w.pending| < MAX_UNCERTAIN {
      PreparedIsGood(s, w, document, item);
      SubmitKeepsGood(s, Prepared(s, w, document, item), document, item, Replays(s, w, document, item));
    }
  }

  // ---------------------------------------------------------------------------------------------
  // What one retain promises
  // ---------------------------------------------------------------------------------------------

  /** An operation for this document that the engine took with exactly this content, and completed. */
  ghost predicate CompletedWith(w: World, operation: nat, document: string, item: string) {
    && operation < |w.minted| && w.minted[operation] == Operation(document, item, Settled(true))
    && operation in w.net.completed && operation in w.net.accepted && w.net.accepted[operation] == item
  }

  /** Nothing changes but the standing of this document's operation; while the document stays in the
      table, not even that. */
  ghost predicate OnlyDecides(w: World, after: World, document: string)
    requires Holds(w, document)
  {
    var operation := w.pending[document].operation;
    && |after.minted| == |w.minted| && w.minted == after.minted[operation := w.minted[operation]]
    && after.minted[operation] == w.minted[operation].(standing := after.minted[operation].standing)
    && after.pending - {document} == w.pending - {document}
    && (document in after.pending ==> after.pending == w.pending && after.minted == w.minted)
  }

  lemma {:induction false} AwaitTells(s: Settings, w: World, document: string)
    requires s.maxAttempts > 0 && Good(s, w) && document in w.pending
    ensures var operation := w.pending[document].operation; var r := AwaitStep(s, w, document);
      && OnlyDecides(w, r.world, document)
      && (document !in r.world.pending ==> r.world.minted[operation].standing == Settled(r.outcome == Retained))
      && (r.outcome == Retained ==> document !in r.world.pending)
    decreases |w.net.fates|
  {
    var got := Get(w.net, w.pending[document].operation, s.maxAttempts);
    AskedKeepsGood(s, w, document, got.net);
    if got.reply.Answered? && got.reply.body.status.Some? {
      var status := got.reply.body.status.value;
      if status == "pending" || status == "processing" {
        AwaitTells(s, w.(net := got.net), document);
      }
    }
  }

  lemma {:induction false} SubmitTells(s: Settings, w: World, document: string, item: string, replaying: bool)
    requires s.maxAttempts > 0 && Good(s, w) && document in w.pending
    requires w.minted[w.pending[document].operation].item == item
    ensures var operation := w.pending[document].operation; var r := SubmitStep(s, w, document, item, replaying);
      && OnlyDecides(w, r.world, document)
      && (document !in r.world.pending ==>
        || r.world.minted[operation].standing == Settled(r.outcome == Retained)
        || (!replaying && r.world.minted[operation].standing == Rejected))
      && (r.outcome == Retained ==> document !in r.world.pending && r.world.minted[operation].standing == Settled(true))
  {
    var operation := w.pending[document].operation;
    var posted := Post(w.net, operation, item, s.maxAttempts);
    SentKeepsGood(s, w, document, posted.net);
    if posted.reply.Answered? && Acknowledges(posted.reply.body, operation) {
      AwaitTells(s, w.(net := posted.net), document);
    }
  }

  /** A retain returns only when an operation with exactly this content completed. */
  lemma {:induction false} RetainedMeansCompleted(s: Settings, w: World, document: string, item: string)
    requires s.maxAttempts > 0 && Injective(s.fingerprint) && Good(s, w)
    requires RetainStep(s, w, document, item).outcome == Retained
    ensures var after := RetainStep(s, w, document, item).world;
      document !in after.pending && exists operation :: CompletedWith(after, operation, document, item)
  {
    var ready, after := Prepared(s, w, document, item), RetainStep(s, w, document, item).world;
    PreparedIsGood(s, w, document, item);
    SubmitTells(s, ready, document, item, Replays(s, w, document, item));
    RetainKeepsGood(s, w, document, item);
    assert Stands(s, after, ready.pending[document].operation);
    assert CompletedWith(after, ready.pending[document].operation, document, item);
  }

  /** The same content handed in again is never given another id: the document keeps the one it has,
      or the engine has given its verdict on it. */
  lemma {:induction false} SameContentSameId(s: Settings, w: World, document: string, item: string)
    requires s.maxAttempts > 0 && Injective(s.fingerprint) && Good(s, w) && Replays(s, w, document, item)
    ensures var after := RetainStep(s, w, document, item).world; var operation := w.pending[document].operation;
      && |after.minted| == |w.minted|
      && if document in after.pending then after.pending == w.pending else after.minted[operation].standing.Settled?
  {
    PreparedIsGood(s, w, document, item);
    SubmitTells(s, w, document, item, true);
  }

  /** No retain touches another document's operations. */
  lemma {:induction false} OthersUntouched(s: Settings, w: World, document: string, item: string, other: string)
    requires s.maxAttempts > 0 && Injective(s.fingerprint) && Good(s, w) && other != document
    ensures var after := RetainStep(s, w, document, item).world;
      && (other in after.pending <==> other in w.pending)
      && (other in w.pending ==> after.pending[other] == w.pending[other])
  {
    if document in w.pending || |w.pending| < MAX_UNCERTAIN {
      var ready, replaying := Prepared(s, w, document, item), Replays(s, w, document, item);
      PreparedIsGood(s, w, document, item);
      SubmitTells(s, ready, document, item, replaying);
      Untouched(ready.pending, SubmitStep(s, ready, document, item, replaying).world.pending, document, other);
    }
  }

  lemma {:induction false} Untouched(a: map<string, Uncertain>, b: map<string, Uncertain>, document: string, other: string)
    requires b - {document} == a - {document} && other != document
    ensures (other in b <==> other in a) && (other in a ==> b[other] == a[other])
  {
    assert other in b - {document} <==> other in a - {document};
  }

  // ---------------------------------------------------------------------------------------------
  // All runs
  // ---------------------------------------------------------------------------------------------

  datatype Request = Request(document: string, item: string)

  /** Everything that one store does, one retain after another. */
  ghost function RunAll(s: Settings, w: World, requests: seq<Request>): (after: World)
    requires s.maxAttempts > 0 && Injective(s.fingerprint) && Good(s, w)
    ensures Good(s, after)
    decreases |requests|
  {
    if requests == [] then w
    else
      RetainKeepsGood(s, w, requests[0].document, requests[0].item);
      RunAll(s, RetainStep(s, w, requests[0].document, requests[0].item).world, requests[1..])
  }

  /** A new store facing an engine that holds nothing yet. */
  function Start(fates: seq<Fate>): World {
    World(map[], [], Net(fates, map[], {}))
  }

  /** The operations of a document that the engine ran. */
  ghost function Extracted(w: World, document: string): set<nat> {
    set operation | 0 <= operation < |w.minted| && w.minted[operation].document == document && operation in w.net.accepted
  }

  ghost function Verdicts(w: World, document: string): set<nat> {
    set operation | 0 <= operation < |w.minted| && w.minted[operation].document == document && w.minted[operation].standing.Settled?
  }

  ghost function ContentChanges(w: World, document: string): set<nat> {
    set operation | 0 <= operation < |w.minted| && w.minted[operation].document == document && w.minted[operation].standing.Superseded?
  }

  lemma {:induction false} Fewer(a: set<nat>, b: set<nat>)
    requires a <= b
    ensures |a| <= |b|
    decreases |a|
  {
    if a != {} {
      var x :| x in a;
      Fewer(a - {x}, b - {x});
    }
  }

  lemma {:induction false} AtMostTogether(a: set<nat>, b: set<nat>)
    ensures |a + b| <= |a| + |b|
  {
    Fewer(b - a, b);
    assert a + b == a + (b - a);
  }

  lemma {:induction false} ExtractionsAreBounded(s: Settings, w: World, document: string)
    requires Good(s, w)
    ensures |Extracted(w, document)| <= |Verdicts(w, document)| + |ContentChanges(w, document)| + 1
  {
    var open := if document in w.pending then {w.pending[document].operation} else {};
    var decided := Verdicts(w, document) + ContentChanges(w, document);
    forall operation | operation in Extracted(w, document) ensures operation in decided + open {
      assert Stands(s, w, operation);
    }
    Fewer(Extracted(w, document), decided + open);
    AtMostTogether(decided, open);
    AtMostTogether(Verdicts(w, document), ContentChanges(w, document));
  }

  /** Over any run, against any network: a document is extracted at most once more often than the
      engine gave verdicts on it and its content changed, and never is more than a bounded number of
      operations uncertain. */
  lemma {:induction false} EveryRun(s: Settings, fates: seq<Fate>, requests: seq<Request>, document: string)
    requires s.maxAttempts > 0 && Injective(s.fingerprint)
    ensures Good(s, Start(fates))
    ensures var w := RunAll(s, Start(fates), requests);
      && |Extracted(w, document)| <= 1 + |Verdicts(w, document)| + |ContentChanges(w, document)|
      && |w.pending| <= MAX_UNCERTAIN
  {
    ExtractionsAreBounded(s, RunAll(s, Start(fates), requests), document);
  }

  /** Handing in one content again and again, until the engine decides on it, extracts it once. */
  lemma {:induction false} RetriesExtractOnce(s: Settings, fates: seq<Fate>, document: string, item: string, times: nat)
    requires s.maxAttempts > 0 && Injective(s.fingerprint)
    requires Good(s, Start(fates))
    requires var w := RunAll(s, Start(fates), seq(times, i => Request(document, item))); Verdicts(w, document) == {}
    ensures var w := RunAll(s, Start(fates), seq(times, i => Request(document, item))); |Extracted(w, document)| <= 1
  {
    var requests := seq(times, i => Request(document, item));
    OneContent(s, Start(fates), requests, document, item);
    var w := RunAll(s, Start(fates), requests);
    ExtractionsAreBounded(s, w, document);
    OneContentNeverChanges(s, w, document, item);
  }

  /** Every operation so far carries one content. */
  ghost predicate AllCarry(w: World, item: string) {
    forall operation | 0 <= operation < |w.minted| :: w.minted[operation].item == item
  }

  lemma {:induction false} OneContentNeverChanges(s: Settings, w: World, document: string, item: string)
    requires Good(s, w) && AllCarry(w, item)
    ensures ContentChanges(w, document) == {}
  {
    forall operation | 0 <= operation < |w.minted| ensures !w.minted[operation].standing.Superseded? {
      assert Stands(s, w, operation);
    }
  }

  lemma {:induction false} OneContent(s: Settings, w: World, requests: seq<Request>, document: string, item: string)
    requires s.maxAttempts > 0 && Injective(s.fingerprint) && Good(s, w) && AllCarry(w, item)
    requires forall i | 0 <= i < |requests| :: requests[i] == Request(document, item)
    ensures AllCarry(RunAll(s, w, requests), item)
    decreases |requests|
  {
    if requests != [] {
      assert requests[0] == Request(document, item);
      RetainKeepsGood(s, w, document, item);
      ItemsKept(s, w, document, item);
      OneContent(s, RetainStep(s, w, document, item).world, requests[1..], document, item);
    }
  }

  lemma {:induction false} DecidingKeepsItems(w: World, after: World, document: string, item: string)
    requires Holds(w, document) && OnlyDecides(w, after, document) && AllCarry(w, item)
    ensures AllCarry(after, item)
  {
    var decided := w.pending[document].operation;
    forall operation | 0 <= operation < |after.minted| ensures after.minted[operation].item == item {
      assert after.minted[decided := w.minted[decided]][operation] == w.minted[operation];
    }
  }

  lemma {:induction false} PreparedCarries(s: Settings, w: World, document: string, item: string)
    requires AllCarry(w, item)
    ensures AllCarry(Prepared(s, w, document, item), item)
  {
  }

  lemma {:induction false} ItemsKept(s: Settings, w: World, document: string, item: string)
    requires s.maxAttempts > 0 && Injective(s.fingerprint) && Good(s, w) && AllCarry(w, item)
    ensures AllCarry(RetainStep(s, w, document, item).world, item)
  {
    if document in w.pending || |w.pending| < MAX_UNCERTAIN {
      var ready, replaying := Prepared(s, w, document, item), Replays(s, w, document, item);
      PreparedIsGood(s, w, document, item);
      PreparedCarries(s, w, document, item);
      SubmitTells(s, ready, document, item, replaying);
      DecidingKeepsItems(ready, SubmitStep(s, ready, document, item, replaying).world, document, item);
    }
  }

  // ---------------------------------------------------------------------------------------------
  // When a retain returns
  // ---------------------------------------------------------------------------------------------

  /** The first answer within the attempts left, and the fates after it. */
  datatype Arrival = Arrival(body: Body, later: seq<Fate>)

  predicate IsLoss(fate: Fate) {
    match fate
    case Lost(_, transient) => transient
    case Status(code, _, _) => IsTransient(code)
    case _ => false
  }

  function FirstAnswer(fates: seq<Fate>, attempts: nat): (a: Option<Arrival>)
    ensures a.Some? ==> |a.value.later| < |fates|
  {
    if fates == [] || attempts == 0 then None
    else if IsLoss(fates[0]) then FirstAnswer(fates[1..], attempts - 1)
    else
      match fates[0]
      case Status(code, _, Some(body)) => if IsSuccess(code) then Some(Arrival(body, fates[1..])) else None
      case _ => None
  }

  /** Poll after poll is answered with work under way, until one reports completion. */
  predicate PollsComplete(fates: seq<Fate>, attempts: nat)
    decreases |fates|
  {
    var answer := FirstAnswer(fates, attempts);
    && answer.Some?
    && match answer.value.body.status
       case Some(status) =>
         status == "completed" || ((status == "pending" || status == "processing") && PollsComplete(answer.value.later, attempts))
       case None => false
  }

  /** Within its attempts the POST is acknowledged, and polling then reports completion. */
  predicate GetsThrough(fates: seq<Fate>, operation: nat, attempts: nat) {
    var answer := FirstAnswer(fates, attempts);
    answer.Some? && Acknowledges(answer.value.body, operation) && PollsComplete(answer.value.later, attempts)
  }

  lemma {:induction false} PostAnswers(net: Net, operation: nat, item: string, attempts: nat)
    requires attempts > 0
    ensures var r := Post(net, operation, item, attempts); var answer := FirstAnswer(net.fates, attempts);
      if answer.Some? then r.reply == Answered(answer.value.body) && r.net.fates == answer.value.later else !r.reply.Answered?
    decreases attempts
  {
    if net.fates != [] && IsLoss(net.fates[0]) && attempts > 1 {
      PostAnswers(PostOnce(net, operation, item).net, operation, item, attempts - 1);
    }
  }

  lemma {:induction false} GetAnswers(net: Net, operation: nat, attempts: nat)
    requires attempts > 0 && operation in net.accepted
    ensures var r := Get(net, operation, attempts); var answer := FirstAnswer(net.fates, attempts);
      if answer.Some? then r.reply == Answered(answer.value.body) && r.net.fates == answer.value.later else !r.reply.Answered?
    decreases attempts
  {
    if net.fates != [] && IsLoss(net.fates[0]) && attempts > 1 {
      GetAnswers(GetOnce(net, operation).net, operation, attempts - 1);
    }
  }

  lemma {:induction false} AwaitReturns(s: Settings, w: World, document: string)
    requires s.maxAttempts > 0 && Holds(w, document) && w.pending[document].operation in w.net.accepted
    ensures AwaitStep(s, w, document).outcome == Retained <==> PollsComplete(w.net.fates, s.maxAttempts)
    decreases |w.net.fates|
  {
    var operation := w.pending[document].operation;
    GetAnswers(w.net, operation, s.maxAttempts);
    var got := Get(w.net, operation, s.maxAttempts);
    if got.reply.Answered? && (got.reply.body.status == Some("pending") || got.reply.body.status == Some("processing")) {
      AwaitReturns(s, w.(net := got.net), document);
    }
  }

  lemma {:induction false} SubmitReturns(s: Settings, w: World, document: string, item: string, replaying: bool)
    requires s.maxAttempts > 0 && Holds(w, document)
    ensures SubmitStep(s, w, document, item, replaying).outcome == Retained
      <==> GetsThrough(w.net.fates, w.pending[document].operation, s.maxAttempts)
  {
    var operation := w.pending[document].operation;
    PostAnswers(w.net, operation, item, s.maxAttempts);
    var posted := Post(w.net, operation, item, s.maxAttempts);
    if posted.reply.Answered? {
      AwaitReturns(s, w.(net := posted.net), document);
    }
  }

  /** A retain returns if and only if its request fits, the table has room for its document, and the
      network lets an acknowledgement through and then, after any number of polls, a completion, each
      within the bounded attempts; whatever comes later. */
  lemma {:induction false} AnsweredIsRetained(s: Settings, w: World, document: string, item: string)
    requires s.maxAttempts > 0 && Injective(s.fingerprint) && Good(s, w)
    ensures var operation := if Replays(s, w, document, item) then w.pending[document].operation else |w.minted|;
      RetainStep(s, w, document, item).outcome == Retained
      <==> && s.bodySize(item, operation) <= s.maxBytes && (document in w.pending || |w.pending| < MAX_UNCERTAIN)
           && GetsThrough(w.net.fates, operation, s.maxAttempts)
  {
    if document in w.pending || |w.pending| < MAX_UNCERTAIN {
      PreparedIsGood(s, w, document, item);
      PreparedRecords(s, w, document, item);
      SubmitReturns(s, Prepared(s, w, document, item), document, item, Replays(s, w, document, item));
    }
  }

  lemma {:induction false} PreparedRecords(s: Settings, w: World, document: string, item: string)
    requires document in w.pending ==> Holds(w, document)
    ensures var ready := Prepared(s, w, document, item);
      var operation := if Replays(s, w, document, item) then w.pending[document].operation else |w.minted|;
      && ready.pending == w.pending[document := Uncertain(s.fingerprint(item), operation)] && ready.net == w.net
      && |ready.minted| == if Replays(s, w, document, item) then |w.minted| else |w.minted| + 1
  {
  }

  lemma {:induction false} SubmitMintsNothing(s: Settings, w: World, document: string, item: string, replaying: bool)
    requires s.maxAttempts > 0 && Good(s, w) && document in w.pending
    requires w.minted[w.pending[document].operation].item == item
    requires !replaying ==> w.pending[document].operation !in w.net.accepted
    ensures var after := SubmitStep(s, w, document, item, replaying).world; Good(s, after) && |after.minted| == |w.minted|
  {
    SubmitKeepsGood(s, w, document, item, replaying);
    SubmitTells(s, w, document, item, replaying);
  }

  // ---------------------------------------------------------------------------------------------
  // The store
  // ---------------------------------------------------------------------------------------------

  /** The network, as the store meets it. */
  class Client {
    var net: Net

    constructor (fates: seq<Fate>)
      ensures net == Net(fates, map[], {})
    {
      net := Net(fates, map[], {});
    }

    method Send(operation: nat, item: string) returns (reply: Reply)
      modifies this
      ensures Exchange(net, reply) == PostOnce(old(net), operation, item)
    {
      var exchange := PostOnce(net, operation, item);
      net := exchange.net;
      reply := exchange.reply;
    }

    method Ask(operation: nat) returns (reply: Reply)
      modifies this
      ensures Exchange(net, reply) == GetOnce(old(net), operation)
    {
      var exchange := GetOnce(net, operation);
      net := exchange.net;
      reply := exchange.reply;
    }
  }

  class HindsightStore {
    const settings: Settings
    const client: Client
    var pending: map<string, Uncertain>
    ghost var minted: seq<Operation>
    var nextId: nat

    ghost function Now(): World
      reads this, client
    {
      World(pending, minted, client.net)
    }

    ghost predicate Valid()
      reads this, client
    {
      settings.maxAttempts > 0 && Injective(settings.fingerprint) && nextId == |minted| && Good(settings, Now())
    }

    constructor (settings: Settings, client: Client)
      requires settings.maxAttempts > 0 && Injective(settings.fingerprint)
      requires client.net.accepted == map[] && client.net.completed == {}
      ensures Valid() && this.client == client && this.settings == settings && Now() == Start(client.net.fates)
    {
      this.settings := settings;
      this.client := client;
      pending := map[];
      minted := [];
      nextId := 0;
    }

    /** Bounded attempts; a lost answer makes every later refusal uncertain. */
    method PostWithRetries(operation: nat, item: string) returns (reply: Reply)
      requires settings.maxAttempts > 0
      modifies client
      ensures Exchange(client.net, reply) == Post(old(client.net), operation, item, settings.maxAttempts)
    {
      var certain, attempt := true, 1;
      reply := client.Send(operation, item);
      while reply == Transient && attempt < settings.maxAttempts
        invariant 1 <= attempt <= settings.maxAttempts
        invariant certain <==> attempt == 1
        invariant var whole := Post(old(client.net), operation, item, settings.maxAttempts);
          var rest := Finish(client.net, reply, operation, item, settings.maxAttempts - attempt);
          whole.net == rest.net && whole.reply == if certain then rest.reply else Doubt(rest.reply)
        decreases settings.maxAttempts - attempt
      {
        certain := false;
        reply := client.Send(operation, item);
        attempt := attempt + 1;
      }
      if reply == Transient {
        reply := Unavailable;
      } else if !certain {
        reply := Doubt(reply);
      }
    }

    method GetWithRetries(operation: nat) returns (reply: Reply)
      requires settings.maxAttempts > 0
      modifies client
      ensures Exchange(client.net, reply) == Get(old(client.net), operation, settings.maxAttempts)
    {
      var attempt := 1;
      reply := client.Ask(operation);
      while reply == Transient && attempt < settings.maxAttempts
        invariant 1 <= attempt <= settings.maxAttempts
        invariant var left := settings.maxAttempts - attempt;
          Get(old(client.net), operation, settings.maxAttempts)
          == if reply != Transient then Exchange(client.net, reply)
             else if left == 0 then Exchange(client.net, Unavailable)
             else Get(client.net, operation, left)
        decreases settings.maxAttempts - attempt
      {
        reply := client.Ask(operation);
        attempt := attempt + 1;
      }
      if reply == Transient {
        reply := Unavailable;
      }
    }

    /** Polls until the engine decides. */
    method Await(document: string, operation: nat) returns (outcome: Outcome)
      requires Valid() && document in pending && pending[document].operation == operation
      modifies `pending, `minted, client
      ensures Step(Now(), outcome) == AwaitStep(settings, old(Now()), document)
      decreases |client.net.fates|
    {
      while true
        invariant Valid() && document in pending && pending[document].operation == operation
        invariant AwaitStep(settings, Now(), document) == AwaitStep(settings, old(Now()), document)
        decreases |client.net.fates|
      {
        ghost var before := Now();
        var reply := GetWithRetries(operation);
        AskedKeepsGood(settings, before, document, client.net);
        assert Now() == before.(net := client.net);
        if !reply.Answered? {
          return OutcomeOf(reply);
        }
        match reply.body.status {
          case None => return MemoryRejected;
          case Some(status) =>
            if status == "completed" {
              minted := Forget(Now(), document, Settled(true)).minted;
              pending := pending - {document};
              return Retained;
            }
            if status == "failed" || status == "cancelled" {
              minted := Forget(Now(), document, Settled(false)).minted;
              pending := pending - {document};
              return MemoryRejected;
            }
            if status == "not_found" {
              return MemoryUnavailable;
            }
            if status != "pending" && status != "processing" {
              return MemoryRejected;
            }
        }
      }
    }

    /** The table keeps the id from before the first byte is sent. */
    method Record(document: string, item: string, operation: nat, replaying: bool)
      requires Valid() && (document in pending || |pending| < MAX_UNCERTAIN)
      requires replaying == Replays(settings, Now(), document, item)
      requires operation == if replaying then pending[document].operation else nextId
      modifies this
      ensures Valid() && Now() == Prepared(settings, old(Now()), document, item)
      ensures document in pending && pending[document].operation == operation && minted[operation].item == item
      ensures !replaying ==> operation !in client.net.accepted
    {
      ghost var ready := Prepared(settings, Now(), document, item);
      PreparedIsGood(settings, Now(), document, item);
      PreparedRecords(settings, Now(), document, item);
      pending := pending[document := Uncertain(settings.fingerprint(item), operation)];
      nextId := if replaying then nextId else nextId + 1;
      minted := ready.minted;
    }

    /** One conversation, by the protocol. */
    method Retain(document: string, item: string) returns (outcome: Outcome)
      requires Valid()
      modifies this, client
      ensures Valid()
      ensures Step(Now(), outcome) == RetainStep(settings, old(Now()), document, item)
    {
      var fingerprint := settings.fingerprint(item);
      var replaying := document in pending && pending[document].fingerprint == fingerprint;
      var operation := if replaying then pending[document].operation else nextId;
      if settings.bodySize(item, operation) > settings.maxBytes {
        return MemoryRejected;
      }
      if document !in pending && |pending| >= MAX_UNCERTAIN {
        return MemoryUnavailable;
      }
      Record(document, item, operation, replaying);
      outcome := Submit(document, item, operation, replaying);
    }

    /** Sends the document's operation, and awaits it once it is acknowledged. */
    method Submit(document: string, item: string, operation: nat, replaying: bool) returns (outcome: Outcome)
      requires Valid() && document in pending && pending[document].operation == operation && minted[operation].item == item
      requires !replaying ==> operation !in client.net.accepted
      modifies `pending, `minted, client
      ensures Valid() && Step(Now(), outcome) == SubmitStep(settings, old(Now()), document, item, replaying)
    {
      ghost var before := Now();
      SubmitMintsNothing(settings, before, document, item, replaying);
      var reply := PostWithRetries(operation, item);
      SentKeepsGood(settings, before, document, client.net);
      assert Now() == before.(net := client.net);
      match reply {
        case Answered(body) =>
          if !Acknowledges(body, operation) {
            return MemoryRejected;
          }
          outcome := Await(document, operation);
        case Refused(certain) =>
          if certain && !replaying {
            minted := Forget(Now(), document, Rejected).minted;
            pending := pending - {document};
          }
          outcome := MemoryRejected;
        case _ =>
          outcome := OutcomeOf(reply);
      }
    }
  }

  /** What the attempts still left make of an attempt's reply. */
  function Finish(net: Net, reply: Reply, operation: nat, item: string, left: nat): Exchange {
    if reply != Transient then Exchange(net, reply)
    else if left == 0 then Exchange(net, Unavailable)
    else
      var rest := Post(net, operation, item, left);
      Exchange(rest.net, Doubt(rest.reply))
  }
}
