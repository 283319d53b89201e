/**
  The request claim protocol shared by every asynchronous call of the Go client, as a transition
  system whose steps are the atomic blocks of the source.

  Three kinds of call register a request ID in one process-wide registry and then wait on a channel of
  capacity one: a command sent through a client, a command sent through a scoped connection, and the
  acquisition of a scoped connection. The core's callback, the cancelled caller and `Close` race to
  claim the ID; whoever claims it owes the channel a payload, unless it is the caller itself.

  A request is named by its number `r`, which is never reused; its `id` is what the code sees and may be
  reused. The core's answer to request `r` is named by `r` as well, so a payload `Response(o)` in the
  hands of request `r` with `o != r` would be a response that went to the wrong caller.
 */
module ClaimMachine {

  import opened Wrappers

  type RequestNo = nat
  type ClientNo = nat
  type RequestId = nat

  datatype Kind =
    | ClientCommand(client: ClientNo)
    | ScopeCommand
    | ScopeAcquire

  // What travels on a result channel. NilResponse is a success whose response pointer is nil.
  datatype Payload =
    | Response(origin: RequestNo)
    | NilResponse
    | CoreError
    | ClosingError

  // What the core and its callback thread are doing for one request.
  datatype Core =
    | NotSubmitted
    | Refused                                        // the call returned a non-zero code: no callback
    | Outstanding                                    // accepted, callback still to come
    | Claiming(answer: Payload)                      // callback entered, takeRequest still to come
    | Sending(target: RequestNo, answer: Payload)    // request claimed, channel send still to come
    | Finished(answer: Payload)

  datatype Outcome =
    | Result(payload: Payload)                       // handed to the caller of the API
    | Parsed(payload: Payload)                       // scope command: copied to a string, then freed
    | Scope(grant: RequestNo, closed: bool)          // an IsolatedScope and its `released` flag
    | Canceled
    | CallRefused

  // Where the goroutine that made the call is.
  datatype Caller =
    | Submitting                                     // registered, core not called yet
    | Submitted                                      // core called, before the wait
    | RefusedCall                                    // core refused, takeRequest still to come
    | Waiting                                        // in the select
    | Untracking                                     // saw ctx.Done, removePendingRequest still to come
    | CancelClaiming                                 // takeRequest of the cancelled call still to come
    | Received(payload: Payload)
    | ScopeRead(grant: RequestNo)                    // scope ID read, response not freed yet
    | Returned(outcome: Outcome)

  // The goroutine a cancelled caller leaves behind.
  datatype Cleaner =
    | NoCleaner
    | Discarding                                     // discardResponse, before its receive
    | LateWaiting                                    // releaseLateScope, before its receive
    | LateHolding(payload: Payload)
    | LateFreeing(grant: RequestNo)                  // scope given back, response not freed yet
    | CleanerDone

  datatype Request = Request(
    kind: Kind,
    id: RequestId,
    caller: Caller,
    core: Core,
    cleaner: Cleaner,
    channel: seq<Payload>)

  // client.mu. Close keeps it over its whole loop; `todo` are the pending IDs not visited yet and
  // `sending` is the request claimed in the current iteration.
  datatype Mutex =
    | Free
    | HeldBySubmit(request: RequestNo)
    | HeldByClose(todo: set<RequestId>, sending: Option<RequestNo>)

  datatype Client = Client(open: bool, pending: set<RequestId>, mutex: Mutex)

  // Everything after `clients` is history: `owner` is the last request that was given an ID, the
  // multisets count frees of a response, releases of a granted scope, successful claims of a request
  // and sends on its channel.
  datatype State = State(
    requests: map<RequestNo, Request>,
    registry: map<RequestId, RequestNo>,
    clients: map<ClientNo, Client>,
    owner: map<RequestId, RequestNo>,
    freed: multiset<RequestNo>,
    released: multiset<RequestNo>,
    claims: multiset<RequestNo>,
    sends: multiset<RequestNo>)

  const Initial := State(map[], map[], map[], map[], multiset{}, multiset{}, multiset{}, multiset{})

  // ---------------------------------------------------------------------------------------------
  // Helpers for the steps
  // ---------------------------------------------------------------------------------------------

  function Put(s: State, r: RequestNo, q: Request): State {
    s.(requests := s.requests[r := q])
  }

  function PutClient(s: State, c: ClientNo, cl: Client): State {
    s.(clients := s.clients[c := cl])
  }

  // takeRequest on an ID that is present.
  function Take(s: State, id: RequestId): State
    requires id in s.registry
  {
    s.(registry := s.registry - {id}, claims := s.claims + multiset{s.registry[id]})
  }

  function FreeResponse(s: State, p: Payload): State {
    if p.Response? then s.(freed := s.freed + multiset{p.origin}) else s
  }

  // The ID of a busy request is still known to somebody: to its caller, or to the core.
  predicate Busy(q: Request) {
    !q.caller.Returned? || q.core.Outstanding? || q.core.Claiming?
  }

  predicate MutexFree(s: State, q: Request) {
    q.kind.ClientCommand? ==> q.kind.client in s.clients && s.clients[q.kind.client].mutex.Free?
  }

  // removePendingRequest: deletes the ID unless `pending` is nil.
  function Untracked(s: State, q: Request): State
    requires q.kind.ClientCommand? && q.kind.client in s.clients
  {
    var cl := s.clients[q.kind.client];
    PutClient(s, q.kind.client, cl.(pending := cl.pending - {q.id}))
  }

  // A channel has capacity one.
  predicate CanSend(s: State, r: RequestNo) {
    r in s.requests && |s.requests[r].channel| < 1
  }

  function Send(s: State, r: RequestNo, p: Payload): State
    requires CanSend(s, r)
  {
    var q := s.requests[r];
    Put(s, r, q.(channel := q.channel + [p])).(sends := s.sends + multiset{r})
  }

  // ---------------------------------------------------------------------------------------------
  // Steps of a call: begin, submit, wait
  // ---------------------------------------------------------------------------------------------

  predicate OpenClientReady(s: State, c: ClientNo) {
    c !in s.clients
  }

  function OpenClient(s: State, c: ClientNo): State {
    PutClient(s, c, Client(true, {}, Free))
  }

  // registerRequest hands out an ID that is non-zero and absent from the registry. That the ID is not one
  // still known to an unfinished call is the assumption that fewer than a word size of IDs (2^64, or 2^32
  // where uintptr has 32 bits) are issued while a call or its callback is outstanding. A client command
  // begins under client.mu on an open client.
  predicate BeginReady(s: State, r: RequestNo, kind: Kind, id: RequestId) {
    && r !in s.requests
    && id != 0
    && id !in s.registry
    && (forall q | q in s.requests && s.requests[q].id == id :: !Busy(s.requests[q]))
    && (kind.ClientCommand? ==>
          && kind.client in s.clients
          && s.clients[kind.client].open
          && s.clients[kind.client].mutex.Free?)
  }

  function Begin(s: State, r: RequestNo, kind: Kind, id: RequestId): State
    requires BeginReady(s, r, kind, id)
  {
    var s1 := Put(s, r, Request(kind, id, Submitting, NotSubmitted, NoCleaner, []));
    var s2 := s1.(registry := s.registry[id := r], owner := s.owner[id := r]);
    if kind.ClientCommand? then
      var cl := s.clients[kind.client];
      PutClient(s2, kind.client, cl.(pending := cl.pending + {id}, mutex := HeldBySubmit(r)))
    else
      s2
  }

  // The call into the core. A client command is never refused; the scope calls can be.
  predicate SubmitReady(s: State, r: RequestNo) {
    r in s.requests && s.requests[r].caller.Submitting?
  }

  function Accept(s: State, r: RequestNo): State
    requires SubmitReady(s, r)
  {
    Put(s, r, s.requests[r].(core := Outstanding, caller := Submitted))
  }

  predicate RefuseReady(s: State, r: RequestNo) {
    SubmitReady(s, r) && !s.requests[r].kind.ClientCommand?
  }

  function Refuse(s: State, r: RequestNo): State
    requires RefuseReady(s, r)
  {
    Put(s, r, s.requests[r].(core := Refused, caller := RefusedCall))
  }

  predicate RefusedTakeReady(s: State, r: RequestNo) {
    r in s.requests && s.requests[r].caller.RefusedCall?
  }

  function RefusedTake(s: State, r: RequestNo): State
    requires RefusedTakeReady(s, r)
  {
    var q := s.requests[r];
    var s1 := Put(s, r, q.(caller := Returned(CallRefused)));
    if q.id in s.registry then Take(s1, q.id) else s1
  }

  // client.mu.Unlock after the submission; the scope calls hold no mutex.
  predicate StartWaitReady(s: State, r: RequestNo) {
    && r in s.requests
    && s.requests[r].caller.Submitted?
    && (s.requests[r].kind.ClientCommand? ==> s.requests[r].kind.client in s.clients)
  }

  function StartWait(s: State, r: RequestNo): State
    requires StartWaitReady(s, r)
  {
    var q := s.requests[r];
    var s1 := Put(s, r, q.(caller := Waiting));
    if q.kind.ClientCommand? then
      PutClient(s1, q.kind.client, s.clients[q.kind.client].(mutex := Free))
    else
      s1
  }

  // ---------------------------------------------------------------------------------------------
  // Steps of the core's callback
  // ---------------------------------------------------------------------------------------------

  // The core answers an outstanding request once. A granted scope always comes as a response.
  predicate AnswerReady(s: State, r: RequestNo, p: Payload) {
    && r in s.requests
    && s.requests[r].core.Outstanding?
    && match p
       case Response(o) => o == r
       case NilResponse => !s.requests[r].kind.ScopeAcquire?
       case CoreError => true
       case ClosingError => false
  }

  function Answer(s: State, r: RequestNo, p: Payload): State
    requires AnswerReady(s, r, p)
  {
    Put(s, r, s.requests[r].(core := Claiming(p)))
  }

  predicate CallbackTakeReady(s: State, r: RequestNo) {
    r in s.requests && s.requests[r].core.Claiming?
  }

  // deliverSuccess and deliverFailure up to the send: a response nobody waits for is freed.
  function CallbackTake(s: State, r: RequestNo): State
    requires CallbackTakeReady(s, r)
  {
    var q := s.requests[r];
    if q.id in s.registry then
      Take(Put(s, r, q.(core := Sending(s.registry[q.id], q.core.answer))), q.id)
    else
      FreeResponse(Put(s, r, q.(core := Finished(q.core.answer))), q.core.answer)
  }

  predicate CallbackSendReady(s: State, r: RequestNo) {
    r in s.requests && s.requests[r].core.Sending? && CanSend(s, s.requests[r].core.target)
  }

  function CallbackSend(s: State, r: RequestNo): State
    requires CallbackSendReady(s, r)
  {
    var core := s.requests[r].core;
    Send(Put(s, r, s.requests[r].(core := Finished(core.answer))), core.target, core.answer)
  }

  // ---------------------------------------------------------------------------------------------
  // Steps of a caller that is cancelled or receives
  // ---------------------------------------------------------------------------------------------

  predicate CancelReady(s: State, r: RequestNo) {
    r in s.requests && s.requests[r].caller.Waiting?
  }

  // The select may see ctx.Done at any time, also when a payload is already in the channel. Acquiring
  // a scope does not claim the ID on cancellation; it leaves releaseLateScope behind.
  function Cancel(s: State, r: RequestNo): State
    requires CancelReady(s, r)
  {
    var q := s.requests[r];
    match q.kind
    case ClientCommand(_) => Put(s, r, q.(caller := Untracking))
    case ScopeCommand => Put(s, r, q.(caller := CancelClaiming))
    case ScopeAcquire => Put(s, r, q.(caller := Returned(Canceled), cleaner := LateWaiting))
  }

  predicate UntrackReady(s: State, r: RequestNo) {
    && r in s.requests
    && s.requests[r].caller.Untracking?
    && s.requests[r].kind.ClientCommand?
    && MutexFree(s, s.requests[r])
  }

  function Untrack(s: State, r: RequestNo): State
    requires UntrackReady(s, r)
  {
    var q := s.requests[r];
    Untracked(Put(s, r, q.(caller := CancelClaiming)), q)
  }

  predicate CancelTakeReady(s: State, r: RequestNo) {
    r in s.requests && s.requests[r].caller.CancelClaiming?
  }

  function CancelTake(s: State, r: RequestNo): State
    requires CancelTakeReady(s, r)
  {
    var q := s.requests[r];
    if q.id in s.registry then
      Take(Put(s, r, q.(caller := Returned(Canceled))), q.id)
    else
      Put(s, r, q.(caller := Returned(Canceled), cleaner := Discarding))
  }

  predicate ReceiveReady(s: State, r: RequestNo) {
    r in s.requests && s.requests[r].caller.Waiting? && |s.requests[r].channel| > 0
  }

  function Receive(s: State, r: RequestNo): State
    requires ReceiveReady(s, r)
  {
    var q := s.requests[r];
    Put(s, r, q.(caller := Received(q.channel[0]), channel := q.channel[1..]))
  }

  predicate FinishReady(s: State, r: RequestNo) {
    && r in s.requests
    && s.requests[r].caller.Received?
    && MutexFree(s, s.requests[r])
  }

  // A client command is untracked and its payload handed on; a scope command is parsed and its
  // response freed; an acquisition reads the scope ID out of the response.
  function Finish(s: State, r: RequestNo): State
    requires FinishReady(s, r)
  {
    var q := s.requests[r];
    var p := q.caller.payload;
    match q.kind
    case ClientCommand(_) => Untracked(Put(s, r, q.(caller := Returned(Result(p)))), q)
    case ScopeCommand => FreeResponse(Put(s, r, q.(caller := Returned(Parsed(p)))), p)
    case ScopeAcquire =>
      if p.Response? then Put(s, r, q.(caller := ScopeRead(p.origin)))
      else Put(s, r, q.(caller := Returned(Result(p))))
  }

  predicate FreeGrantReady(s: State, r: RequestNo) {
    r in s.requests && s.requests[r].caller.ScopeRead?
  }

  function FreeGrant(s: State, r: RequestNo): State
    requires FreeGrantReady(s, r)
  {
    var q := s.requests[r];
    FreeResponse(Put(s, r, q.(caller := Returned(Scope(q.caller.grant, false)))), Response(q.caller.grant))
  }

  // IsolatedScope.Close, which may be called any number of times.
  predicate CloseScopeReady(s: State, r: RequestNo) {
    r in s.requests && s.requests[r].caller.Returned? && s.requests[r].caller.outcome.Scope?
  }

  function CloseScope(s: State, r: RequestNo): State
    requires CloseScopeReady(s, r)
  {
    var q := s.requests[r];
    var scope := q.caller.outcome;
    if scope.closed then s
    else
      Put(s, r, q.(caller := Returned(Scope(scope.grant, true))))
        .(released := s.released + multiset{scope.grant})
  }

  // ---------------------------------------------------------------------------------------------
  // Steps of the goroutine a cancelled caller leaves behind
  // ---------------------------------------------------------------------------------------------

  predicate DiscardReady(s: State, r: RequestNo) {
    r in s.requests && s.requests[r].cleaner.Discarding? && |s.requests[r].channel| > 0
  }

  function Discard(s: State, r: RequestNo): State
    requires DiscardReady(s, r)
  {
    var q := s.requests[r];
    FreeResponse(Put(s, r, q.(cleaner := CleanerDone, channel := q.channel[1..])), q.channel[0])
  }

  predicate LateReceiveReady(s: State, r: RequestNo) {
    r in s.requests && s.requests[r].cleaner.LateWaiting? && |s.requests[r].channel| > 0
  }

  function LateReceive(s: State, r: RequestNo): State
    requires LateReceiveReady(s, r)
  {
    var q := s.requests[r];
    Put(s, r, q.(cleaner := LateHolding(q.channel[0]), channel := q.channel[1..]))
  }

  predicate LateReleaseReady(s: State, r: RequestNo) {
    r in s.requests && s.requests[r].cleaner.LateHolding?
  }

  function LateRelease(s: State, r: RequestNo): State
    requires LateReleaseReady(s, r)
  {
    var q := s.requests[r];
    var p := q.cleaner.payload;
    if p.Response? then
      Put(s, r, q.(cleaner := LateFreeing(p.origin))).(released := s.released + multiset{p.origin})
    else
      Put(s, r, q.(cleaner := CleanerDone))
  }

  predicate LateFreeReady(s: State, r: RequestNo) {
    r in s.requests && s.requests[r].cleaner.LateFreeing?
  }

  function LateFree(s: State, r: RequestNo): State
    requires LateFreeReady(s, r)
  {
    var q := s.requests[r];
    FreeResponse(Put(s, r, q.(cleaner := CleanerDone)), Response(q.cleaner.grant))
  }

  // ---------------------------------------------------------------------------------------------
  // Steps of Close
  // ---------------------------------------------------------------------------------------------

  predicate CloseStartReady(s: State, c: ClientNo) {
    c in s.clients && s.clients[c].open && s.clients[c].mutex.Free?
  }

  function CloseStart(s: State, c: ClientNo): State
    requires CloseStartReady(s, c)
  {
    var cl := s.clients[c];
    PutClient(s, c, cl.(open := false, mutex := HeldByClose(cl.pending, None)))
  }

  predicate CloseTakeReady(s: State, c: ClientNo, id: RequestId) {
    && c in s.clients
    && s.clients[c].mutex.HeldByClose?
    && s.clients[c].mutex.sending.None?
    && id in s.clients[c].mutex.todo
  }

  function CloseTake(s: State, c: ClientNo, id: RequestId): State
    requires CloseTakeReady(s, c, id)
  {
    var cl := s.clients[c];
    var rest := cl.mutex.todo - {id};
    if id in s.registry then
      Take(PutClient(s, c, cl.(mutex := HeldByClose(rest, Some(s.registry[id])))), id)
    else
      PutClient(s, c, cl.(mutex := HeldByClose(rest, None)))
  }

  predicate CloseSendReady(s: State, c: ClientNo) {
    && c in s.clients
    && s.clients[c].mutex.HeldByClose?
    && s.clients[c].mutex.sending.Some?
    && CanSend(s, s.clients[c].mutex.sending.value)
  }

  function CloseSend(s: State, c: ClientNo): State
    requires CloseSendReady(s, c)
  {
    var cl := s.clients[c];
    var held := HeldByClose(cl.mutex.todo, None);
    Send(PutClient(s, c, cl.(mutex := held)), cl.mutex.sending.value, ClosingError)
  }

  predicate CloseEndReady(s: State, c: ClientNo) {
    c in s.clients && s.clients[c].mutex == HeldByClose({}, None)
  }

  function CloseEnd(s: State, c: ClientNo): State
    requires CloseEndReady(s, c)
  {
    PutClient(s, c, s.clients[c].(pending := {}, mutex := Free))
  }

  // ---------------------------------------------------------------------------------------------
  // Runs
  // ---------------------------------------------------------------------------------------------

  datatype Step =
    | OpenClientStep(c: ClientNo)
    | BeginStep(r: RequestNo, kind: Kind, id: RequestId)
    | AcceptStep(r: RequestNo)
    | RefuseStep(r: RequestNo)
    | RefusedTakeStep(r: RequestNo)
    | StartWaitStep(r: RequestNo)
    | AnswerStep(r: RequestNo, p: Payload)
    | CallbackTakeStep(r: RequestNo)
    | CallbackSendStep(r: RequestNo)
    | CancelStep(r: RequestNo)
    | UntrackStep(r: RequestNo)
    | CancelTakeStep(r: RequestNo)
    | ReceiveStep(r: RequestNo)
    | FinishStep(r: RequestNo)
    | FreeGrantStep(r: RequestNo)
    | CloseScopeStep(r: RequestNo)
    | DiscardStep(r: RequestNo)
    | LateReceiveStep(r: RequestNo)
    | LateReleaseStep(r: RequestNo)
    | LateFreeStep(r: RequestNo)
    | CloseStartStep(c: ClientNo)
    | CloseTakeStep(c: ClientNo, id: RequestId)
    | CloseSendStep(c: ClientNo)
    | CloseEndStep(c: ClientNo)

  // The state after step `e`, if the step is possible.
  function Next(s: State, e: Step): Option<State> {
    match e
    case OpenClientStep(c) => if OpenClientReady(s, c) then Some(OpenClient(s, c)) else None
    case BeginStep(r, kind, id) => if BeginReady(s, r, kind, id) then Some(Begin(s, r, kind, id)) else None
    case AcceptStep(r) => if SubmitReady(s, r) then Some(Accept(s, r)) else None
    case RefuseStep(r) => if RefuseReady(s, r) then Some(Refuse(s, r)) else None
    case RefusedTakeStep(r) => if RefusedTakeReady(s, r) then Some(RefusedTake(s, r)) else None
    case StartWaitStep(r) => if StartWaitReady(s, r) then Some(StartWait(s, r)) else None
    case AnswerStep(r, p) => if AnswerReady(s, r, p) then Some(Answer(s, r, p)) else None
    case CallbackTakeStep(r) => if CallbackTakeReady(s, r) then Some(CallbackTake(s, r)) else None
    case CallbackSendStep(r) => if CallbackSendReady(s, r) then Some(CallbackSend(s, r)) else None
    case CancelStep(r) => if CancelReady(s, r) then Some(Cancel(s, r)) else None
    case UntrackStep(r) => if UntrackReady(s, r) then Some(Untrack(s, r)) else None
    case CancelTakeStep(r) => if CancelTakeReady(s, r) then Some(CancelTake(s, r)) else None
    case ReceiveStep(r) => if ReceiveReady(s, r) then Some(Receive(s, r)) else None
    case FinishStep(r) => if FinishReady(s, r) then Some(Finish(s, r)) else None
    case FreeGrantStep(r) => if FreeGrantReady(s, r) then Some(FreeGrant(s, r)) else None
    case CloseScopeStep(r) => if CloseScopeReady(s, r) then Some(CloseScope(s, r)) else None
    case DiscardStep(r) => if DiscardReady(s, r) then Some(Discard(s, r)) else None
    case LateReceiveStep(r) => if LateReceiveReady(s, r) then Some(LateReceive(s, r)) else None
    case LateReleaseStep(r) => if LateReleaseReady(s, r) then Some(LateRelease(s, r)) else None
    case LateFreeStep(r) => if LateFreeReady(s, r) then Some(LateFree(s, r)) else None
    case CloseStartStep(c) => if CloseStartReady(s, c) then Some(CloseStart(s, c)) else None
    case CloseTakeStep(c, id) => if CloseTakeReady(s, c, id) then Some(CloseTake(s, c, id)) else None
    case CloseSendStep(c) => if CloseSendReady(s, c) then Some(CloseSend(s, c)) else None
    case CloseEndStep(c) => if CloseEndReady(s, c) then Some(CloseEnd(s, c)) else None
  }

  // `run` is a run from `s` to `s'`: any interleaving of steps, each possible when it is taken.
  predicate Run(s: State, run: seq<Step>, s': State)
    decreases |run|
  {
    if run == [] then s == s'
    else Next(s, run[0]).Some? && Run(Next(s, run[0]).value, run[1..], s')
  }

  ghost predicate Reachable(s: State) {
    exists run :: Run(Initial, run, s)
  }
}
