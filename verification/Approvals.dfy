/** Asking a user for approval: requests are registered under fresh ids, resolved by callbacks, and
    waited for with a timeout. One step is one section under the registry's lock, one poll of a
    one-shot channel, or one atomic increment. */
module Approvals {
  import opened Options

  datatype Decision = Approved | Denied | TimedOut

  /** The registry; `pending` names the user who may resolve each request, and `sent` is what went
      through the one-shot channel of an id. An entry of `pending` holds the channel's sender. */
  datatype Registry = Registry(nextId: nat, pending: map<string, string>, sent: map<string, Decision>)

  function Digit(d: nat): char
    requires d < 10
  {
    '0' + d as char
  }

  function Decimal(n: nat): (text: string)
    ensures text != ""
  {
    (if n < 10 then "" else Decimal(n / 10)) + [Digit(n % 10)]
  }

  function ApprovalId(n: nat): string {
    "approval-" + Decimal(n)
  }

  function DecimalValue(text: string): int {
    if text == "" then 0 else 10 * DecimalValue(text[..|text| - 1]) + (text[|text| - 1] as int - '0' as int)
  }

  lemma {:induction false} DecimalValueOfDecimal(n: nat)
    ensures DecimalValue(Decimal(n)) == n
  {
    var text := Decimal(n);
    if n >= 10 {
      DecimalValueOfDecimal(n / 10);
      assert text[..|text| - 1] == Decimal(n / 10);
    } else {
      assert text[..|text| - 1] == "";
    }
  }

  lemma ApprovalIdsAreDistinct(n: nat, m: nat)
    ensures ApprovalId(n) == ApprovalId(m) <==> n == m
  {
    DecimalValueOfDecimal(n);
    DecimalValueOfDecimal(m);
    assert ApprovalId(n)[9..] == Decimal(n) && ApprovalId(m)[9..] == Decimal(m);
  }

  // ---------------------------------------------------------------------------------------------
  // The registry's operations.

  function NewRegistry(): Registry {
    Registry(1, map[], map[])
  }

  /** `next_id.fetch_add(1)` */
  function TakeId(r: Registry): Registry {
    r.(nextId := r.nextId + 1)
  }

  function Insert(r: Registry, id: string, user: string): Registry {
    r.(pending := r.pending[id := user])
  }

  function IsResolvable(r: Registry, id: string, user: string): bool {
    id in r.pending && r.pending[id] == user
  }

  function Resolve(r: Registry, id: string, user: string, decision: Decision): (Registry, bool) {
    if IsResolvable(r, id, user) then (r.(pending := r.pending - {id}, sent := r.sent[id := decision]), true)
    else (r, false)
  }

  /** One poll of `timeout(duration, rx)`: the channel is looked at before the clock. A channel whose
      sender is gone without a value counts as denied. */
  function Poll(r: Registry, id: string, isTimeOver: bool): Option<Decision> {
    if id in r.sent then Some(r.sent[id])
    else if id !in r.pending then Some(Denied)
    else if isTimeOver then Some(TimedOut)
    else None
  }

  function Remove(r: Registry, id: string): Registry {
    r.(pending := r.pending - {id})
  }

  // ---------------------------------------------------------------------------------------------
  // Runs of requesters and callbacks.

  /** Where one call of `request_approval` is. */
  datatype Phase =
    | Started
    | Numbered(n: nat)
    | Registered(n: nat)
    | Waiting(n: nat)
    | Decided(n: nat, decision: Decision)
    | Returned(n: nat, decision: Decision)
    | Abandoned(n: nat)
    | Cancelled

  datatype Requester = Requester(user: string, phase: Phase)

  datatype Resolution = Resolution(id: string, user: string, decision: Decision)

  /** `resolutions` are the calls of `resolve` that returned true. */
  datatype State = State(registry: Registry, requesters: seq<Requester>, resolutions: seq<Resolution>)

  datatype Event =
    | Begin(user: string)
    | Number(w: nat)
    | Register(w: nat)
    | Prompted(w: nat, isOk: bool)
    | Polled(w: nat, isTimeOver: bool)
    | Finish(w: nat)
    | Cancel(w: nat)
    | ResolveCall(id: string, user: string, decision: Decision)

  function Initial(): State {
    State(NewRegistry(), [], [])
  }

  function WithPhase(s: State, w: nat, phase: Phase): State
    requires w < |s.requesters|
  {
    s.(requesters := s.requesters[w := s.requesters[w].(phase := phase)])
  }

  function AfterCancel(phase: Phase): Phase {
    match phase
    case Started => Cancelled
    case Numbered(_) => Cancelled
    case Registered(n) => Abandoned(n)
    case Waiting(n) => Abandoned(n)
    case Decided(n, _) => Abandoned(n)
    case _ => phase
  }

  function Step(s: State, e: Event): State {
    match e
    case Begin(user) => s.(requesters := s.requesters + [Requester(user, Started)])
    case ResolveCall(id, user, decision) =>
      var (registry, isResolved) := Resolve(s.registry, id, user, decision);
      s.(registry := registry,
         resolutions := s.resolutions + if isResolved then [Resolution(id, user, decision)] else [])
    case _ => if e.w < |s.requesters| then RequesterStep(s, e) else s
  }

  function RequesterStep(s: State, e: Event): State
    requires !e.Begin? && !e.ResolveCall? && e.w < |s.requesters|
  {
    var phase := s.requesters[e.w].phase;
    match e
    case Number(w) =>
      if phase.Started? then WithPhase(s, w, Numbered(s.registry.nextId)).(registry := TakeId(s.registry)) else s
    case Register(w) =>
      if phase.Numbered?
      then
        WithPhase(s, w, Registered(phase.n)).(registry := Insert(s.registry, ApprovalId(phase.n), s.requesters[w].user))
      else s
    case Prompted(w, isOk) =>
      if phase.Registered? then WithPhase(s, w, if isOk then Waiting(phase.n) else Abandoned(phase.n)) else s
    case Polled(w, isTimeOver) =>
      if !phase.Waiting? then s
      else
        var polled := Poll(s.registry, ApprovalId(phase.n), isTimeOver);
        if polled.Some? then WithPhase(s, w, Decided(phase.n, polled.value)) else s
    case Finish(w) =>
      if phase.Decided?
      then
        WithPhase(s, w, Returned(phase.n, phase.decision)).(registry := Remove(s.registry, ApprovalId(phase.n)))
      else s
    case Cancel(w) => WithPhase(s, w, AfterCancel(phase))
  }

  function Run(s: State, events: seq<Event>): State
    decreases |events|
  {
    if events == [] then s else Run(Step(s, events[0]), events[1..])
  }

  // ---------------------------------------------------------------------------------------------
  // The invariant.

  predicate HasNumber(phase: Phase) {
    !phase.Started? && !phase.Cancelled?
  }

  /** Registered at some time. */
  predicate HasId(phase: Phase) {
    HasNumber(phase) && !phase.Numbered?
  }

  /** Requester `w` registered the request with this id, for this user. */
  predicate Owns(s: State, w: nat, id: string, user: string) {
    && w < |s.requesters| && HasId(s.requesters[w].phase)
    && ApprovalId(s.requesters[w].phase.n) == id && s.requesters[w].user == user
  }

  predicate IsOwned(s: State, id: string, user: string) {
    exists w: nat :: w < |s.requesters| && Owns(s, w, id, user)
  }

  predicate NumbersAreFresh(s: State) {
    && (forall w :: 0 <= w < |s.requesters| && HasNumber(s.requesters[w].phase) ==>
        s.requesters[w].phase.n < s.registry.nextId)
    && forall v, w :: 0 <= v < w < |s.requesters| ==>
         HasNumber(s.requesters[v].phase) && HasNumber(s.requesters[w].phase) ==>
         s.requesters[v].phase.n != s.requesters[w].phase.n
  }

  predicate PendingIsOwned(s: State) {
    forall id :: id in s.registry.pending ==> id !in s.registry.sent && IsOwned(s, id, s.registry.pending[id])
  }

  predicate IsResolution(s: State, x: Resolution) {
    && x.id in s.registry.sent && s.registry.sent[x.id] == x.decision
    && IsOwned(s, x.id, x.user)
  }

  predicate ResolutionsAreSent(s: State) {
    && (forall k :: 0 <= k < |s.resolutions| ==> IsResolution(s, s.resolutions[k]))
    && (forall j, k :: 0 <= j < k < |s.resolutions| ==> s.resolutions[j].id != s.resolutions[k].id)
    && forall id :: id in s.registry.sent ==> WasResolved(s, id)
  }

  predicate WasResolved(s: State, id: string) {
    exists k :: 0 <= k < |s.resolutions| && s.resolutions[k].id == id
  }

  predicate IsKnown(r: Registry, id: string) {
    id in r.pending || id in r.sent
  }

  predicate RequesterIsRight(r: Registry, phase: Phase) {
    match phase
    case Started => true
    case Cancelled => true
    case Numbered(n) => !IsKnown(r, ApprovalId(n))
    case Decided(n, decision) => IsKnown(r, ApprovalId(n)) && IsDecision(r, ApprovalId(n), decision)
    case Returned(n, decision) => ApprovalId(n) !in r.pending && IsDecision(r, ApprovalId(n), decision)
    case _ => IsKnown(r, ApprovalId(phase.n))
  }

  /** What was sent, unless the time was over. */
  predicate IsDecision(r: Registry, id: string, decision: Decision) {
    decision == TimedOut || (id in r.sent && r.sent[id] == decision)
  }

  predicate RequestersAreRight(s: State) {
    forall w :: 0 <= w < |s.requesters| ==> RequesterIsRight(s.registry, s.requesters[w].phase)
  }

  predicate Inv(s: State) {
    NumbersAreFresh(s) && PendingIsOwned(s) && ResolutionsAreSent(s) && RequestersAreRight(s)
  }
}
