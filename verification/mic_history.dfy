/**
 What may be seen of the microphone manager: a history of requests accepted, cancellations,
 dispatches, ACMP results and answers, and what it means for such a history to be safe.
 Nothing here mentions the machines or the queues.
 */
module MicHistory {
  import opened Words

  datatype Kind = Connector | Disconnector

  /** The four signals of ACMP events: a response or a timeout, to a connect or a disconnect command. */
  datatype Signal = ConnectRxResponse | ConnectTimeout | DisconnectRxResponse | DisconnectTimeout

  /** A terminal, with the entity id and the application address the manager reads from it. */
  datatype Terminal = Terminal(entityId: nat, address: nat)

  /** The call of a callback function, by its number, and its arguments. */
  datatype Delivery = Delivery(callback: nat, told: bool, user: Terminal, permissions: bv32)

  /** What became of the command of one dispatch: none was issued, or it was taken or refused. */
  datatype Reply = NotSent | Taken | Refused

  datatype Entry =
    | PassStart
    | Empty(kind: Kind, prior: nat)
    | Heard(kind: Kind, sig: Signal, status: int, talker: nat)
    | Granted(kind: Kind, prior: nat, id: nat, budget: Octet, spk: Terminal, permissions: bv32)
    | Cancelled(kind: Kind, prior: nat, id: nat)
    | Tried(kind: Kind, prior: nat, id: nat, sys: bv32, linked: bool, reply: Reply, handled: bool)
    | Answered(kind: Kind, prior: nat, id: nat, told: bool, linked: bool, delivered: Option<Delivery>)

  /** Oldest entry innermost. */
  datatype History = Nil | Snoc(init: History, last: Entry)

  /** The requests accepted for one queue, in order. */
  function Accepted(h: History, k: Kind, p: nat): seq<nat> {
    match h
    case Nil => []
    case Snoc(h', e) =>
      if e.Granted? && e.kind == k && e.prior == p then Accepted(h', k, p) + [e.id]
      else Accepted(h', k, p)
  }

  /** The requests of one queue that have been answered, in order. */
  function Done(h: History, k: Kind, p: nat): seq<nat> {
    match h
    case Nil => []
    case Snoc(h', e) =>
      if e.Answered? && e.kind == k && e.prior == p then Done(h', k, p) + [e.id]
      else Done(h', k, p)
  }

  /** What is known of the last command a machine had taken. */
  datatype Flight = Free | Waiting(prior: nat, id: nat) | Resolved(prior: nat, id: nat, ok: bool, talker: nat)

  /** A command succeeded when the response to a command of its kind has status 0. */
  predicate Succeeds(k: Kind, sig: Signal, status: int) {
    status == 0 && sig == if k.Connector? then ConnectRxResponse else DisconnectRxResponse
  }

  function InFlight(h: History, k: Kind): Flight {
    match h
    case Nil => Free
    case Snoc(h', e) =>
      if e.Tried? && e.kind == k && e.reply.Taken? then Waiting(e.prior, e.id)
      else if e.Tried? && e.kind == k && e.reply.Refused? then Free
      else if e.Answered? && e.kind == k then Free
      else if e.Heard? && e.kind == k && InFlight(h', k).Waiting? then
        Resolved(InFlight(h', k).prior, InFlight(h', k).id, Succeeds(k, e.sig, e.status), e.talker)
      else InFlight(h', k)
  }

  /** The retry budget a request was accepted with. */
  function Grant(h: History, k: Kind, p: nat, id: nat): Octet {
    match h
    case Nil => 0
    case Snoc(h', e) =>
      if e.Granted? && e.kind == k && e.prior == p && e.id == id then e.budget else Grant(h', k, p, id)
  }

  /** The terminal a request was accepted for. */
  function Target(h: History, k: Kind, p: nat, id: nat): Terminal {
    match h
    case Nil => Terminal(0, 0)
    case Snoc(h', e) =>
      if e.Granted? && e.kind == k && e.prior == p && e.id == id then e.spk else Target(h', k, p, id)
  }

  /** The permissions of a request: those it was accepted with, and none once it was cancelled. */
  function Entitled(h: History, k: Kind, p: nat, id: nat): bv32 {
    match h
    case Nil => 0
    case Snoc(h', e) =>
      if e == Cancelled(k, p, id) then 0
      else if e.Granted? && e.kind == k && e.prior == p && e.id == id then e.permissions
      else Entitled(h', k, p, id)
  }

  /** Dispatches of a request that issued a command and left it pending. */
  function Spent(h: History, k: Kind, p: nat, id: nat): nat {
    match h
    case Nil => 0
    case Snoc(h', e) =>
      Spent(h', k, p, id) +
      if e.Tried? && e.kind == k && e.prior == p && e.id == id && !e.reply.NotSent? && !e.handled then 1 else 0
  }

  /** What the eight-bit budget counter of a request shows. */
  function Remaining(h: History, k: Kind, p: nat, id: nat): Octet {
    (Grant(h, k, p, id) - Spent(h, k, p, id)) % 256
  }

  predicate IsCancelled(h: History, k: Kind, p: nat, id: nat) {
    match h
    case Nil => false
    case Snoc(h', e) => e == Cancelled(k, p, id) || IsCancelled(h', k, p, id)
  }

  /** Dispatches by one machine since the last pass began. */
  function TriedInPass(h: History, k: Kind): nat {
    match h
    case Nil => 0
    case Snoc(h', e) =>
      if e.PassStart? then 0
      else TriedInPass(h', k) + if e.Tried? && e.kind == k then 1 else 0
  }

  /** Whether the current pass found this queue empty. */
  predicate SeenEmpty(h: History, k: Kind, p: nat) {
    match h
    case Nil => false
    case Snoc(h', e) => !e.PassStart? && (e == Empty(k, p) || SeenEmpty(h', k, p))
  }

  /** The oldest request of a queue that has not been answered. */
  predicate IsOldest(h: History, k: Kind, p: nat, id: nat) {
    |Done(h, k, p)| < |Accepted(h, k, p)| && Accepted(h, k, p)[|Done(h, k, p)|] == id
  }

  /** Connected is what a connect request wants, disconnected what a disconnect request wants. */
  predicate AtGoal(k: Kind, linked: bool) {
    linked <==> k.Connector?
  }

  /** The system state word and the permissions share a bit. */
  predicate Permitted(sys: bv32, permissions: bv32) {
    sys & permissions != 0
  }

  /** The system state permits the request, and the terminal is not where it should be. */
  predicate MayCommand(h: History, e: Entry)
    requires e.Tried?
  {
    Permitted(e.sys, Entitled(h, e.kind, e.prior, e.id)) && !AtGoal(e.kind, e.linked)
  }

  /**
   When a dispatch may follow a history, and what it must do.
   One dispatch per machine and pass. With no command in flight the request is the oldest of a
   queue, and every higher-priority queue was found empty in this pass. With a command in flight
   no other request is dispatched, and no second command is issued before the result is in. The last
   two clauses say exactly when a dispatch issues a command and exactly when it settles the request.
   */
  predicate SafeTry(h: History, e: Entry)
    requires e.Tried?
  {
    var f := InFlight(h, e.kind);
    && TriedInPass(h, e.kind) == 0
    && IsOldest(h, e.kind, e.prior, e.id)
    && (f.Free? ==> forall p :: 0 <= p < e.prior ==> SeenEmpty(h, e.kind, p))
    && (!f.Free? ==> f.prior == e.prior && f.id == e.id)
    && (e.reply.NotSent? <==> f.Waiting? || (f.Resolved? && f.ok) || !MayCommand(h, e))
    && (e.handled <==>
        !f.Waiting? && ((f.Resolved? && f.ok) || !MayCommand(h, e) ||
                        (e.reply.Refused? && Remaining(h, e.kind, e.prior, e.id) == 0)))
  }

  /**
   An answer follows the dispatch that settled the request. It reports success exactly when a result
   with status 0 was credited to the request's command and its budget counter is not 0, or the
   terminal is in the wanted state at that moment. A callback is given that report, the terminal the
   request was accepted for, and its permissions.
   */
  predicate SafeAnswer(h: History, e: Entry)
    requires e.Answered?
  {
    var f := InFlight(h, e.kind);
    && IsOldest(h, e.kind, e.prior, e.id)
    && EndsSettled(h)
    && h.last.kind == e.kind && h.last.prior == e.prior && h.last.id == e.id
    && (e.told <==>
          || AtGoal(e.kind, e.linked)
          || (f.Resolved? && f.prior == e.prior && f.id == e.id && f.ok && Remaining(h, e.kind, e.prior, e.id) != 0))
    && (e.delivered.Some? ==>
          && e.delivered.value.told == e.told
          && e.delivered.value.user == Target(h, e.kind, e.prior, e.id)
          && e.delivered.value.permissions == Entitled(h, e.kind, e.prior, e.id))
  }

  /** The last entry settled a request that has not been answered yet. */
  predicate EndsSettled(h: History) {
    h.Snoc? && h.last.Tried? && h.last.handled
  }

  /** The signals that end a command of a machine. */
  predicate IsSignalOf(k: Kind, sig: Signal) {
    match k
    case Connector => sig.ConnectRxResponse? || sig.ConnectTimeout?
    case Disconnector => sig.DisconnectRxResponse? || sig.DisconnectTimeout?
  }

  predicate SafeEntry(h: History, e: Entry) {
    && (EndsSettled(h) ==> e.Answered?)
    && match e
    case Tried(_, _, _, _, _, _, _) => SafeTry(h, e)
    case Answered(_, _, _, _, _, _) => SafeAnswer(h, e)
    case Heard(k, sig, _, _) => InFlight(h, k).Waiting? && IsSignalOf(k, sig)
    case Cancelled(k, p, id) => id in Accepted(h, k, p)
    case Granted(k, p, id, _, _, _) => forall i :: 0 <= i < |Accepted(h, k, p)| ==> Accepted(h, k, p)[i] < id
    case _ => true
  }

  predicate SafeHistory(h: History) {
    h.Nil? || (SafeHistory(h.init) && SafeEntry(h.init, h.last))
  }
}
