/**
 The transactions of the stateful proxy and what its callbacks do to them, as functions from
 one world to the next.

 A world lists every transaction ever created; a transaction is named by its position. The two
 structures that the proxy hangs on a transaction (`uac_data` and `uas_data`) hold one back
 pointer each, so they are folded into the field `data`. Memory errors are explicit: a step
 that would follow a bad pointer yields `Fail`.

 The transaction layer itself is the environment. Wherever it decides something (which state a
 transaction moves to, whether a response can be built), the choice is a parameter.
 */
module TransactionModel {
  import opened Wrappers

  datatype TsxState =
    | Null | Calling | Trying | Proceeding | Completed | Confirmed | Terminated | Destroyed

  function Rank(s: TsxState): nat {
    match s
    case Null => 0
    case Calling => 1
    case Trying => 2
    case Proceeding => 3
    case Completed => 4
    case Confirmed => 5
    case Terminated => 6
    case Destroyed => 7
  }

  /** The state a transaction in `s` reaches when the layer asks for `next`: never backwards, and
      never past `Terminated`, because destruction is a step of its own. */
  function Advance(s: TsxState, next: TsxState): TsxState {
    if Rank(next) <= Rank(s) then s else if next == Destroyed then Terminated else next
  }

  datatype Role = Uac | Uas

  datatype Method = Invite | NonInvite

  /** A response sent on a server transaction: relayed from the client transaction `from`, or made
      by the proxy itself. */
  datatype Response = Relayed(code: int, from: nat) | Generated(code: int)

  /** What `mod_data[mod_tu.id]` points to: nothing yet, or a structure with one back pointer. */
  datatype ModData = Unset | Link(peer: Option<nat>)

  datatype Tsx = Tsx(
    role: Role,
    verb: Method,
    state: TsxState,
    code: int,
    data: ModData,
    sent: seq<Response>,
    locks: int)
  {
    predicate Live() {
      state != Terminated && state != Destroyed
    }

    predicate PointsTo(t: nat) {
      data == Link(Some(t))
    }
  }

  /** What held at the moment a downstream CANCEL was built. */
  datatype CancelRecord = CancelRecord(
    uas: nat,
    uac: nat,
    uacState: TsxState,
    uacCode: int,
    uasLocks: int,
    uacLocks: int)

  datatype World = World(tsxs: seq<Tsx>, cancels: seq<CancelRecord>) {
    predicate Has(t: nat, role: Role) {
      t < |tsxs| && tsxs[t].role == role
    }

    function Put(t: nat, x: Tsx): World
      requires t < |tsxs|
    {
      this.(tsxs := tsxs[t := x])
    }
  }

  datatype Fault =
    | WildPointer        // a pointer to no transaction of the expected role
    | NoData             // the module data was never attached
    | NullPartner        // a response is to be sent on a NULL transaction
    | DeadPartner        // the transaction followed is already destroyed
    | AlreadyTerminated  // a terminated transaction is asked to send or to terminate
    | NoLastMessage      // the last message is to be reused and there is none

  datatype Outcome = Ok(w: World) | Fail(fault: Fault) {
    predicate IsFailure() {
      Fail?
    }

    function PropagateFailure(): Outcome
      requires Fail?
    {
      this
    }

    function Extract(): World
      requires Ok?
    {
      w
    }
  }

  /** What happens to a received response on its way upstream. */
  datatype Fate =
    | CreateFails              // the copy to forward cannot be built
    | NoVia                    // the copy has no Via left
    | Relay(next: TsxState)    // it is sent; the server transaction moves towards `next`

  /** The source of a transaction event. A timer event also carries where a 408 would take the
      server transaction. */
  datatype Source =
    | Timer(next: TsxState)
    | TxMsg
    | RxMsg(fate: Fate)
    | TransportError
    | User

  // ----- Server transactions ---------------------------------------------------------------

  /** The callback for a server transaction: once terminated, it clears its partner's pointer. */
  function UasCallback(w: World, u: nat): Outcome
    requires u < |w.tsxs|
  {
    if w.tsxs[u].state != Terminated then
      Ok(w)
    else
      match w.tsxs[u].data
      case Unset => Fail(NoData)
      case Link(None) => Ok(w)
      case Link(Some(c)) =>
        if !w.Has(c, Uac) then Fail(WildPointer)
        else if w.tsxs[c].state == Destroyed then Fail(DeadPartner)
        else if w.tsxs[c].data.Unset? then Fail(NoData)
        else Ok(w.Put(c, w.tsxs[c].(data := Link(None))))
  }

  /** Only a server transaction that has not terminated can be used. */
  function Usable(w: World, u: nat): Outcome {
    if !w.Has(u, Uas) then Fail(WildPointer)
    else if w.tsxs[u].state == Destroyed then Fail(DeadPartner)
    else if w.tsxs[u].state == Terminated then Fail(AlreadyTerminated)
    else Ok(w)
  }

  /** Send `r` on the server transaction `u`, which moves towards `next`; its callback runs inside. */
  function SendMsg(w: World, u: nat, r: Response, next: TsxState): Outcome {
    var w :- Usable(w, u);
    var t := w.tsxs[u];
    UasCallback(w.Put(u, t.(state := Advance(t.state, next), code := r.code, sent := t.sent + [r])), u)
  }

  /** Terminate the server transaction `u`; its callback runs inside. */
  function Terminate(w: World, u: nat, code: int): Outcome {
    var w :- Usable(w, u);
    UasCallback(w.Put(u, w.tsxs[u].(state := Terminated, code := code)), u)
  }

  // ----- Client transactions ---------------------------------------------------------------

  /** A received response that the callback gives up on before it reaches the end. */
  predicate Dropped(c: Tsx, src: Source) {
    src.RxMsg? && ((c.verb == Invite && c.code == 100) || !src.fate.Relay?)
  }

  /** The second half of the callback: a terminated client transaction takes its partner along. */
  function Propagate(w: World, c: nat, src: Source): Outcome
    requires c < |w.tsxs|
  {
    if w.tsxs[c].state == Terminated && w.tsxs[c].data.Link? && w.tsxs[c].data.peer.Some? then
      var u := w.tsxs[c].data.peer.value;
      if !w.Has(u, Uas) then Fail(WildPointer)
      else if w.tsxs[u].state == Destroyed then Fail(DeadPartner)
      else if w.tsxs[u].data.Unset? then Fail(NoData)
      else
        var w1 := w.Put(u, w.tsxs[u].(data := Link(None)));
        match src
        case Timer(next) =>
          if w.tsxs[c].verb == Invite then
            if w.tsxs[u].sent == [] then Fail(NoLastMessage)
            else SendMsg(w1, u, Generated(408), next)
          else
            Terminate(w1, u, 408)
        case RxMsg(_) =>
          if w1.tsxs[u].Live() then
            Terminate(w1.Put(c, w1.tsxs[c].(data := Link(None))), u, w.tsxs[c].code)
          else
            Ok(w1)
        case _ => Ok(w1)
    else
      Ok(w)
  }

  /** The callback for a client transaction. The pointer is read again after the send, whose
      nested callback may have cleared it. */
  function UacCallback(w: World, c: nat, src: Source): Outcome
    requires c < |w.tsxs|
  {
    if Dropped(w.tsxs[c], src) then
      Ok(w)
    else if src.RxMsg? then
      match w.tsxs[c].data
      case Unset => Fail(NoData)
      case Link(None) => Fail(NullPartner)
      case Link(Some(u)) =>
        var w1 :- SendMsg(w, u, Relayed(w.tsxs[c].code, c), src.fate.next);
        Propagate(w1, c, src)
    else
      Propagate(w, c, src)
  }

  /** The layer moves the client transaction `c` towards `next` and reports it. */
  function MoveUac(w: World, c: nat, next: TsxState, status: int, src: Source): Outcome
    requires c < |w.tsxs|
  {
    var t := w.tsxs[c];
    UacCallback(w.Put(c, t.(state := Advance(t.state, next), code := status)), c, src)
  }

  // ----- Steps -----------------------------------------------------------------------------

  /** How far the handling of a new request gets once it is to be forwarded. */
  datatype Creation =
    | NoUac
    | NoUas
    | Pair(sendOk: bool, uacNext: TsxState, uacStatus: int, transportError: bool, uasNext: TsxState)

  function NewTsx(role: Role, verb: Method): Tsx {
    Tsx(role, verb, Null, 0, Unset, [], 0)
  }

  /** A new client and a new server transaction at the end of the world, tied to each other. */
  function Tied(w: World, m: Method): World {
    var c := |w.tsxs|;
    w.(tsxs := w.tsxs + [
      NewTsx(Uac, m).(data := Link(Some(c + 1))),
      NewTsx(Uas, m).(state := Trying, data := Link(Some(c)))])
  }

  function Arrive(w: World, m: Method, how: Creation): Outcome {
    var c := |w.tsxs|;
    match how
    case NoUac => Ok(w)
    case NoUas => MoveUac(w.(tsxs := w.tsxs + [NewTsx(Uac, m)]), c, Terminated, 500, User)
    case Pair(sendOk, uacNext, uacStatus, transportError, uasNext) =>
      var w1 :- MoveUac(Tied(w, m), c, uacNext, uacStatus, if transportError then TransportError else TxMsg);
      if !sendOk then SendMsg(w1, c + 1, Generated(500), uasNext)
      else if m == Invite then SendMsg(w1, c + 1, Generated(100), uasNext)
      else Ok(w1)
  }

  function MoveUas(w: World, u: nat, next: TsxState): Outcome
    requires u < |w.tsxs|
  {
    var t := w.tsxs[u];
    UasCallback(w.Put(u, t.(state := Advance(t.state, next))), u)
  }

  function Locked(t: Tsx, delta: int): Tsx {
    t.(locks := t.locks + delta)
  }

  /** A CANCEL that matched the server transaction `u`, which the lookup has locked. */
  function CancelInvite(w: World, u: nat): Outcome
    requires u < |w.tsxs|
  {
    var w1 := w.Put(u, Locked(w.tsxs[u], 1));
    var w2 :- match w1.tsxs[u].data
              case Unset => Fail(NoData)
              case Link(None) => Ok(w1)
              case Link(Some(c)) =>
                if !w1.Has(c, Uac) then Fail(WildPointer)
                else if w1.tsxs[c].state == Destroyed then Fail(DeadPartner)
                else if w1.tsxs[c].code < 200 then
                  var w2 := w1.Put(c, Locked(w1.tsxs[c], 1));
                  var record := CancelRecord(u, c, w2.tsxs[c].state, w2.tsxs[c].code,
                                             w2.tsxs[u].locks, w2.tsxs[c].locks);
                  Ok(w2.Put(c, Locked(w2.tsxs[c], -1)).(cancels := w2.cancels + [record]))
                else Ok(w1);
    Ok(w2.Put(u, Locked(w2.tsxs[u], -1)))
  }

  /** One outermost callback, with everything nested inside it. */
  datatype Event =
    | Request(verb: Method, how: Creation)
    | UacEvent(uac: nat, next: TsxState, status: int, src: Source)
    | UasEvent(uas: nat, next: TsxState)
    | Cancel(invite: Option<nat>)
    | Destroy(tsx: nat)

  /** What the layer may do next: report on a transaction that has not terminated, find an INVITE
      server transaction that is not destroyed, destroy one that has terminated. */
  predicate Enabled(w: World, e: Event) {
    match e
    case Request(_, _) => true
    case UacEvent(c, _, _, _) => w.Has(c, Uac) && w.tsxs[c].Live()
    case UasEvent(u, _) => w.Has(u, Uas) && w.tsxs[u].Live()
    case Cancel(None) => true
    case Cancel(Some(u)) => w.Has(u, Uas) && w.tsxs[u].verb == Invite && w.tsxs[u].state != Destroyed
    case Destroy(t) => t < |w.tsxs| && w.tsxs[t].state == Terminated
  }

  function Step(w: World, e: Event): Outcome
    requires Enabled(w, e)
  {
    match e
    case Request(m, how) => Arrive(w, m, how)
    case UacEvent(c, next, status, src) => MoveUac(w, c, next, status, src)
    case UasEvent(u, next) => MoveUas(w, u, next)
    case Cancel(None) => Ok(w)
    case Cancel(Some(u)) => CancelInvite(w, u)
    case Destroy(t) => Ok(w.Put(t, w.tsxs[t].(state := Destroyed)))
  }
}
