/**
 The proxy as it runs: transactions are objects, the callbacks follow and clear their pointers in
 place, and nested callbacks are nested calls. Every method is proved to do exactly what the
 functions of `TransactionModel` say; that they say `Ok` is what a handler demands of its callers,
 and `Steps` tells when they do.
 */
module Proxy {
  import opened Wrappers
  import opened TransactionModel
  import opened Pairing
  import opened Steps

  /** A transaction object, with the structure the proxy attaches to it. */
  class Transaction {
    const id: nat
    const role: Role
    const verb: Method
    var state: TsxState
    var code: int
    var attached: bool
    var peer: Transaction?
    var sent: seq<Response>
    var locks: int

    constructor (id: nat, role: Role, verb: Method)
      ensures this.id == id && View() == NewTsx(role, verb) && peer == null
    {
      this.id, this.role, this.verb := id, role, verb;
      state, code, attached, peer, sent, locks := Null, 0, false, null, [], 0;
    }

    function View(): Tsx
      reads this
    {
      var pointer := if peer == null then None else Some(peer.id);
      Tsx(role, verb, state, code, if attached then Link(pointer) else Unset, sent, locks)
    }
  }

  /** The callback that a transaction's role selects. */
  function Callback(w: World, t: nat, src: Source): Outcome
    requires t < |w.tsxs|
  {
    if w.tsxs[t].role == Uas then UasCallback(w, t) else UacCallback(w, t, src)
  }

  class TransactionUser {
    var tsxs: seq<Transaction>
    var cancels: seq<CancelRecord>

    /** Every transaction sits at the position that is its name, and pointers stay inside. */
    ghost predicate Valid()
      reads this, tsxs
    {
      forall i: nat | i < |tsxs| ::
        tsxs[i].id == i && (tsxs[i].peer != null ==> Known(tsxs[i].peer))
    }

    ghost predicate Known(t: Transaction)
      reads this
    {
      t.id < |tsxs| && tsxs[t.id] == t
    }

    ghost function View(): World
      reads this, tsxs
    {
      World(seq(|tsxs|, i requires 0 <= i < |tsxs| reads this, tsxs => tsxs[i].View()), cancels)
    }

    constructor ()
      ensures Valid() && View() == World([], [])
    {
      tsxs, cancels := [], [];
    }

    /** Only `t` has changed. */
    twostate lemma Changed(t: Transaction)
      requires old(Valid()) && old(Known(t)) && tsxs == old(tsxs)
      requires forall o <- tsxs :: o != t ==> unchanged(o)
      requires t.peer != null ==> Known(t.peer)
      ensures Valid() && View() == old(View()).Put(t.id, t.View()).(cancels := cancels)
    {
      forall i: nat | i < |tsxs|
        ensures tsxs[i].id == i && (tsxs[i].peer != null ==> Known(tsxs[i].peer))
        ensures tsxs[i].View() == if i == t.id then t.View() else old(tsxs[i].View())
      {
        assert old(tsxs[i].id == i);
        assert tsxs[i] in tsxs;
      }
      assert View().tsxs == old(View()).tsxs[t.id := t.View()];
    }

    // ----- The transaction layer, as far as the proxy calls it -------------------------------

    /** Send a response on a server transaction, which moves towards `next`. */
    method SendMsg(tsx: Transaction, r: Response, next: TsxState)
      requires Valid() && Known(tsx)
      requires TransactionModel.SendMsg(View(), tsx.id, r, next).Ok?
      modifies tsxs
      ensures Valid()
      ensures View() == TransactionModel.SendMsg(old(View()), tsx.id, r, next).w
      decreases 1
    {
      tsx.state, tsx.code, tsx.sent := Advance(tsx.state, next), r.code, tsx.sent + [r];
      Changed(tsx);
      OnTsxState(tsx, TxMsg);
    }

    /** Terminate a server transaction. */
    method Terminate(tsx: Transaction, code: int)
      requires Valid() && Known(tsx)
      requires TransactionModel.Terminate(View(), tsx.id, code).Ok?
      modifies tsxs
      ensures Valid()
      ensures View() == TransactionModel.Terminate(old(View()), tsx.id, code).w
      decreases 1
    {
      tsx.state, tsx.code := Terminated, code;
      Changed(tsx);
      OnTsxState(tsx, User);
    }

    // ----- The callback ----------------------------------------------------------------------

    /** The state callback. From a client transaction it may re-enter itself, through the layer, for
        the server transaction, and from there no further. */
    method OnTsxState(tsx: Transaction, src: Source)
      requires Valid() && Known(tsx)
      requires Callback(View(), tsx.id, src).Ok?
      modifies tsxs
      ensures Valid()
      ensures View() == Callback(old(View()), tsx.id, src).w
      decreases if tsx.role == Uac then 3 else 0
    {
      if tsx.role == Uas {
        if tsx.state == Terminated {
          if tsx.peer != null {
            var uac := tsx.peer;
            uac.peer := null;
            Changed(uac);
          }
        }
        return;
      }
      if src.RxMsg? {
        if tsx.verb == Invite && tsx.code == 100 {
          return;
        }
        if src.fate.CreateFails? {
          return;
        }
        if src.fate.NoVia? {
          return;
        }
        SendMsg(tsx.peer, Relayed(tsx.code, tsx.id), src.fate.next);
      }
      OnUacTerminated(tsx, src);
    }

    /** The part of the callback that takes the server transaction along. */
    method OnUacTerminated(tsx: Transaction, src: Source)
      requires Valid() && Known(tsx)
      requires Propagate(View(), tsx.id, src).Ok?
      modifies tsxs
      ensures Valid()
      ensures View() == Propagate(old(View()), tsx.id, src).w
      decreases 2
    {
      if tsx.state == Terminated && tsx.attached && tsx.peer != null {
        var uas := tsx.peer;
        uas.peer := null;
        Changed(uas);
        if src.Timer? {
          if tsx.verb == Invite {
            SendMsg(uas, Generated(408), src.next);
          } else {
            Terminate(uas, 408);
          }
        } else if src.RxMsg? {
          if Rank(uas.state) < Rank(Terminated) {
            label unlinked:
            tsx.peer := null;
            Changed@unlinked(tsx);
            Terminate(uas, tsx.code);
          }
        }
      }
    }

    // ----- Requests --------------------------------------------------------------------------

    /** Add a transaction to the layer's table. */
    method Create(role: Role, verb: Method) returns (tsx: Transaction)
      requires Valid()
      modifies this`tsxs
      ensures Valid() && Known(tsx) && fresh(tsx) && tsxs == old(tsxs) + [tsx]
      ensures View() == old(View()).(tsxs := old(View()).tsxs + [NewTsx(role, verb)])
      ensures tsx.View() == NewTsx(role, verb)
    {
      tsx := new Transaction(|tsxs|, role, verb);
      tsxs := tsxs + [tsx];
      assert View().tsxs == old(View()).tsxs + [NewTsx(role, verb)];
    }

    /** The layer moves a transaction and reports it. */
    method Move(tsx: Transaction, next: TsxState, status: Option<int>, src: Source)
      requires Valid() && Known(tsx)
      requires status.Some? <==> tsx.role == Uac
      requires Moved(View(), tsx.id, next, status, src).Ok?
      modifies tsxs
      ensures Valid()
      ensures View() == Moved(old(View()), tsx.id, next, status, src).w
    {
      tsx.state := Advance(tsx.state, next);
      if status.Some? {
        tsx.code := status.value;
      }
      Changed(tsx);
      OnTsxState(tsx, src);
    }

    /** Give `tsx` its module data, pointing at `peer`. */
    method Attach(tsx: Transaction, peer: Transaction)
      requires Valid() && Known(tsx) && Known(peer)
      modifies tsx
      ensures Valid() && View() == old(View()).Put(tsx.id, old(tsx.View()).(data := Link(Some(peer.id))))
    {
      tsx.attached, tsx.peer := true, peer;
      Changed(tsx);
    }

    method AttachBoth(uac: Transaction, uas: Transaction)
      requires Valid() && Known(uac) && Known(uas) && uac != uas
      modifies uac, uas
      ensures Valid()
      ensures View() == old(View()).Put(uac.id, old(uac.View()).(data := Link(Some(uas.id))))
                                   .Put(uas.id, old(uas.View()).(data := Link(Some(uac.id))))
    {
      Attach(uac, uas);
      Attach(uas, uac);
    }

    /** Feed the request to a new server transaction, which reports that it is trying. */
    method Feed(uas: Transaction)
      requires Valid() && Known(uas) && uas.role == Uas && uas.state == Null
      modifies tsxs
      ensures Valid() && View() == old(View()).Put(uas.id, old(uas.View()).(state := Trying))
    {
      uas.state := Trying;
      Changed(uas);
      OnTsxState(uas, RxMsg(NoVia));
    }

    /** Create the server transaction, feed it the request, and tie the two together. */
    method Tie(uac: Transaction, m: Method, ghost before: World) returns (uas: Transaction)
      requires Valid() && Known(uac) && uac.id == |before.tsxs| == |tsxs| - 1
      requires View() == before.(tsxs := before.tsxs + [NewTsx(Uac, m)])
      modifies this`tsxs, tsxs
      ensures Valid() && Known(uac) && Known(uas) && uas.id == uac.id + 1
      ensures fresh(uas) && tsxs == old(tsxs) + [uas]
      ensures View() == Tied(before, m)
    {
      uas := Create(Uas, m);
      Feed(uas);
      assert View().tsxs[uac.id] == uac.View() && View().tsxs[uas.id] == uas.View();
      AttachBoth(uac, uas);
      assert View().tsxs == Tied(before, m).tsxs;
    }

    /** Handle a request that is to be forwarded statefully: a client transaction to forward it, a
        server transaction to answer it, and the two tied together before anything is sent. */
    method OnRequest(m: Method, how: Creation) returns (reply: Option<int>)
      requires Valid()
      modifies this`tsxs, tsxs
      ensures Valid()
      ensures Arrive(old(View()), m, how) == Ok(View())
      ensures reply == if how.Pair? then None else Some(500)
      ensures how.Pair? ==>
                var n := |old(tsxs)|;
                |tsxs| == n + 2 && AnsweredAtOnce(tsxs[n + 1].View(), how.sendOk, m, how.uasNext)
    {
      ghost var x := ArriveAdds(View(), m, how);
      if how.NoUac? {
        return Some(500);
      }
      ghost var before := View();
      var uac := Create(Uac, m);
      if how.NoUas? {
        Move(uac, Terminated, Some(500), User);
        return Some(500);
      }
      var uas := Tie(uac, m, before);
      Forward(uac, uas, m, how, before);
      assert View().tsxs[|before.tsxs| + 1] == x[1];
      return None;
    }

    /** Forward the request, and answer it if that fails or if it is an INVITE. */
    method Forward(uac: Transaction, uas: Transaction, m: Method, how: Creation, ghost before: World)
      requires Valid() && Known(uac) && Known(uas) && uac.id == |before.tsxs| && uas.id == uac.id + 1
      requires View() == Tied(before, m) && how.Pair?
      modifies tsxs
      ensures Valid()
      ensures Arrive(before, m, how) == Ok(View())
    {
      ghost var _ := ArriveAdds(before, m, how);
      Move(uac, how.uacNext, Some(how.uacStatus), if how.transportError then TransportError else TxMsg);
      if !how.sendOk {
        SendMsg(uas, Generated(500), how.uasNext);
        return;
      }
      if m == Invite {
        SendMsg(uas, Generated(100), how.uasNext);
      }
    }

    method Acquire(tsx: Transaction)
      requires Valid() && Known(tsx)
      modifies tsx
      ensures Valid() && View() == old(View()).Put(tsx.id, Locked(old(tsx.View()), 1))
      ensures tsx.View() == Locked(old(tsx.View()), 1) && tsx.peer == old(tsx.peer)
    {
      tsx.locks := tsx.locks + 1;
      Changed(tsx);
    }

    method Release(tsx: Transaction)
      requires Valid() && Known(tsx)
      modifies tsx
      ensures Valid() && View() == old(View()).Put(tsx.id, Locked(old(tsx.View()), -1))
      ensures tsx.View() == Locked(old(tsx.View()), -1) && tsx.peer == old(tsx.peer)
    {
      tsx.locks := tsx.locks - 1;
      Changed(tsx);
    }

    /** Build and send the downstream CANCEL under the lock of the client transaction. */
    method SendCancel(invite: Transaction, uac: Transaction)
      requires Valid() && Known(invite) && Known(uac) && invite.peer == uac && uac != invite
      modifies this`cancels, uac
      ensures Valid()
      ensures View() == old(View()).(cancels := old(View()).cancels +
                [CancelRecord(invite.id, uac.id, uac.state, uac.code, invite.locks, old(uac.locks) + 1)])
    {
      Acquire(uac);
      cancels := cancels + [CancelRecord(invite.id, uac.id, uac.state, uac.code, invite.locks, uac.locks)];
      Release(uac);
      assert View().tsxs == old(View()).tsxs;
    }

    /** Handle a CANCEL; the lookup has found `invite`, if anything, and locks it. */
    method OnCancel(invite: Transaction?) returns (reply: int)
      requires Valid() && (invite != null ==> Known(invite))
      requires invite != null ==> invite.role == Uas && CancelInvite(View(), invite.id).Ok?
      modifies this`cancels, tsxs
      ensures Valid()
      ensures View() == if invite == null then old(View()) else CancelInvite(old(View()), invite.id).w
      ensures reply == if invite == null then 481 else 200
    {
      if invite == null {
        return 481;
      }
      Acquire(invite);
      if invite.peer != null && invite.peer.code < 200 {
        SendCancel(invite, invite.peer);
      }
      Release(invite);
      return 200;
    }

    /** One outermost callback, from any world that a run can reach. */
    method Handle(e: Event)
      requires Valid() && Inv(View()) && Enabled(View(), e) && !Faulty(View(), e)
      modifies this, tsxs
      ensures Valid() && Inv(View())
      ensures Step(old(View()), e) == Ok(View())
      ensures old(Healthy(View())) ==> (Healthy(View()) <==> !old(Lossy(View(), e)))
    {
      StepVerdict(View(), e);
      match e
      case Request(m, how) => var _ := OnRequest(m, how);
      case UacEvent(c, next, status, src) => Move(tsxs[c], next, Some(status), src);
      case UasEvent(u, next) => Move(tsxs[u], next, None, User);
      case Cancel(found) => var _ := OnCancel(if found.Some? then tsxs[found.value] else null);
      case Destroy(t) =>
        tsxs[t].state := Destroyed;
        Changed(tsxs[t]);
    }
  }

  /** The layer's part of an event on either kind of transaction. */
  function Moved(w: World, t: nat, next: TsxState, status: Option<int>, src: Source): Outcome
    requires t < |w.tsxs| && (status.Some? <==> w.tsxs[t].role == Uac)
  {
    if status.Some? then MoveUac(w, t, next, status.value, src) else MoveUas(w, t, next)
  }
}
