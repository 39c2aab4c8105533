/**
 What every step of the proxy keeps: client and server transactions come in pairs, and two
 transactions that have not terminated point at each other or the partner has terminated.
 */
module Pairing {
  import opened Wrappers
  import opened TransactionModel

  /** `c` and `u` were created for the same request, `c` at position `i` and `u` right after it:
      neither ever points anywhere else, and only responses of `c` were relayed on `u`. */
  ghost predicate Shaped(i: nat, c: Tsx, u: Tsx) {
    && c.role == Uac && u.role == Uas && c.verb == u.verb
    && c.data.Link? && (c.data.peer.Some? ==> c.PointsTo(i + 1))
    && u.data.Link? && (u.data.peer.Some? ==> u.PointsTo(i))
    && c.sent == [] && (forall r <- u.sent :: r.Relayed? ==> r.from == i)
    && c.locks == 0 && u.locks == 0
  }

  /** While one of the pair has not terminated, it points at the other exactly if that one has
      not terminated either. */
  ghost predicate Bound(i: nat, c: Tsx, u: Tsx) {
    && Shaped(i, c, u)
    && (c.Live() ==> (c.PointsTo(i + 1) <==> u.Live()))
    && (u.Live() ==> (u.PointsTo(i) <==> c.Live()))
  }

  /** An INVITE has been answered with something, if only a 100. */
  predicate Answered(u: Tsx) {
    u.verb == Invite ==> u.sent != []
  }

  /** A client transaction whose server transaction could not be created: terminated at once. */
  predicate Orphan(c: Tsx) {
    c.role == Uac && c.data == Unset && !c.Live() && c.sent == [] && c.locks == 0
  }

  /** A CANCEL went to the client transaction of its INVITE, which had no final status and was not
      destroyed, while both were locked. */
  predicate RecordOk(r: CancelRecord) {
    r.uas == r.uac + 1 && r.uacState != Destroyed && r.uacCode < 200 && r.uasLocks == 1 && r.uacLocks == 1
  }

  /** Position `i` holds an orphan or belongs to a pair that satisfies `ok`. */
  ghost predicate Slot(w: World, i: nat, ok: (nat, Tsx, Tsx) -> bool)
    requires i < |w.tsxs|
  {
    match w.tsxs[i].role
    case Uac => Orphan(w.tsxs[i]) || (i + 1 < |w.tsxs| && ok(i, w.tsxs[i], w.tsxs[i + 1]))
    case Uas => i > 0 && ok(i - 1, w.tsxs[i - 1], w.tsxs[i])
  }

  /** The client transaction terminated on a response that was dropped: the server transaction was
      not told, and still points at it. */
  ghost predicate Lost(i: nat, c: Tsx, u: Tsx) {
    Shaped(i, c, u) && !c.Live() && u.Live() && u.PointsTo(i)
  }

  ghost predicate PairOk(i: nat, c: Tsx, u: Tsx) {
    (Bound(i, c, u) || Lost(i, c, u)) && Answered(u)
  }

  /** What holds in every run, whatever the environment does. */
  ghost predicate Inv(w: World) {
    && (forall i: nat | i < |w.tsxs| :: Slot(w, i, PairOk))
    && (forall r <- w.cancels :: RecordOk(r))
  }

  /** What holds in addition as long as no terminating response is dropped. */
  ghost predicate Healthy(w: World) {
    forall i: nat | i < |w.tsxs| :: Slot(w, i, Bound)
  }

  // ----- Steps as one flat update of a pair --------------------------------------------------

  /** The whole effect of one client transaction event on its pair, with no nesting left. */
  function FlatUac(i: nat, c: Tsx, u: Tsx, next: TsxState, status: int, src: Source): (Tsx, Tsx) {
    var c1 := c.(state := Advance(c.state, next), code := status);
    var alone := c1.(data := Link(None));
    var freed := u.(data := Link(None));
    if Dropped(c1, src) then (c1, u)
    else match src
      case RxMsg(fate) =>
        var relayed := u.(sent := u.sent + [Relayed(status, i)], code := status,
                          state := Advance(u.state, fate.next));
        if !relayed.Live() then (alone, relayed)
        else if c1.Live() then (c1, relayed)
        else (alone, relayed.(state := Terminated, data := Link(None)))
      case Timer(n) =>
        if c1.Live() || !u.Live() then (c1, u)
        else if c.verb == Invite then
          (c1, freed.(sent := u.sent + [Generated(408)], code := 408, state := Advance(u.state, n)))
        else (c1, freed.(state := Terminated, code := 408))
      case _ =>
        if c1.Live() || !u.Live() then (c1, u) else (c1, freed)
  }

  /** The whole effect of one server transaction event on its pair. */
  function FlatUas(i: nat, c: Tsx, u: Tsx, next: TsxState): (Tsx, Tsx) {
    var u1 := u.(state := Advance(u.state, next));
    if u1.Live() || !u.PointsTo(i) then (c, u1) else (c.(data := Link(None)), u1)
  }

  function PutPair(w: World, i: nat, p: (Tsx, Tsx)): World
    requires i + 1 < |w.tsxs|
  {
    w.Put(i, p.0).Put(i + 1, p.1)
  }

  /** A relayed response needs a server transaction to send it on. */
  predicate Stranded(c: Tsx, u: Tsx, status: int, src: Source) {
    src.RxMsg? && !Dropped(c.(code := status), src) && !u.Live()
  }

  /** A server transaction is about to terminate while its client transaction is gone already. */
  predicate Forsaken(c: Tsx, u: Tsx, next: TsxState) {
    u.data.Link? && u.data.peer.Some? && Advance(u.state, next) == Terminated && c.state == Destroyed
  }

  /** Sending on a server transaction that has not terminated, with the nested callback unfolded. */
  lemma SendIsFlat(w: World, i: nat, r: Response, next: TsxState)
    requires w.Has(i, Uac) && w.tsxs[i].data.Link? && w.tsxs[i].state != Destroyed
    requires w.Has(i + 1, Uas) && w.tsxs[i + 1].Live()
    requires w.tsxs[i + 1].data == Link(None) || w.tsxs[i + 1].PointsTo(i)
    ensures var u := w.tsxs[i + 1].(state := Advance(w.tsxs[i + 1].state, next), code := r.code,
                                    sent := w.tsxs[i + 1].sent + [r]);
            var c := if u.state == Terminated && u.data.peer.Some? then w.tsxs[i].(data := Link(None)) else w.tsxs[i];
            SendMsg(w, i + 1, r, next) == Ok(PutPair(w, i, (c, u)))
  {
    assert w.Put(i, w.tsxs[i]) == w;
  }

  lemma RelayIsFlat(w: World, i: nat, fate: Fate)
    requires i + 1 < |w.tsxs|
    requires var c, u := w.tsxs[i], w.tsxs[i + 1];
             c.role == Uac && c.PointsTo(i + 1) && c.state != Destroyed && u.role == Uas && u.PointsTo(i) && u.Live()
    requires !Dropped(w.tsxs[i], RxMsg(fate))
    ensures var c, u := w.tsxs[i], w.tsxs[i + 1];
            var relayed := u.(sent := u.sent + [Relayed(c.code, i)], code := c.code, state := Advance(u.state, fate.next));
            UacCallback(w, i, RxMsg(fate)) ==
            Ok(PutPair(w, i,
              if !relayed.Live() then (c.(data := Link(None)), relayed)
              else if c.Live() then (c, relayed)
              else (c.(data := Link(None)), relayed.(state := Terminated, data := Link(None)))))
  {
    SendIsFlat(w, i, Relayed(w.tsxs[i].code, i), fate.next);
  }

  /** The re-entrant callback has exactly the flat effect, and the only way it goes wrong is a
      response that finds its server transaction terminated. */
  lemma UacEventIsFlat(w: World, i: nat, next: TsxState, status: int, src: Source)
    requires i + 1 < |w.tsxs| && Bound(i, w.tsxs[i], w.tsxs[i + 1]) && w.tsxs[i].Live()
    requires src.Timer? ==> Answered(w.tsxs[i + 1])
    ensures MoveUac(w, i, next, status, src) ==
            if Stranded(w.tsxs[i], w.tsxs[i + 1], status, src) then Fail(NullPartner)
            else Ok(PutPair(w, i, FlatUac(i, w.tsxs[i], w.tsxs[i + 1], next, status, src)))
  {
    var c, u := w.tsxs[i], w.tsxs[i + 1];
    var c1 := c.(state := Advance(c.state, next), code := status);
    var w1 := w.Put(i, c1);
    assert w1 == PutPair(w, i, (c1, u));
    match src
    case RxMsg(fate) =>
      if !Dropped(c1, src) && u.Live() {
        RelayIsFlat(w1, i, fate);
      }
    case Timer(n) =>
      if !c1.Live() && u.Live() && c.verb == Invite {
        SendIsFlat(w1.Put(i + 1, u.(data := Link(None))), i, Generated(408), n);
      }
    case _ =>
  }

  /** A server transaction that terminates goes wrong exactly if it still points at a destroyed
      client transaction. */
  lemma UasEventIsFlat(w: World, i: nat, next: TsxState)
    requires i + 1 < |w.tsxs| && w.tsxs[i + 1].Live()
    requires Bound(i, w.tsxs[i], w.tsxs[i + 1]) || Lost(i, w.tsxs[i], w.tsxs[i + 1])
    ensures MoveUas(w, i + 1, next) ==
            if Forsaken(w.tsxs[i], w.tsxs[i + 1], next) then Fail(DeadPartner)
            else Ok(PutPair(w, i, FlatUas(i, w.tsxs[i], w.tsxs[i + 1], next)))
  {
    assert w.Put(i, w.tsxs[i]) == w;
  }

  lemma CancelIsFlat(w: World, i: nat)
    requires i + 1 < |w.tsxs| && Shaped(i, w.tsxs[i], w.tsxs[i + 1])
    ensures var c, u := w.tsxs[i], w.tsxs[i + 1];
            CancelInvite(w, i + 1) ==
            if u.PointsTo(i) && c.state == Destroyed then Fail(DeadPartner)
            else if u.PointsTo(i) && c.code < 200 then
              Ok(w.(cancels := w.cancels + [CancelRecord(i + 1, i, c.state, c.code, 1, 1)]))
            else Ok(w)
  {
    var c, u := w.tsxs[i], w.tsxs[i + 1];
    assert w.tsxs[i + 1 := Locked(u, 1)][i + 1 := u] == w.tsxs;
    assert w.tsxs[i + 1 := Locked(u, 1)][i := Locked(c, 1)][i := c][i + 1 := u] == w.tsxs;
    assert Locked(Locked(u, 1), -1) == u;
    assert Locked(Locked(c, 1), -1) == c;
  }

  // ----- Steps and the invariants ------------------------------------------------------------

  /** A response that terminates the client transaction is dropped, so that nothing tells the
      server transaction, which has not terminated. */
  predicate Loses(c: Tsx, u: Tsx, next: TsxState, status: int, src: Source) {
    Dropped(c.(code := status), src) && Advance(c.state, next) == Terminated && u.Live()
  }

  /** A client transaction event keeps the pair bound, unless it loses a terminating response. */
  lemma FlatUacKeeps(i: nat, c: Tsx, u: Tsx, next: TsxState, status: int, src: Source)
    requires Bound(i, c, u) && c.Live() && !Stranded(c, u, status, src)
    ensures var p := FlatUac(i, c, u, next, status, src);
            && (if Loses(c, u, next, status, src) then Lost(i, p.0, p.1) else Bound(i, p.0, p.1))
            && (Answered(u) ==> Answered(p.1))
  {
    var p := FlatUac(i, c, u, next, status, src);
    assert u.sent <= p.1.sent;
  }

  lemma FlatUasKeeps(i: nat, c: Tsx, u: Tsx, next: TsxState)
    requires u.Live() && !Forsaken(c, u, next)
    ensures var p := FlatUas(i, c, u, next);
            && (Bound(i, c, u) ==> Bound(i, p.0, p.1))
            && (PairOk(i, c, u) ==> PairOk(i, p.0, p.1))
  {
  }

  /** Only the pair that changed has to be looked at again. */
  lemma PutPairKeeps(w: World, i: nat, p: (Tsx, Tsx), ok: (nat, Tsx, Tsx) -> bool)
    requires i + 1 < |w.tsxs|
    requires forall k: nat | k < |w.tsxs| && k != i && k != i + 1 :: Slot(w, k, ok)
    requires forall j, c, u :: ok(j, c, u) ==> c.role == Uac && u.role == Uas
    requires w.tsxs[i].role == p.0.role == Uac && w.tsxs[i + 1].role == p.1.role == Uas && p.0.data.Link?
    ensures (forall k: nat | k < |w.tsxs| :: Slot(PutPair(w, i, p), k, ok)) <==> ok(i, p.0, p.1)
  {
    var w' := PutPair(w, i, p);
    assert w'.tsxs[i] == p.0 && w'.tsxs[i + 1] == p.1;
    if ok(i, p.0, p.1) {
      forall k: nat | k < |w.tsxs| ensures Slot(w', k, ok) {
        if k != i && k != i + 1 {
          assert Slot(w, k, ok);
        }
      }
    } else {
      assert !Slot(w', i, ok);
    }
  }
}
