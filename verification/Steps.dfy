/**
 Every step of the proxy, judged against the invariants: exactly when it goes wrong, and exactly
 when it leaves a pair in a state the proxy cannot recover from.
 */
module Steps {
  import opened Wrappers
  import opened TransactionModel
  import opened Pairing

  /** The three events that make a handler follow a bad pointer: a response for a client transaction
      whose server transaction has terminated, and, for a server transaction that still points at a
      destroyed client transaction, its termination and a CANCEL. */
  predicate Faulty(w: World, e: Event)
    requires Enabled(w, e)
  {
    match e
    case UacEvent(c, _, status, src) => c + 1 < |w.tsxs| && Stranded(w.tsxs[c], w.tsxs[c + 1], status, src)
    case UasEvent(u, next) => u > 0 && Forsaken(w.tsxs[u - 1], w.tsxs[u], next)
    case Cancel(Some(u)) => u > 0 && w.tsxs[u].PointsTo(u - 1) && w.tsxs[u - 1].state == Destroyed
    case _ => false
  }

  /** The event that breaks a pair: a terminating response is dropped. */
  predicate Lossy(w: World, e: Event)
    requires Enabled(w, e)
  {
    match e
    case UacEvent(c, next, status, src) =>
      c + 1 < |w.tsxs| && Loses(w.tsxs[c], w.tsxs[c + 1], next, status, src)
    case _ => false
  }

  /** New transactions at the end of the world do not disturb the others. */
  lemma AppendKeeps(w: World, x: seq<Tsx>, ok: (nat, Tsx, Tsx) -> bool)
    requires forall i: nat | i < |w.tsxs| :: Slot(w, i, ok)
    requires x == [] || (|x| == 1 && Orphan(x[0]))
             || (|x| == 2 && x[0].role == Uac && x[1].role == Uas && ok(|w.tsxs|, x[0], x[1]))
    ensures var w' := w.(tsxs := w.tsxs + x);
            forall i: nat | i < |w'.tsxs| :: Slot(w', i, ok)
  {
    var w' := w.(tsxs := w.tsxs + x);
    forall i: nat | i < |w'.tsxs| ensures Slot(w', i, ok) {
      if i < |w.tsxs| {
        assert Slot(w, i, ok);
      }
    }
  }

  /** Sending the request binds the new pair, and leaves its server transaction usable. */
  lemma NewPairIsBound(w: World, m: Method, next: TsxState, status: int, src: Source)
    returns (p: (Tsx, Tsx))
    requires src == TransportError || src == TxMsg
    ensures MoveUac(Tied(w, m), |w.tsxs|, next, status, src) == Ok(w.(tsxs := w.tsxs + [p.0, p.1]))
    ensures Bound(|w.tsxs|, p.0, p.1) && p.0.state != Destroyed && p.1.Live()
    ensures p.0.verb == m && p.0.state == Advance(Null, next) && p.0.code == status
    ensures p.1.verb == m && p.1.sent == [] && p.1.state == Trying && p.1.code == 0
  {
    var c, w0 := |w.tsxs|, Tied(w, m);
    p := FlatUac(c, w0.tsxs[c], w0.tsxs[c + 1], next, status, src);
    UacEventIsFlat(w0, c, next, status, src);
    FlatUacKeeps(c, w0.tsxs[c], w0.tsxs[c + 1], next, status, src);
    assert PutPair(w0, c, p).tsxs == w.tsxs + [p.0, p.1];
  }

  /** The first answer on the server transaction of a new pair. */
  lemma FirstAnswer(w: World, p: (Tsx, Tsx), code: int, next: TsxState) returns (q: (Tsx, Tsx))
    requires Bound(|w.tsxs|, p.0, p.1) && p.0.state != Destroyed && p.1.Live()
    ensures SendMsg(w.(tsxs := w.tsxs + [p.0, p.1]), |w.tsxs| + 1, Generated(code), next)
            == Ok(w.(tsxs := w.tsxs + [q.0, q.1]))
    ensures Bound(|w.tsxs|, q.0, q.1) && q.0.state != Destroyed && q.1.state != Destroyed
    ensures q.0.(data := p.0.data) == p.0 && q.1.verb == p.1.verb
    ensures q.1.sent == p.1.sent + [Generated(code)] && q.1.code == code && q.1.state == Advance(p.1.state, next)
  {
    var c, w1 := |w.tsxs|, w.(tsxs := w.tsxs + [p.0, p.1]);
    assert w1.tsxs[c] == p.0 && w1.tsxs[c + 1] == p.1;
    SendIsFlat(w1, c, Generated(code), next);
    var w2 := SendMsg(w1, c + 1, Generated(code), next).w;
    q := (w2.tsxs[c], w2.tsxs[c + 1]);
    assert w2.tsxs == w.tsxs + [q.0, q.1];
  }

  /** The code that a new server transaction is answered with at once: 500 if the request could not be
      sent, and otherwise 100 for an INVITE and none for anything else. */
  predicate AnsweredAtOnce(u: Tsx, sendOk: bool, m: Method, next: TsxState) {
    && (!sendOk ==> u.sent == [Generated(500)] && u.code == 500)
    && (sendOk && m == Invite ==> u.sent == [Generated(100)] && u.code == 100)
    && (sendOk && m == NonInvite ==> u.sent == [] && u.code == 0 && u.state == Trying)
    && (u.sent != [] ==> u.state == Advance(Trying, next))
  }

  /** A new request never goes wrong and touches no other transaction. It adds nothing without a client
      transaction, one terminated with 500 without a server transaction, and otherwise one bound pair:
      the client transaction as sending left it, the server transaction answered as it should be. */
  lemma ArriveAdds(w: World, m: Method, how: Creation) returns (x: seq<Tsx>)
    ensures Arrive(w, m, how) == Ok(w.(tsxs := w.tsxs + x))
    ensures x == [] || (|x| == 1 && Orphan(x[0]))
            || (|x| == 2 && Bound(|w.tsxs|, x[0], x[1]) && Answered(x[1]))
    ensures forall t <- x :: t.state != Destroyed && (forall r <- t.sent :: r.Generated?)
    ensures how.NoUac? ==> x == []
    ensures how.NoUas? ==> x == [Tsx(Uac, m, Terminated, 500, Unset, [], 0)]
    ensures how.Pair? ==>
              && |x| == 2 && x[0].verb == x[1].verb == m
              && x[0].state == Advance(Null, how.uacNext) && x[0].code == how.uacStatus
              && AnsweredAtOnce(x[1], how.sendOk, m, how.uasNext)
  {
    match how
    case NoUac =>
      x := [];
      assert w.tsxs + x == w.tsxs;
    case NoUas =>
      x := [NewTsx(Uac, m).(state := Terminated, code := 500)];
      assert w.tsxs + x == (w.tsxs + [NewTsx(Uac, m)])[|w.tsxs| := x[0]];
    case Pair(sendOk, uacNext, uacStatus, transportError, uasNext) =>
      var p := NewPairIsBound(w, m, uacNext, uacStatus, if transportError then TransportError else TxMsg);
      if !sendOk || m == Invite {
        p := FirstAnswer(w, p, if sendOk then 100 else 500, uasNext);
      }
      x := [p.0, p.1];
  }

  lemma PairOf(w: World, t: nat)
    requires Inv(w) && t < |w.tsxs| && w.tsxs[t].Live()
    ensures w.tsxs[t].role == Uac ==> t + 1 < |w.tsxs| && PairOk(t, w.tsxs[t], w.tsxs[t + 1])
    ensures w.tsxs[t].role == Uas ==> t > 0 && PairOk(t - 1, w.tsxs[t - 1], w.tsxs[t])
  {
    assert Slot(w, t, PairOk);
  }

  lemma UacStep(w: World, c: nat, next: TsxState, status: int, src: Source)
    requires Inv(w) && w.Has(c, Uac) && w.tsxs[c].Live()
    ensures c + 1 < |w.tsxs|
    ensures var r := MoveUac(w, c, next, status, src);
            if Stranded(w.tsxs[c], w.tsxs[c + 1], status, src) then r == Fail(NullPartner)
            else r.Ok? && Inv(r.w)
                 && (Healthy(w) ==> (Healthy(r.w) <==> !Loses(w.tsxs[c], w.tsxs[c + 1], next, status, src)))
  {
    PairOf(w, c);
    var p := FlatUac(c, w.tsxs[c], w.tsxs[c + 1], next, status, src);
    UacEventIsFlat(w, c, next, status, src);
    if !Stranded(w.tsxs[c], w.tsxs[c + 1], status, src) {
      FlatUacKeeps(c, w.tsxs[c], w.tsxs[c + 1], next, status, src);
      PutPairKeeps(w, c, p, PairOk);
      if Healthy(w) {
        PutPairKeeps(w, c, p, Bound);
      }
    }
  }

  lemma UasStep(w: World, u: nat, next: TsxState)
    requires Inv(w) && w.Has(u, Uas) && w.tsxs[u].Live()
    ensures u > 0
    ensures var r := MoveUas(w, u, next);
            if Forsaken(w.tsxs[u - 1], w.tsxs[u], next) then r == Fail(DeadPartner)
            else r.Ok? && Inv(r.w) && (Healthy(w) ==> Healthy(r.w))
  {
    PairOf(w, u);
    var i := u - 1;
    UasEventIsFlat(w, i, next);
    if !Forsaken(w.tsxs[i], w.tsxs[u], next) {
      FlatUasKeeps(i, w.tsxs[i], w.tsxs[u], next);
      PutPairKeeps(w, i, FlatUas(i, w.tsxs[i], w.tsxs[u], next), PairOk);
      if Healthy(w) {
        assert Slot(w, u, Bound);
        PutPairKeeps(w, i, FlatUas(i, w.tsxs[i], w.tsxs[u], next), Bound);
      }
    }
  }

  lemma DestroyStep(w: World, t: nat)
    requires Inv(w) && t < |w.tsxs| && w.tsxs[t].state == Terminated
    ensures var w' := w.Put(t, w.tsxs[t].(state := Destroyed));
            Inv(w') && (Healthy(w) ==> Healthy(w'))
  {
    var w' := w.Put(t, w.tsxs[t].(state := Destroyed));
    assert Slot(w, t, PairOk);
    forall i: nat | i < |w'.tsxs| ensures Slot(w', i, PairOk) && (Healthy(w) ==> Slot(w', i, Bound)) {
      assert Slot(w, i, PairOk);
      assert Healthy(w) ==> Slot(w, i, Bound);
    }
  }

  lemma CancelStep(w: World, u: nat)
    requires Inv(w) && w.Has(u, Uas)
    ensures u > 0
    ensures var r := CancelInvite(w, u);
            if w.tsxs[u].PointsTo(u - 1) && w.tsxs[u - 1].state == Destroyed then r == Fail(DeadPartner)
            else r.Ok? && r.w.tsxs == w.tsxs && Inv(r.w) && (Healthy(w) ==> Healthy(r.w))
  {
    assert Slot(w, u, PairOk);
    CancelIsFlat(w, u - 1);
    var r := CancelInvite(w, u);
    if r.Ok? {
      forall i: nat | i < |r.w.tsxs| ensures Slot(r.w, i, PairOk) && (Healthy(w) ==> Slot(r.w, i, Bound)) {
        assert Slot(w, i, PairOk);
        assert Healthy(w) ==> Slot(w, i, Bound);
      }
    }
  }

  /** A step fails exactly on a faulty event and otherwise keeps the invariant; a healthy world stays
      healthy exactly if the step does not lose a terminating response. */
  lemma StepVerdict(w: World, e: Event)
    requires Inv(w) && Enabled(w, e)
    ensures if Faulty(w, e) then Step(w, e) == Fail(if e.UacEvent? then NullPartner else DeadPartner)
            else Step(w, e).Ok? && Inv(Step(w, e).w)
                 && (Healthy(w) ==> (Healthy(Step(w, e).w) <==> !Lossy(w, e)))
  {
    match e
    case Request(m, how) =>
      var x := ArriveAdds(w, m, how);
      AppendKeeps(w, x, PairOk);
      if Healthy(w) {
        AppendKeeps(w, x, Bound);
      }
    case UacEvent(c, next, status, src) => UacStep(w, c, next, status, src);
    case UasEvent(u, next) => UasStep(w, u, next);
    case Cancel(None) =>
    case Cancel(Some(u)) => CancelStep(w, u);
    case Destroy(t) => DestroyStep(w, t);
  }

  // ----- What a terminated client transaction does to its partner ----------------------------

  /** A linked client transaction that terminates takes its server transaction along: on a response
      that is not dropped and on a timer for a non-INVITE it terminates, on a timer for an INVITE a
      408 is sent on it, and whatever the event was it no longer points back or has terminated. */
  lemma TerminationPropagates(w: World, c: nat, next: TsxState, status: int, src: Source)
    requires Inv(w) && w.Has(c, Uac) && w.tsxs[c].Live() && w.tsxs[c].PointsTo(c + 1)
    requires Advance(w.tsxs[c].state, next) == Terminated
    requires !Dropped(w.tsxs[c].(code := status), src)
    ensures w.Has(c + 1, Uas) && w.tsxs[c + 1].Live()
    ensures MoveUac(w, c, next, status, src).Ok?
    ensures var u, w' := w.tsxs[c + 1], MoveUac(w, c, next, status, src).w;
            c + 1 < |w'.tsxs| &&
            var u' := w'.tsxs[c + 1];
            && w'.tsxs[c].state == Terminated
            && (u'.data == Link(None) || u'.state == Terminated)
            && (src.RxMsg? ==>
                  u'.state == Terminated && u'.sent == u.sent + [Relayed(status, c)] && u'.code == status
                  && w'.tsxs[c].data == Link(None))
            && (src.Timer? && u.verb == NonInvite ==>
                  u'.state == Terminated && u'.code == 408 && u'.sent == u.sent)
            && (src.Timer? && u.verb == Invite ==> u'.sent == u.sent + [Generated(408)] && u'.code == 408)
            && (!src.RxMsg? && !src.Timer? ==> u' == u.(data := Link(None)))
  {
    PairOf(w, c);
    UacEventIsFlat(w, c, next, status, src);
  }

  // ----- What an event leaves alone ----------------------------------------------------------

  /** Any other event of a client transaction does one thing to its server transaction: a response that
      is not dropped is sent on it. The client transaction loses its pointer only if that terminates the
      server transaction. */
  lemma OtherEventsOnlyRelay(w: World, c: nat, next: TsxState, status: int, src: Source)
    requires Inv(w) && w.Has(c, Uac) && w.tsxs[c].Live() && c + 1 < |w.tsxs|
    requires !Stranded(w.tsxs[c], w.tsxs[c + 1], status, src)
    requires Advance(w.tsxs[c].state, next) != Terminated || Dropped(w.tsxs[c].(code := status), src)
    ensures MoveUac(w, c, next, status, src).Ok?
    ensures var t, u, w' := w.tsxs[c], w.tsxs[c + 1], MoveUac(w, c, next, status, src).w;
            |w'.tsxs| == |w.tsxs| &&
            var t', u' := w'.tsxs[c], w'.tsxs[c + 1];
            && (if src.RxMsg? && src.fate.Relay? && !(t.verb == Invite && status == 100) then
                  && u'.sent == u.sent + [Relayed(status, c)] && u'.code == status
                  && u'.state == Advance(u.state, src.fate.next) && u'.data == u.data
                else u' == u)
            && t'.state == Advance(t.state, next) && t'.code == status
            && t'.data == (if u.Live() && !u'.Live() then Link(None) else t.data)
  {
    PairOf(w, c);
    UacEventIsFlat(w, c, next, status, src);
  }

  /** A server transaction's event moves it and does nothing else to it; its client transaction loses its
      pointer exactly if the server transaction, still pointing at it, terminates. */
  lemma ServerEventsOnlyUnlink(w: World, u: nat, next: TsxState)
    requires Inv(w) && w.Has(u, Uas) && w.tsxs[u].Live() && MoveUas(w, u, next).Ok?
    ensures u > 0 && |MoveUas(w, u, next).w.tsxs| == |w.tsxs|
    ensures var t, w' := w.tsxs[u], MoveUas(w, u, next).w;
            && w'.tsxs[u] == t.(state := Advance(t.state, next))
            && w'.tsxs[u - 1] ==
               if Advance(t.state, next) == Terminated && t.PointsTo(u - 1)
               then w.tsxs[u - 1].(data := Link(None)) else w.tsxs[u - 1]
  {
    PairOf(w, u);
    UasEventIsFlat(w, u - 1, next);
  }

  /** The transactions an event is about: a transaction and its mate, or the one destroyed. */
  predicate Concerns(e: Event, t: nat) {
    match e
    case UacEvent(c, _, _, _) => t == c || t == c + 1
    case UasEvent(u, _) => t == u || t + 1 == u
    case Destroy(d) => t == d
    case _ => false
  }

  /** Every other transaction stays as it was, and only a CANCEL records a CANCEL. */
  lemma StepTouchesNoOther(w: World, e: Event, t: nat)
    requires Inv(w) && Enabled(w, e) && !Faulty(w, e) && t < |w.tsxs| && !Concerns(e, t)
    ensures var r := Step(w, e);
            r.Ok? && t < |r.w.tsxs| && r.w.tsxs[t] == w.tsxs[t] && (!e.Cancel? ==> r.w.cancels == w.cancels)
  {
    StepVerdict(w, e);
    match e
    case Request(m, how) => var _ := ArriveAdds(w, m, how);
    case UacEvent(c, next, status, src) =>
      PairOf(w, c);
      UacEventIsFlat(w, c, next, status, src);
    case UasEvent(u, next) =>
      PairOf(w, u);
      UasEventIsFlat(w, u - 1, next);
    case Cancel(None) =>
    case Cancel(Some(u)) => CancelStep(w, u);
    case Destroy(_) =>
  }
}
