/**
 Whole runs: any sequence of requests, transaction events, CANCELs and destructions, with every
 choice of the environment, up to the first step that follows a bad pointer.
 */
module Runs {
  import opened Wrappers
  import opened TransactionModel
  import opened Pairing
  import opened Steps

  // ----- What a step leaves behind -----------------------------------------------------------

  /** What may become of a transaction: its state goes forward, its pointer stays or is cleared,
      what was sent stays sent. */
  predicate Grown(t: Tsx, t': Tsx) {
    && t'.role == t.role && t'.verb == t.verb && t'.locks == t.locks
    && Rank(t.state) <= Rank(t'.state)
    && (t'.data == t.data || (t.data.Link? && t'.data == Link(None)))
    && t.sent <= t'.sent
  }

  ghost predicate Later(w: World, w': World) {
    && |w.tsxs| <= |w'.tsxs|
    && (forall i: nat | i < |w.tsxs| :: Grown(w.tsxs[i], w'.tsxs[i]))
    && w.cancels <= w'.cancels
  }

  lemma LaterIsTransitive(w: World, w1: World, w2: World)
    requires Later(w, w1) && Later(w1, w2)
    ensures Later(w, w2)
  {
    forall i: nat | i < |w.tsxs| ensures Grown(w.tsxs[i], w2.tsxs[i]) {
      assert Grown(w.tsxs[i], w1.tsxs[i]) && Grown(w1.tsxs[i], w2.tsxs[i]);
    }
  }

  lemma FlatUacGrows(i: nat, c: Tsx, u: Tsx, next: TsxState, status: int, src: Source)
    requires Bound(i, c, u) && c.Live()
    ensures var p := FlatUac(i, c, u, next, status, src);
            Grown(c, p.0) && Grown(u, p.1) && p.0.state != Destroyed
            && (p.1.state == Destroyed ==> u.state == Destroyed)
  {
    var p := FlatUac(i, c, u, next, status, src);
    assert u.sent <= p.1.sent && p.0.sent == c.sent;
    assert p.0.data == c.data || p.0.data == Link(None);
    assert p.1.data == u.data || p.1.data == Link(None);
  }

  /** Only `t` was destroyed, if anything. */
  ghost predicate OnlyDestroyed(w: World, w': World, t: Option<nat>) {
    forall i: nat | i < |w'.tsxs| && w'.tsxs[i].state == Destroyed ::
      t == Some(i) || (i < |w.tsxs| && w.tsxs[i].state == Destroyed)
  }

  lemma PutPairGrows(w: World, i: nat, p: (Tsx, Tsx))
    requires i + 1 < |w.tsxs| && Grown(w.tsxs[i], p.0) && Grown(w.tsxs[i + 1], p.1)
    requires p.0.state == Destroyed ==> w.tsxs[i].state == Destroyed
    requires p.1.state == Destroyed ==> w.tsxs[i + 1].state == Destroyed
    ensures Later(w, PutPair(w, i, p)) && OnlyDestroyed(w, PutPair(w, i, p), None)
  {
  }

  lemma UacGrows(w: World, c: nat, next: TsxState, status: int, src: Source)
    requires Inv(w) && w.Has(c, Uac) && w.tsxs[c].Live()
    ensures var r := MoveUac(w, c, next, status, src);
            r.Ok? ==> Later(w, r.w) && OnlyDestroyed(w, r.w, None) && |r.w.tsxs| == |w.tsxs|
  {
    PairOf(w, c);
    UacEventIsFlat(w, c, next, status, src);
    FlatUacGrows(c, w.tsxs[c], w.tsxs[c + 1], next, status, src);
    PutPairGrows(w, c, FlatUac(c, w.tsxs[c], w.tsxs[c + 1], next, status, src));
  }

  lemma UasGrows(w: World, u: nat, next: TsxState)
    requires Inv(w) && w.Has(u, Uas) && w.tsxs[u].Live()
    ensures var r := MoveUas(w, u, next);
            r.Ok? ==> Later(w, r.w) && OnlyDestroyed(w, r.w, None) && |r.w.tsxs| == |w.tsxs|
  {
    PairOf(w, u);
    UasEventIsFlat(w, u - 1, next);
    PutPairGrows(w, u - 1, FlatUas(u - 1, w.tsxs[u - 1], w.tsxs[u], next));
  }

  lemma CancelGrows(w: World, u: nat)
    requires Inv(w) && w.Has(u, Uas)
    ensures var r := CancelInvite(w, u);
            r.Ok? ==> Later(w, r.w) && OnlyDestroyed(w, r.w, None) && |r.w.tsxs| == |w.tsxs|
  {
    assert Slot(w, u, PairOk);
    CancelIsFlat(w, u - 1);
  }

  lemma ArriveGrows(w: World, m: Method, how: Creation)
    ensures var r := Arrive(w, m, how);
            r.Ok? && Later(w, r.w) && OnlyDestroyed(w, r.w, None)
  {
    var x := ArriveAdds(w, m, how);
  }

  /** A step that is not faulty only moves the world forward, and only a destruction destroys. */
  lemma StepGrows(w: World, e: Event)
    requires Inv(w) && Enabled(w, e) && !Faulty(w, e)
    ensures Step(w, e).Ok? && Later(w, Step(w, e).w)
    ensures OnlyDestroyed(w, Step(w, e).w, if e.Destroy? then Some(e.tsx) else None)
    ensures !e.Request? ==> |Step(w, e).w.tsxs| == |w.tsxs|
  {
    StepVerdict(w, e);
    match e
    case Request(m, how) => ArriveGrows(w, m, how);
    case UacEvent(c, next, status, src) => UacGrows(w, c, next, status, src);
    case UasEvent(u, next) => UasGrows(w, u, next);
    case Cancel(None) =>
    case Cancel(Some(u)) => CancelGrows(w, u);
    case Destroy(t) =>
  }

  // ----- Runs --------------------------------------------------------------------------------

  predicate Possible(w: World, es: seq<Event>)
    decreases |es|
  {
    es == [] || (Enabled(w, es[0]) && (Step(w, es[0]).Ok? ==> Possible(Step(w, es[0]).w, es[1..])))
  }

  function Exec(w: World, es: seq<Event>): Outcome
    requires Possible(w, es)
    decreases |es|
  {
    if es == [] then Ok(w)
    else
      var w1 :- Step(w, es[0]);
      Exec(w1, es[1..])
  }

  const START := World([], [])

  /** No step of the run satisfies `bad`. */
  ghost predicate Never(w: World, es: seq<Event>, bad: (World, Event) --> bool)
    requires Possible(w, es)
    requires forall v, e | Enabled(v, e) :: bad.requires(v, e)
    decreases |es|
  {
    es == [] ||
    (!bad(w, es[0]) && (Step(w, es[0]).Ok? ==> Never(Step(w, es[0]).w, es[1..], bad)))
  }

  /** In every run: it goes through exactly if no event is faulty, and then the invariant holds at
      its end, every transaction has only moved forward, no pointer was ever made to an existing
      transaction, and the world is healthy if no terminating response was lost. */
  lemma {:induction false} RunVerdict(w: World, es: seq<Event>)
    requires Inv(w) && Possible(w, es)
    ensures Exec(w, es).Ok? <==> Never(w, es, Faulty)
    ensures Exec(w, es).Ok? ==> Inv(Exec(w, es).w) && Later(w, Exec(w, es).w)
    ensures Exec(w, es).Ok? && Healthy(w) && Never(w, es, Lossy) ==> Healthy(Exec(w, es).w)
    decreases |es|
  {
    if es == [] {
    } else {
      StepVerdict(w, es[0]);
      if !Faulty(w, es[0]) {
        StepGrows(w, es[0]);
        var w1 := Step(w, es[0]).w;
        RunVerdict(w1, es[1..]);
        if Exec(w1, es[1..]).Ok? {
          LaterIsTransitive(w, w1, Exec(w1, es[1..]).w);
        }
      }
    }
  }

  // ----- Pointers to destroyed transactions --------------------------------------------------

  /** A transaction that still exists points at one that does not. */
  predicate Dangling(w: World, i: nat)
    requires i < |w.tsxs|
  {
    var t := w.tsxs[i];
    t.state != Destroyed && t.data.Link? && t.data.peer.Some?
    && (t.data.peer.value < |w.tsxs| ==> w.tsxs[t.data.peer.value].state == Destroyed)
  }

  predicate NoDangling(w: World) {
    forall i: nat | i < |w.tsxs| :: !Dangling(w, i)
  }

  /** In a healthy world a transaction that has not terminated never points at one that has. */
  lemma LivePointersAreMutual(w: World, t: nat, p: nat)
    requires Healthy(w) && t < |w.tsxs| && w.tsxs[t].Live() && w.tsxs[t].PointsTo(p)
    ensures p < |w.tsxs| && w.tsxs[p].Live() && w.tsxs[p].PointsTo(t)
    ensures w.tsxs[p].role != w.tsxs[t].role && w.tsxs[p].verb == w.tsxs[t].verb
  {
    assert Slot(w, t, Bound);
  }

  /** The position of the transaction created together with `t`. */
  function Mate(w: World, t: nat): int
    requires t < |w.tsxs|
  {
    if w.tsxs[t].role == Uac then t + 1 else t - 1
  }

  /** Destroying a transaction whose mate still exists and was never told to forget it. */
  predicate Abandons(w: World, e: Event)
    requires Enabled(w, e)
  {
    e.Destroy? && var m := Mate(w, e.tsx);
    0 <= m < |w.tsxs| && w.tsxs[m].state != Destroyed && w.tsxs[m].PointsTo(e.tsx)
  }

  lemma NewPointersAreGood(w: World, x: seq<Tsx>, i: nat)
    requires |w.tsxs| <= i < |w.tsxs| + |x|
    requires (|x| == 1 && Orphan(x[0])) || (|x| == 2 && Shaped(|w.tsxs|, x[0], x[1]))
    requires forall t <- x :: t.state != Destroyed
    ensures !Dangling(w.(tsxs := w.tsxs + x), i)
  {
    var c := |w.tsxs|;
    assert (w.tsxs + x)[i] == x[i - c];
    if |x| == 2 {
      assert (w.tsxs + x)[c] == x[0] && (w.tsxs + x)[c + 1] == x[1];
    }
  }

  lemma OldPointerDangles(w: World, w': World, t: Option<nat>, i: nat)
    requires Inv(w) && Later(w, w') && OnlyDestroyed(w, w', t) && i < |w.tsxs| && Dangling(w', i)
    requires t.Some? ==> t.value < |w.tsxs|
    ensures Dangling(w, i)
            || (t.Some? && i == Mate(w, t.value) && w.tsxs[i].PointsTo(t.value) && w.tsxs[i].state != Destroyed)
  {
    assert Slot(w, i, PairOk) && Grown(w.tsxs[i], w'.tsxs[i]);
    assert w'.tsxs[w'.tsxs[i].data.peer.value].state == Destroyed;
  }

  /** A pointer that dangles after a step did so before, or the step destroyed its target. */
  lemma DanglingComesFromDestroy(w: World, e: Event, i: nat)
    requires Inv(w) && Enabled(w, e) && !Faulty(w, e)
    requires Step(w, e).Ok? && i < |Step(w, e).w.tsxs| && Dangling(Step(w, e).w, i)
    ensures i < |w.tsxs|
    ensures Dangling(w, i) || (e.Destroy? && Abandons(w, e) && i == Mate(w, e.tsx))
  {
    StepGrows(w, e);
    if e.Request? && i >= |w.tsxs| {
      var x := ArriveAdds(w, e.verb, e.how);
      NewPointersAreGood(w, x, i);
    }
    OldPointerDangles(w, Step(w, e).w, if e.Destroy? then Some(e.tsx) else None, i);
  }

  /** A step leaves a dangling pointer exactly if it destroys a transaction whose mate still exists
      and was never told to forget it. */
  lemma StepDangles(w: World, e: Event)
    requires Inv(w) && NoDangling(w) && Enabled(w, e) && !Faulty(w, e)
    ensures Step(w, e).Ok? && (NoDangling(Step(w, e).w) <==> !Abandons(w, e))
  {
    StepVerdict(w, e);
    var w' := Step(w, e).w;
    if Abandons(w, e) {
      assert Dangling(w', Mate(w, e.tsx));
    } else {
      forall i: nat | i < |w'.tsxs| ensures !Dangling(w', i) {
        if Dangling(w', i) {
          DanglingComesFromDestroy(w, e, i);
        }
      }
    }
  }

  /** Every world on the way, the first and the last included, satisfies `good`. */
  ghost predicate Always(w: World, es: seq<Event>, good: World -> bool)
    requires Possible(w, es)
    decreases |es|
  {
    good(w) && (es != [] && Step(w, es[0]).Ok? ==> Always(Step(w, es[0]).w, es[1..], good))
  }

  /** In every run: no transaction that still exists ever points at a destroyed one exactly if none is
      ever destroyed while its mate still exists and was not told to forget it. */
  lemma {:induction false} RunsDangle(w: World, es: seq<Event>)
    requires Inv(w) && NoDangling(w) && Possible(w, es)
    ensures Always(w, es, NoDangling) <==> Never(w, es, Abandons)
    decreases |es|
  {
    if es == [] {
    } else {
      StepVerdict(w, es[0]);
      if !Faulty(w, es[0]) {
        StepDangles(w, es[0]);
        if !Abandons(w, es[0]) {
          RunsDangle(Step(w, es[0]).w, es[1..]);
        }
      }
    }
  }

  // ----- Which dangling pointers are ever followed -------------------------------------------

  /** A server transaction whose pointer leads to a destroyed client transaction and may yet be
      followed: by its own callback when it terminates, or by a CANCEL. */
  predicate Exposed(w: World, u: nat)
    requires u < |w.tsxs|
  {
    w.tsxs[u].role == Uas && Dangling(w, u) && (w.tsxs[u].Live() || w.tsxs[u].verb == Invite)
  }

  predicate Safe(w: World) {
    forall u: nat | u < |w.tsxs| :: !Exposed(w, u)
  }

  /** Destroying a client transaction under a server transaction that points at it and may still follow
      the pointer. */
  predicate Exposes(w: World, e: Event)
    requires Enabled(w, e)
  {
    e.Destroy? && w.tsxs[e.tsx].role == Uac && var u := e.tsx + 1;
    u < |w.tsxs| && w.tsxs[u].state != Destroyed && w.tsxs[u].PointsTo(e.tsx)
    && (w.tsxs[u].Live() || w.tsxs[u].verb == Invite)
  }

  /** Whatever happens next touches no destroyed transaction. */
  ghost predicate Secure(w: World) {
    forall e: Event | Enabled(w, e) :: Step(w, e) != Fail(DeadPartner)
  }

  /** An event that follows the pointer of an exposed server transaction. */
  function Strike(w: World, u: nat): Event
    requires u < |w.tsxs|
  {
    if w.tsxs[u].Live() then UasEvent(u, Terminated) else Cancel(Some(u))
  }

  lemma ExposedCanBeStruck(w: World, u: nat)
    requires Inv(w) && u < |w.tsxs| && Exposed(w, u)
    ensures Enabled(w, Strike(w, u)) && Faulty(w, Strike(w, u)) && !Strike(w, u).UacEvent?
  {
    assert Slot(w, u, PairOk);
  }

  lemma StruckIsExposed(w: World, e: Event)
    requires Inv(w) && Enabled(w, e) && Faulty(w, e) && !e.UacEvent?
    ensures !Safe(w)
  {
    var u := if e.UasEvent? then e.uas else e.invite.value;
    assert Slot(w, u, PairOk);
    assert Exposed(w, u);
  }

  /** Exactly in a safe world no event can touch a destroyed transaction: the one fault left is a
      response that finds its server transaction terminated. */
  lemma SafeIsSecure(w: World)
    requires Inv(w)
    ensures Safe(w) <==> Secure(w)
    ensures Safe(w) <==> forall e | Enabled(w, e) && Faulty(w, e) :: e.UacEvent?
  {
    forall e | Enabled(w, e)
      ensures Step(w, e) == Fail(DeadPartner) <==> Faulty(w, e) && !e.UacEvent?
      ensures Faulty(w, e) && !e.UacEvent? ==> !Safe(w)
    {
      StepVerdict(w, e);
      if Faulty(w, e) && !e.UacEvent? {
        StruckIsExposed(w, e);
      }
    }
    if u: nat :| u < |w.tsxs| && Exposed(w, u) {
      ExposedCanBeStruck(w, u);
      assert Step(w, Strike(w, u)) == Fail(DeadPartner);
    }
  }

  lemma ExposedComesFromDestroy(w: World, e: Event, w': World, u: nat)
    requires Inv(w) && Safe(w) && Enabled(w, e) && Later(w, w') && u < |w.tsxs| && Exposed(w', u)
    requires Dangling(w, u) || (e.Destroy? && Abandons(w, e) && u == Mate(w, e.tsx))
    ensures Exposes(w, e)
  {
    assert Slot(w, u, PairOk) && Grown(w.tsxs[u], w'.tsxs[u]) && !Exposed(w, u);
  }

  /** A step makes a safe world unsafe exactly if it destroys a client transaction under a server
      transaction that may still follow its pointer. */
  lemma StepExposes(w: World, e: Event)
    requires Inv(w) && Safe(w) && Enabled(w, e) && !Faulty(w, e)
    ensures Step(w, e).Ok? && (Safe(Step(w, e).w) <==> !Exposes(w, e))
  {
    StepGrows(w, e);
    var w' := Step(w, e).w;
    if Exposes(w, e) {
      assert Slot(w, e.tsx + 1, PairOk);
      assert Exposed(w', e.tsx + 1);
    } else {
      forall u: nat | u < |w'.tsxs| ensures !Exposed(w', u) {
        if Exposed(w', u) {
          DanglingComesFromDestroy(w, e, u);
          ExposedComesFromDestroy(w, e, w', u);
        }
      }
    }
  }

  /** In every run: at no point can any event touch a destroyed transaction exactly if no client
      transaction is ever destroyed under a server transaction that may still follow its pointer. */
  lemma {:induction false} RunsExpose(w: World, es: seq<Event>)
    requires Inv(w) && Safe(w) && Possible(w, es)
    ensures Always(w, es, Secure) <==> Never(w, es, Exposes)
    decreases |es|
  {
    SafeIsSecure(w);
    if es == [] {
    } else {
      StepVerdict(w, es[0]);
      if !Faulty(w, es[0]) {
        StepExposes(w, es[0]);
        SafeIsSecure(Step(w, es[0]).w);
        if !Exposes(w, es[0]) {
          RunsExpose(Step(w, es[0]).w, es[1..]);
        }
      }
    }
  }

  /** A run without such a destruction touches no destroyed transaction: if it stops, then on a
      response that finds its server transaction terminated. */
  lemma {:induction false} UnexposedRunsTouchNoDeadTransaction(w: World, es: seq<Event>)
    requires Inv(w) && Safe(w) && Possible(w, es) && Never(w, es, Exposes)
    ensures Exec(w, es).Ok? || Exec(w, es) == Fail(NullPartner)
    decreases |es|
  {
    if es == [] {
    } else {
      StepVerdict(w, es[0]);
      SafeIsSecure(w);
      if !Faulty(w, es[0]) {
        StepExposes(w, es[0]);
        UnexposedRunsTouchNoDeadTransaction(Step(w, es[0]).w, es[1..]);
      }
    }
  }

  // ----- Runs from the start -----------------------------------------------------------------

  /** In every run from the start every response relayed on a server transaction came from the
      client transaction created for the same request, every pointer leads to the transaction created
      for the same request, and no lock is left held. */
  lemma RelaysStayInTheirCall(es: seq<Event>, t: nat)
    requires Possible(START, es) && Exec(START, es).Ok? && t < |Exec(START, es).w.tsxs|
    ensures var w := Exec(START, es).w;
            var x := w.tsxs[t];
            && x.locks == 0
            && (x.role == Uac ==> x.sent == [])
            && (x.data.Link? ==> 0 <= Mate(w, t) < |w.tsxs| && w.tsxs[Mate(w, t)].role != x.role
                                 && w.tsxs[Mate(w, t)].verb == x.verb && Mate(w, Mate(w, t)) == t)
            && (x.data.Link? && x.data.peer.Some? ==> x.data.peer.value == Mate(w, t))
            && (forall r <- x.sent :: r.Relayed? ==> x.role == Uas && r.from == Mate(w, t))
  {
    RunVerdict(START, es);
    assert Slot(Exec(START, es).w, t, PairOk);
  }

  /** In every run from the start every CANCEL went to the client transaction created together with
      the cancelled server transaction, while that one existed, had no final status, and both were
      locked. */
  lemma CancelsAreSound(es: seq<Event>)
    requires Possible(START, es) && Exec(START, es).Ok?
    ensures forall r <- Exec(START, es).w.cancels ::
              && r.uacState != Destroyed && r.uacCode < 200 && r.uasLocks > 0 && r.uacLocks > 0
              && r.uas == r.uac + 1
  {
    RunVerdict(START, es);
  }

  // ----- Runs that go wrong ------------------------------------------------------------------

  const INVITED := Request(Invite, Pair(true, Calling, 0, false, Proceeding))

  /** The world with one INVITE forwarded, its two transactions in the given states. */
  function Call(c: TsxState, cCode: int, cData: Option<nat>, u: TsxState, uCode: int, sent: seq<Response>): World {
    World([Tsx(Uac, Invite, c, cCode, Link(cData), [], 0), Tsx(Uas, Invite, u, uCode, Link(Some(0)), sent, 0)], [])
  }

  /** One more step at the front of a run. */
  lemma Prepend(w: World, e: Event, w1: World, es: seq<Event>)
    requires Enabled(w, e) && Step(w, e) == Ok(w1) && Possible(w1, es)
    ensures Possible(w, [e] + es) && Exec(w, [e] + es) == Exec(w1, es)
    ensures !Lossy(w, e) && Never(w1, es, Lossy) ==> Never(w, [e] + es, Lossy)
  {
    assert ([e] + es)[1..] == es;
  }

  lemma Last(w: World, e: Event)
    requires Enabled(w, e) && Step(w, e).Fail?
    ensures Possible(w, [e]) && Exec(w, [e]) == Step(w, e)
    ensures !Lossy(w, e) ==> Never(w, [e], Lossy)
  {
  }

  lemma AfterInvite()
    ensures Step(START, INVITED) == Ok(Call(Calling, 0, Some(1), Proceeding, 100, [Generated(100)]))
  {
    var w0 := Tied(START, Invite);
    assert w0.tsxs == [w0.tsxs[0], w0.tsxs[1]];
    assert [] + [Generated(100)] == [Generated(100)];
  }

  /** A relayed 200 that terminates both transactions. */
  lemma AfterAnswer()
    ensures var w, e := Call(Calling, 0, Some(1), Proceeding, 100, [Generated(100)]),
                        UacEvent(0, Terminated, 200, RxMsg(Relay(Terminated)));
            && Enabled(w, e) && !Lossy(w, e)
            && Step(w, e) == Ok(Call(Terminated, 200, None, Terminated, 200, [Generated(100), Relayed(200, 0)]))
  {
    assert [Generated(100)] + [Relayed(200, 0)] == [Generated(100), Relayed(200, 0)];
  }

  /** A 200 that cannot be copied is dropped: when the server transaction terminates later, it follows
      its pointer to the destroyed client transaction. */
  lemma DroppedResponseGoesWrong() returns (es: seq<Event>)
    ensures es == [INVITED] + ([UacEvent(0, Terminated, 200, RxMsg(CreateFails))] + ([Destroy(0)] + [UasEvent(1, Terminated)]))
    ensures Possible(START, es) && Exec(START, es) == Fail(DeadPartner)
  {
    var w1 := Call(Calling, 0, Some(1), Proceeding, 100, [Generated(100)]);
    var w2 := Call(Terminated, 200, Some(1), Proceeding, 100, [Generated(100)]);
    var w3 := Call(Destroyed, 200, Some(1), Proceeding, 100, [Generated(100)]);
    Last(w3, UasEvent(1, Terminated));
    Prepend(w2, Destroy(0), w3, [UasEvent(1, Terminated)]);
    es := [Destroy(0)] + [UasEvent(1, Terminated)];
    Prepend(w1, UacEvent(0, Terminated, 200, RxMsg(CreateFails)), w2, es);
    es := [UacEvent(0, Terminated, 200, RxMsg(CreateFails))] + es;
    AfterInvite();
    Prepend(START, INVITED, w1, es);
    es := [INVITED] + es;
  }

  /** A 200 that terminates both: the server transaction keeps its pointer, so a CANCEL that matches
      it after the client transaction was destroyed follows a bad pointer. */
  lemma LateCancelGoesWrong() returns (es: seq<Event>)
    ensures es == [INVITED] + ([UacEvent(0, Terminated, 200, RxMsg(Relay(Terminated)))] + ([Destroy(0)] + [Cancel(Some(1))]))
    ensures Possible(START, es) && Never(START, es, Lossy) && Exec(START, es) == Fail(DeadPartner)
  {
    var w1 := Call(Calling, 0, Some(1), Proceeding, 100, [Generated(100)]);
    var w2 := Call(Terminated, 200, None, Terminated, 200, [Generated(100), Relayed(200, 0)]);
    var w3 := Call(Destroyed, 200, None, Terminated, 200, [Generated(100), Relayed(200, 0)]);
    Last(w3, Cancel(Some(1)));
    Prepend(w2, Destroy(0), w3, [Cancel(Some(1))]);
    es := [Destroy(0)] + [Cancel(Some(1))];
    AfterAnswer();
    Prepend(w1, UacEvent(0, Terminated, 200, RxMsg(Relay(Terminated))), w2, es);
    es := [UacEvent(0, Terminated, 200, RxMsg(Relay(Terminated)))] + es;
    AfterInvite();
    Prepend(START, INVITED, w1, es);
    es := [INVITED] + es;
  }

  /** A server transaction that terminates first leaves the next response nowhere to go. */
  lemma StrandedResponseGoesWrong() returns (es: seq<Event>)
    ensures es == [INVITED] + ([UasEvent(1, Terminated)] + [UacEvent(0, Proceeding, 180, RxMsg(Relay(Proceeding)))])
    ensures Possible(START, es) && Never(START, es, Lossy) && Exec(START, es) == Fail(NullPartner)
  {
    var w1 := Call(Calling, 0, Some(1), Proceeding, 100, [Generated(100)]);
    var w2 := Call(Calling, 0, None, Terminated, 100, [Generated(100)]);
    es := [UacEvent(0, Proceeding, 180, RxMsg(Relay(Proceeding)))];
    Last(w2, es[0]);
    Prepend(w1, UasEvent(1, Terminated), w2, es);
    es := [UasEvent(1, Terminated)] + es;
    AfterInvite();
    Prepend(START, INVITED, w1, es);
    es := [INVITED] + es;
  }

  /** A call that times out: the client transaction keeps its pointer, and dangles once its server
      transaction is destroyed first. */
  lemma TimedOutCallDangles() returns (es: seq<Event>)
    ensures es == [INVITED] + ([UacEvent(0, Terminated, 408, Timer(Completed))]
                               + ([UasEvent(1, Terminated)] + [Destroy(1)]))
    ensures Possible(START, es) && Never(START, es, Lossy) && Exec(START, es).Ok?
    ensures |Exec(START, es).w.tsxs| == 2 && Dangling(Exec(START, es).w, 0) && Safe(Exec(START, es).w)
  {
    var w1 := Call(Calling, 0, Some(1), Proceeding, 100, [Generated(100)]);
    var timer := UacEvent(0, Terminated, 408, Timer(Completed));
    UasOfTimedOutGoes();
    es := [UasEvent(1, Terminated)] + [Destroy(1)];
    AfterTimeout();
    Prepend(w1, timer, TimedOut(Completed), es);
    es := [timer] + es;
    AfterInvite();
    Prepend(START, INVITED, w1, es);
    es := [INVITED] + es;
  }

  /** The world with one INVITE that timed out, its server transaction in the given state. */
  function TimedOut(u: TsxState): World {
    World([Tsx(Uac, Invite, Terminated, 408, Link(Some(1)), [], 0),
           Tsx(Uas, Invite, u, 408, Link(None), [Generated(100), Generated(408)], 0)], [])
  }

  lemma UasOfTimedOutGoes()
    ensures var w, es := TimedOut(Completed), [UasEvent(1, Terminated)] + [Destroy(1)];
            Possible(w, es) && Exec(w, es) == Ok(TimedOut(Destroyed)) && Never(w, es, Lossy)
  {
    var w3, w4 := TimedOut(Terminated), TimedOut(Destroyed);
    assert [Destroy(1)] + [] == [Destroy(1)];
    Prepend(w3, Destroy(1), w4, []);
    Prepend(TimedOut(Completed), UasEvent(1, Terminated), w3, [Destroy(1)]);
  }

  lemma AfterTimeout()
    ensures var w, e := Call(Calling, 0, Some(1), Proceeding, 100, [Generated(100)]),
                        UacEvent(0, Terminated, 408, Timer(Completed));
            Enabled(w, e) && !Lossy(w, e) && Step(w, e) == Ok(TimedOut(Completed))
  {
    assert [Generated(100)] + [Generated(408)] == [Generated(100), Generated(408)];
  }
}
