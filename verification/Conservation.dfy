/**
 No response is lost, duplicated, reordered or sent to the wrong call on its way through the proxy.
 */
module Conservation {
  import opened Wrappers
  import opened TransactionModel
  import opened Pairing
  import opened Steps
  import opened Runs

  /** The codes relayed among the responses sent on a server transaction. */
  function RelayedCodes(sent: seq<Response>): seq<int> {
    if sent == [] then []
    else RelayedCodes(sent[..|sent| - 1]) + (if sent[|sent| - 1].Relayed? then [sent[|sent| - 1].code] else [])
  }

  /** What one event delivers to the client transaction `c` of an `m` request and is not dropped. */
  function Delivered(e: Event, c: nat, m: Method): seq<int> {
    if e.UacEvent? && e.uac == c && e.src.RxMsg? && e.src.fate.Relay? && !(m == Invite && e.status == 100)
    then [e.status] else []
  }

  function AllDelivered(es: seq<Event>, c: nat, m: Method): seq<int> {
    if es == [] then [] else Delivered(es[0], c, m) + AllDelivered(es[1..], c, m)
  }

  lemma RelayedOfPush(sent: seq<Response>, r: Response)
    ensures RelayedCodes(sent + [r]) == RelayedCodes(sent) + if r.Relayed? then [r.code] else []
  {
    assert (sent + [r])[..|sent|] == sent;
  }

  lemma {:induction false} NoneRelayed(sent: seq<Response>)
    requires forall r <- sent :: r.Generated?
    ensures RelayedCodes(sent) == []
  {
    if sent == [] {
    } else {
      assert sent[|sent| - 1] in sent;
      NoneRelayed(sent[..|sent| - 1]);
    }
  }

  function RelayedOn(w: World, u: nat): seq<int> {
    if u < |w.tsxs| then RelayedCodes(w.tsxs[u].sent) else []
  }

  lemma UacEventRelays(w: World, c: nat, next: TsxState, status: int, src: Source)
    requires Inv(w) && w.Has(c, Uac) && w.tsxs[c].Live() && c + 1 < |w.tsxs|
    requires !Stranded(w.tsxs[c], w.tsxs[c + 1], status, src)
    ensures var r := MoveUac(w, c, next, status, src);
            && r.Ok? && |r.w.tsxs| == |w.tsxs|
            && (forall u: nat | u < |w.tsxs| && u != c + 1 :: r.w.tsxs[u].sent == w.tsxs[u].sent)
            && RelayedOn(r.w, c + 1)
               == RelayedOn(w, c + 1) + Delivered(UacEvent(c, next, status, src), c, w.tsxs[c].verb)
  {
    PairOf(w, c);
    UacEventIsFlat(w, c, next, status, src);
    RelayedOfPush(w.tsxs[c + 1].sent, Relayed(status, c));
    RelayedOfPush(w.tsxs[c + 1].sent, Generated(408));
  }

  lemma RequestRelays(w: World, m: Method, how: Creation, u: nat)
    ensures Arrive(w, m, how).Ok? && RelayedOn(Arrive(w, m, how).w, u) == RelayedOn(w, u)
  {
    var x := ArriveAdds(w, m, how);
    if |w.tsxs| <= u < |w.tsxs| + |x| {
      NoneRelayed(x[u - |w.tsxs|].sent);
    }
  }

  lemma UasEventRelays(w: World, v: nat, next: TsxState, u: nat)
    requires Inv(w) && w.Has(v, Uas) && w.tsxs[v].Live()
    ensures var r := MoveUas(w, v, next);
            r.Ok? ==> RelayedOn(r.w, u) == RelayedOn(w, u)
  {
    PairOf(w, v);
    UasEventIsFlat(w, v - 1, next);
  }

  /** Once only the server transaction `c + 1` has sent more, the others are accounted for too. */
  lemma OthersRelayNothing(w: World, w': World, e: Event, u: nat, m: Method)
    requires e.UacEvent? && u > 0 && |w'.tsxs| == |w.tsxs| && e.uac < |w.tsxs|
    requires forall v: nat | v < |w.tsxs| && v != e.uac + 1 :: w'.tsxs[v].sent == w.tsxs[v].sent
    requires u == e.uac + 1 ==> m == w.tsxs[e.uac].verb
    requires RelayedOn(w', e.uac + 1) == RelayedOn(w, e.uac + 1) + Delivered(e, e.uac, w.tsxs[e.uac].verb)
    ensures RelayedOn(w', u) == RelayedOn(w, u) + Delivered(e, u - 1, m)
  {
  }

  lemma UacStepRelays(w: World, e: Event, u: nat, m: Method)
    requires Inv(w) && e.UacEvent? && Enabled(w, e) && !Faulty(w, e) && u > 0
    requires u < |w.tsxs| ==> w.tsxs[u].role == Uas && w.tsxs[u].verb == m
    ensures Step(w, e).Ok? && RelayedOn(Step(w, e).w, u) == RelayedOn(w, u) + Delivered(e, u - 1, m)
  {
    PairOf(w, e.uac);
    UacEventRelays(w, e.uac, e.next, e.status, e.src);
    OthersRelayNothing(w, Step(w, e).w, e, u, m);
  }

  /** A step relays on `u` exactly what it delivers to the client transaction before it. */
  lemma StepRelays(w: World, e: Event, u: nat, m: Method)
    requires Inv(w) && Enabled(w, e) && !Faulty(w, e) && u > 0
    requires u < |w.tsxs| ==> w.tsxs[u].role == Uas && w.tsxs[u].verb == m
    ensures Step(w, e).Ok? && RelayedOn(Step(w, e).w, u) == RelayedOn(w, u) + Delivered(e, u - 1, m)
  {
    StepVerdict(w, e);
    match e
    case Request(m', how) => RequestRelays(w, m', how, u);
    case UacEvent(_, _, _, _) => UacStepRelays(w, e, u, m);
    case UasEvent(v, next) => UasEventRelays(w, v, next, u);
    case Cancel(None) =>
    case Cancel(Some(v)) => CancelStep(w, v);
    case Destroy(t) =>
  }

  lemma KindPersists(w: World, es: seq<Event>, u: nat)
    requires Inv(w) && Possible(w, es) && Exec(w, es).Ok? && u < |w.tsxs|
    ensures u < |Exec(w, es).w.tsxs|
    ensures var t, t' := w.tsxs[u], Exec(w, es).w.tsxs[u];
            t'.role == t.role && t'.verb == t.verb
  {
    RunVerdict(w, es);
    assert Grown(w.tsxs[u], Exec(w, es).w.tsxs[u]);
  }

  lemma FirstStepRelays(w: World, es: seq<Event>, w': World, u: nat) returns (w1: World)
    requires Inv(w) && Possible(w, es) && Exec(w, es) == Ok(w') && es != []
    requires u > 0 && w'.Has(u, Uas)
    ensures Possible(w1, es[1..]) && Exec(w1, es[1..]) == Ok(w') && Inv(w1)
    ensures RelayedOn(w1, u) == RelayedOn(w, u) + Delivered(es[0], u - 1, w'.tsxs[u].verb)
  {
    if u < |w.tsxs| {
      KindPersists(w, es, u);
    }
    StepVerdict(w, es[0]);
    StepRelays(w, es[0], u, w'.tsxs[u].verb);
    w1 := Step(w, es[0]).w;
  }

  /** Over any run, the responses relayed on a server transaction are exactly those delivered to the
      client transaction created for the same request and not dropped, in the order they came. */
  lemma {:induction false} ResponsesAreConserved(w: World, es: seq<Event>, w': World, u: nat)
    requires Inv(w) && Possible(w, es) && Exec(w, es) == Ok(w')
    requires u > 0 && w'.Has(u, Uas)
    ensures RelayedOn(w', u) == RelayedOn(w, u) + AllDelivered(es, u - 1, w'.tsxs[u].verb)
    decreases |es|
  {
    if es == [] {
      assert RelayedOn(w, u) + [] == RelayedOn(w, u);
    } else {
      var m := w'.tsxs[u].verb;
      var w1 := FirstStepRelays(w, es, w', u);
      ResponsesAreConserved(w1, es[1..], w', u);
      Associative(RelayedOn(w, u), Delivered(es[0], u - 1, m), AllDelivered(es[1..], u - 1, m));
    }
  }
}
