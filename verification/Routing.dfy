/**
 Route preprocessing and target calculation (sections 16.4 and 16.5 of RFC 3261), done in place on
 the message to be forwarded.
 */
module Routing {
  import opened Wrappers

  datatype HostPort = HostPort(host: string, port: int)

  /** What the proxy knows about itself: its names, its port, and whether it records routes. */
  datatype App = App(names: seq<HostPort>, port: int, recordRoute: bool)

  /** A SIP URI; absent parameters are empty strings and an absent port is 0. */
  datatype SipUri = SipUri(user: string, host: string, port: int, transport: string, lr: bool, maddr: string)

  datatype Header = Route(uri: SipUri) | RecordRoute(uri: SipUri) | Other(name: string, value: string)

  // ----- Is this URI the proxy? --------------------------------------------------------------

  function Lower(c: char): char {
    if 'A' <= c <= 'Z' then (c as int + 32) as char else c
  }

  /** Host names are compared without regard to case. */
  predicate SameHost(a: string, b: string) {
    |a| == |b| && forall i | 0 <= i < |a| :: Lower(a[i]) == Lower(b[i])
  }

  predicate Names(n: HostPort, host: string, port: int) {
    (port == n.port || (port == 0 && n.port == 5060)) && SameHost(host, n.host)
  }

  predicate IsLocal(app: App, uri: SipUri) {
    exists n <- app.names :: Names(n, uri.host, uri.port)
  }

  method IsUriLocal(app: App, uri: SipUri) returns (local: bool)
    ensures local <==> IsLocal(app, uri)
  {
    var i := 0;
    while i < |app.names|
      invariant 0 <= i <= |app.names|
      invariant forall j | 0 <= j < i :: !Names(app.names[j], uri.host, uri.port)
    {
      if (uri.port == app.names[i].port || (uri.port == 0 && app.names[i].port == 5060))
         && SameHost(uri.host, app.names[i].host) {
        assert Names(app.names[i], uri.host, uri.port);
        return true;
      }
      i := i + 1;
    }
    return false;
  }

  // ----- Routes among the headers ------------------------------------------------------------

  /** The Route values in order of appearance. */
  function Routes(hdrs: seq<Header>): seq<SipUri> {
    if hdrs == [] then []
    else (if hdrs[0].Route? then [hdrs[0].uri] else []) + Routes(hdrs[1..])
  }

  /** Everything else, in order of appearance. */
  function NonRoutes(hdrs: seq<Header>): seq<Header> {
    if hdrs == [] then []
    else (if hdrs[0].Route? then [] else [hdrs[0]]) + NonRoutes(hdrs[1..])
  }

  predicate NoRoute(hdrs: seq<Header>) {
    forall h <- hdrs :: !h.Route?
  }

  function Without(hdrs: seq<Header>, at: nat): seq<Header>
    requires at < |hdrs|
  {
    hdrs[..at] + hdrs[at + 1..]
  }

  /** The first Route header at or after `start`, or the end of the list. */
  method FindRoute(hdrs: seq<Header>, start: nat) returns (at: nat)
    requires start <= |hdrs|
    ensures start <= at <= |hdrs|
    ensures NoRoute(hdrs[start..at])
    ensures at < |hdrs| ==> hdrs[at].Route?
  {
    at := start;
    while at < |hdrs| && !hdrs[at].Route?
      invariant start <= at <= |hdrs|
      invariant NoRoute(hdrs[start..at])
    {
      assert hdrs[start..at + 1] == hdrs[start..at] + [hdrs[at]];
      at := at + 1;
    }
  }

  lemma {:induction false} RoutesOfConcat(a: seq<Header>, b: seq<Header>)
    ensures Routes(a + b) == Routes(a) + Routes(b)
    ensures NonRoutes(a + b) == NonRoutes(a) + NonRoutes(b)
  {
    if a == [] {
      assert a + b == b;
    } else {
      assert (a + b)[1..] == a[1..] + b && (a + b)[0] == a[0];
      RoutesOfConcat(a[1..], b);
      Associative(if a[0].Route? then [a[0].uri] else [], Routes(a[1..]), Routes(b));
      Associative(if a[0].Route? then [] else [a[0]], NonRoutes(a[1..]), NonRoutes(b));
    }
  }

  lemma {:induction false} RoutesOfNone(hdrs: seq<Header>)
    ensures NoRoute(hdrs) <==> Routes(hdrs) == []
    ensures NoRoute(hdrs) ==> NonRoutes(hdrs) == hdrs
  {
    if hdrs == [] {
    } else {
      assert hdrs[0] in hdrs;
      RoutesOfNone(hdrs[1..]);
      assert hdrs == [hdrs[0]] + hdrs[1..];
    }
  }

  lemma RoutesOfOne(h: Header)
    requires h.Route?
    ensures Routes([h]) == [h.uri] && NonRoutes([h]) == []
  {
  }

  lemma RecordingKeepsRoutes(own: SipUri, hdrs: seq<Header>)
    ensures var h := RecordRoute(own);
            Routes([h] + hdrs) == Routes(hdrs) && NonRoutes([h] + hdrs) == [h] + NonRoutes(hdrs)
  {
    RoutesOfConcat([RecordRoute(own)], hdrs);
  }

  lemma SplitAt(hdrs: seq<Header>, at: nat)
    requires at < |hdrs|
    ensures hdrs == hdrs[..at] + [hdrs[at]] + hdrs[at + 1..]
  {
  }

  lemma RoutesAround(a: seq<Header>, h: Header, b: seq<Header>)
    requires h.Route?
    ensures Routes(a + [h] + b) == Routes(a) + [h.uri] + Routes(b)
    ensures NonRoutes(a + [h] + b) == NonRoutes(a) + NonRoutes(b)
  {
    RoutesOfConcat(a + [h], b);
    RoutesOfConcat(a, [h]);
    RoutesOfOne(h);
    assert NonRoutes(a) + [] == NonRoutes(a);
  }

  /** Erasing a Route header takes exactly its value out of the Route values. */
  lemma ErasingARoute(hdrs: seq<Header>, at: nat)
    requires at < |hdrs| && hdrs[at].Route?
    ensures Routes(hdrs) == Routes(hdrs[..at]) + [hdrs[at].uri] + Routes(hdrs[at + 1..])
    ensures Routes(Without(hdrs, at)) == Routes(hdrs[..at]) + Routes(hdrs[at + 1..])
    ensures NonRoutes(Without(hdrs, at)) == NonRoutes(hdrs)
  {
    var a, b := hdrs[..at], hdrs[at + 1..];
    SplitAt(hdrs, at);
    RoutesAround(a, hdrs[at], b);
    RoutesOfConcat(a, b);
  }

  lemma ErasingTheFirst(hdrs: seq<Header>, at: nat)
    requires at < |hdrs| && hdrs[at].Route? && NoRoute(hdrs[..at])
    ensures Routes(hdrs) != [] && Routes(hdrs)[0] == hdrs[at].uri
    ensures Routes(Without(hdrs, at)) == Routes(hdrs)[1..]
    ensures NonRoutes(Without(hdrs, at)) == NonRoutes(hdrs)
  {
    ErasingARoute(hdrs, at);
    RoutesOfNone(hdrs[..at]);
  }

  lemma ErasingTheLast(hdrs: seq<Header>, at: nat)
    requires at < |hdrs| && hdrs[at].Route? && NoRoute(hdrs[at + 1..])
    ensures Routes(hdrs) != [] && Routes(hdrs)[|Routes(hdrs)| - 1] == hdrs[at].uri
    ensures Routes(Without(hdrs, at)) == Routes(hdrs)[..|Routes(hdrs)| - 1]
    ensures NonRoutes(Without(hdrs, at)) == NonRoutes(hdrs)
  {
    ErasingARoute(hdrs, at);
    RoutesOfNone(hdrs[at + 1..]);
  }

  // ----- Order is kept -----------------------------------------------------------------------

  /** `a` is `b` with some elements left out. */
  predicate Subsequence(a: seq<Header>, b: seq<Header>) {
    a == [] || (b != [] && ((a[0] == b[0] && Subsequence(a[1..], b[1..])) || Subsequence(a, b[1..])))
  }

  lemma {:induction false} SubsequenceOfItself(a: seq<Header>)
    ensures Subsequence(a, a)
  {
    if a == [] {
    } else {
      SubsequenceOfItself(a[1..]);
    }
  }

  lemma {:induction false} SubsequenceWithout(a: seq<Header>, at: nat)
    requires at < |a|
    ensures Subsequence(Without(a, at), a)
  {
    if at == 0 {
      assert Without(a, at) == a[1..];
      SubsequenceOfItself(a[1..]);
    } else {
      SubsequenceWithout(a[1..], at - 1);
      assert Without(a, at)[1..] == Without(a[1..], at - 1);
    }
  }

  lemma {:induction false} SubsequenceIsTransitive(a: seq<Header>, b: seq<Header>, c: seq<Header>)
    requires Subsequence(a, b) && Subsequence(b, c)
    ensures Subsequence(a, c)
    decreases |a| + |b| + |c|
  {
    if a == [] {
    } else {
      if b[0] == c[0] && Subsequence(b[1..], c[1..]) {
        if a[0] == b[0] && Subsequence(a[1..], b[1..]) {
          SubsequenceIsTransitive(a[1..], b[1..], c[1..]);
        } else {
          SubsequenceIsTransitive(a, b[1..], c[1..]);
        }
      } else {
        SubsequenceIsTransitive(a, b, c[1..]);
      }
    }
  }

  // ----- Route preprocessing on values -------------------------------------------------------

  /** The Request-URI has been replaced by a strict router: it is the proxy's own, and the real
      target, which has no lr, waits at the end of the Route values. */
  predicate StrictForm(app: App, uri: SipUri, routes: seq<SipUri>) {
    IsLocal(app, uri) && routes != [] && !routes[|routes| - 1].lr
  }

  predicate OwnMaddr(app: App, uri: SipUri) {
    uri.maddr != "" && IsLocal(app, uri.(host := uri.maddr, port := app.port))
  }

  /** An maddr that names the proxy is stripped, with the port and the transport. */
  function StripMaddr(app: App, uri: SipUri): SipUri {
    if OwnMaddr(app, uri) then uri.(maddr := "", port := 0, transport := "") else uri
  }

  /** A request for the proxy itself, left alone. */
  predicate ForUs(app: App, uri: SipUri, routes: seq<SipUri>) {
    IsLocal(app, uri) && routes == []
  }

  /** What becomes of the Request-URI and the Route values. */
  function Preprocess(app: App, uri: SipUri, routes: seq<SipUri>): (SipUri, seq<SipUri>) {
    if ForUs(app, uri, routes) then (uri, routes)
    else
      var strict := StrictForm(app, uri, routes);
      var target := if strict then routes[|routes| - 1] else uri;
      var rest := if strict then routes[..|routes| - 1] else routes;
      (StripMaddr(app, target), if rest != [] && IsLocal(app, rest[0]) then rest[1..] else rest)
  }

  /** Once the strict target is taken, maddr and the first Route value remain to be looked at. */
  lemma PreprocessInSteps(app: App, uri: SipUri, routes: seq<SipUri>, target: SipUri, rest: seq<SipUri>)
    requires !ForUs(app, uri, routes)
    requires if IsLocal(app, uri) && routes != [] && !routes[|routes| - 1].lr
             then target == routes[|routes| - 1] && rest == routes[..|routes| - 1]
             else target == uri && rest == routes
    ensures Preprocess(app, uri, routes)
            == (StripMaddr(app, target), if rest != [] && IsLocal(app, rest[0]) then rest[1..] else rest)
  {
  }

  // ----- The message and the code that changes it --------------------------------------------

  /** The request that will be sent on: its Request-URI and its headers. */
  class Message {
    var uri: SipUri
    var hdrs: seq<Header>

    constructor (uri: SipUri, hdrs: seq<Header>)
      ensures this.uri == uri && this.hdrs == hdrs
    {
      this.uri, this.hdrs := uri, hdrs;
    }

    /** The last Route header, found by going from one to the next. */
    method LastRoute(first: nat) returns (last: nat)
      requires first < |hdrs| && hdrs[first].Route?
      ensures first <= last < |hdrs| && hdrs[last].Route? && NoRoute(hdrs[last + 1..])
    {
      last := first;
      var r := FindRoute(hdrs, last + 1);
      while r < |hdrs|
        invariant first <= last < r <= |hdrs|
        invariant hdrs[last].Route? && NoRoute(hdrs[last + 1..r])
        invariant r < |hdrs| ==> hdrs[r].Route?
        decreases |hdrs| - r
      {
        last := r;
        r := FindRoute(hdrs, last + 1);
      }
    }

    /** Undo strict routing: if the Request-URI is the proxy's own, the last Route value takes its
        place unless it has an lr. Tells whether the request is for the proxy itself. */
    method TakeStrictTarget(app: App) returns (forUs: bool)
      modifies this
      ensures forUs == ForUs(app, old(uri), Routes(old(hdrs)))
      ensures var routes := Routes(old(hdrs));
              if IsLocal(app, old(uri)) && routes != [] && !routes[|routes| - 1].lr
              then uri == routes[|routes| - 1] && Routes(hdrs) == routes[..|routes| - 1]
              else uri == old(uri) && Routes(hdrs) == routes
      ensures NonRoutes(hdrs) == NonRoutes(old(hdrs)) && Subsequence(hdrs, old(hdrs))
    {
      var local := IsUriLocal(app, uri);
      SubsequenceOfItself(hdrs);
      if local {
        var first := FindRoute(hdrs, 0);
        RoutesOfNone(hdrs);
        if first == |hdrs| {
          assert hdrs[0..first] == hdrs;
          return true;
        }
        assert hdrs[first] in hdrs;
        var last := LastRoute(first);
        ErasingTheLast(hdrs, last);
        if !hdrs[last].uri.lr {
          uri := hdrs[last].uri;
          SubsequenceWithout(hdrs, last);
          hdrs := Without(hdrs, last);
        }
      }
      return false;
    }

    method StripOwnMaddr(app: App)
      modifies this`uri
      ensures uri == StripMaddr(app, old(uri))
    {
      if uri.maddr != "" {
        var own := IsUriLocal(app, uri.(host := uri.maddr, port := app.port));
        if own {
          uri := uri.(maddr := "", port := 0, transport := "");
        }
      }
    }

    /** Remove the first Route header if it is the proxy's own. */
    method EraseFirst(app: App)
      modifies this`hdrs
      ensures var routes := Routes(old(hdrs));
              Routes(hdrs) == if routes != [] && IsLocal(app, routes[0]) then routes[1..] else routes
      ensures NonRoutes(hdrs) == NonRoutes(old(hdrs))
      ensures forall all :: Subsequence(old(hdrs), all) ==> Subsequence(hdrs, all)
    {
      var at := FindRoute(hdrs, 0);
      assert hdrs[0..at] == hdrs[..at];
      if at < |hdrs| {
        ErasingTheFirst(hdrs, at);
        var own := IsUriLocal(app, hdrs[at].uri);
        if own {
          forall all | Subsequence(hdrs, all) ensures Subsequence(Without(hdrs, at), all) {
            SubsequenceWithout(hdrs, at);
            SubsequenceIsTransitive(Without(hdrs, at), hdrs, all);
          }
          hdrs := Without(hdrs, at);
        }
      } else {
        assert hdrs[..at] == hdrs;
        RoutesOfNone(hdrs);
      }
    }

    /** Route information preprocessing. Other headers stay where they are among the Route headers
        that remain. */
    method ProcessRouting(app: App)
      modifies this
      ensures (uri, Routes(hdrs)) == Preprocess(app, old(uri), Routes(old(hdrs)))
      ensures NonRoutes(hdrs) == NonRoutes(old(hdrs))
      ensures Subsequence(hdrs, old(hdrs))
    {
      var forUs := TakeStrictTarget(app);
      if forUs {
        return;
      }
      PreprocessInSteps(app, old(uri), Routes(old(hdrs)), uri, Routes(hdrs));
      StripOwnMaddr(app);
      EraseFirst(app);
    }

    /** Insert the Record-Route header. */
    method Postprocess(app: App)
      requires app.recordRoute ==> app.names != []
      modifies this`hdrs
      ensures hdrs == if app.recordRoute then [RecordRoute(OwnUri(app))] + old(hdrs) else old(hdrs)
    {
      if app.recordRoute {
        var name := app.names[0];
        hdrs := [RecordRoute(SipUri("", name.host, name.port, "", true, ""))] + hdrs;
      }
    }

    /** Decide whether the request is forwarded; one for the proxy itself is answered with a 404,
        unless it is an ACK. */
    method CalculateTarget(app: App, ack: bool) returns (forward: bool, reply: Option<int>)
      requires app.recordRoute ==> app.names != []
      modifies this`hdrs
      ensures uri.maddr != "" ==> forward
      ensures uri.maddr == "" ==> (forward <==> !IsLocal(app, uri))
      ensures reply == if forward || ack then None else Some(404)
      ensures !(forward && app.recordRoute) ==> hdrs == old(hdrs)
      ensures forward && app.recordRoute ==>
                hdrs == [RecordRoute(SipUri("", app.names[0].host, app.names[0].port, "", true, ""))] + old(hdrs)
    {
      if uri.maddr != "" {
        Postprocess(app);
        return true, None;
      }
      var local := IsUriLocal(app, uri);
      if !local {
        Postprocess(app);
        return true, None;
      }
      return false, if ack then None else Some(404);
    }

    /** Preprocessing and target calculation in turn, as for every request but CANCEL. */
    method Prepare(app: App, ack: bool) returns (forward: bool, reply: Option<int>)
      requires app.recordRoute ==> app.names != []
      modifies this
      ensures (uri, Routes(hdrs)) == Preprocess(app, old(uri), Routes(old(hdrs)))
      ensures uri.maddr != "" ==> forward
      ensures reply == Some(404) <==> uri.maddr == "" && IsLocal(app, uri) && !ack
      ensures !forward <==> uri.maddr == "" && IsLocal(app, uri)
      ensures reply == None || reply == Some(404)
      ensures forward && app.recordRoute ==> hdrs != [] && hdrs[0] == RecordRoute(OwnUri(app))
      ensures NonRoutes(hdrs)
              == (if forward && app.recordRoute then [RecordRoute(OwnUri(app))] else []) + NonRoutes(old(hdrs))
      ensures !(forward && app.recordRoute) ==> Subsequence(hdrs, old(hdrs))
      ensures forward && app.recordRoute ==> Subsequence(hdrs[1..], old(hdrs))
      ensures forward && LeadsHome(app, uri)
              <==> ForUs(app, old(uri), Routes(old(hdrs))) && OwnMaddr(app, old(uri))
    {
      ghost var uri0, routes0 := uri, Routes(hdrs);
      ProcessRouting(app);
      ForwardedRequestLeadsHome(app, uri0, routes0);
      ghost var routed := hdrs;
      forward, reply := CalculateTarget(app, ack);
      if forward && app.recordRoute {
        assert hdrs[1..] == routed;
        RecordingKeepsRoutes(OwnUri(app), routed);
      } else {
        assert [] + NonRoutes(routed) == NonRoutes(routed);
      }
    }
  }

  /** The URI that the proxy puts into Record-Route headers. */
  function OwnUri(app: App): SipUri
    requires app.names != []
  {
    SipUri("", app.names[0].host, app.names[0].port, "", true, "")
  }

  predicate Forwardable(app: App, uri: SipUri) {
    uri.maddr != "" || !IsLocal(app, uri)
  }

  // ----- Which URIs are the proxy's own ------------------------------------------------------

  /** The same letter, in either case, or the same character. */
  predicate CaseVariant(c: char, d: char) {
    || c == d
    || ('A' <= c <= 'Z' && 'a' <= d <= 'z' && d as int - c as int == 'a' as int - 'A' as int)
    || ('a' <= c <= 'z' && 'A' <= d <= 'Z' && c as int - d as int == 'a' as int - 'A' as int)
  }

  predicate Respelled(a: string, b: string) {
    |a| == |b| && forall i | 0 <= i < |a| :: CaseVariant(a[i], b[i])
  }

  lemma SameHostIsRespelled(a: string, b: string)
    ensures SameHost(a, b) <==> Respelled(a, b)
  {
    forall i | 0 <= i < |a| && |a| == |b| ensures Lower(a[i]) == Lower(b[i]) <==> CaseVariant(a[i], b[i]) {
    }
  }

  /** A URI is the proxy's own exactly if it respells one of its names, at the port of that name or
      without a port where the name has the default one. */
  lemma LocalIsRespelledName(app: App, uri: SipUri)
    ensures IsLocal(app, uri)
            <==> exists n <- app.names ::
                   Respelled(uri.host, n.host) && (uri.port == n.port || (uri.port == 0 && n.port == 5060))
  {
    forall n <- app.names ensures SameHost(uri.host, n.host) <==> Respelled(uri.host, n.host) {
      SameHostIsRespelled(uri.host, n.host);
    }
    if IsLocal(app, uri) {
      var n :| n in app.names && Names(n, uri.host, uri.port);
      assert Respelled(uri.host, n.host);
    }
    if n :| n in app.names && Respelled(uri.host, n.host)
            && (uri.port == n.port || (uri.port == 0 && n.port == 5060)) {
      assert Names(n, uri.host, uri.port);
    }
  }

  /** A host that differs from every name of its length at some position, by more than the case of a
      letter, is not the proxy's own. */
  lemma OtherHostIsNotLocal(app: App, uri: SipUri)
    requires forall n <- app.names :: |uri.host| == |n.host| ==>
               exists i | 0 <= i < |n.host| :: !CaseVariant(uri.host[i], n.host[i])
    ensures !IsLocal(app, uri)
  {
    LocalIsRespelledName(app, uri);
  }

  /** A name of the proxy in any mix of upper and lower case is its own, at its port. */
  lemma RespelledNameIsLocal(app: App, k: nat, uri: SipUri)
    requires k < |app.names| && Respelled(uri.host, app.names[k].host) && uri.port == app.names[k].port
    ensures IsLocal(app, uri)
  {
    LocalIsRespelledName(app, uri);
    assert app.names[k] in app.names;
  }

  /** A URI without a port is treated as one with port 5060, unless some name has no port. */
  lemma AbsentPortIs5060(app: App, uri: SipUri)
    requires forall n <- app.names :: n.port != 0
    ensures IsLocal(app, uri.(port := 0)) <==> IsLocal(app, uri.(port := 5060))
  {
    var bare, full := uri.(port := 0), uri.(port := 5060);
    if IsLocal(app, bare) {
      var n :| n in app.names && Names(n, bare.host, bare.port);
      assert Names(n, full.host, full.port);
    }
    if IsLocal(app, full) {
      var n :| n in app.names && Names(n, full.host, full.port);
      assert Names(n, bare.host, bare.port);
    }
  }

  // ----- What becomes of the Request-URI -----------------------------------------------------

  /** Stripping touches maddr, port and transport, all three exactly if the maddr, at the proxy's own
      port, names the proxy; user, host and lr stay in any case. */
  lemma StrippingByField(app: App, uri: SipUri)
    ensures var t := StripMaddr(app, uri);
            && t.user == uri.user && t.host == uri.host && t.lr == uri.lr
            && (if uri.maddr != "" && IsLocal(app, SipUri("", uri.maddr, app.port, "", false, ""))
                then t.maddr == "" && t.port == 0 && t.transport == ""
                else t.maddr == uri.maddr && t.port == uri.port && t.transport == uri.transport)
  {
    var asked, plain := uri.(host := uri.maddr, port := app.port), SipUri("", uri.maddr, app.port, "", false, "");
    assert IsLocal(app, asked) <==> IsLocal(app, plain) by {
      assert forall n :: Names(n, asked.host, asked.port) <==> Names(n, plain.host, plain.port);
    }
  }

  /** The target of a request: without a Route a request for the proxy stays as it is. Otherwise the last
      Route value is the target exactly if the Request-URI is the proxy's own and that value has no lr;
      then it leaves the Route values. In every other case the Request-URI stays the target, and every
      Route value but the proxy's own first one stays where it is. */
  lemma TargetIsLastRouteExactlyIfStrict(app: App, uri: SipUri, routes: seq<SipUri>)
    ensures var (target, rest) := Preprocess(app, uri, routes);
            && (routes == [] ==>
                  rest == [] && target == if IsLocal(app, uri) then uri else StripMaddr(app, uri))
            && (routes != [] && IsLocal(app, uri) && !routes[|routes| - 1].lr ==>
                  && target == StripMaddr(app, routes[|routes| - 1])
                  && rest == if |routes| > 1 && IsLocal(app, routes[0]) then routes[1..|routes| - 1]
                             else routes[..|routes| - 1])
            && (routes != [] && (!IsLocal(app, uri) || routes[|routes| - 1].lr) ==>
                  && target == StripMaddr(app, uri)
                  && rest == if IsLocal(app, routes[0]) then routes[1..] else routes)
  {
  }

  /** The number of Route values left tells whether the last one was taken. */
  lemma LastRouteLeavesExactlyIfStrict(app: App, uri: SipUri, routes: seq<SipUri>)
    requires routes != [] && !IsLocal(app, routes[0])
    ensures |Preprocess(app, uri, routes).1| < |routes| <==> IsLocal(app, uri) && !routes[|routes| - 1].lr
  {
  }

  /** Requests at the proxy "p" that fall into the branches: one for another host; one for the proxy, in
      capitals and without a port, whose only Route has lr; one with the maddr of another host. */
  lemma Instances()
    ensures var app, p := App([HostPort("p", 5060)], 5060, false), SipUri("", "P", 0, "", false, "");
            var next := SipUri("", "b", 0, "", true, "");
            && IsLocal(app, p) && !IsLocal(app, next) && !IsLocal(app, p.(port := 5061))
            && Preprocess(app, p, [next]) == (p, [next]) && !Forwardable(app, p)
            && Preprocess(app, p, [next.(lr := false)]) == (next.(lr := false), [])
            && Preprocess(app, p.(maddr := "b"), []).0 == p.(maddr := "b") && Forwardable(app, p.(maddr := "b"))
  {
    var app, p := App([HostPort("p", 5060)], 5060, false), SipUri("", "P", 0, "", false, "");
    assert Names(app.names[0], p.host, p.port);
    assert Lower("b"[0]) != Lower("p"[0]);
    assert !SameHost("b", "p");
  }

  // ----- What the rewriting means ------------------------------------------------------------

  /** The hops that a request still has to visit, its target last. */
  function Path(app: App, uri: SipUri, routes: seq<SipUri>): seq<SipUri> {
    if StrictForm(app, uri, routes) then [uri] + routes else routes + [uri]
  }

  /** How many hops the proxy takes off the front. */
  function HopsTaken(app: App, uri: SipUri, routes: seq<SipUri>): nat {
    var strict := StrictForm(app, uri, routes);
    var rest := if strict then routes[..|routes| - 1] else routes;
    (if strict then 1 else 0) + (if rest != [] && IsLocal(app, rest[0]) then 1 else 0)
  }

  /** Rewriting takes nothing but the proxy itself off the front of the path, takes something off
      exactly if the path starts with the proxy, and keeps the other hops in their order; the target
      loses at most an maddr that names the proxy. */
  lemma OnlyTheProxyLeavesThePath(app: App, uri: SipUri, routes: seq<SipUri>)
    requires !ForUs(app, uri, routes)
    ensures var path, k := Path(app, uri, routes), HopsTaken(app, uri, routes);
            var (target, rest) := Preprocess(app, uri, routes);
            && k < |path|
            && (forall j | 0 <= j < k :: IsLocal(app, path[j]))
            && (k == 0 <==> !IsLocal(app, path[0]))
            && rest == path[k..|path| - 1]
            && target == StripMaddr(app, path[|path| - 1])
  {
    var path := Path(app, uri, routes);
    if StrictForm(app, uri, routes) {
      assert path[1..|path| - 1] == routes[..|routes| - 1];
    } else {
      assert path[..|path| - 1] == routes;
    }
  }

  /** A strict router and a loose router deliver the same request, exactly if the next hop after the
      proxy is not the proxy again. */
  lemma StrictAndLooseAgree(app: App, self: SipUri, self': SipUri, target: SipUri, routes: seq<SipUri>)
    requires IsLocal(app, self) && IsLocal(app, self') && !IsLocal(app, target) && !target.lr
    ensures Preprocess(app, target, [self] + routes) == Preprocess(app, self', routes + [target])
            <==> routes == [] || !IsLocal(app, routes[0])
  {
    assert ([self] + routes)[1..] == routes;
    assert (routes + [target])[..|routes|] == routes;
    if routes != [] && IsLocal(app, routes[0]) {
      assert |Preprocess(app, target, [self] + routes).1| == |routes|;
    }
  }

  /** What the proxy records it takes out again: when its Record-Route value comes back as a Route
      value of a later request, whether loose or strict, the request goes on to its target with
      exactly the other Route values. */
  lemma RecordedRouteComesBack(app: App, target: SipUri, routes: seq<SipUri>)
    requires app.names != [] && !IsLocal(app, target) && (routes == [] || !IsLocal(app, routes[0]))
    ensures IsLocal(app, OwnUri(app)) && OwnUri(app).lr
    ensures Preprocess(app, target, [OwnUri(app)] + routes) == (StripMaddr(app, target), routes)
    ensures !target.lr ==>
              Preprocess(app, OwnUri(app), routes + [target]) == (StripMaddr(app, target), routes)
  {
    var n := app.names[0];
    assert n in app.names && Names(n, OwnUri(app).host, OwnUri(app).port);
    assert ([OwnUri(app)] + routes)[1..] == routes;
    if !target.lr {
      StrictAndLooseAgree(app, OwnUri(app), OwnUri(app), target, routes);
    }
  }

  /** Where a request with this Request-URI ends up once its Route values are used up. */
  predicate LeadsHome(app: App, uri: SipUri) {
    if uri.maddr != "" then OwnMaddr(app, uri) else IsLocal(app, uri)
  }

  /** A forwarded request leads back to the proxy exactly if it was for the proxy, without a Route,
      and had an maddr that names the proxy: then preprocessing stops before the maddr is looked at. */
  lemma ForwardedRequestLeadsHome(app: App, uri: SipUri, routes: seq<SipUri>)
    ensures var target := Preprocess(app, uri, routes).0;
            Forwardable(app, target) && LeadsHome(app, target)
            <==> ForUs(app, uri, routes) && OwnMaddr(app, uri)
  {
  }

  /** Such a request: sip:127.0.0.1;maddr=127.0.0.1 with no Route, to a proxy of that name. */
  lemma OwnMaddrCanSurvive() returns (app: App, uri: SipUri)
    ensures app.names == [HostPort("127.0.0.1", app.port)] && uri.host == uri.maddr == "127.0.0.1"
    ensures Preprocess(app, uri, []) == (uri, []) && Forwardable(app, uri) && LeadsHome(app, uri)
  {
    app := App([HostPort("127.0.0.1", 9170)], 9170, true);
    uri := SipUri("", "127.0.0.1", 9170, "", false, "127.0.0.1");
    assert Names(app.names[0], uri.host, uri.port);
  }
}
