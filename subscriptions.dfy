/** The subscription health monitor `Subscription` of b2listen/subscription.py. It subscribes a
    tunnel URL with an event broker, and on every wake checks that the subscription is still live;
    when it is not, it probes the tunnel and resubscribes if the tunnel answers.

    Every HTTP exchange is a request the object sends plus a response the model takes as an input:
    a status code, and for a subscribe the id the broker returned (`None` when the answer carries
    none). `requests` counts a status from 400 to 599 as an error: `raise_for_status` raises on
    it and `ok` is false for it. The requests sent are recorded, in order, in `sent`. */
module Subscriptions {
  import opened Wrappers
  import opened Signer
  import opened Seqs

  predicate IsHttpError(status: int) {
    400 <= status < 600
  }

  /** How an f-string renders an optional value: Python's `None` prints as "None". */
  function Show(v: Option<string>): string {
    match v
    case None => "None"
    case Some(s) => s
  }

  /** The configuration a `Subscription` is built with and never changes. */
  datatype Endpoint = Endpoint(
    brokerUrl: string,
    tunnelUrl: string,
    bucketName: string,
    ruleName: Option<string>,
    signingSecret: string)

  /** Where `subscribe` posts: `{broker}/@subscriptions/{bucket}/{rule}`. */
  function SubscriptionsUrl(e: Endpoint): string {
    e.brokerUrl + "/@subscriptions/" + e.bucketName + "/" + Show(e.ruleName)
  }

  /** Where the liveness check and `unsubscribe` go: the subscribe URL, a slash, the current id. */
  function InstanceUrl(e: Endpoint, id: Option<string>): (r: string)
    ensures |r| > |SubscriptionsUrl(e)| && r[..|SubscriptionsUrl(e)| + 1] == SubscriptionsUrl(e) + "/"
  {
    SubscriptionsUrl(e) + "/" + Show(id)
  }

  /** Different ids are addressed at different URLs: the instance URL determines what the id
      renders as. */
  lemma InstanceUrlInjective(e: Endpoint, a: Option<string>, b: Option<string>)
    ensures InstanceUrl(e, a) == InstanceUrl(e, b) <==> Show(a) == Show(b)
  {
    var p := SubscriptionsUrl(e) + "/";
    assert InstanceUrl(e, a) == p + Show(a) && InstanceUrl(e, b) == p + Show(b);
    if InstanceUrl(e, a) == InstanceUrl(e, b) {
      assert Show(a) == (p + Show(a))[|p|..] == (p + Show(b))[|p|..] == Show(b);
    }
  }

  /** `json.dumps({'url': tunnel_url})`. */
  function SubscribeBody(tunnelUrl: string): string {
    "{\"url\": \"" + tunnelUrl + "\"}"
  }

  /** `json.dumps({"event": []})`. */
  const ProbeBody := "{\"event\": []}"

  datatype Verb = Post | Head | Delete

  /** One HTTP request: method, URL, body, and the value of the signature header. */
  datatype Request = Request(verb: Verb, url: string, body: string, signature: string)

  function SubscribeRequest(e: Endpoint, mac: Mac): Request {
    var body := SubscribeBody(e.tunnelUrl);
    Request(Post, SubscriptionsUrl(e), body, Signature(e.signingSecret, body, mac))
  }

  function CheckRequest(e: Endpoint, mac: Mac, id: Option<string>): Request {
    Request(Head, InstanceUrl(e, id), "", Signature(e.signingSecret, "", mac))
  }

  function UnsubscribeRequest(e: Endpoint, mac: Mac, id: Option<string>): Request {
    Request(Delete, InstanceUrl(e, id), "", Signature(e.signingSecret, "", mac))
  }

  function ProbeRequest(e: Endpoint, mac: Mac): Request {
    Request(Post, e.tunnelUrl, ProbeBody, Signature(e.signingSecret, ProbeBody, mac))
  }

  /** The liveness check and `unsubscribe` address the same subscription the same way: the
      subscribe URL extended by the id, with the empty body signed. */
  lemma CheckAndUnsubscribeAgree(e: Endpoint, mac: Mac, id: Option<string>)
    ensures CheckRequest(e, mac, id).url == UnsubscribeRequest(e, mac, id).url
    ensures CheckRequest(e, mac, id).signature == UnsubscribeRequest(e, mac, id).signature
    ensures var u := CheckRequest(e, mac, id).url;
      |u| > |SubscriptionsUrl(e)| && u[..|SubscriptionsUrl(e)|] == SubscribeRequest(e, mac).url &&
      u[|SubscriptionsUrl(e)|] == '/' && u[|SubscriptionsUrl(e)| + 1..] == Show(id)
  {
    var p := SubscriptionsUrl(e);
    assert InstanceUrl(e, id)[..|p|] == p;
  }

  /** The subscribe and probe requests never coincide: their bodies differ. */
  lemma SubscribeIsNotProbe(e: Endpoint, mac: Mac)
    ensures SubscribeRequest(e, mac) != ProbeRequest(e, mac)
  {
    assert SubscribeBody(e.tunnelUrl)[2] == 'u' && ProbeBody[2] == 'e';
  }

  /** The broker's answer to a subscribe. */
  datatype Response = Response(status: int, brokerId: Option<string>)

  /** Why a call raised: an error status, or a subscribe answer without an id. */
  datatype Raised = HttpError(status: int) | NoId

  /** What `subscribe` leaves in `id_` and what it raises, given the id before and the answer. */
  function SubscribeResult(id: Option<string>, res: Response): (r: (Option<string>, Option<Raised>))
    ensures r.1.None? <==> !IsHttpError(res.status) && res.brokerId.Some?
    ensures r.1.None? ==> r.0 == res.brokerId
    ensures r.1.Some? ==> r.0 == id
  {
    if IsHttpError(res.status) then (id, Some(HttpError(res.status)))
    else if res.brokerId.None? then (id, Some(NoId))
    else (res.brokerId, None)
  }

  /** The responses one wake of `run` meets: to the liveness check, to the probe, to the
      resubscribe. A response the wake never asks for is ignored. */
  datatype Wake = Wake(check: int, probe: int, subscribe: Response)

  /** Where a stretch of the monitor ends: the id, the requests sent, and what was raised. */
  datatype Outcome = Outcome(id: Option<string>, requests: seq<Request>, raised: Option<Raised>)

  function Prepend(log: seq<Request>, o: Outcome): Outcome {
    o.(requests := log + o.requests)
  }

  lemma PrependTwice(a: seq<Request>, b: seq<Request>, o: Outcome)
    ensures Prepend(a, Prepend(b, o)) == Prepend(a + b, o)
  {
    AppendAssociates(a, b, o.requests);
  }

  /** One wake of `run`: check liveness; if lapsed, probe; if the probe answers, resubscribe. */
  function WakeOutcome(e: Endpoint, mac: Mac, id: Option<string>, w: Wake): Outcome {
    if !IsHttpError(w.check) then Outcome(id, [CheckRequest(e, mac, id)], None)
    else if IsHttpError(w.probe) then Outcome(id, [CheckRequest(e, mac, id), ProbeRequest(e, mac)], None)
    else
      var (id', raised) := SubscribeResult(id, w.subscribe);
      Outcome(id', [CheckRequest(e, mac, id), ProbeRequest(e, mac), SubscribeRequest(e, mac)], raised)
  }

  /** The wakes of `run` from a given id, stopping at the first one that raises. */
  function RunFrom(e: Endpoint, mac: Mac, id: Option<string>, wakes: seq<Wake>): Outcome
    decreases |wakes|
  {
    if wakes == [] then Outcome(id, [], None)
    else
      var o := WakeOutcome(e, mac, id, wakes[0]);
      if o.raised.Some? then o else Prepend(o.requests, RunFrom(e, mac, o.id, wakes[1..]))
  }

  /** A wake resubscribes exactly when the subscription has lapsed and the tunnel answers the
      probe; it probes exactly when the subscription has lapsed. When nothing is resubscribed the
      id stays and nothing is raised. */
  lemma ResubscribesIff(e: Endpoint, mac: Mac, id: Option<string>, w: Wake)
    ensures var o := WakeOutcome(e, mac, id, w);
      SubscribeRequest(e, mac) in o.requests <==> IsHttpError(w.check) && !IsHttpError(w.probe)
    ensures ProbeRequest(e, mac) in WakeOutcome(e, mac, id, w).requests <==> IsHttpError(w.check)
    ensures var o := WakeOutcome(e, mac, id, w);
      SubscribeRequest(e, mac) !in o.requests ==> o.id == id && o.raised.None?
    ensures var o := WakeOutcome(e, mac, id, w);
      SubscribeRequest(e, mac) in o.requests ==> (o.id, o.raised) == SubscribeResult(id, w.subscribe)
  {
    SubscribeIsNotProbe(e, mac);
  }

  /** `run` unfolded at one wake. */
  lemma RunFromStep(e: Endpoint, mac: Mac, id: Option<string>, wakes: seq<Wake>, i: nat)
    requires i < |wakes|
    ensures var o := WakeOutcome(e, mac, id, wakes[i]);
      RunFrom(e, mac, id, wakes[i..]) ==
        if o.raised.Some? then o else Prepend(o.requests, RunFrom(e, mac, o.id, wakes[i + 1..]))
  {
    assert wakes[i..][0] == wakes[i] && wakes[i..][1..] == wakes[i + 1..];
  }

  /** While every wake finds the subscription lapsed and the tunnel up, and the broker accepts
      every resubscribe, each wake resubscribes once, and the id is the one the last resubscribe
      returned. */
  lemma {:induction false} KeepsResubscribing(e: Endpoint, mac: Mac, id: Option<string>, wakes: seq<Wake>)
    requires forall k :: 0 <= k < |wakes| ==>
      IsHttpError(wakes[k].check) && !IsHttpError(wakes[k].probe) &&
      !IsHttpError(wakes[k].subscribe.status) && wakes[k].subscribe.brokerId.Some?
    ensures RunFrom(e, mac, id, wakes).raised.None?
    ensures multiset(RunFrom(e, mac, id, wakes).requests)[SubscribeRequest(e, mac)] == |wakes|
    ensures |wakes| > 0 ==> RunFrom(e, mac, id, wakes).id == wakes[|wakes| - 1].subscribe.brokerId
    decreases |wakes|
  {
    if wakes != [] {
      var o := WakeOutcome(e, mac, id, wakes[0]);
      KeepsResubscribing(e, mac, o.id, wakes[1..]);
      SubscribeIsNotProbe(e, mac);
      var rest := RunFrom(e, mac, o.id, wakes[1..]);
      assert multiset(o.requests + rest.requests) == multiset(o.requests) + multiset(rest.requests);
      if |wakes| > 1 {
        assert wakes[1..][|wakes[1..]| - 1] == wakes[|wakes| - 1];
      }
    }
  }

  /** While every wake finds the subscription lapsed and the tunnel silent, nothing is ever
      resubscribed, nothing is raised and the id stays: two requests per wake, a check and a
      probe. */
  lemma {:induction false} WaitsForTunnel(e: Endpoint, mac: Mac, id: Option<string>, wakes: seq<Wake>)
    requires forall k :: 0 <= k < |wakes| ==> IsHttpError(wakes[k].check) && IsHttpError(wakes[k].probe)
    ensures var o := RunFrom(e, mac, id, wakes);
      o.id == id && o.raised.None? && |o.requests| == 2 * |wakes| && SubscribeRequest(e, mac) !in o.requests
    decreases |wakes|
  {
    if wakes != [] {
      WaitsForTunnel(e, mac, id, wakes[1..]);
      SubscribeIsNotProbe(e, mac);
    }
  }

  /** While the subscription stays live, each wake sends only the liveness check. */
  lemma {:induction false} LiveSubscriptionOnlyChecked(e: Endpoint, mac: Mac, id: Option<string>, wakes: seq<Wake>)
    requires forall k :: 0 <= k < |wakes| ==> !IsHttpError(wakes[k].check)
    ensures var o := RunFrom(e, mac, id, wakes);
      o.id == id && o.raised.None? && |o.requests| == |wakes| &&
      forall k :: 0 <= k < |o.requests| ==> o.requests[k] == CheckRequest(e, mac, id)
    decreases |wakes|
  {
    if wakes != [] {
      LiveSubscriptionOnlyChecked(e, mac, id, wakes[1..]);
    }
  }

  class Subscription {
    const endpoint: Endpoint
    const mac: Mac
    /** `id_`: the broker's id of the current subscription. */
    var id: Option<string>
    /** `stop_event`. */
    var stopped: bool
    /** The requests sent so far, in order. */
    var sent: seq<Request>

    /** The fields `__init__` sets before it subscribes. */
    constructor (endpoint: Endpoint, mac: Mac)
      ensures this.endpoint == endpoint && this.mac == mac
      ensures id.None? && !stopped && sent == []
    {
      this.endpoint := endpoint;
      this.mac := mac;
      id := None;
      stopped := false;
      sent := [];
    }

    /** `Subscription(...)`: build the object and subscribe once; when the subscribe raises, the
        exception leaves the constructor and no object is handed out. Starting the thread is not
        modelled: `Run` is the thread's body. */
    static method Create(endpoint: Endpoint, mac: Mac, res: Response) returns (r: Result<Subscription, Raised>)
      ensures r.Success? <==> !IsHttpError(res.status) && res.brokerId.Some?
      ensures r.Failure? ==> r.error == SubscribeResult(None, res).1.value
      ensures r.Success? ==>
        fresh(r.value) && r.value.endpoint == endpoint && r.value.mac == mac &&
        r.value.id == res.brokerId && !r.value.stopped && r.value.sent == [SubscribeRequest(endpoint, mac)]
    {
      var s := new Subscription(endpoint, mac);
      var raised := s.Subscribe(res);
      if raised.Some? {
        return Failure(raised.value);
      }
      r := Success(s);
    }

    /** `subscribe`: post the tunnel URL, signed; an error status or an answer without an id
        raises and keeps the id; otherwise the id becomes the broker's. */
    method Subscribe(res: Response) returns (raised: Option<Raised>)
      modifies this
      ensures sent == old(sent) + [SubscribeRequest(endpoint, mac)]
      ensures (id, raised) == SubscribeResult(old(id), res)
      ensures stopped == old(stopped)
    {
      sent := sent + [SubscribeRequest(endpoint, mac)];
      if IsHttpError(res.status) {
        return Some(HttpError(res.status));
      }
      if res.brokerId.None? {
        return Some(NoId);
      }
      id := res.brokerId;
      raised := None;
    }

    /** `subscription`: whether the broker still holds the subscription. */
    method CheckSubscription(status: int) returns (ok: bool)
      modifies this
      ensures sent == old(sent) + [CheckRequest(endpoint, mac, id)]
      ensures ok <==> !IsHttpError(status)
      ensures id == old(id) && stopped == old(stopped)
    {
      sent := sent + [CheckRequest(endpoint, mac, id)];
      ok := !IsHttpError(status);
    }

    /** `unsubscribe`: delete the current subscription; the id is cleared only on success. */
    method Unsubscribe(status: int) returns (raised: Option<Raised>)
      modifies this
      ensures sent == old(sent) + [UnsubscribeRequest(endpoint, mac, old(id))]
      ensures IsHttpError(status) ==> raised == Some(HttpError(status)) && id == old(id)
      ensures !IsHttpError(status) ==> raised.None? && id.None?
      ensures stopped == old(stopped)
    {
      sent := sent + [UnsubscribeRequest(endpoint, mac, id)];
      if IsHttpError(status) {
        return Some(HttpError(status));
      }
      id := None;
      raised := None;
    }

    /** `probe_tunnel_url`: whether the tunnel answers an empty event list. */
    method ProbeTunnelUrl(status: int) returns (ok: bool)
      modifies this
      ensures sent == old(sent) + [ProbeRequest(endpoint, mac)]
      ensures ok <==> !IsHttpError(status)
      ensures id == old(id) && stopped == old(stopped)
    {
      sent := sent + [ProbeRequest(endpoint, mac)];
      ok := !IsHttpError(status);
    }

    /** The body of the `run` loop: check liveness; if lapsed, probe; if the tunnel answers,
        resubscribe. */
    method WakeOnce(w: Wake) returns (raised: Option<Raised>)
      modifies this
      ensures var o := WakeOutcome(endpoint, mac, old(id), w);
        sent == old(sent) + o.requests && id == o.id && raised == o.raised
      ensures stopped == old(stopped)
    {
      var ok := CheckSubscription(w.check);
      raised := None;
      if !ok {
        var up := ProbeTunnelUrl(w.probe);
        if up {
          raised := Subscribe(w.subscribe);
        }
      }
    }

    /** `run`: one iteration per wake until the stop flag is set; an exception raised by a
        resubscribe ends the loop. Once stopped, it does nothing. */
    method Run(wakes: seq<Wake>) returns (raised: Option<Raised>)
      modifies this
      ensures old(stopped) ==> raised.None? && id == old(id) && sent == old(sent)
      ensures !old(stopped) ==>
        var o := RunFrom(endpoint, mac, old(id), wakes);
        id == o.id && sent == old(sent) + o.requests && raised == o.raised
      ensures stopped == old(stopped)
    {
      if stopped {
        return None;
      }
      ghost var whole := RunFrom(endpoint, mac, id, wakes);
      ghost var sent0 := sent;
      ghost var log: seq<Request> := [];
      var i := 0;
      while !stopped && i < |wakes|
        invariant 0 <= i <= |wakes|
        invariant !stopped
        invariant sent == sent0 + log
        invariant whole == Prepend(log, RunFrom(endpoint, mac, id, wakes[i..]))
      {
        RunFromStep(endpoint, mac, id, wakes, i);
        ghost var wo := WakeOutcome(endpoint, mac, id, wakes[i]);
        ghost var logBefore := log;
        var r := WakeOnce(wakes[i]);
        log := log + wo.requests;
        AppendAssociates(sent0, logBefore, wo.requests);
        if r.Some? {
          assert whole == Prepend(logBefore, wo);
          return r;
        }
        PrependTwice(logBefore, wo.requests, RunFrom(endpoint, mac, id, wakes[i + 1..]));
        i := i + 1;
      }
      assert wakes[i..] == [];
      assert whole == Outcome(id, log, None);
      raised := None;
    }

    /** `stop`: set the stop flag, so `Run` makes no further wake, then unsubscribe whatever the
        id is (with no id the request addresses ".../None"). */
    method Stop(status: int) returns (raised: Option<Raised>)
      modifies this
      ensures stopped
      ensures sent == old(sent) + [UnsubscribeRequest(endpoint, mac, old(id))]
      ensures IsHttpError(status) ==> raised == Some(HttpError(status)) && id == old(id)
      ensures !IsHttpError(status) ==> raised.None? && id.None?
    {
      stopped := true;
      raised := Unsubscribe(status);
    }
  }
}
