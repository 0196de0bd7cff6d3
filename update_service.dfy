/** The real-time side of trafficReportService.js: the list of subscriber callbacks, the STOMP
    client's life cycle and the fan-out of /topic/reports messages, plus the request interceptor
    of the REST client. Callbacks are identified by number (JavaScript compares them by identity)
    and the STOMP client is an abstract value: absent, created but not yet connected, or
    connected. Each created client gets the next generation number, so "a fresh client" is
    observable. */
module UpdateService {
  import opened Wrappers
  import opened Tables
  import opened Entities

  datatype StompClient = NoClient | Client(generation: nat, connected: bool)

  /** One call of a subscriber callback with a parsed report. */
  datatype Delivery = Delivery(callback: nat, report: TrafficReport)

  function Others(callback: nat): nat -> bool
  {
    (cb: nat) => cb != callback
  }

  /** The unsubscribe function's filter: every occurrence of the callback goes, the others keep
      their order. */
  function WithoutCallback(subscribers: seq<nat>, callback: nat): seq<nat>
  {
    Filter(subscribers, Others(callback))
  }

  /** Unsubscribing removes the callback entirely, even one subscribed several times, and
      keeps every other callback in order; subscribing a new callback and then unsubscribing it
      restores the list exactly. */
  lemma {:induction false} UnsubscribeMeaning(subscribers: seq<nat>, callback: nat)
    ensures var r := WithoutCallback(subscribers, callback);
            && callback !in r
            && SubsequenceOf(r, subscribers)
            && (forall cb :: cb != callback ==> multiset(r)[cb] == multiset(subscribers)[cb])
            && (callback !in subscribers ==> r == subscribers)
            && (callback !in subscribers ==> WithoutCallback(subscribers + [callback], callback) == subscribers)
  {
    FilterKeepsOrder(subscribers, Others(callback));
    if callback !in subscribers {
      FilterAll(subscribers, Others(callback));
      FilterAppend(subscribers, [callback], Others(callback));
      assert [callback][1..] == [];
    }
  }

  /** The request interceptor: with a stored, non-empty token the Authorization header is set to
      "Bearer " + token and every other header is kept; otherwise the headers are unchanged. */
  function Intercept(headers: map<string, string>, token: Option<string>): (r: map<string, string>)
    ensures token.Some? && token.value != "" ==>
              && "Authorization" in r && r["Authorization"] == "Bearer " + token.value
              && r.Keys == headers.Keys + {"Authorization"}
              && (forall k :: k in headers && k != "Authorization" ==> r[k] == headers[k])
    ensures !(token.Some? && token.value != "") ==> r == headers
  {
    if token.Some? && token.value != "" then headers["Authorization" := "Bearer " + token.value]
    else headers
  }

  /** The service object's two fields, and the number of clients created so far. */
  class ReportUpdateService {
    var stompClient: StompClient
    var subscribers: seq<nat>
    var clientsCreated: nat

    /** Every client that exists was created, with a generation number already handed out. */
    ghost predicate Valid()
      reads this
    {
      stompClient.Client? ==> stompClient.generation < clientsCreated
    }

    constructor()
      ensures stompClient == NoClient && subscribers == [] && clientsCreated == 0
      ensures Valid()
    {
      stompClient := NoClient;
      subscribers := [];
      clientsCreated := 0;
    }

    /** connectWebSocket: nothing while the current client is connected; otherwise a fresh
        client replaces whatever was there (activation and the socket are not modelled). */
    method ConnectWebSocket()
      requires Valid()
      modifies this
      ensures Valid()
      ensures subscribers == old(subscribers)
      ensures old(stompClient).Client? && old(stompClient).connected ==>
                stompClient == old(stompClient) && clientsCreated == old(clientsCreated)
      ensures !(old(stompClient).Client? && old(stompClient).connected) ==>
                stompClient == Client(old(clientsCreated), false) && clientsCreated == old(clientsCreated) + 1
    {
      if stompClient.Client? && stompClient.connected {
        return;
      }
      stompClient := Client(clientsCreated, false);
      clientsCreated := clientsCreated + 1;
    }

    /** The client's onConnect handler: the current client is now connected. */
    method OnConnect()
      requires Valid()
      modifies this
      ensures Valid()
      ensures subscribers == old(subscribers) && clientsCreated == old(clientsCreated)
      ensures old(stompClient).NoClient? ==> stompClient == NoClient
      ensures old(stompClient).Client? ==> stompClient == old(stompClient).(connected := true)
    {
      if stompClient.Client? {
        stompClient := stompClient.(connected := true);
      }
    }

    /** disconnectWebSocket: drops the client if there is one, and is a no-op otherwise. */
    method DisconnectWebSocket()
      requires Valid()
      modifies this
      ensures Valid()
      ensures stompClient == NoClient
      ensures subscribers == old(subscribers) && clientsCreated == old(clientsCreated)
    {
      if stompClient.Client? {
        stompClient := NoClient;
      }
    }

    /** subscribeToUpdates: the callback goes to the end of the list, then the service connects. */
    method SubscribeToUpdates(callback: nat)
      requires Valid()
      modifies this
      ensures Valid()
      ensures subscribers == old(subscribers) + [callback]
      ensures stompClient.Client?
      ensures old(stompClient).Client? && old(stompClient).connected ==>
                stompClient == old(stompClient) && clientsCreated == old(clientsCreated)
      ensures !(old(stompClient).Client? && old(stompClient).connected) ==>
                stompClient == Client(old(clientsCreated), false) && clientsCreated == old(clientsCreated) + 1
    {
      subscribers := subscribers + [callback];
      ConnectWebSocket();
    }

    /** The function subscribeToUpdates returns, called for `callback`. When the list ends up
        empty the client is dropped. Calling it again changes nothing. */
    method Unsubscribe(callback: nat)
      requires Valid()
      modifies this
      ensures Valid()
      ensures subscribers == WithoutCallback(old(subscribers), callback)
      ensures clientsCreated == old(clientsCreated)
      ensures |subscribers| == 0 ==> stompClient == NoClient
      ensures |subscribers| > 0 ==> stompClient == old(stompClient)
      ensures callback !in old(subscribers) && (|old(subscribers)| > 0 || old(stompClient).NoClient?) ==>
                subscribers == old(subscribers) && stompClient == old(stompClient)
    {
      UnsubscribeMeaning(subscribers, callback);
      subscribers := WithoutCallback(subscribers, callback);
      if |subscribers| == 0 {
        DisconnectWebSocket();
      }
    }

    /** A /topic/reports message: its body is parsed once (the parsed report is the parameter)
        and handed to every current subscriber, in list order. */
    method Dispatch(report: TrafficReport) returns (deliveries: seq<Delivery>)
      ensures |deliveries| == |subscribers|
      ensures forall i :: 0 <= i < |subscribers| ==> deliveries[i] == Delivery(subscribers[i], report)
    {
      deliveries := [];
      var i := 0;
      while i < |subscribers|
        invariant 0 <= i <= |subscribers|
        invariant |deliveries| == i
        invariant forall j :: 0 <= j < i ==> deliveries[j] == Delivery(subscribers[j], report)
      {
        deliveries := deliveries + [Delivery(subscribers[i], report)];
        i := i + 1;
      }
    }
  }
}
