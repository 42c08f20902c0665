/**
 A client and a server, each running the protocol state machine, joined by two
 unbounded first-in first-out queues.  A peer observes a message when it sends
 it; the other peer observes it when the queue delivers it, so the two see
 crossing messages in different orders.
 */
module Peers {
  import opened Protocol

  datatype Net = Net(client: Phase, server: Phase, toServer: seq<Message>, toClient: seq<Message>)

  datatype Event = ClientSends(m: Message) | ServerSends(m: Message) | ServerReceives | ClientReceives

  const Start: Net := Net(AwaitClientHello, AwaitClientHello, [], [])

  /** A refused send queues nothing; a refused delivery consumes the message and leaves the receiver as it was. */
  function Fire(cfg: Config, net: Net, event: Event): Net {
    match event
    case ClientSends(m) =>
      (match Observe(cfg, Client, Outbound, net.client, m)
       case Err(_) => net
       case Ok(next) => net.(client := next, toServer := net.toServer + [m]))
    case ServerSends(m) =>
      (match Observe(cfg, Server, Outbound, net.server, m)
       case Err(_) => net
       case Ok(next) => net.(server := next, toClient := net.toClient + [m]))
    case ServerReceives =>
      if net.toServer == [] then net
      else
        var rest := net.(toServer := net.toServer[1..]);
        (match Observe(cfg, Server, Inbound, net.server, net.toServer[0])
         case Err(_) => rest
         case Ok(next) => rest.(server := next))
    case ClientReceives =>
      if net.toClient == [] then net
      else
        var rest := net.(toClient := net.toClient[1..]);
        (match Observe(cfg, Client, Inbound, net.client, net.toClient[0])
         case Err(_) => rest
         case Ok(next) => rest.(client := next))
  }

  function Play(cfg: Config, net: Net, events: seq<Event>): Net
    decreases |events|
  {
    if events == [] then net
    else Play(cfg, Fire(cfg, net, events[0]), events[1..])
  }

  // ---- the diamond ----------------------------------------------------------

  /** Every closing message comes from the server. */
  lemma ClientMessagesNeverClose(cfg: Config, p: Phase, a: Message)
    requires Sender(a) == Client && Apply(cfg, p, a).Ok?
    ensures !Apply(cfg, p, a).value.Closed?
  {
  }

  lemma DiamondRunning(p: Process, a: Message, b: Message)
    requires Sender(a) == Client && Sender(b) == Server
    requires RunningClient(p, a).Ok? && RunningServer(p, b).Ok?
    ensures RunningServer(RunningClient(p, a).value, b).Ok?
    ensures RunningServer(p, b).value.None? ==> RunningServer(RunningClient(p, a).value, b).value.None?
    ensures RunningServer(p, b).value.Some? ==>
              && RunningClient(RunningServer(p, b).value.value, a).Ok?
              && RunningServer(RunningClient(p, a).value, b).value
                 == Some(RunningClient(RunningServer(p, b).value.value, a).value)
  {
    var pa := RunningClient(p, a).value;
    if RunningServer(p, b).value.Some? {
      var pb := RunningServer(p, b).value.value;
      if a.OutputAck? && b.Output? {
        var ab := RunningServer(pa, b).value.value;
        var ba := RunningClient(pb, a).value;
        assert ab.streams == ba.streams;
      }
    }
  }

  lemma DiamondWatch(w: Watch, a: Message, b: Message)
    requires Sender(a) == Client && Sender(b) == Server && Valid(b)
    requires WatchStep(w, a).Ok? && WatchStep(w, b).Ok?
    ensures WatchStep(WatchStep(w, a).value, b).Ok?
    ensures WatchStep(WatchStep(w, b).value, a).Ok?
    ensures WatchStep(WatchStep(w, a).value, b) == WatchStep(WatchStep(w, b).value, a)
  {
  }

  /** Before anything runs, only one side has a message to send. */
  lemma DiamondOpening(cfg: Config, p: Phase, a: Message, b: Message)
    requires Sender(a) == Client && Sender(b) == Server && !b.Error?
    requires !(p.Running? || p.AwaitDetached? || p.Watching? || p.AwaitWatchStopped?)
    ensures Apply(cfg, p, a).Err? || Apply(cfg, p, b).Err?
  {
  }

  /**
   The server message stays acceptable after the client one; and unless it
   closes the stream, the two orders are both acceptable and end in one phase.
   */
  predicate Commute(cfg: Config, p: Phase, a: Message, b: Message)
    requires Apply(cfg, p, a).Ok? && Apply(cfg, p, b).Ok?
  {
    && Apply(cfg, Apply(cfg, p, a).value, b).Ok?
    && if Apply(cfg, p, b).value.Closed? then Apply(cfg, Apply(cfg, p, a).value, b).value.Closed?
       else Apply(cfg, Apply(cfg, p, b).value, a) == Apply(cfg, Apply(cfg, p, a).value, b)
  }

  lemma DiamondServing(cfg: Config, p: Phase, a: Message, b: Message)
    requires Sender(a) == Client && Sender(b) == Server && !b.Error? && p.Running?
    requires Apply(cfg, p, a).Ok? && Apply(cfg, p, b).Ok?
    ensures Commute(cfg, p, a, b)
  {
    DiamondRunning(p.process, a, b);
  }

  lemma DiamondDetaching(cfg: Config, p: Phase, a: Message, b: Message)
    requires Sender(a) == Client && Sender(b) == Server && !b.Error? && p.AwaitDetached?
    requires Apply(cfg, p, a).Ok? && Apply(cfg, p, b).Ok?
    ensures Commute(cfg, p, a, b)
  {
    if !b.Detached? {
      DiamondRunning(p.process, a, b);
    }
  }

  lemma DiamondWatching(cfg: Config, p: Phase, a: Message, b: Message)
    requires Sender(a) == Client && Sender(b) == Server && Valid(b) && !b.Error? && (p.Watching? || p.AwaitWatchStopped?)
    requires Apply(cfg, p, a).Ok? && Apply(cfg, p, b).Ok?
    ensures Commute(cfg, p, a, b)
  {
    if !a.WatchStop? && !b.WatchStopped? {
      DiamondWatch(p.watch, a, b);
    }
  }

  /** If a client message and a server message are both acceptable in a phase, they commute. */
  lemma Diamond(cfg: Config, p: Phase, a: Message, b: Message)
    requires Sender(a) == Client && Sender(b) == Server && Valid(b)
    requires Apply(cfg, p, a).Ok? && Apply(cfg, p, b).Ok?
    ensures Commute(cfg, p, a, b)
  {
    ClientMessagesNeverClose(cfg, p, a);
    if !b.Error? {
      if p.Running? {
        DiamondServing(cfg, p, a, b);
      } else if p.AwaitDetached? {
        DiamondDetaching(cfg, p, a, b);
      } else if p.Watching? || p.AwaitWatchStopped? {
        DiamondWatching(cfg, p, a, b);
      } else {
        DiamondOpening(cfg, p, a, b);
      }
    }
  }

  predicate AllFrom(role: Role, ms: seq<Message>) {
    forall i :: 0 <= i < |ms| ==> Valid(ms[i]) && Sender(ms[i]) == role
  }

  /** One client message against any number of server messages still in flight. */
  lemma {:induction false} DiamondAgainstServer(cfg: Config, p: Phase, a: Message, bs: seq<Message>)
    requires Sender(a) == Client && AllFrom(Server, bs)
    requires Apply(cfg, p, a).Ok? && Replay(cfg, p, bs).Ok?
    ensures Replay(cfg, Apply(cfg, p, a).value, bs).Ok?
    ensures Replay(cfg, p, bs).value.Closed? ==> Replay(cfg, Apply(cfg, p, a).value, bs).value.Closed?
    ensures !Replay(cfg, p, bs).value.Closed? ==>
              Apply(cfg, Replay(cfg, p, bs).value, a) == Replay(cfg, Apply(cfg, p, a).value, bs)
    decreases |bs|
  {
    if bs != [] {
      var next := Apply(cfg, p, bs[0]).value;
      Diamond(cfg, p, a, bs[0]);
      if next.Closed? {
        assert bs[1..] == [];
        assert bs == [bs[0]];
      } else {
        DiamondAgainstServer(cfg, next, a, bs[1..]);
      }
    }
  }

  /** One server message against any number of client messages still in flight. */
  lemma {:induction false} DiamondAgainstClient(cfg: Config, p: Phase, b: Message, sent: seq<Message>)
    requires Valid(b) && Sender(b) == Server && AllFrom(Client, sent)
    requires Apply(cfg, p, b).Ok? && Replay(cfg, p, sent).Ok?
    ensures Apply(cfg, Replay(cfg, p, sent).value, b).Ok?
    ensures Apply(cfg, p, b).value.Closed? ==> Apply(cfg, Replay(cfg, p, sent).value, b).value.Closed?
    ensures !Apply(cfg, p, b).value.Closed? ==>
              Replay(cfg, Apply(cfg, p, b).value, sent) == Apply(cfg, Replay(cfg, p, sent).value, b)
    decreases |sent|
  {
    if sent != [] {
      var next := Apply(cfg, p, sent[0]).value;
      Diamond(cfg, p, sent[0], b);
      DiamondAgainstClient(cfg, next, b, sent[1..]);
    }
  }

  lemma {:induction false} ClientRunNeverCloses(cfg: Config, p: Phase, sent: seq<Message>)
    requires !p.Closed? && AllFrom(Client, sent) && Replay(cfg, p, sent).Ok?
    ensures !Replay(cfg, p, sent).value.Closed?
    decreases |sent|
  {
    if sent != [] {
      ClientMessagesNeverClose(cfg, p, sent[0]);
      ClientRunNeverCloses(cfg, Apply(cfg, p, sent[0]).value, sent[1..]);
    }
  }

  // ---- the invariant ---------------------------------------------------------

  /**
   Both peers, once they have seen everything in flight towards them, meet in
   one phase.  A closed server ignores what is still in flight towards it.
   */
  ghost predicate Consistent(cfg: Config, net: Net) {
    && AllFrom(Client, net.toServer)
    && AllFrom(Server, net.toClient)
    && Replay(cfg, net.client, net.toClient).Ok?
    && var meet := Replay(cfg, net.client, net.toClient).value;
       if net.server.Closed? then meet.Closed?
       else Replay(cfg, net.server, net.toServer) == Ok(meet)
  }

  lemma ClientSendKeeps(cfg: Config, net: Net, m: Message)
    requires Consistent(cfg, net)
    ensures Consistent(cfg, Fire(cfg, net, ClientSends(m)))
  {
    if Observe(cfg, Client, Outbound, net.client, m).Ok? {
      DiamondAgainstServer(cfg, net.client, m, net.toClient);
      if !net.server.Closed? {
        ClientRunNeverCloses(cfg, net.server, net.toServer);
        ReplayAppend(cfg, net.server, net.toServer, [m]);
        assert Replay(cfg, net.server, net.toServer + [m])
            == Apply(cfg, Replay(cfg, net.server, net.toServer).value, m);
      }
    }
  }

  lemma ServerSendKeeps(cfg: Config, net: Net, m: Message)
    requires Consistent(cfg, net)
    ensures Consistent(cfg, Fire(cfg, net, ServerSends(m)))
  {
    if Observe(cfg, Server, Outbound, net.server, m).Ok? {
      DiamondAgainstClient(cfg, net.server, m, net.toServer);
      ReplayAppend(cfg, net.client, net.toClient, [m]);
      assert Replay(cfg, net.client, net.toClient + [m])
          == Apply(cfg, Replay(cfg, net.client, net.toClient).value, m);
    }
  }

  lemma ClientDeliveryKeeps(cfg: Config, net: Net)
    requires Consistent(cfg, net)
    ensures Consistent(cfg, Fire(cfg, net, ClientReceives))
  {
  }

  lemma ServerDeliveryKeeps(cfg: Config, net: Net)
    requires Consistent(cfg, net)
    ensures Consistent(cfg, Fire(cfg, net, ServerReceives))
  {
  }

  lemma FireKeeps(cfg: Config, net: Net, event: Event)
    requires Consistent(cfg, net)
    ensures Consistent(cfg, Fire(cfg, net, event))
  {
    match event {
      case ClientSends(m) => ClientSendKeeps(cfg, net, m);
      case ServerSends(m) => ServerSendKeeps(cfg, net, m);
      case ClientReceives => ClientDeliveryKeeps(cfg, net);
      case ServerReceives => ServerDeliveryKeeps(cfg, net);
    }
  }

  lemma {:induction false} PlayKeeps(cfg: Config, net: Net, events: seq<Event>)
    requires Consistent(cfg, net)
    ensures Consistent(cfg, Play(cfg, net, events))
    decreases |events|
  {
    if events != [] {
      FireKeeps(cfg, net, events[0]);
      PlayKeeps(cfg, Fire(cfg, net, events[0]), events[1..]);
    }
  }

  // ---- the theorems ----------------------------------------------------------

  /**
   In every reachable state: the client accepts whatever is next for it, the
   server accepts whatever is next for it unless it has already closed, and
   with nothing in flight the two phases are equal.
   */
  lemma PeersNeverDisagree(cfg: Config, events: seq<Event>)
    ensures var net := Play(cfg, Start, events);
            && (net.toClient != [] ==> Observe(cfg, Client, Inbound, net.client, net.toClient[0]).Ok?)
            && (net.toServer != [] ==>
                  net.server.Closed? || Observe(cfg, Server, Inbound, net.server, net.toServer[0]).Ok?)
            && (net.client.Closed? ==> net.server.Closed? && net.toClient == [])
            && (net.toClient == [] && net.toServer == [] ==> net.client == net.server)
  {
    PlayKeeps(cfg, Start, events);
    var net := Play(cfg, Start, events);
    if net.client.Closed? && !net.server.Closed? {
      ClientRunNeverCloses(cfg, net.server, net.toServer);
    }
  }

  function Deliveries(net: Net): seq<Event> {
    seq(|net.toClient|, _ => ClientReceives) + seq(|net.toServer|, _ => ServerReceives)
  }

  lemma {:induction false} PlayAppend(cfg: Config, net: Net, es: seq<Event>, fs: seq<Event>)
    ensures Play(cfg, net, es + fs) == Play(cfg, Play(cfg, net, es), fs)
    decreases |es|
  {
    if es == [] {
      assert es + fs == fs;
    } else {
      assert (es + fs)[1..] == es[1..] + fs;
      PlayAppend(cfg, Fire(cfg, net, es[0]), es[1..], fs);
    }
  }

  lemma {:induction false} DrainClient(cfg: Config, net: Net)
    requires Consistent(cfg, net)
    ensures Play(cfg, net, seq(|net.toClient|, _ => ClientReceives))
         == net.(client := Replay(cfg, net.client, net.toClient).value, toClient := [])
    decreases |net.toClient|
  {
    var events := seq(|net.toClient|, _ => ClientReceives);
    if net.toClient != [] {
      var next := Fire(cfg, net, ClientReceives);
      assert events[1..] == seq(|next.toClient|, _ => ClientReceives);
      DrainClient(cfg, next);
    }
  }

  lemma {:induction false} DrainServer(cfg: Config, net: Net)
    requires Consistent(cfg, net) && net.toClient == []
    ensures var events := seq(|net.toServer|, _ => ServerReceives);
            var done := Play(cfg, net, events);
            done.client == net.client && done.server == net.client && done.toServer == [] && done.toClient == []
    decreases |net.toServer|
  {
    var events := seq(|net.toServer|, _ => ServerReceives);
    if net.toServer != [] {
      var next := Fire(cfg, net, ServerReceives);
      assert events[1..] == seq(|next.toServer|, _ => ServerReceives);
      DrainServer(cfg, next);
    }
  }

  /** From every reachable state, delivering what is in flight leaves both peers in the same phase. */
  lemma DeliveryConverges(cfg: Config, events: seq<Event>)
    ensures var net := Play(cfg, Start, events);
            var done := Play(cfg, net, Deliveries(net));
            && done.toClient == [] && done.toServer == [] && done.client == done.server
            && (net.server.Closed? ==> done.client.Closed?)
  {
    PlayKeeps(cfg, Start, events);
    var net := Play(cfg, Start, events);
    var first := seq(|net.toClient|, _ => ClientReceives);
    PlayAppend(cfg, net, first, seq(|net.toServer|, _ => ServerReceives));
    PlayKeeps(cfg, net, first);
    DrainClient(cfg, net);
    DrainServer(cfg, Play(cfg, net, first));
  }
}
