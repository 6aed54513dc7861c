/** The objects of roberta/lab.py that change in place: the Service, which
    owns the `params` dictionary and the current connector thread, and the
    Connector, whose poll loop updates its flags, the shared parameters and
    the service's status log. Each method is tied to the pure model in
    module Session. */
module Lab {
  import opened PyBuiltins
  import LabText
  import Session

  /** The `params` dictionary. A Service and the connectors it starts hold the
      same object, so a token written by one is seen by all. */
  class Params {
    var entries: Session.Params

    constructor(entries: Session.Params)
      ensures this.entries == entries
    {
      this.entries := entries;
    }
  }

  /** The D-Bus service: its status signals and Hal calls are recorded in
      `log`, in order. */
  class Service {
    var thread: Connector?
    var log: seq<Session.Effect>
    const params: Params

    /** A service with the given device parameters and no connector. Put on
        the bus (`onBus`, a non-empty object path) it first signals
        'disconnected'; then its Hal clears the display. */
    constructor(onBus: bool, initial: Session.Params)
      ensures thread == null && params.entries == initial && fresh(params)
      ensures log == (if onBus then [Session.Status(Session.DisconnectedStatus)] else []) + [Session.ClearDisplay]
    {
      params := new Params(initial);
      thread := null;
      log := if onBus then [Session.Status(Session.DisconnectedStatus)] else [];
      log := log + [Session.ClearDisplay];
    }

    /** `connect(address)`: a connector already running is detached (its
        service is cleared, so it will never signal 'disconnected') and told
        to stop; a new one is started, 'connected' is signalled, and the new
        token is returned. */
    method Connect(address: string, bytes: LabText.TokenBytes, home: string) returns (token: string)
      modifies this, params, thread
      ensures token == LabText.GenerateToken(bytes)
      ensures thread != null && fresh(thread)
      ensures thread.address == LabText.StripScheme(address) && thread.service == this && thread.params == params
      ensures !thread.registered && thread.running && thread.home == home && thread.stored == []
      ensures params.entries == old(params.entries)["token" := Session.Text(token)]
      ensures log == old(log) + [Session.Status(Session.ConnectedStatus)]
      ensures old(thread) != null ==> old(thread).service == null && !old(thread).running
      ensures old(thread) != null ==> old(thread).registered == old(thread.registered) &&
                                      old(thread).stored == old(thread.stored) &&
                                      old(thread).address == old(thread.address) && old(thread).home == old(thread.home)
    {
      if thread != null {
        thread.service := null;
        thread.running := false;
      }
      var c := new Connector(address, this, bytes, home);
      thread := c;
      log := log + [Session.Status(Session.ConnectedStatus)];
      token := params.entries["token"].text;
    }

    /** `disconnect()`: the connector is told to stop and forgotten, and
        'disconnected' is signalled. Without a connector the first assignment
        raises an AttributeError and nothing is signalled. The connector keeps
        its service, so it signals 'disconnected' again when its loop ends. */
    method Disconnect() returns (raised: bool)
      modifies this, thread
      ensures raised <==> old(thread) == null
      ensures thread == null
      ensures !raised ==> !old(thread).running && old(thread).service == old(thread.service) &&
                          log == old(log) + [Session.Status(Session.DisconnectedStatus)]
      ensures !raised ==> old(thread).registered == old(thread.registered) && old(thread).stored == old(thread.stored) &&
                          old(thread).address == old(thread.address) && old(thread).home == old(thread.home)
      ensures raised ==> log == old(log)
    {
      if thread == null {
        raised := true;
        return;
      }
      raised := false;
      thread.running := false;
      log := log + [Session.Status(Session.DisconnectedStatus)];
      thread := null;
    }
  }

  /** The network thread. */
  class Connector {
    var address: string
    var service: Service?
    var home: string
    const params: Params
    var registered: bool
    var running: bool
    /** The programs `_store_code` has written, in order. */
    var stored: seq<Session.Program>

    /** `__init__`: the address loses its scheme, the service's parameters are
        shared (a connector without a service gets its own), and a new token
        goes into them. */
    constructor(address: string, service: Service?, bytes: LabText.TokenBytes, home: string)
      modifies if service != null then {service.params} else {}
      ensures this.address == LabText.StripScheme(address) && this.service == service && this.home == home
      ensures service != null ==> params == service.params
      ensures service == null ==> fresh(params)
      ensures State() == Session.Init(if service != null then old(service.params.entries) else map[],
                                      service != null, bytes)
      ensures running && stored == []
    {
      this.address := LabText.StripScheme(address);
      this.service := service;
      this.home := home;
      if service != null {
        params := service.params;
      } else {
        params := new Params(map[]);
      }
      registered := false;
      running := true;
      stored := [];
      new;
      params.entries := params.entries["token" := Session.Text(LabText.GenerateToken(bytes))];
    }

    /** The connector's flags and parameters. */
    function State(): Session.State
      reads this, params
    {
      Session.State(registered, params.entries)
    }

    /** One pass of the poll loop's body: the state, the stored programs and
        the service's log change as the model of the iteration says; the
        service and the running flag are left alone. */
    method Poll(p: Session.Poll) returns (flow: Session.Flow)
      modifies this, params, service
      ensures service == old(service) && running == old(running) && home == old(home) && address == old(address)
      ensures service != null ==> service.thread == old(service.thread)
      ensures var r := Session.Step(old(State()), old(service) != null, home, p);
              State() == r.state && flow == r.flow && stored == old(stored) + r.stored &&
              (service != null ==> service.log == old(service.log) + r.effects)
    {
      var r := Session.Step(State(), service != null, home, p);
      registered := r.state.registered;
      params.entries := r.state.params;
      stored := stored + r.stored;
      if service != null {
        service.log := service.log + r.effects;
      }
      flow := r.flow;
    }

    /** The lines after the loop: 'disconnected' with a service still
        attached, and the farewell tone if registered. */
    method Finish()
      modifies service
      ensures service != null ==> service.log == old(service.log) + Session.FinishEffects(registered, true) &&
                                  service.thread == old(service.thread)
    {
      if service != null {
        service.log := service.log + Session.FinishEffects(registered, true);
      }
    }

    /** `run()` with one reply per iteration and nobody else touching the
        connector: it polls while running, stops at a break with the exit
        effects, and is still polling when the replies run out. A connector
        told to stop before it started only says goodbye. */
    method Run(polls: seq<Session.Poll>) returns (end: Session.End)
      modifies this, params, service
      ensures service == old(service) && running == old(running)
      ensures old(running) ==>
                var r := Session.RunSpec(old(State()), old(service) != null, old(home), polls);
                State() == r.state && end == r.end && stored == old(stored) + r.stored &&
                (service != null ==> service.log == old(service.log) + r.effects)
      ensures !old(running) ==>
                end == Session.Stopped && State() == old(State()) && stored == old(stored) &&
                (service != null ==> service.log == old(service.log) + Session.FinishEffects(registered, true))
    {
      if !running {
        Finish();
        return Session.Stopped;
      }
      end := PollLoop(polls);
    }

    /** The loop of `run` while the connector is running. */
    method PollLoop(polls: seq<Session.Poll>) returns (end: Session.End)
      requires running
      modifies this, params, service
      ensures service == old(service) && running
      ensures var r := Session.RunSpec(old(State()), old(service) != null, old(home), polls);
              State() == r.state && end == r.end && stored == old(stored) + r.stored &&
              (service != null ==> service.log == old(service.log) + r.effects)
    {
      ghost var hasService := service != null;
      ghost var cur := State();
      ghost var kept := stored;
      ghost var log: seq<Session.Effect> := if hasService then service.log else [];
      ghost var goal := Session.After(log, kept, Session.RunSpec(cur, hasService, home, polls));
      var i := 0;
      assert polls[0..] == polls;
      while running && i < |polls|
        invariant 0 <= i <= |polls|
        invariant service == old(service) && hasService == (service != null) && running && home == old(home)
        invariant State() == cur && stored == kept && (hasService ==> service.log == log)
        invariant goal == Session.After(log, kept, Session.RunSpec(cur, hasService, home, polls[i..]))
        decreases |polls| - i
      {
        ghost var r := Session.Step(cur, hasService, home, polls[i]);
        assert polls[i..][0] == polls[i] && polls[i..][1..] == polls[i + 1..];
        if r.flow == Session.Continue {
          Session.RunSpecContinues(log, kept, cur, hasService, home, polls[i..]);
        } else {
          Session.RunSpecStops(log, kept, cur, hasService, home, polls[i..]);
        }
        var flow := Poll(polls[i]);
        cur, kept, log := r.state, kept + r.stored, log + r.effects;
        if flow == Session.Break {
          Finish();
          return Session.Stopped;
        } else if flow == Session.Restart {
          return Session.Restarted;
        } else if flow == Session.ProcessExit {
          return Session.Exited;
        }
        i := i + 1;
      }
      assert polls[i..] == [];
      return Session.Polling;
    }
  }
}
