/** The poll loop of Connector.run in roberta/lab.py, one iteration at a time:
    which request is made, what each server command does to the connector's
    state and parameters, what is signalled to the service and its Hal, and
    when the loop ends. The reply to each request (or the error raised in
    its place) is an input. */
module Session {
  import opened PyBuiltins
  import LabText
  import Execution
  import Transport

  /** A value of the `params` dictionary sent with every request. */
  datatype Param = Text(text: string) | Number(number: int)

  type Params = map<string, Param>

  /** What the connector makes the service do: a status signal, a tone, and
      the two Hal calls around a program run. */
  datatype Effect = Status(status: string) | PlayFile(tone: int) | ClearDisplay | ResetState

  /** A program written to disk by `_store_code`. */
  datatype Program = Program(path: string, code: string)

  /** An exception that ends a try: an HTTPError with its code, a URLError
      with its cause, one of the socket errors caught on their own, or
      anything else (a JSON reply that does not parse, a reply without 'cmd',
      the ValueError of a malformed url, ...). */
  datatype Failure =
    | HttpFailure(code: int)
    | UrlFailure(cause: Transport.UrlCause)
    | SocketFailure
    | OtherFailure

  /** The download request of a 'download' command: the response's
      Content-Disposition header and body, and how the stored program then
      ends when it is run; or the error raised in its place. */
  datatype Fetch =
    | Fetched(disposition: Option<string>, body: string, run: Execution.RunOutcome)
    | FetchFailed(failure: Failure)

  /** The commands the server sends; 'update' carries the error of fetching
      and unpacking the new runtime, if there was one. */
  datatype Command = Repeat | Abort | Download(fetch: Fetch) | Update(failure: Option<Failure>) | Unknown(name: string)

  /** What the push request gives: a reply with a command, or an error. */
  datatype Reply = Replied(cmd: Command) | Failed(failure: Failure)

  /** The inputs of one iteration: the host name and battery reading put in
      the parameters, the reply, and the random bytes of a new token. */
  datatype Poll = Poll(hostname: string, battery: string, reply: Reply, bytes: LabText.TokenBytes)

  /** How an iteration leaves the loop: it goes on, it breaks, the process is
      replaced by the updated runtime (`os.execl`), or the process exits (the
      hard abort's `os._exit(1)`). */
  datatype Flow = Continue | Break | Restart | ProcessExit

  /** The connector's own state: whether it is registered, and the
      parameters. */
  datatype State = State(registered: bool, params: Params)

  /** One iteration's result: the new state, the timeout used for the
      requests, the effects on the service in order, the programs stored,
      and how the loop goes on. */
  datatype StepResult = StepResult(state: State, timeout: nat, effects: seq<Effect>,
                                   stored: seq<Program>, flow: Flow)

  const PushTimeout: nat := 15
  const RegisterTimeout: nat := 330

  const RegisteredStatus: string := "registered"
  const ExecutingStatus: string := "executing"
  const DisconnectedStatus: string := "disconnected"
  const ConnectedStatus: string := "connected"

  /** The tone played on registration, and the farewell tone. */
  const ConnectTone: int := 2
  const DisconnectTone: int := 3

  /** The command sent in the request body. */
  function RequestCmd(registered: bool): string {
    if registered then "push" else "register"
  }

  /** The assignments made before each request: 'cmd', 'brickname' and
      'battery'. */
  function Prepare(s: State, p: Poll): Params {
    s.params["cmd" := Text(RequestCmd(s.registered))]["brickname" := Text(p.hostname)]["battery" := Text(p.battery)]
  }

  /** Whether the except clauses of `run` keep the loop going: an HTTPError
      only for a server error 500..510; a URLError unless its nested value is
      truthy and not a socket error; the socket errors and everything else
      caught by the bare except always. */
  predicate Retryable(f: Failure) {
    match f
    case HttpFailure(c) => 500 <= c <= 510
    case UrlFailure(cause) => !(cause.OtherCause? && cause.truthy)
    case SocketFailure => true
    case OtherFailure => true
  }

  function Flowing(f: Failure): Flow {
    if Retryable(f) then Continue else Break
  }

  /** One pass of the `while self.running` loop, with `hasService` telling
      whether `self.service` is set. Calls on a missing service raise an
      AttributeError, which the bare except swallows. */
  function Step(s: State, hasService: bool, home: string, p: Poll): StepResult {
    var params := Prepare(s, p);
    var timeout := if s.registered then PushTimeout else RegisterTimeout;
    var base := State(s.registered, params);
    match p.reply
    case Failed(f) => StepResult(base, timeout, [], [], Flowing(f))
    case Replied(cmd) =>
      match cmd
      case Repeat =>
        if !s.registered && !hasService then StepResult(base, timeout, [], [], Continue)
        else
          StepResult(State(true, params["nepoexitvalue" := Number(0)]), timeout,
                     if s.registered then [] else [Status(RegisteredStatus), PlayFile(ConnectTone)], [], Continue)
      case Abort =>
        if !s.registered && hasService then
          StepResult(State(false, params["token" := Text(LabText.GenerateToken(p.bytes))]), timeout, [], [], Continue)
        else StepResult(base, timeout, [], [], Break)
      case Download(fetch) => DownloadStep(base, timeout, hasService, home, fetch)
      case Update(failure) =>
        if failure.Some? then StepResult(base, timeout, [], [], Flowing(failure.value))
        else StepResult(base, timeout, [], [], Restart)
      case Unknown(_) => StepResult(base, timeout, [], [], Continue)
  }

  /** The 'download' branch: fetch, name the file from Content-Disposition,
      store the hot-fixed code under the home directory, then run it between
      the 'executing' and 'registered' signals and keep its exit value in
      'nepoexitvalue'. A KeyboardInterrupt that `_exec_code` re-raises skips
      the rest of the branch: after a hard abort the handler ends the process,
      and one the program raised itself is swallowed by the bare except. */
  function DownloadStep(base: State, timeout: nat, hasService: bool, home: string, fetch: Fetch): StepResult {
    match fetch
    case FetchFailed(f) => StepResult(base, timeout, [], [], Flowing(f))
    case Fetched(hdr, body, run) =>
      match LabText.DownloadName(hdr)
      case Err(_) => StepResult(base, timeout, [], [], Continue)
      case Ok(name) =>
        var program := Program(LabText.PathJoin(home, name), LabText.HotFix(body));
        if !hasService then StepResult(base, timeout, [], [program], Continue)
        else
          match Execution.ExecCode(run)
          case Reraised =>
            StepResult(base, timeout, [Status(ExecutingStatus), ClearDisplay], [program],
                       if run.HardKilled? then ProcessExit else Continue)
          case ExitValue(v) =>
            StepResult(State(base.registered, base.params["nepoexitvalue" := Number(v)]), timeout,
                       [Status(ExecutingStatus), ClearDisplay, ResetState, Status(RegisteredStatus)],
                       [program], Continue)
  }

  /** After the loop: 'disconnected' when a service is still attached, and the
      farewell tone only if the connector had registered. */
  function FinishEffects(registered: bool, hasService: bool): (e: seq<Effect>)
    ensures hasService <==> Status(DisconnectedStatus) in e
    ensures PlayFile(DisconnectTone) in e <==> hasService && registered
  {
    if hasService then [Status(DisconnectedStatus)] + (if registered then [PlayFile(DisconnectTone)] else [])
    else []
  }

  /** How a run ends: still polling when the replies run out, stopped (the
      loop was left and the exit effects emitted), or the process replaced or
      ended. */
  datatype End = Polling | Stopped | Restarted | Exited

  datatype RunResult = RunResult(state: State, effects: seq<Effect>, stored: seq<Program>, end: End)

  /** `run` over a sequence of iterations with the service fixed. */
  function RunSpec(s: State, hasService: bool, home: string, polls: seq<Poll>): RunResult
    decreases |polls|
  {
    if polls == [] then RunResult(s, [], [], Polling)
    else
      var r := Step(s, hasService, home, polls[0]);
      match r.flow
      case Continue =>
        var rest := RunSpec(r.state, hasService, home, polls[1..]);
        RunResult(rest.state, r.effects + rest.effects, r.stored + rest.stored, rest.end)
      case Break =>
        RunResult(r.state, r.effects + FinishEffects(r.state.registered, hasService), r.stored, Stopped)
      case Restart => RunResult(r.state, r.effects, r.stored, Restarted)
      case ProcessExit => RunResult(r.state, r.effects, r.stored, Exited)
  }

  /** A run's result behind effects and programs that came before it. */
  function After(effects: seq<Effect>, stored: seq<Program>, r: RunResult): RunResult {
    RunResult(r.state, effects + r.effects, stored + r.stored, r.end)
  }

  /** A run whose first iteration goes on is that iteration followed by the
      run of the rest. */
  lemma RunSpecContinues(effects: seq<Effect>, stored: seq<Program>, s: State, hasService: bool, home: string,
                         polls: seq<Poll>)
    requires polls != [] && Step(s, hasService, home, polls[0]).flow == Continue
    ensures var r := Step(s, hasService, home, polls[0]);
            After(effects, stored, RunSpec(s, hasService, home, polls)) ==
            After(effects + r.effects, stored + r.stored, RunSpec(r.state, hasService, home, polls[1..]))
  {
    var r := Step(s, hasService, home, polls[0]);
    var rest := RunSpec(r.state, hasService, home, polls[1..]);
    assert RunSpec(s, hasService, home, polls) ==
           RunResult(rest.state, r.effects + rest.effects, r.stored + rest.stored, rest.end);
    assert effects + (r.effects + rest.effects) == (effects + r.effects) + rest.effects;
    assert stored + (r.stored + rest.stored) == (stored + r.stored) + rest.stored;
  }

  /** How a run ends when an iteration leaves the loop with `flow`. */
  function EndOf(flow: Flow): End {
    match flow
    case Continue => Polling
    case Break => Stopped
    case Restart => Restarted
    case ProcessExit => Exited
  }

  /** A run whose first iteration leaves the loop ends there, with the exit
      effects after a break. */
  lemma RunSpecStops(effects: seq<Effect>, stored: seq<Program>, s: State, hasService: bool, home: string,
                     polls: seq<Poll>)
    requires polls != [] && Step(s, hasService, home, polls[0]).flow != Continue
    ensures var r := Step(s, hasService, home, polls[0]);
            var fin := if r.flow == Break then FinishEffects(r.state.registered, hasService) else [];
            After(effects, stored, RunSpec(s, hasService, home, polls)) ==
            RunResult(r.state, effects + r.effects + fin, stored + r.stored, EndOf(r.flow))
  {
    var r := Step(s, hasService, home, polls[0]);
    var fin := if r.flow == Break then FinishEffects(r.state.registered, hasService) else [];
    assert effects + (r.effects + fin) == effects + r.effects + fin;
  }

  /** The state `Connector.__init__` leaves: not registered, the service's
      parameters (or an empty dictionary without a service) with a fresh
      token. */
  function Init(serviceParams: Params, hasService: bool, bytes: LabText.TokenBytes): (s: State)
    ensures !s.registered
    ensures "token" in s.params && s.params["token"] == Text(LabText.GenerateToken(bytes))
    ensures hasService ==> forall k :: k in serviceParams && k != "token" ==> k in s.params && s.params[k] == serviceParams[k]
    ensures hasService ==> s.params.Keys == serviceParams.Keys + {"token"}
    ensures !hasService ==> s.params.Keys == {"token"}
  {
    State(false, (if hasService then serviceParams else map[])["token" := Text(LabText.GenerateToken(bytes))])
  }

  // ---------------------------------------------------------------------------
  // One iteration.

  /** Request selection: a registered connector pushes with a 15 s timeout,
      otherwise it registers with 330 s; host name and battery go along. */
  lemma RequestSelection(s: State, hasService: bool, home: string, p: Poll)
    ensures var params := Step(s, hasService, home, p).state.params;
            params["cmd"] == Text(if s.registered then "push" else "register") &&
            params["brickname"] == Text(p.hostname) && params["battery"] == Text(p.battery)
    ensures Step(s, hasService, home, p).timeout == (if s.registered then 15 else 330)
  {
    var params := Prepare(s, p);
    assert params["cmd"] == Text(RequestCmd(s.registered));
    match p.reply
    case Failed(_) =>
    case Replied(cmd) =>
      match cmd
      case Download(fetch) =>
        var timeout := if s.registered then PushTimeout else RegisterTimeout;
        DownloadKeepsRequest(State(s.registered, params), timeout, hasService, home, fetch);
      case _ =>
  }

  /** The download branch only adds 'nepoexitvalue' to the parameters. */
  lemma DownloadKeepsRequest(base: State, timeout: nat, hasService: bool, home: string, fetch: Fetch)
    ensures var r := DownloadStep(base, timeout, hasService, home, fetch);
            r.timeout == timeout &&
            (r.state == base || r.state.params == base.params["nepoexitvalue" := r.state.params["nepoexitvalue"]])
  {
  }

  /** A 'repeat' registers the connector and clears the exit value; the
      'registered' signal and tone come only when it was not registered yet.
      Without a service an unregistered connector fails on the signal and
      stays as it was. */
  lemma RepeatRule(s: State, hasService: bool, home: string, p: Poll)
    requires p.reply == Replied(Repeat)
    ensures var r := Step(s, hasService, home, p);
            r.flow == Continue && r.stored == [] &&
            (s.registered || hasService ==>
               r.state.registered && r.state.params["nepoexitvalue"] == Number(0) &&
               r.effects == (if s.registered then [] else [Status(RegisteredStatus), PlayFile(ConnectTone)])) &&
            (!s.registered && !hasService ==> r.state == State(false, Prepare(s, p)) && r.effects == [])
  {
  }

  /** A second 'repeat' changes nothing but the per-request parameters. */
  lemma RepeatIdempotent(s: State, hasService: bool, home: string, p: Poll, q: Poll)
    requires p.reply == Replied(Repeat) && q.reply == Replied(Repeat) && (s.registered || hasService)
    requires p.hostname == q.hostname && p.battery == q.battery
    ensures var r1 := Step(s, hasService, home, p);
            var r2 := Step(r1.state, hasService, home, q);
            r2.state.registered && r2.effects == [] &&
            r2.state.params == r1.state.params["cmd" := Text("push")]
  {
    var r1 := Step(s, hasService, home, p);
    var r2 := Step(r1.state, hasService, home, q);
    assert r2.state.params == r1.state.params["cmd" := Text("push")];
  }

  /** An 'abort' before registration, with a service, is a token collision: a
      new token is made and the loop goes on. Otherwise it leaves the loop. */
  lemma AbortRule(s: State, hasService: bool, home: string, p: Poll)
    requires p.reply == Replied(Abort)
    ensures var r := Step(s, hasService, home, p);
            r.effects == [] && r.state.registered == s.registered &&
            (r.flow == Continue <==> !s.registered && hasService) &&
            (r.flow != Continue ==> r.flow == Break && r.state.params == Prepare(s, p)) &&
            (r.flow == Continue ==> r.state.params == Prepare(s, p)["token" := Text(LabText.GenerateToken(p.bytes))])
  {
  }

  /** Errors: an HTTPError goes on only for 500..510 (a 403 ends the loop), a
      URLError ends it only when its nested value is truthy and no socket
      error; nothing else changes. */
  lemma FailureRule(s: State, hasService: bool, home: string, p: Poll, f: Failure)
    requires p.reply == Failed(f)
    ensures var r := Step(s, hasService, home, p);
            r.effects == [] && r.stored == [] && r.state == State(s.registered, Prepare(s, p)) &&
            (f.HttpFailure? ==> (r.flow == Continue <==> 500 <= f.code <= 510)) &&
            (f.UrlFailure? ==> (r.flow == Break <==> f.cause.OtherCause? && f.cause.truthy)) &&
            (f.SocketFailure? || f.OtherFailure? ==> r.flow == Continue)
  {
  }

  /** A program that is downloaded and runs is stored hot-fixed under its
      name, is bracketed by 'executing' and 'registered', and its exit value
      becomes 'nepoexitvalue'. */
  lemma DownloadBrackets(s: State, home: string, p: Poll, hdr: Option<string>, body: string,
                         run: Execution.RunOutcome, name: string)
    requires p.reply == Replied(Download(Fetched(hdr, body, run)))
    requires LabText.DownloadName(hdr) == Ok(name) && Execution.ExecCode(run).ExitValue?
    ensures var r := Step(s, true, home, p);
            r.flow == Continue && r.state.registered == s.registered &&
            r.effects == [Status(ExecutingStatus), ClearDisplay, ResetState, Status(RegisteredStatus)] &&
            r.stored == [Program(LabText.PathJoin(home, name), LabText.HotFix(body))] &&
            r.state.params == Prepare(s, p)["nepoexitvalue" := Number(Execution.ExecCode(run).value)]
  {
    Execution.ExecCodeClassifies(run);
  }

  /** A header without '=' gets no file stored and the loop goes on; without
      a service the program is stored but never run. */
  lemma DownloadWithoutRun(s: State, hasService: bool, home: string, p: Poll, hdr: Option<string>,
                           body: string, run: Execution.RunOutcome)
    requires p.reply == Replied(Download(Fetched(hdr, body, run)))
    requires LabText.DownloadName(hdr).Err? || !hasService
    ensures var r := Step(s, hasService, home, p);
            r.flow == Continue && r.effects == [] && r.state == State(s.registered, Prepare(s, p)) &&
            (LabText.DownloadName(hdr).Err? ==> r.stored == []) &&
            (LabText.DownloadName(hdr).Ok? ==> |r.stored| == 1)
  {
  }

  /** A hard abort ends the process while the program runs: no 'registered'
      signal follows 'executing'. */
  lemma HardAbortEndsProcess(s: State, home: string, p: Poll, hdr: Option<string>, body: string)
    requires p.reply == Replied(Download(Fetched(hdr, body, Execution.HardKilled)))
    requires LabText.DownloadName(hdr).Ok?
    ensures var r := Step(s, true, home, p);
            r.flow == ProcessExit && r.effects == [Status(ExecutingStatus), ClearDisplay]
  {
  }

  /** A program that raises KeyboardInterrupt itself leaves the loop going,
      without the 'registered' signal and with the exit value unchanged. */
  lemma OwnInterruptIsSwallowed(s: State, home: string, p: Poll, hdr: Option<string>, body: string)
    requires p.reply == Replied(Download(Fetched(hdr, body, Execution.Interrupted)))
    requires LabText.DownloadName(hdr).Ok?
    ensures var r := Step(s, true, home, p);
            r.flow == Continue && r.effects == [Status(ExecutingStatus), ClearDisplay] &&
            r.state == State(s.registered, Prepare(s, p))
  {
  }

  /** Without a service an iteration signals nothing. */
  lemma StepSilentWithoutService(s: State, home: string, p: Poll)
    ensures Step(s, false, home, p).effects == []
  {
  }

  /** The registration flag is never cleared. */
  lemma StepKeepsRegistration(s: State, hasService: bool, home: string, p: Poll)
    requires s.registered
    ensures Step(s, hasService, home, p).state.registered
  {
  }

  // ---------------------------------------------------------------------------
  // Whole runs.

  /** Without a service a run signals nothing, whatever the server replies. */
  lemma {:induction false} RunSilentWithoutService(s: State, home: string, polls: seq<Poll>)
    ensures RunSpec(s, false, home, polls).effects == []
    decreases |polls|
  {
    if polls != [] {
      StepSilentWithoutService(s, home, polls[0]);
      var r := Step(s, false, home, polls[0]);
      if r.flow == Continue {
        RunSilentWithoutService(r.state, home, polls[1..]);
      }
    }
  }

  /** Once registered, a connector stays registered for the rest of the run. */
  lemma {:induction false} RunKeepsRegistration(s: State, hasService: bool, home: string, polls: seq<Poll>)
    requires s.registered
    ensures RunSpec(s, hasService, home, polls).state.registered
    decreases |polls|
  {
    if polls != [] {
      StepKeepsRegistration(s, hasService, home, polls[0]);
      var r := Step(s, hasService, home, polls[0]);
      if r.flow == Continue {
        RunKeepsRegistration(r.state, hasService, home, polls[1..]);
      }
    }
  }

  /** A run that leaves the loop ends with the exit effects: 'disconnected'
      with a service, preceded by nothing else after the last iteration's
      own effects. */
  lemma {:induction false} StoppedRunEndsWithFinish(s: State, hasService: bool, home: string, polls: seq<Poll>)
    requires RunSpec(s, hasService, home, polls).end == Stopped
    ensures var r := RunSpec(s, hasService, home, polls);
            var fin := FinishEffects(r.state.registered, hasService);
            |fin| <= |r.effects| && r.effects[|r.effects| - |fin|..] == fin
    decreases |polls|
  {
    var r := Step(s, hasService, home, polls[0]);
    if r.flow == Continue {
      StoppedRunEndsWithFinish(r.state, hasService, home, polls[1..]);
      var rest := RunSpec(r.state, hasService, home, polls[1..]);
      var fin := FinishEffects(rest.state.registered, hasService);
      assert (r.effects + rest.effects)[|r.effects + rest.effects| - |fin|..] == rest.effects[|rest.effects| - |fin|..];
    }
  }

  /** Any number of 'repeat' replies register once: the first one signals
      'registered' and plays the tone, the others are silent. */
  lemma {:induction false} RepeatsRegisterOnce(s: State, home: string, polls: seq<Poll>)
    requires polls != [] && forall i :: 0 <= i < |polls| ==> polls[i].reply == Replied(Repeat)
    ensures var r := RunSpec(s, true, home, polls);
            r.state.registered && r.end == Polling &&
            r.effects == (if s.registered then [] else [Status(RegisteredStatus), PlayFile(ConnectTone)])
    decreases |polls|
  {
    RepeatRule(s, true, home, polls[0]);
    var r := Step(s, true, home, polls[0]);
    if |polls| > 1 {
      RepeatsRegisterOnce(r.state, home, polls[1..]);
    }
  }

  /** A first reply of 403 ends the run at once; the connector never
      registered, so there is no farewell tone. */
  lemma ForbiddenEndsRun(s: State, hasService: bool, home: string, polls: seq<Poll>)
    requires polls != [] && polls[0].reply == Failed(HttpFailure(403)) && !s.registered
    ensures var r := RunSpec(s, hasService, home, polls);
            r.end == Stopped && !r.state.registered && r.state.params["cmd"] == Text("register") &&
            r.effects == (if hasService then [Status(DisconnectedStatus)] else [])
  {
  }

  /** A 'repeat' and then a 403, with a service: the second request says
      'push', and the run signals 'registered', the tone, 'disconnected' and
      the farewell tone. */
  lemma RegisterThenPush(s: State, home: string, p: Poll, q: Poll)
    requires !s.registered && p.reply == Replied(Repeat) && q.reply == Failed(HttpFailure(403))
    ensures var r := RunSpec(s, true, home, [p, q]);
            r.end == Stopped && r.state.registered && "cmd" in r.state.params &&
            r.state.params["cmd"] == Text("push") &&
            r.effects == [Status(RegisteredStatus), PlayFile(ConnectTone), Status(DisconnectedStatus),
                          PlayFile(DisconnectTone)]
  {
    var r1 := Step(s, true, home, p);
    assert [p, q][1..] == [q];
    var r2 := Step(r1.state, true, home, q);
    assert r2.flow == Break;
  }

  // ---------------------------------------------------------------------------
  // Where the requests' outcomes come from.

  /** The reply an iteration sees when `_request` ends with `o`: a response
      carries the command, a re-raised error its failure, and the ValueError of
      a malformed url is caught by the bare except. With no answer left the
      iteration has no reply. */
  function ReplyOf(o: Transport.Outcome<Command>): Option<Reply> {
    match o
    case Returned(cmd, _) => Some(Replied(cmd))
    case RaisedHttp(c) => Some(Failed(HttpFailure(c)))
    case RaisedUrl(e) => Some(Failed(UrlFailure(e)))
    case BadUrl(_) => Some(Failed(OtherFailure))
    case NoAnswer => None
  }

  /** A server that only ever answers with a URLError whose nested value is
      not a socket error: as written, `_request` ends on the ValueError of
      "http//…" and the poll loop keeps going; corrected, the URLError reaches
      the loop, which stops. */
  lemma UnreachableServerLoops(s: State, hasService: bool, home: string, address: string,
                               e: Transport.UrlCause, more: seq<Transport.Answer<Command>>,
                               hostname: string, battery: string, bytes: LabText.TokenBytes)
    requires e.OtherCause? && e.truthy
    ensures var asWritten := Transport.RequestSpec(AsWritten, address, "pushcmd",
                                                   [Transport.UrlError(e), Transport.UrlError(e)] + more);
            var corrected := Transport.RequestSpec(Corrected, address, "pushcmd",
                                                   [Transport.UrlError(e), Transport.UrlError(e)] + more);
            ReplyOf(asWritten.outcome).Some? && ReplyOf(corrected.outcome).Some? &&
            Step(s, hasService, home, Poll(hostname, battery, ReplyOf(asWritten.outcome).value, bytes)).flow == Continue &&
            Step(s, hasService, home, Poll(hostname, battery, ReplyOf(corrected.outcome).value, bytes)).flow == Break
  {
    Transport.SecondUrlErrorBreaksUrl(address, "pushcmd", e, e, more);
    Transport.SecondUrlErrorRaised(address, "pushcmd", e, e, more);
  }
}
