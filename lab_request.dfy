/** Connector._request in roberta/lab.py: one request to the server, retried
    with a changed url when the answer says the server lives elsewhere. The
    answers the network gives to successive tries are an input. */
module Transport {
  import opened PyBuiltins

  /** Why a URLError was raised, as far as the poll loop cares: no nested
      exception, a socket error (socket.timeout, gaierror, herror and every
      other OSError), or some other nested value, truthy or not. */
  datatype UrlCause = NoCause | SocketCause | OtherCause(truthy: bool)

  /** What one try gets back: a response, an HTTPError, or a URLError. */
  datatype Answer<R> = Response(response: R) | HttpError(code: int) | UrlError(cause: UrlCause)

  /** How a call ends: the response and the url that produced it, a re-raised
      error, the ValueError urllib raises for a url without a scheme, or no
      answer left to make a further try with. */
  datatype Outcome<R> =
    | Returned(response: R, url: string)
    | RaisedHttp(code: int)
    | RaisedUrl(cause: UrlCause)
    | BadUrl(url: string)
    | NoAnswer

  /** The outcome together with the urls tried, in order. */
  datatype Trace<R> = Trace(outcome: Outcome<R>, tried: seq<string>)

  const Https: string := "https"
  const Http: string := "http"
  const RestMarker: string := "/rest/"

  /** `'%s://%s/%s' % (protocol, address, cmd)`. */
  function Url(protocol: string, address: string, path: string): string {
    protocol + "://" + address + "/" + path
  }

  /** `"http" + url[5:]`: the first five characters replaced by "http". */
  function Downgrade(url: string): string {
    Http + Slice(url, Some(5), None)
  }

  /** urllib.request.Request accepts a url that starts with a scheme: one or
      more characters other than '/' and ':' followed by ':'. */
  predicate HasScheme(url: string) {
    exists i: nat | 0 < i < |url| :: url[i] == ':' && forall j :: 0 <= j < i ==> url[j] != '/' && url[j] != ':'
  }

  /** What the except clauses of one try decide: stop with an outcome, or try
      again with a new protocol and url. */
  datatype Move<R> = Stop(outcome: Outcome<R>) | Retry(protocol: string, url: string)

  /** One try's answer handled: a response is returned; a 404 on a url
      without "/rest/" retries with it, a 405 on https retries on http, any
      other HTTP code is re-raised; a URLError retries on http (as written,
      whatever the protocol; corrected, only from https). */
  function Handle<R>(policy: Policy, address: string, cmd: string, protocol: string, url: string,
                     a: Answer<R>): Move<R>
  {
    match a
    case Response(r) => Stop(Returned(r, url))
    case HttpError(c) =>
      if c == 404 && !Contains(url, RestMarker) then Retry(protocol, Url(protocol, address, "rest/" + cmd))
      else if c == 405 && protocol == Https then Retry(Http, Downgrade(url))
      else Stop(RaisedHttp(c))
    case UrlError(e) =>
      if policy == AsWritten || protocol == Https then Retry(Http, Downgrade(url))
      else Stop(RaisedUrl(e))
  }

  /** The tries from the state (`protocol`, `url`) on, consuming one answer
      per try. */
  function Attempt<R>(policy: Policy, address: string, cmd: string, protocol: string, url: string,
                      answers: seq<Answer<R>>): Trace<R>
    decreases |answers|
  {
    if !HasScheme(url) then Trace(BadUrl(url), [])
    else if answers == [] then Trace(NoAnswer, [])
    else match Handle(policy, address, cmd, protocol, url, answers[0])
      case Stop(o) => Trace(o, [url])
      case Retry(p, u) =>
        var t := Attempt(policy, address, cmd, p, u, answers[1..]);
        Trace(t.outcome, [url] + t.tried)
  }

  /** `_request(cmd, …)`: the first try goes to https://address/cmd. */
  function RequestSpec<R>(policy: Policy, address: string, cmd: string, answers: seq<Answer<R>>): Trace<R> {
    Attempt(policy, address, cmd, Https, Url(Https, address, cmd), answers)
  }

  /** The `while True` loop of `_request`: the url of every try is recorded,
      and the result is the one the specification gives. */
  method Request<R>(policy: Policy, address: string, cmd: string, answers: seq<Answer<R>>)
      returns (outcome: Outcome<R>, tried: seq<string>)
    ensures Trace(outcome, tried) == RequestSpec(policy, address, cmd, answers)
  {
    var protocol := Https;
    var url := Url(protocol, address, cmd);
    var k := 0;
    tried := [];
    while true
      invariant 0 <= k <= |answers|
      invariant var t := Attempt(policy, address, cmd, protocol, url, answers[k..]);
                Trace(t.outcome, tried + t.tried) == RequestSpec(policy, address, cmd, answers)
      decreases |answers| - k
    {
      if !HasScheme(url) {
        outcome := BadUrl(url);
        return;
      }
      if k == |answers| {
        outcome := NoAnswer;
        return;
      }
      assert answers[k..][0] == answers[k] && answers[k..][1..] == answers[k + 1..];
      var move := Handle(policy, address, cmd, protocol, url, answers[k]);
      tried := tried + [url];
      match move {
        case Stop(o) =>
          outcome := o;
          return;
        case Retry(p, u) =>
          protocol, url := p, u;
      }
      k := k + 1;
    }
  }

  // ---------------------------------------------------------------------------
  // Facts about urls.

  /** An occurrence of a pattern whose first character does not occur in a
      prefix lies wholly after that prefix. */
  lemma ContainsSkipsPrefix(pre: string, t: string, pat: string)
    requires pat != [] && pat[0] !in pre
    ensures Contains(pre + t, pat) <==> Contains(t, pat)
  {
    var s := pre + t;
    if Contains(s, pat) {
      var i: nat :| i <= |s| && OccursAt(s, pat, i);
      assert s[i] == pat[0];
      assert i >= |pre|;
      assert s[i..i + |pat|] == t[i - |pre|..i - |pre| + |pat|];
      assert OccursAt(t, pat, i - |pre|);
    }
    if Contains(t, pat) {
      var j: nat :| j <= |t| && OccursAt(t, pat, j);
      assert s[j + |pre|..j + |pre| + |pat|] == t[j..j + |pat|];
      assert OccursAt(s, pat, j + |pre|);
    }
  }

  /** Changing the scheme from https to http keeps the rest of the url, and so
      whether it contains "/rest/". */
  lemma DowngradeUrl(address: string, path: string)
    ensures Downgrade(Url(Https, address, path)) == Url(Http, address, path)
    ensures Contains(Url(Https, address, path), RestMarker) <==> Contains(Url(Http, address, path), RestMarker)
  {
    var t := "//" + address + "/" + path;
    assert Url(Https, address, path) == "https:" + t;
    assert Url(Http, address, path) == "http:" + t;
    assert Slice(Url(Https, address, path), Some(5), None) == ":" + t;
    ContainsSkipsPrefix("https:", t, RestMarker);
    ContainsSkipsPrefix("http:", t, RestMarker);
  }

  /** The url with "/rest/" put in does contain it. */
  lemma RestUrlHasMarker(protocol: string, address: string, cmd: string)
    ensures Contains(Url(protocol, address, "rest/" + cmd), RestMarker)
  {
    var u := Url(protocol, address, "rest/" + cmd);
    var i := |protocol| + 3 + |address|;
    assert u[i..i + 6] == RestMarker;
    assert OccursAt(u, RestMarker, i);
  }

  /** Both protocols make urls urllib accepts. */
  lemma UrlHasScheme(protocol: string, address: string, path: string)
    requires protocol == Https || protocol == Http
    ensures HasScheme(Url(protocol, address, path))
  {
    var u := Url(protocol, address, path);
    var i := |protocol|;
    assert u[i] == ':';
    assert forall j :: 0 <= j < i ==> u[j] == protocol[j];
  }

  /** "http" followed by "//": urllib finds no scheme in it. */
  lemma NoSchemeAfterDoubleDowngrade(address: string, path: string)
    ensures Downgrade(Url(Http, address, path)) == "http//" + address + "/" + path
    ensures !HasScheme("http//" + address + "/" + path)
  {
    var u := "http//" + address + "/" + path;
    assert Slice(Url(Http, address, path), Some(5), None) == "//" + address + "/" + path;
    assert u[4] == '/';
    forall i: nat | 0 < i < |u| && u[i] == ':'
      ensures exists j :: 0 <= j < i && (u[j] == '/' || u[j] == ':')
    {
      assert u[..5] == "http/";
      assert i > 4;
    }
  }

  // ---------------------------------------------------------------------------
  // Properties of the fallback.

  /** The number of tries still possible in a state: one, plus one for the
      https to http step not yet taken, plus one for "/rest/" not yet added. */
  function Budget(protocol: string, url: string): nat {
    1 + (if protocol == Https then 1 else 0) + (if Contains(url, RestMarker) then 0 else 1)
  }

  /** From a well-formed state every rewrite happens at most once, so there
      are at most `Budget` tries; the corrected loop never builds a url
      without a scheme; and with that many answers at hand it never runs out
      of them. */
  lemma {:induction false} AttemptBounded<R>(policy: Policy, address: string, cmd: string, protocol: string,
                                             path: string, answers: seq<Answer<R>>)
    requires protocol == Https || protocol == Http
    ensures var url := Url(protocol, address, path);
            var t := Attempt(policy, address, cmd, protocol, url, answers);
            |t.tried| <= Budget(protocol, url) &&
            (policy == Corrected ==> !t.outcome.BadUrl?) &&
            (|answers| >= Budget(protocol, url) ==> !t.outcome.NoAnswer?)
    decreases |answers|
  {
    var url := Url(protocol, address, path);
    UrlHasScheme(protocol, address, path);
    if answers != [] {
      var rest := answers[1..];
      match answers[0]
      case Response(r) =>
      case HttpError(c) =>
        if c == 404 && !Contains(url, RestMarker) {
          RestUrlHasMarker(protocol, address, cmd);
          AttemptBounded(policy, address, cmd, protocol, "rest/" + cmd, rest);
        } else if c == 405 && protocol == Https {
          DowngradeUrl(address, path);
          AttemptBounded(policy, address, cmd, Http, path, rest);
        }
      case UrlError(e) =>
        if protocol == Https {
          DowngradeUrl(address, path);
          AttemptBounded(policy, address, cmd, Http, path, rest);
        } else if policy == AsWritten {
          NoSchemeAfterDoubleDowngrade(address, path);
        }
    }
  }

  /** A call of `_request` makes at most three tries; the corrected one never
      fails on its own url, and three answers are always enough. */
  lemma RequestBounded<R>(policy: Policy, address: string, cmd: string, answers: seq<Answer<R>>)
    ensures |RequestSpec(policy, address, cmd, answers).tried| <= 3
    ensures policy == Corrected ==> !RequestSpec(policy, address, cmd, answers).outcome.BadUrl?
    ensures |answers| >= 3 ==> !RequestSpec(policy, address, cmd, answers).outcome.NoAnswer?
  {
    AttemptBounded(policy, address, cmd, Https, cmd, answers);
  }

  /** A response is handed back at the url that gave it. */
  lemma FirstResponseReturned<R>(policy: Policy, address: string, cmd: string, r: R, more: seq<Answer<R>>)
    ensures RequestSpec(policy, address, cmd, [Response(r)] + more) ==
            Trace(Returned(r, Url(Https, address, cmd)), [Url(Https, address, cmd)])
  {
    UrlHasScheme(Https, address, cmd);
  }

  /** HTTP codes other than 404 and 405 are re-raised after one try. */
  lemma OtherCodesPropagate<R>(policy: Policy, address: string, cmd: string, c: int, more: seq<Answer<R>>)
    requires c != 404 && c != 405
    ensures RequestSpec(policy, address, cmd, [HttpError(c)] + more) ==
            Trace(RaisedHttp(c), [Url(Https, address, cmd)])
  {
    UrlHasScheme(Https, address, cmd);
  }

  /** A 404 is retried once, with "/rest/" put in front of the command, and a
      second 404 is re-raised: with a 403 after the 404, the last try went to
      .../rest/pushcmd. */
  lemma RestRetriedOnce<R>(policy: Policy, address: string, cmd: string, c: int, more: seq<Answer<R>>)
    requires !Contains(Url(Https, address, cmd), RestMarker)
    requires c != 405
    ensures RequestSpec(policy, address, cmd, [HttpError(404), HttpError(c)] + more) ==
            Trace(RaisedHttp(c), [Url(Https, address, cmd), Url(Https, address, "rest/" + cmd)])
  {
    var answers := [HttpError(404), HttpError(c)] + more;
    assert answers[1..] == [HttpError(c)] + more;
    assert answers[1..][1..] == more;
    UrlHasScheme(Https, address, cmd);
    UrlHasScheme(Https, address, "rest/" + cmd);
    RestUrlHasMarker(Https, address, cmd);
    var u := Url(Https, address, "rest/" + cmd);
    assert Attempt(policy, address, cmd, Https, u, answers[1..]) == Trace(RaisedHttp(c), [u]);
  }

  /** A 405 switches to http once; a second 405 is re-raised. */
  lemma HttpTriedOnce<R>(policy: Policy, address: string, cmd: string, more: seq<Answer<R>>)
    ensures RequestSpec(policy, address, cmd, [HttpError(405), HttpError(405)] + more) ==
            Trace(RaisedHttp(405), [Url(Https, address, cmd), Url(Http, address, cmd)])
  {
    var answers := [HttpError(405), HttpError(405)] + more;
    assert answers[1..] == [HttpError(405)] + more;
    assert answers[1..][1..] == more;
    UrlHasScheme(Https, address, cmd);
    UrlHasScheme(Http, address, cmd);
    DowngradeUrl(address, cmd);
    var u := Url(Http, address, cmd);
    assert Attempt(policy, address, cmd, Http, u, answers[1..]) == Trace(RaisedHttp(405), [u]);
  }

  /** As written, a second URLError strips the ':' from the already-http url,
      and urllib then rejects "http//address/cmd" with a ValueError. */
  lemma SecondUrlErrorBreaksUrl<R>(address: string, cmd: string, e1: UrlCause, e2: UrlCause, more: seq<Answer<R>>)
    ensures RequestSpec(AsWritten, address, cmd, [UrlError(e1), UrlError(e2)] + more) ==
            Trace(BadUrl("http//" + address + "/" + cmd), [Url(Https, address, cmd), Url(Http, address, cmd)])
  {
    var answers := [UrlError(e1), UrlError(e2)] + more;
    assert answers[1..] == [UrlError(e2)] + more;
    assert answers[1..][1..] == more;
    UrlHasScheme(Https, address, cmd);
    UrlHasScheme(Http, address, cmd);
    DowngradeUrl(address, cmd);
    NoSchemeAfterDoubleDowngrade(address, cmd);
    var u := Url(Http, address, cmd);
    var bad := "http//" + address + "/" + cmd;
    assert Attempt(AsWritten, address, cmd, Http, bad, more) == Trace(BadUrl(bad), []);
    assert Attempt(AsWritten, address, cmd, Http, u, answers[1..]) == Trace(BadUrl(bad), [u]);
  }

  /** Corrected, the second URLError is re-raised for the poll loop to judge. */
  lemma SecondUrlErrorRaised<R>(address: string, cmd: string, e1: UrlCause, e2: UrlCause, more: seq<Answer<R>>)
    ensures RequestSpec(Corrected, address, cmd, [UrlError(e1), UrlError(e2)] + more) ==
            Trace(RaisedUrl(e2), [Url(Https, address, cmd), Url(Http, address, cmd)])
  {
    var answers := [UrlError(e1), UrlError(e2)] + more;
    assert answers[1..] == [UrlError(e2)] + more;
    assert answers[1..][1..] == more;
    UrlHasScheme(Https, address, cmd);
    UrlHasScheme(Http, address, cmd);
    DowngradeUrl(address, cmd);
    var u := Url(Http, address, cmd);
    assert Attempt(Corrected, address, cmd, Http, u, answers[1..]) == Trace(RaisedUrl(e2), [u]);
  }
}
