/**
 * The shared base of the web front end's controllers: the default download
 * format fixed at construction, and the per-request resolution of the
 * `format` and `password` parameters.
 */
module Controller {
  import opened Optional
  import opened Http
  import opened Session

  /** The name the session segment is requested under (`self::class`). */
  const BaseControllerClass := "Alltube\\Controller\\BaseController"

  /** The initial value of the `defaultFormat` property. */
  const InitialDefaultFormat := "best/bestvideo"

  /** The one configuration setting this core reads. */
  datatype Config = Config(stream: bool)

  /** The flash key of a request: its `url` query value (possibly null). */
  function UrlKey(req: Request): FlashKey
  {
    QueryParam(req, "url")
  }

  /** The password a request submits, if any (`getParam('password')`). */
  function SubmittedPassword(req: Request): Option<string>
  {
    Param(req, "password")
  }

  /** What one `getPassword` call returns and the segment's flash writes after it. */
  datatype PasswordOutcome = PasswordOutcome(password: Option<string>, writes: map<FlashKey, string>)

  /**
   * One `getPassword` call on a segment that reads `incoming` and has so far
   * been written `writes`. A submitted password, even the empty string,
   * wins: it is flashed under the request's url and returned. Without one,
   * the flash value readable under the url is returned and nothing is written.
   */
  function ResolvePassword(req: Request, incoming: map<FlashKey, string>, writes: map<FlashKey, string>): (r: PasswordOutcome)
    ensures SubmittedPassword(req).Some? ==>
              r.password == SubmittedPassword(req) && Lookup(r.writes, UrlKey(req)) == r.password
    ensures SubmittedPassword(req).None? ==>
              r.password == Lookup(incoming, UrlKey(req)) && r.writes == writes
    ensures forall k :: k != UrlKey(req) ==> Lookup(r.writes, k) == Lookup(writes, k)
    ensures r.writes.Keys <= writes.Keys + {UrlKey(req)}
  {
    match SubmittedPassword(req)
    case Some(p) => PasswordOutcome(Some(p), writes[UrlKey(req) := p])
    case None => PasswordOutcome(Lookup(incoming, UrlKey(req)), writes)
  }

  /**
   * The flash writes of a segment after successive `getPassword` calls for
   * `reqs` within one request: the readable values `incoming` stay fixed while
   * the writes accumulate. Turning one request's writes into the next
   * request's readable values is the session library's business and is not
   * modelled.
   */
  function Replay(reqs: seq<Request>, incoming: map<FlashKey, string>, writes: map<FlashKey, string>): map<FlashKey, string>
    decreases |reqs|
  {
    if reqs == [] then writes
    else Replay(reqs[1..], incoming, ResolvePassword(reqs[0], incoming, writes).writes)
  }

  /** The urls under which some request of `reqs` submits a password. */
  function SubmittedUrls(reqs: seq<Request>): set<FlashKey>
    decreases |reqs|
  {
    if reqs == [] then {}
    else (if SubmittedPassword(reqs[0]).Some? then {UrlKey(reqs[0])} else {}) + SubmittedUrls(reqs[1..])
  }

  /** Calls that submit no password under `k` leave the flash entry under `k` as it was. */
  lemma {:induction false} ReplayUntouched(reqs: seq<Request>, incoming: map<FlashKey, string>,
                                           writes: map<FlashKey, string>, k: FlashKey)
    requires forall j :: 0 <= j < |reqs| && SubmittedPassword(reqs[j]).Some? ==> UrlKey(reqs[j]) != k
    ensures Lookup(Replay(reqs, incoming, writes), k) == Lookup(writes, k)
    decreases |reqs|
  {
    if reqs != [] {
      var next := ResolvePassword(reqs[0], incoming, writes).writes;
      assert Lookup(next, k) == Lookup(writes, k);
      forall j | 0 <= j < |reqs[1..]| && SubmittedPassword(reqs[1..][j]).Some?
        ensures UrlKey(reqs[1..][j]) != k
      {
        assert reqs[1..][j] == reqs[j + 1];
      }
      ReplayUntouched(reqs[1..], incoming, next, k);
    }
  }

  /**
   * The last submission under a url wins: when `reqs[i]` submits a password
   * and no later request submits one under the same url, that password is
   * the flash value under the url at the end.
   */
  lemma {:induction false} ReplayLastSubmissionWins(reqs: seq<Request>, incoming: map<FlashKey, string>,
                                                    writes: map<FlashKey, string>, i: nat)
    requires i < |reqs| && SubmittedPassword(reqs[i]).Some?
    requires forall j :: i < j < |reqs| && SubmittedPassword(reqs[j]).Some? ==> UrlKey(reqs[j]) != UrlKey(reqs[i])
    ensures Lookup(Replay(reqs, incoming, writes), UrlKey(reqs[i])) == SubmittedPassword(reqs[i])
    decreases |reqs|
  {
    var next := ResolvePassword(reqs[0], incoming, writes).writes;
    if i == 0 {
      forall j | 0 <= j < |reqs[1..]| && SubmittedPassword(reqs[1..][j]).Some?
        ensures UrlKey(reqs[1..][j]) != UrlKey(reqs[0])
      {
        assert reqs[1..][j] == reqs[j + 1];
      }
      ReplayUntouched(reqs[1..], incoming, next, UrlKey(reqs[0]));
    } else {
      assert reqs[1..][i - 1] == reqs[i];
      forall j | i - 1 < j < |reqs[1..]| && SubmittedPassword(reqs[1..][j]).Some?
        ensures UrlKey(reqs[1..][j]) != UrlKey(reqs[i])
      {
        assert reqs[1..][j] == reqs[j + 1];
      }
      ReplayLastSubmissionWins(reqs[1..], incoming, next, i - 1);
    }
  }

  /** The flash entries after the calls are the earlier ones plus one per submitting url, and no others. */
  lemma {:induction false} ReplayKeys(reqs: seq<Request>, incoming: map<FlashKey, string>, writes: map<FlashKey, string>)
    ensures Replay(reqs, incoming, writes).Keys == writes.Keys + SubmittedUrls(reqs)
    decreases |reqs|
  {
    if reqs != [] {
      var next := ResolvePassword(reqs[0], incoming, writes).writes;
      if SubmittedPassword(reqs[0]).Some? {
        assert next.Keys == writes.Keys + {UrlKey(reqs[0])};
      }
      ReplayKeys(reqs[1..], incoming, next);
    }
  }

  /** The state every controller shares: configuration, session segment, default format. */
  class BaseController {
    const config: Config
    /** The concrete controller's own class name (`static::class`). */
    const controllerClass: string
    /** The segment obtained from the session under the base class's name (`self::class`). */
    const sessionSegment: Segment
    var defaultFormat: string

    /**
     * Builds a controller of class `controllerClass` in `session`. The
     * segment is requested under the base class's name, not under
     * `controllerClass`, so every controller of the session reaches the
     * same storage. When streaming is disabled the default format is passed
     * once through `addHttpToFormat` (a configuration helper whose
     * definition is not part of this model).
     */
    constructor (config: Config, session: Session, controllerClass: string, addHttpToFormat: string -> string)
      ensures this.config == config && this.controllerClass == controllerClass
      ensures sessionSegment.session == session && sessionSegment.name == BaseControllerClass
      ensures fresh(sessionSegment)
      ensures config.stream ==> defaultFormat == InitialDefaultFormat
      ensures !config.stream ==> defaultFormat == addHttpToFormat(InitialDefaultFormat)
    {
      this.config := config;
      this.controllerClass := controllerClass;
      var segment := session.GetSegment(BaseControllerClass);
      sessionSegment := segment;
      defaultFormat := InitialDefaultFormat;
      new;
      if !config.stream {
        defaultFormat := addHttpToFormat(defaultFormat);
      }
    }

    /**
     * The requested format: the `format` query value when the request has
     * one (the empty string included), otherwise the default format. Being a
     * function it changes neither the default format nor the session.
     */
    function GetFormat(req: Request): (format: string)
      reads this
      ensures QueryParam(req, "format").Some? ==> Some(format) == QueryParam(req, "format")
      ensures QueryParam(req, "format").None? ==> format == defaultFormat
    {
      match QueryParam(req, "format")
      case Some(f) => f
      case None => defaultFormat
    }

    /**
     * The password for the video at the request's url: a submitted password
     * is flashed under the url and returned; otherwise the flash value under
     * the url is returned and nothing is written. No other segment and
     * nothing readable changes.
     */
    method GetPassword(req: Request) returns (password: Option<string>)
      modifies sessionSegment.session
      ensures password == ResolvePassword(req, sessionSegment.Incoming(), old(sessionSegment.Written())).password
      ensures sessionSegment.Written() == ResolvePassword(req, sessionSegment.Incoming(), old(sessionSegment.Written())).writes
      ensures sessionSegment.session.readable == old(sessionSegment.session.readable)
      ensures forall n :: n != sessionSegment.name ==>
                FlashOf(sessionSegment.session.written, n) == FlashOf(old(sessionSegment.session.written), n)
      ensures defaultFormat == old(defaultFormat)
    {
      var url := QueryParam(req, "url");
      password := Param(req, "password");
      if password.Some? {
        sessionSegment.SetFlash(url, password.value);
      } else {
        password := sessionSegment.GetFlash(url);
      }
    }
  }

  /**
   * Two controllers of any two classes built in one session obtain separate
   * segment handles, yet both name the base class, so they share storage: a
   * password the first flashes is what the second's segment holds under the
   * url, and a call without a password leaves the second's segment as it was.
   */
  method SharedSegmentFlash(session: Session, firstClass: string, secondClass: string,
                            first: Config, second: Config, addHttpToFormat: string -> string, req: Request)
    returns (password: Option<string>, other: BaseController)
    modifies session
    ensures other.controllerClass == secondClass && other.sessionSegment.session == session
    ensures SubmittedPassword(req).Some? ==> password == SubmittedPassword(req)
    ensures SubmittedPassword(req).Some? ==> Lookup(other.sessionSegment.Written(), UrlKey(req)) == password
    ensures SubmittedPassword(req).None? ==> other.sessionSegment.Written() == FlashOf(old(session.written), BaseControllerClass)
  {
    var controller := new BaseController(first, session, firstClass, addHttpToFormat);
    other := new BaseController(second, session, secondClass, addHttpToFormat);
    password := controller.GetPassword(req);
  }
}
