/**
 * The plugin object `O1_WP_Fail2ban_MU`: one instance per request, hooked into WordPress.
 * Each hook reads the request from `Env` and answers with what it does to the response:
 * the lines it writes to the error log, the status headers it sends and whether it ends
 * the request. The object remembers whether `url_hack` already reported the request and
 * which `wp_die` handler each of its own handlers replaced.
 */
module Fail2banMu {
  import opened Wrappers
  import opened PhpStrings
  import opened PhpValues
  import opened Detectors
  import opened Host
  import opened LogLine

  const NotFoundHeaders: seq<string> := ["Status: 404 Not Found", "HTTP/1.0 404 Not Found"]
  const ForbiddenHeaders: seq<string> := ["Status: 403 Forbidden", "HTTP/1.0 403 Forbidden"]

  /**
   * What a hook does to the response: whether it throws away buffered output
   * (`ob_end_clean`), the lines it logs, the headers it sends and whether it `exit`s.
   */
  datatype Outcome = Outcome(discardOutput: bool, log: seq<string>, headers: seq<string>, exits: bool)

  /** The hook does nothing visible. */
  const Quiet: Outcome := Outcome(false, [], [], false)

  /** The hook logs one line and lets the request go on. */
  function Logged(line: string): Outcome {
    Outcome(false, [line], [], false)
  }

  /** The hook drops the page, logs one line, sends the status headers and ends the request. */
  function Blocked(line: string, headers: seq<string>): Outcome {
    Outcome(true, [line], headers, true)
  }

  /** How a hook call ends: normally, with what it did, or with a fatal PHP error. */
  datatype HookResult = Returned(outcome: Outcome) | FatalError(message: string)

  /** The error PHP raises for a call to a function nobody defined. */
  const UndefinedTrigger: string := "Call to undefined function trigger()"

  /** The three `wp_die` handler filters the plugin decorates. */
  datatype DieKind = Ajax | Xmlrpc | Plain

  /**
   * A `wp_die` handler: one supplied by WordPress or another plugin, known only by name, or
   * `array($this, 'wp_die_..._handler')`, one of the plugin's own.
   */
  datatype Callback = External(name: string) | OwnHandler(kind: DieKind)

  /** `call_user_func($previous, $message, $title, $args)`, or the call failing on a `null` handler. */
  datatype Forward = Called(target: Callback, message: Value, title: Value, args: Value) | NotCallable

  /** What one of the plugin's `wp_die` handlers does: the lines it logs and the call it passes on. */
  datatype DieOutcome = DieOutcome(log: seq<string>, forward: Forward)

  function ForwardTo(previous: Option<Callback>, message: Value, title: Value, args: Value): (f: Forward)
    ensures f.NotCallable? <==> previous.None?
    ensures f.Called? ==> f.target == previous.value && f.message == message && f.title == title && f.args == args
  {
    match previous
    case Some(h) => Called(h, message, title, args)
    case None => NotCallable
  }

  /** Whether a handler of `kind` reports `$message`: `-1` and other negative answers for AJAX, anything non-empty otherwise. */
  predicate DieReports(kind: DieKind, message: Value) {
    match kind
    case Ajax => !IsScalar(message) || IntCast(message) < 0
    case Xmlrpc => !IsEmpty(message)
    case Plain => !IsEmpty(message)
  }

  /** The slug a handler of `kind` logs under. */
  function DieSlugOf(kind: DieKind): string {
    match kind
    case Ajax => DieAjaxSlug
    case Xmlrpc => DieXmlrpcSlug
    case Plain => DieSlug
  }

  class WpFail2banMu {
    /** Set once `url_hack` has reported the request, so that `redirect` does not report it again. */
    var isRedirect: bool
    /** The handlers the plugin's own `wp_die` handlers replaced; `None` until the filter ran. */
    var wpDieAjaxHandler: Option<Callback>
    var wpDieXmlrpcHandler: Option<Callback>
    var wpDieHandler: Option<Callback>

    constructor ()
      ensures !isRedirect
      ensures wpDieAjaxHandler.None? && wpDieXmlrpcHandler.None? && wpDieHandler.None?
    {
      isRedirect := false;
      wpDieAjaxHandler := None;
      wpDieXmlrpcHandler := None;
      wpDieHandler := None;
    }

    /** `wp_404`: a robot that reaches a missing page gets a bare 404; every 404 is logged. */
    method Wp404(env: Env) returns (o: Outcome)
      ensures !env.is404 ==> o == Quiet
      ensures o.exits <==> env.is404 && !env.loggedIn && IsRobot(UserAgent(env))
      ensures o.exits ==> o == Blocked(Trigger(env, Robot404Slug, Str(env.requestUri), Info, ""), NotFoundHeaders)
      ensures env.is404 && !o.exits ==> o == Logged(Trigger(env, NotFoundSlug, Str(env.requestUri), Info, ""))
    {
      if !env.is404 {
        return Quiet;
      }
      var ua := UserAgent(env);
      if !env.loggedIn && IsRobot(ua) {
        var line := Trigger(env, Robot404Slug, Str(env.requestUri), Info, "");
        return Blocked(line, NotFoundHeaders);
      }
      o := Logged(Trigger(env, NotFoundSlug, Str(env.requestUri), Info, ""));
    }

    /** `url_hack`: a request URI that climbs out of a directory or is protocol-relative is reported once. */
    method UrlHack(env: Env) returns (o: Outcome)
      modifies this`isRedirect
      ensures isRedirect == (old(isRedirect) || IsPathHack(env.requestUri))
      ensures IsPathHack(env.requestUri) ==> o == Logged(Trigger(env, UrlHackSlug, Str(env.requestUri), Error, ""))
      ensures !IsPathHack(env.requestUri) ==> o == Quiet
    {
      var uri := env.requestUri;
      if Head(uri, 2) == "//" || Find(uri, "../").Some? || Find(uri, "/..").Some? {
        isRedirect := true;
        return Logged(Trigger(env, UrlHackSlug, Str(uri), Error, ""));
      }
      o := Quiet;
    }

    /** `redirect`: WordPress's canonical redirect is kept; it is reported unless `url_hack` already was. */
    method Redirect(env: Env, redirectUrl: string, requestedUrl: string) returns (url: string, o: Outcome)
      ensures url == redirectUrl
      ensures isRedirect ==> o == Quiet
      ensures !isRedirect ==> o == Logged(Trigger(env, RedirectSlug, Str(requestedUrl), Notice, ""))
    {
      o := Quiet;
      if !isRedirect {
        o := Logged(Trigger(env, RedirectSlug, Str(requestedUrl), Notice, ""));
      }
      url := redirectUrl;
    }

    /** `login_failed`: every failed login is reported with the user name tried. */
    method LoginFailed(env: Env, username: string) returns (o: Outcome)
      ensures o == Logged(Trigger(env, LoginFailedSlug, Str(username), Error, ""))
    {
      o := Logged(Trigger(env, LoginFailedSlug, Str(username), Error, ""));
    }

    /** `login` as written: it calls a global `trigger()` that is not defined, so the call dies. */
    method LoginAsWritten(env: Env, username: string) returns (r: HookResult)
      ensures r == FatalError(UndefinedTrigger)
    {
      r := FatalError(UndefinedTrigger);
    }

    /** `login` as evidently intended: a successful login is logged at level info under the auth prefix. */
    method Login(env: Env, username: string) returns (o: Outcome)
      ensures o == Logged(Trigger(env, LoggedInSlug, Str(username), Info, AuthPrefix))
    {
      o := Logged(Trigger(env, LoggedInSlug, Str(username), Info, AuthPrefix));
    }

    /** `logout` as written: dies on the same undefined `trigger()`. */
    method LogoutAsWritten(env: Env, currentUserLogin: string) returns (r: HookResult)
      ensures r == FatalError(UndefinedTrigger)
    {
      r := FatalError(UndefinedTrigger);
    }

    /**
     * `logout` as evidently intended: logs the login name of the current user, or the two
     * characters `""` when nobody is logged in, at level info under the auth prefix.
     */
    method Logout(env: Env, currentUserLogin: string) returns (o: Outcome)
      ensures env.loggedIn ==> o == Logged(Trigger(env, LogoutSlug, Str(currentUserLogin), Info, AuthPrefix))
      ensures !env.loggedIn ==> o == Logged(Trigger(env, LogoutSlug, Str("\"\""), Info, AuthPrefix))
    {
      var user := if env.loggedIn then currentUserLogin else "\"\"";
      o := Logged(Trigger(env, LogoutSlug, Str(user), Info, AuthPrefix));
    }

    /** `lostpass` as written: dies on the same undefined `trigger()`. */
    method LostPasswordAsWritten(env: Env, username: Value) returns (r: HookResult)
      ensures r == FatalError(UndefinedTrigger)
    {
      r := FatalError(UndefinedTrigger);
    }

    /** `lostpass` as evidently intended: every request, an empty user name included, is logged as a warning. */
    method LostPassword(env: Env, username: Value) returns (o: Outcome)
      ensures o == Logged(Trigger(env, LostPasswordSlug, username, Warn, AuthPrefix))
    {
      o := Logged(Trigger(env, LostPasswordSlug, username, Warn, AuthPrefix));
    }

    /** `robot_403`: a robot that is not logged in and reaches into a WordPress directory is refused. */
    method Robot403(env: Env) returns (o: Outcome)
      ensures o.exits <==> Robot403Applies(
        env.loggedIn, UserAgent(env), PathText(env), env.contentDir, env.uploadsBaseUrl, env.xmlrpcRequest)
      ensures o.exits ==> o == Blocked(Trigger(env, Robot403Slug, PathValue(env), Error, ""), ForbiddenHeaders)
      ensures !o.exits ==> o == Quiet
    {
      var ua := UserAgent(env);
      var path := PathText(env);
      if && !env.loggedIn
         && IsRobot(ua)
         && InWpDir(path, env.contentDir)
         && !IsMediaMiss(path, env.uploadsBaseUrl)
         && !env.xmlrpcRequest
         && !IsTrackback(path)
      {
        var line := Trigger(env, Robot403Slug, PathValue(env), Error, "");
        return Blocked(line, ForbiddenHeaders);
      }
      o := Quiet;
    }

    /** `wp_die_ajax`: remembers the AJAX die handler and puts the plugin's own in its place. */
    method WpDieAjax(previous: Callback) returns (handler: Callback)
      modifies this`wpDieAjaxHandler
      ensures wpDieAjaxHandler == Some(previous)
      ensures handler == OwnHandler(Ajax)
    {
      wpDieAjaxHandler := Some(previous);
      handler := OwnHandler(Ajax);
    }

    /** `wp_die_ajax_handler`: reports a non-scalar or negative answer, then always calls the handler it replaced. */
    method WpDieAjaxHandler(env: Env, message: Value, title: Value, args: Value) returns (o: DieOutcome)
      ensures o.log == if DieReports(Ajax, message) then [Trigger(env, DieAjaxSlug, message, Error, "")] else []
      ensures o.forward == ForwardTo(wpDieAjaxHandler, message, title, args)
    {
      var log := [];
      if !IsScalar(message) || IntCast(message) < 0 {
        log := [Trigger(env, DieAjaxSlug, message, Error, "")];
      }
      o := DieOutcome(log, ForwardTo(wpDieAjaxHandler, message, title, args));
    }

    /** `wp_die_xmlrpc`: remembers the XML-RPC die handler and puts the plugin's own in its place. */
    method WpDieXmlrpc(previous: Callback) returns (handler: Callback)
      modifies this`wpDieXmlrpcHandler
      ensures wpDieXmlrpcHandler == Some(previous)
      ensures handler == OwnHandler(Xmlrpc)
    {
      wpDieXmlrpcHandler := Some(previous);
      handler := OwnHandler(Xmlrpc);
    }

    /** `wp_die_xmlrpc_handler`: reports a non-empty message, then always calls the handler it replaced. */
    method WpDieXmlrpcHandler(env: Env, message: Value, title: Value, args: Value) returns (o: DieOutcome)
      ensures o.log == if DieReports(Xmlrpc, message) then [Trigger(env, DieXmlrpcSlug, message, Error, "")] else []
      ensures o.forward == ForwardTo(wpDieXmlrpcHandler, message, title, args)
    {
      var log := [];
      if !IsEmpty(message) {
        log := [Trigger(env, DieXmlrpcSlug, message, Error, "")];
      }
      o := DieOutcome(log, ForwardTo(wpDieXmlrpcHandler, message, title, args));
    }

    /** `wp_die`: remembers the default die handler and puts the plugin's own in its place. */
    method WpDie(previous: Callback) returns (handler: Callback)
      modifies this`wpDieHandler
      ensures wpDieHandler == Some(previous)
      ensures handler == OwnHandler(Plain)
    {
      wpDieHandler := Some(previous);
      handler := OwnHandler(Plain);
    }

    /** `wp_die_handler`: reports a non-empty message, then always calls the handler it replaced. */
    method WpDieHandler(env: Env, message: Value, title: Value, args: Value) returns (o: DieOutcome)
      ensures o.log == if DieReports(Plain, message) then [Trigger(env, DieSlug, message, Error, "")] else []
      ensures o.forward == ForwardTo(wpDieHandler, message, title, args)
    {
      var log := [];
      if !IsEmpty(message) {
        log := [Trigger(env, DieSlug, message, Error, "")];
      }
      o := DieOutcome(log, ForwardTo(wpDieHandler, message, title, args));
    }

    /** `wpcf7_spam`: the Contact Form 7 robot trap's hidden field was filled in. */
    method Wpcf7Spam(env: Env, text: Value) returns (o: Outcome)
      ensures o == Logged(Trigger(env, SpamSlug, text, Error, ""))
    {
      o := Logged(Trigger(env, SpamSlug, text, Error, ""));
    }

    /** `wpcf7_spam_mx`: the robot trap found no mail exchanger for the sender's domain; logged as a warning. */
    method Wpcf7SpamMx(env: Env, domain: Value) returns (o: Outcome)
      ensures o == Logged(Trigger(env, SpamMxSlug, domain, Warn, ""))
    {
      o := Logged(Trigger(env, SpamMxSlug, domain, Warn, ""));
    }
  }

  /**
   * One request as WordPress runs it: `init` calls `url_hack`, then `redirect_canonical` calls
   * `redirect`. The request is reported exactly once, as a path hack when it is one and as a
   * redirect otherwise, and the redirect target is never changed.
   */
  method CanonicalRedirectRequest(env: Env, redirectUrl: string, requestedUrl: string)
    returns (url: string, log: seq<string>)
    ensures url == redirectUrl
    ensures |log| == 1
    ensures IsPathHack(env.requestUri) ==> log[0] == Trigger(env, UrlHackSlug, Str(env.requestUri), Error, "")
    ensures !IsPathHack(env.requestUri) ==> log[0] == Trigger(env, RedirectSlug, Str(requestedUrl), Notice, "")
  {
    var plugin := new WpFail2banMu();
    var hack := plugin.UrlHack(env);
    var redirect;
    url, redirect := plugin.Redirect(env, redirectUrl, requestedUrl);
    log := hack.log + redirect.log;
  }

  /**
   * A successful login as the code is written and as it is evidently meant: the written code
   * ends the request with a fatal error and logs nothing, the intended one logs one line that
   * fail2ban does not take for a ban event.
   */
  method LoginBothWays(env: Env, username: string) returns (asWritten: HookResult, intended: Outcome)
    ensures asWritten.FatalError?
    ensures |intended.log| == 1 && !intended.exits
    ensures !(DefaultPrefix <= Event(LoggedInSlug, Str(username), AuthPrefix))
  {
    var plugin := new WpFail2banMu();
    asWritten := plugin.LoginAsWritten(env, username);
    intended := plugin.Login(env, username);
    AuthEventsNotBanEvents(LoggedInSlug, Str(username));
  }

  /**
   * A `wp_die` call as WordPress runs it: the handler filter hands the plugin the current
   * handler and installs the one it returns, which is then called. The plugin's handler is what
   * gets installed, it passes the call on to exactly the handler it replaced, and it logs at most
   * one line, exactly when the message is one it reports.
   */
  method DieThroughPlugin(env: Env, kind: DieKind, previous: Callback, message: Value, title: Value, args: Value)
    returns (installed: Callback, o: DieOutcome)
    ensures installed == OwnHandler(kind)
    ensures o.forward == Called(previous, message, title, args)
    ensures |o.log| <= 1
    ensures |o.log| == 1 <==> DieReports(kind, message)
    ensures DieReports(kind, message) ==> o.log[0] == Trigger(env, DieSlugOf(kind), message, Error, "")
  {
    var plugin := new WpFail2banMu();
    match kind {
      case Ajax =>
        installed := plugin.WpDieAjax(previous);
        o := plugin.WpDieAjaxHandler(env, message, title, args);
      case Xmlrpc =>
        installed := plugin.WpDieXmlrpc(previous);
        o := plugin.WpDieXmlrpcHandler(env, message, title, args);
      case Plain =>
        installed := plugin.WpDie(previous);
        o := plugin.WpDieHandler(env, message, title, args);
    }
  }

  /**
   * The security-breach answer of WordPress's AJAX actions, `-1`, is reported, and so is
   * anything that is not a scalar (null, arrays, objects); `0`, `1` and `true` are not.
   */
  lemma AjaxBreachReported(size: nat, text: string)
    ensures DieReports(Ajax, Int(-1)) && DieReports(Ajax, Null)
    ensures DieReports(Ajax, Array(size, text)) && DieReports(Ajax, Object(text))
    ensures !DieReports(Ajax, Int(0)) && !DieReports(Ajax, Int(1)) && !DieReports(Ajax, Bool(true))
  {
  }

  /** The same answer as text, a minus sign followed by digits not all zero (`'-1'`), is reported too. */
  lemma AjaxNegativeTextReported(digits: string)
    requires AllDigits(digits) && HasNonZeroDigit(digits)
    ensures DieReports(Ajax, Str("-" + digits))
  {
    var s := "-" + digits;
    assert SkipSpace(s) == s;
    assert s[1..] == digits + [];
    DigitPrefixOfDigits(digits, []);
    IntCastStringNegative(s);
  }

  /** Text that reads as a non-negative number, such as `'0'` or `''`, is not reported. */
  lemma AjaxDigitsQuiet(digits: string)
    requires AllDigits(digits)
    ensures !DieReports(Ajax, Str(digits))
  {
    assert digits == [] || !IsNumericSpace(digits[0]);
    assert SkipSpace(digits) == digits;
    IntCastStringNegative(digits);
  }

  /** For text, the AJAX handler reports exactly the strings PHP reads as a negative integer. */
  lemma AjaxTextReported(s: string)
    ensures DieReports(Ajax, Str(s)) <==>
      var t := SkipSpace(s);
      t != [] && t[0] == '-' && HasNonZeroDigit(DigitPrefix(t[1..]))
  {
    IntCastStringNegative(s);
  }

  /** The XML-RPC and default handlers report a text message exactly when it is neither `''` nor `'0'`. */
  lemma DieTextReported(kind: DieKind, s: string)
    requires kind != Ajax
    ensures DieReports(kind, Str(s)) <==> s != "" && s != "0"
  {
  }

  /**
   * `wp_404` for a logged-in user, or for a visitor whose User-Agent starts with a browser
   * signature: the request is never ended and the page is never dropped; a missing page is
   * logged as `wpf2b_404` at level info.
   */
  method HumansSeeThe404Page(env: Env, k: nat) returns (o: Outcome)
    requires env.loggedIn || (k < |BrowserPrefixes| && BrowserPrefixes[k] <= UserAgent(env))
    ensures !o.exits && !o.discardOutput && o.headers == []
    ensures env.is404 ==> o.log == [Trigger(env, NotFoundSlug, Str(env.requestUri), Info, "")]
    ensures !env.is404 ==> o.log == []
  {
    IsRobotIff(UserAgent(env));
    var plugin := new WpFail2banMu();
    o := plugin.Wp404(env);
  }
}
