/**
 * `trigger`: the one place where the plugin writes to the error log. A line names the event
 * by its slug (`wpf2b_404`, `wpf2b_url_hack`, ...) after a fixed prefix that fail2ban filters
 * match on, followed by the escaped detail. When PHP writes to its own log file the plugin adds
 * the level, the client address and the referer itself; otherwise the web server adds them.
 */
module LogLine {
  import opened Wrappers
  import opened PhpStrings
  import opened PhpValues
  import opened LogEscape
  import opened Host

  datatype Level = Error | Warn | Notice | Info

  function LevelName(level: Level): string {
    match level
    case Error => "error"
    case Warn => "warn"
    case Notice => "notice"
    case Info => "info"
  }

  /** The prefix every event line carries unless a caller passes its own. */
  const DefaultPrefix: string := "File does not exist: "

  const Robot404Slug: string := "wpf2b_robot404"
  const NotFoundSlug: string := "wpf2b_404"
  const UrlHackSlug: string := "wpf2b_url_hack"
  const RedirectSlug: string := "wpf2b_redirect"
  const LoginFailedSlug: string := "wpf2b_login_failed"
  const Robot403Slug: string := "wpf2b_robot403"
  const DieAjaxSlug: string := "wpf2b_wpdie_ajax"
  const DieXmlrpcSlug: string := "wpf2b_wpdie_xmlrpc"
  const DieSlug: string := "wpf2b_wpdie"
  const SpamSlug: string := "wpf2b_wpcf7_spam"
  const SpamMxSlug: string := "wpf2b_wpcf7_spam_mx"

  /** The prefix and slugs of the authentication events, which are not ban events. */
  const AuthPrefix: string := "Wordpress auth: "
  const LoggedInSlug: string := "logged in"
  const LogoutSlug: string := "logout"
  const LostPasswordSlug: string := "lost password"

  /** Every slug the plugin logs under the default prefix. */
  const Slugs: seq<string> := [
    Robot404Slug, NotFoundSlug, UrlHackSlug, RedirectSlug, LoginFailedSlug, Robot403Slug,
    DieAjaxSlug, DieXmlrpcSlug, DieSlug, SpamSlug, SpamMxSlug
  ]

  /** `empty($prefix)` falls back to the default prefix. */
  function EffectivePrefix(prefix: string): string {
    if IsEmptyString(prefix) then DefaultPrefix else prefix
  }

  /** The event itself: prefix, slug and the escaped message. */
  function Event(slug: string, message: Value, prefix: string): string {
    EffectivePrefix(prefix) + slug + EscLog(message)
  }

  /** `[<level>] `: the tag that opens a line written to PHP's own log file. */
  function LevelTag(level: Level): string {
    "[" + LevelName(level) + "] "
  }

  /** The level tag and `[client <address>] `; a missing address prints as nothing. */
  function ClientHeader(env: Env, level: Level): string {
    LevelTag(level) + "[client " + env.remoteAddr.GetOr("") + "] "
  }

  /** `, referer:` and the escaped referer, when the request has one. */
  function RefererSuffix(env: Env): string {
    match env.referer
    case Some(r) => ", referer:" + EscLog(Str(r))
    case None => ""
  }

  /** The line `trigger($slug, $message, $level, $prefix)` hands to `error_log()`. */
  function Trigger(env: Env, slug: string, message: Value, level: Level, prefix: string): string {
    Line(env, level, Event(slug, message, prefix))
  }

  /** The client data around an event: added only when PHP writes to a log file of its own. */
  function Line(env: Env, level: Level, event: string): string {
    if IsEmptyString(env.errorLog) then event
    else ClientHeader(env, level) + event + RefererSuffix(env)
  }

  /** An empty prefix, `''` or `'0'`, is the same as passing the default prefix. */
  lemma TriggerPrefixFallback(env: Env, slug: string, message: Value, level: Level, prefix: string)
    requires IsEmptyString(prefix)
    ensures Trigger(env, slug, message, level, prefix) == Trigger(env, slug, message, level, DefaultPrefix)
    ensures DefaultPrefix + slug <= Event(slug, message, prefix)
  {
    var e := EscLog(message);
    assert Event(slug, message, prefix) == DefaultPrefix + slug + e;
  }

  /**
   * Without a log file of its own the line carries neither level, client address nor referer:
   * it is the same whatever those are.
   */
  lemma TriggerBareIgnoresClient(
    env: Env, slug: string, message: Value, level: Level, prefix: string,
    otherLevel: Level, addr: Option<string>, referer: Option<string>)
    requires IsEmptyString(env.errorLog)
    ensures Trigger(env, slug, message, level, prefix)
         == Trigger(env.(remoteAddr := addr, referer := referer), slug, message, otherLevel, prefix)
  {
    var event := Event(slug, message, prefix);
    assert Line(env, level, event) == event;
    assert Line(env.(remoteAddr := addr, referer := referer), otherLevel, event) == event;
  }

  /** With a log file of its own the line opens with the level tag and the client address. */
  lemma TriggerWithClient(env: Env, slug: string, message: Value, level: Level, prefix: string)
    requires !IsEmptyString(env.errorLog)
    ensures LevelTag(level) + "[client " <= Trigger(env, slug, message, level, prefix)
  {
    LineWithClient(env, level, Event(slug, message, prefix));
  }

  lemma LineWithClient(env: Env, level: Level, event: string)
    requires !IsEmptyString(env.errorLog)
    ensures LevelTag(level) + "[client " <= Line(env, level, event)
  {
    var open := LevelTag(level) + "[client ";
    var rest := env.remoteAddr.GetOr("") + "] " + event + RefererSuffix(env);
    assert Line(env, level, event) == open + rest;
  }

  /**
   * A referer is only appended, as `, referer:` and its escaped text: everything before it is
   * the line the same request would give without the header. Without a log file of its own the
   * referer is not written at all.
   */
  lemma TriggerReferer(env: Env, slug: string, message: Value, level: Level, prefix: string)
    requires env.referer.Some?
    ensures RefererSuffix(env) == ", referer:" + EscLog(Str(env.referer.value))
    ensures !IsEmptyString(env.errorLog) ==>
      Trigger(env, slug, message, level, prefix) == Trigger(env.(referer := None), slug, message, level, prefix) + RefererSuffix(env)
    ensures IsEmptyString(env.errorLog) ==>
      Trigger(env, slug, message, level, prefix) == Trigger(env.(referer := None), slug, message, level, prefix)
  {
    LineReferer(env, level, Event(slug, message, prefix));
  }

  lemma LineReferer(env: Env, level: Level, event: string)
    ensures !IsEmptyString(env.errorLog) ==>
      Line(env, level, event) == Line(env.(referer := None), level, event) + RefererSuffix(env)
    ensures IsEmptyString(env.errorLog) ==>
      Line(env, level, event) == Line(env.(referer := None), level, event)
  {
    var plain := env.(referer := None);
    var head := ClientHeader(env, level);
    assert ClientHeader(plain, level) == head;
    assert RefererSuffix(plain) == [];
    if !IsEmptyString(env.errorLog) {
      assert Line(plain, level, event) == head + event;
    }
  }

  /**
   * With a log file of its own, what `trigger` writes names the level: the same event at two
   * different levels gives two different lines.
   */
  lemma TriggerLevelsDistinct(env: Env, slug: string, message: Value, a: Level, b: Level, prefix: string)
    requires !IsEmptyString(env.errorLog) && a != b
    ensures Trigger(env, slug, message, a, prefix) != Trigger(env, slug, message, b, prefix)
  {
    var la := Trigger(env, slug, message, a, prefix);
    var lb := Trigger(env, slug, message, b, prefix);
    TriggerWithClient(env, slug, message, a, prefix);
    TriggerWithClient(env, slug, message, b, prefix);
    PrefixOfPrefix(LevelTag(a), "[client ", la);
    PrefixOfPrefix(LevelTag(b), "[client ", lb);
    LevelTagsDistinct(a, b);
    LevelTagsDistinct(b, a);
    if la == lb {
      PrefixesComparable(LevelTag(a), LevelTag(b), la);
    }
  }

  /** The level tag names the level: different levels give different tags. */
  lemma LevelTagsDistinct(a: Level, b: Level)
    requires a != b
    ensures !(LevelTag(a) <= LevelTag(b))
  {
    assert LevelTag(a)[1] == LevelName(a)[0];
    assert LevelTag(b)[1] == LevelName(b)[0];
    assert LevelName(a)[0] != LevelName(b)[0];
  }

  lemma PrefixOfPrefix(x: string, y: string, z: string)
    requires x + y <= z
    ensures x <= z
  {
    assert x == (x + y)[..|x|];
  }

  /** Two prefixes of the same text are prefixes of one another. */
  lemma PrefixesComparable(x: string, y: string, z: string)
    requires x <= z && y <= z
    ensures x <= y || y <= x
  {
    if |x| <= |y| {
      assert x == y[..|x|];
    } else {
      assert y == x[..|y|];
    }
  }

  lemma EventPrintable(slug: string, message: Value, prefix: string)
    requires Printable(prefix) && Printable(slug)
    ensures Printable(Event(slug, message, prefix))
  {
    var p := EffectivePrefix(prefix);
    assert Printable(DefaultPrefix);
    PrintableConcat(p, slug);
    PrintableConcat(p + slug, EscLog(message));
  }

  lemma ClientHeaderPrintable(env: Env, level: Level)
    requires env.remoteAddr.Some? ==> Printable(env.remoteAddr.value)
    ensures Printable(ClientHeader(env, level))
  {
    var addr := env.remoteAddr.GetOr("");
    var open := LevelTag(level) + "[client ";
    assert Printable(open);
    PrintableConcat(open, addr);
    PrintableConcat(open + addr, "] ");
  }

  lemma RefererSuffixPrintable(env: Env)
    ensures Printable(RefererSuffix(env))
  {
    if env.referer.Some? {
      PrintableConcat(", referer:", EscLog(Str(env.referer.value)));
    }
  }

  /**
   * Every line is a single printable line whenever the prefix, the slug and the client address
   * are: nothing the client controls in the message or the referer can start a new log line.
   */
  lemma {:induction false} TriggerSingleLine(env: Env, slug: string, message: Value, level: Level, prefix: string)
    requires Printable(prefix) && Printable(slug)
    requires env.remoteAddr.Some? ==> Printable(env.remoteAddr.value)
    ensures Printable(Trigger(env, slug, message, level, prefix))
    ensures '\n' !in Trigger(env, slug, message, level, prefix)
  {
    var event := Event(slug, message, prefix);
    EventPrintable(slug, message, prefix);
    LinePrintable(env, level, event);
    NoNewline(Trigger(env, slug, message, level, prefix));
  }

  lemma LinePrintable(env: Env, level: Level, event: string)
    requires Printable(event)
    requires env.remoteAddr.Some? ==> Printable(env.remoteAddr.value)
    ensures Printable(Line(env, level, event))
  {
    if !IsEmptyString(env.errorLog) {
      var head := ClientHeader(env, level);
      ClientHeaderPrintable(env, level);
      RefererSuffixPrintable(env);
      PrintableConcat(head, event);
      PrintableConcat(head + event, RefererSuffix(env));
    }
  }

  /** A printable text has no line break. */
  lemma NoNewline(s: string)
    requires Printable(s)
    ensures '\n' !in s
  {
    forall i | 0 <= i < |s|
      ensures s[i] != '\n'
    {
      assert !IsOther(s[i]);
    }
  }

  /** An authentication event never carries the prefix fail2ban bans on. */
  lemma AuthEventsNotBanEvents(slug: string, message: Value)
    ensures AuthPrefix + slug <= Event(slug, message, AuthPrefix)
    ensures !(DefaultPrefix <= Event(slug, message, AuthPrefix))
  {
    AuthPrefixDiffers();
    OwnPrefixEvent(slug, message, AuthPrefix);
  }

  lemma AuthPrefixDiffers()
    ensures !IsEmptyString(AuthPrefix) && AuthPrefix[0] != DefaultPrefix[0]
  {
    assert |AuthPrefix| == 16;
  }

  /** A line with a prefix of its own opens with it, and not with a prefix that starts differently. */
  lemma OwnPrefixEvent(slug: string, message: Value, prefix: string)
    requires !IsEmptyString(prefix) && prefix[0] != DefaultPrefix[0]
    ensures prefix + slug <= Event(slug, message, prefix)
    ensures !(DefaultPrefix <= Event(slug, message, prefix))
  {
    var e := EscLog(message);
    assert Event(slug, message, prefix) == prefix + slug + e;
    assert (prefix + slug + e)[0] == prefix[0];
  }

  /** Every event line of the plugin is one printable line when the client address is printable. */
  lemma EventLinesSingle(env: Env, k: nat, message: Value, level: Level)
    requires k < |Slugs|
    requires env.remoteAddr.Some? ==> Printable(env.remoteAddr.value)
    ensures '\n' !in Trigger(env, Slugs[k], message, level, "")
  {
    assert Printable(Slugs[k]);
    assert Printable("");
    TriggerSingleLine(env, Slugs[k], message, level, "");
  }
}
