# WordPress fail2ban MU, modelled in Dafny

The WordPress must-use plugin `O1_WP_Fail2ban_MU` watches a WordPress request for signs of
probing: robots that hit missing pages or reach into WordPress's own directories, request URIs
that climb out of a directory, failed logins, suspicious answers to `wp_die`, and spam caught by
the Contact Form 7 robot trap. For each of these it writes one line to the error log, and the
fail2ban daemon matches those lines to ban the client. The plugin sends bare 404 and 403 answers
to robots, and it wraps WordPress's three `wp_die` handlers. Each wrapper logs and then passes
the call on to the handler it replaced.

The model has these modules:

- `PhpStrings`: the PHP string functions the plugin relies on (`substr`, `strstr`, `stristr`,
  case-insensitive regular-expression matches of literal text, `basename`, decimal digits).
- `PhpValues`: PHP values together with `is_scalar`, `empty`, the `(int)` cast and `serialize`.
- `LogEscape`: `esc_log`, which serializes a value, keeps its first 200 characters and replaces
  every run of Unicode category-C characters with `¿`.
- `Detectors`: the robot test, the path-hack test and the `robot_403` condition.
- `Host`: the request, the configuration and the WordPress state, collected as one `Env` value.
- `LogLine`: `trigger`, which formats the log line.
- `Fail2banMu`: the class `WpFail2banMu`, with its mutable flag, its three remembered handlers
  and one method per hook.

Each method returns what the hook does to the response: the log lines, whether buffered output
is dropped, the headers sent and whether the request ends. The model does not perform those
effects itself.

## Model

| member | source | states |
|---|---|---|
| PhpStrings.Basename | wordpress-fail2ban/mu-plugin/wp-fail2ban-mu.php:194 | `basename`: the text after the last `/` once trailing slashes are removed |
| PhpStrings.ContainsCI | wordpress-fail2ban/mu-plugin/wp-fail2ban-mu.php:207 | `stristr(...) !== false`: the needle occurs in the text once both are lower-cased in ASCII |
| PhpStrings.IsEmptyString | wordpress-fail2ban/mu-plugin/wp-fail2ban-mu.php:75 | `empty()` on a string: true for `''` and `'0'` only |
| PhpValues.IsEmpty | wordpress-fail2ban/mu-plugin/wp-fail2ban-mu.php:254 | `empty()` on any value: null, false, 0, `''`, `'0'` and the empty array |
| PhpValues.IntCastString | wordpress-fail2ban/mu-plugin/wp-fail2ban-mu.php:237 | `(int)` on a string: skip leading whitespace, read an optional sign, then the decimal digits that follow; no digits read as 0 |
| PhpValues.IntCast | wordpress-fail2ban/mu-plugin/wp-fail2ban-mu.php:237 | `(int)` on a scalar: booleans as 0 or 1, integers unchanged, strings by `IntCastString` |
| PhpValues.Serialize | wordpress-fail2ban/mu-plugin/wp-fail2ban-mu.php:301 | `serialize`: `N;`, `b:0;`/`b:1;`, `i:<n>;`, and `s:<UTF-8 byte length>:"<text>";` |
| LogEscape.Sanitize | wordpress-fail2ban/mu-plugin/wp-fail2ban-mu.php:305 | the `/[^\P{C}]+/u` replacement: each maximal run of category-C characters becomes one `¿`, every other character is kept in order |
| Detectors.IsRobot | wordpress-fail2ban/mu-plugin/wp-fail2ban-mu.php:288-297 | `is_robot`: none of the four fixed-length `substr` comparisons with a browser signature matches |
| Detectors.IsPathHack | wordpress-fail2ban/mu-plugin/wp-fail2ban-mu.php:137-139 | the `url_hack` test: the URI starts with `//` or contains `../` or `/..` |
| Detectors.InWpDir | wordpress-fail2ban/mu-plugin/wp-fail2ban-mu.php:203 | the case-insensitive regular expression at this line: `/wp-admin/`, `/wp-includes/`, `/wp-content/` or `/<dir>/` occurs in the path, `<dir>` being the basename of the content directory |
| Detectors.IsTrackback | wordpress-fail2ban/mu-plugin/wp-fail2ban-mu.php:214 | the `/\/wp-trackback\.php$/i` match, `$` also matching before a final newline |
| Detectors.IsMediaMiss | wordpress-fail2ban/mu-plugin/wp-fail2ban-mu.php:205-208 | the media exclusion: the path contains the uploads basename and no `.php` in any case |
| Detectors.Robot403Applies | wordpress-fail2ban/mu-plugin/wp-fail2ban-mu.php:197-214 | the six conjuncts of `robot_403`: not logged in, a robot, inside a WordPress directory, not a missing media file, not XML-RPC, not the trackback endpoint |
| LogLine.EffectivePrefix | wordpress-fail2ban/mu-plugin/wp-fail2ban-mu.php:75-76 | the prefix passed in, or `File does not exist: ` when it is `empty()` |
| LogLine.Event | wordpress-fail2ban/mu-plugin/wp-fail2ban-mu.php:87-90 | prefix, slug and `esc_log` of the message, in that order |
| LogLine.Line | wordpress-fail2ban/mu-plugin/wp-fail2ban-mu.php:85-107 | the event alone when `error_log` is `empty()`; otherwise `[<level>] [client <address>] `, the event, and the referer suffix when there is a referer |
| LogLine.Trigger | wordpress-fail2ban/mu-plugin/wp-fail2ban-mu.php:73-109 | `trigger`: the line handed to `error_log()`, the event wrapped by `Line` |
| Fail2banMu.DieReports | wordpress-fail2ban/mu-plugin/wp-fail2ban-mu.php:236-276 | when a die handler logs: a non-scalar or negative `(int)` for AJAX, `! empty()` for XML-RPC and the default handler |
| PhpStrings.Head | wordpress-fail2ban/mu-plugin/wp-fail2ban-mu.php:292-295 | `substr($s, 0, $n)` is a prefix of `$s`, of length `$n` or the whole of `$s` when it is shorter |
| PhpStrings.Find | wordpress-fail2ban/mu-plugin/wp-fail2ban-mu.php:137-139 | `strstr` reports an offset only where the needle really occurs |
| PhpStrings.Utf8Length | wordpress-fail2ban/mu-plugin/wp-fail2ban-mu.php:301 | the byte count `serialize` writes in `s:<n>:` lies between the character count and four times it (equal to it for ASCII, see `Utf8LengthAscii`) |
| PhpStrings.Utf8LengthAscii | wordpress-fail2ban/mu-plugin/wp-fail2ban-mu.php:301 | for ASCII text the length `serialize` writes is the character count |
| PhpValues.IsScalar | wordpress-fail2ban/mu-plugin/wp-fail2ban-mu.php:237 | `is_scalar` fails exactly for null, arrays and objects |
| LogEscape.IsOther | wordpress-fail2ban/mu-plugin/wp-fail2ban-mu.php:305 | membership in `\p{C}` as the sanitizer uses it: newline, carriage return, tab and NUL are in it, printable ASCII is not |
| Detectors.UserAgentOrEmpty | wordpress-fail2ban/mu-plugin/wp-fail2ban-mu.php:116 | a missing `User-Agent` header is read as the empty string |
| Fail2banMu.ForwardTo | wordpress-fail2ban/mu-plugin/wp-fail2ban-mu.php:240-241 | the previous `wp_die` handler is called with the same message, title and arguments, and a `null` handler makes the call fail |
| PhpStrings.HeadIsPrefixTest | wordpress-fail2ban/mu-plugin/wp-fail2ban-mu.php:292-295 | comparing `substr($s, 0, strlen($p))` with `$p` is exactly the test "`$s` starts with `$p`" |
| PhpStrings.FindFirst | wordpress-fail2ban/mu-plugin/wp-fail2ban-mu.php:137-139 | `strstr` finds a needle wherever it occurs, at the first occurrence or earlier |
| PhpStrings.FindIffOccurs | wordpress-fail2ban/mu-plugin/wp-fail2ban-mu.php:206-207 | `strstr(...) !== false` holds exactly when the needle occurs somewhere in the text |
| PhpStrings.ContainsCIAt | wordpress-fail2ban/mu-plugin/wp-fail2ban-mu.php:203-207 | a case-insensitive match (`/i`, `stristr`) is found wherever the text equals the needle after ASCII lower-casing |
| PhpStrings.BasenameOfJoin | wordpress-fail2ban/mu-plugin/wp-fail2ban-mu.php:194 | `basename` of `dir/name` followed by any number of slashes is `name` |
| PhpStrings.DecimalRoundTrip | wordpress-fail2ban/mu-plugin/wp-fail2ban-mu.php:301 | reading back the decimal length that `serialize` writes gives the length |
| PhpValues.IntCastStringNegative | wordpress-fail2ban/mu-plugin/wp-fail2ban-mu.php:237 | `(int) $s < 0` exactly when `$s` has a minus sign after leading whitespace, followed by digits that are not all zero |
| PhpValues.StringRoundTrip | wordpress-fail2ban/mu-plugin/wp-fail2ban-mu.php:301 | unserializing `serialize($s)` gives `$s` back for every string |
| LogEscape.SanitizePrintable | wordpress-fail2ban/mu-plugin/wp-fail2ban-mu.php:305 | no category-C character survives the replacement |
| LogEscape.SanitizeKeepsPrintable | wordpress-fail2ban/mu-plugin/wp-fail2ban-mu.php:305 | text without category-C characters passes through unchanged |
| LogEscape.SanitizeRun | wordpress-fail2ban/mu-plugin/wp-fail2ban-mu.php:305 | a whole run of category-C characters becomes one `¿` |
| LogEscape.SanitizeConcat | wordpress-fail2ban/mu-plugin/wp-fail2ban-mu.php:305 | the replacement works piece by piece whenever the pieces do not split a run |
| LogEscape.EscLog | wordpress-fail2ban/mu-plugin/wp-fail2ban-mu.php:299-308 | the result is ` (` + at most 200 characters + `)` and contains no category-C character |
| LogEscape.EscLogPassThrough | wordpress-fail2ban/mu-plugin/wp-fail2ban-mu.php:299-308 | a short, printable serialization is logged exactly as it is |
| LogEscape.EscLogTruncates | wordpress-fail2ban/mu-plugin/wp-fail2ban-mu.php:303 | a printable serialization longer than 200 characters is cut to its first 200 |
| LogEscape.SerializeStringPrintable | wordpress-fail2ban/mu-plugin/wp-fail2ban-mu.php:301 | `serialize` adds only printable characters around a string |
| LogEscape.LogDetailRoundTrip | wordpress-fail2ban/mu-plugin/wp-fail2ban-mu.php:299-308 | for a printable string whose serialization (the text, the digits of its byte count and six more characters) fits in 200 characters, unserializing the logged detail gives the string back |
| Detectors.IsRobotIff | wordpress-fail2ban/mu-plugin/wp-fail2ban-mu.php:288-297 | a User-Agent is a robot exactly when it starts with none of the four browser signatures |
| Detectors.MissingUserAgentIsRobot | wordpress-fail2ban/mu-plugin/wp-fail2ban-mu.php:191 | a missing or empty User-Agent is a robot |
| Detectors.PathHackSound | wordpress-fail2ban/mu-plugin/wp-fail2ban-mu.php:137-139 | a flagged URI starts with `//` or has a `..` with a slash before or after it |
| Detectors.PathHackComplete | wordpress-fail2ban/mu-plugin/wp-fail2ban-mu.php:137-139 | every URI that starts with `//` or has a `..` touching a slash is flagged |
| Detectors.AdminProbeRefused | wordpress-fail2ban/mu-plugin/wp-fail2ban-mu.php:197-215 | a robot that is not logged in and requests `/wp-admin/` in any letter case is refused, unless the request is XML-RPC, a trackback or a missing media file |
| Detectors.AdminSegmentFound | wordpress-fail2ban/mu-plugin/wp-fail2ban-mu.php:203 | a path holding `/wp-admin/` in any letter case is inside a WordPress directory |
| Detectors.NoPathNeverRefused | wordpress-fail2ban/mu-plugin/wp-fail2ban-mu.php:192-203 | a request without a path is never refused |
| Detectors.BrowserNeverRefused | wordpress-fail2ban/mu-plugin/wp-fail2ban-mu.php:197-199 | a User-Agent with a browser signature is never refused |
| LogLine.TriggerPrefixFallback | wordpress-fail2ban/mu-plugin/wp-fail2ban-mu.php:73-76 | a prefix of `''` or `'0'` gives the same line as the default prefix `File does not exist: ` |
| LogLine.TriggerBareIgnoresClient | wordpress-fail2ban/mu-plugin/wp-fail2ban-mu.php:85-90 | without a PHP log file, the line does not depend on the level, the client address or the referer |
| LogLine.TriggerWithClient | wordpress-fail2ban/mu-plugin/wp-fail2ban-mu.php:100-102 | with a PHP log file, the line opens with `[<level>] [client ` |
| LogLine.TriggerReferer | wordpress-fail2ban/mu-plugin/wp-fail2ban-mu.php:94-106 | a referer only appends `, referer:` and its escaped text, and only when there is a PHP log file |
| LogLine.TriggerLevelsDistinct | wordpress-fail2ban/mu-plugin/wp-fail2ban-mu.php:100-101 | with a log file of its own, what `trigger` writes names the level: the same event at two different levels gives two different lines |
| LogLine.TriggerSingleLine | wordpress-fail2ban/mu-plugin/wp-fail2ban-mu.php:73-109 | given a printable prefix, slug and client address, the line is printable and holds no line break |
| LogLine.EventLinesSingle | wordpress-fail2ban/mu-plugin/wp-fail2ban-mu.php:73-109 | the line for every slug the plugin logs is a single line when the client address is printable |
| LogLine.AuthEventsNotBanEvents | wordpress-fail2ban/mu-plugin/wp-fail2ban-mu.php:162 | a line with the `Wordpress auth: ` prefix never starts with the prefix fail2ban bans on |
| Fail2banMu.WpFail2banMu.constructor | wordpress-fail2ban/mu-plugin/wp-fail2ban-mu.php:25-29 | a new object has not yet reported the request and has no remembered handlers |
| Fail2banMu.WpFail2banMu.Wp404 | wordpress-fail2ban/mu-plugin/wp-fail2ban-mu.php:111-131 | outside a 404 it does nothing. On a 404 it logs one line at level info; a robot that is not logged in gets `wpf2b_robot404`, output dropped, both 404 headers and the end of the request; anyone else gets `wpf2b_404` |
| Fail2banMu.WpFail2banMu.UrlHack | wordpress-fail2ban/mu-plugin/wp-fail2ban-mu.php:133-145 | it logs one `wpf2b_url_hack` line at level error and sets the flag exactly when the URI is a path hack; the flag is never cleared |
| Fail2banMu.WpFail2banMu.Redirect | wordpress-fail2ban/mu-plugin/wp-fail2ban-mu.php:147-153 | it returns the redirect URL unchanged and logs `wpf2b_redirect` at level notice only when the flag is clear |
| Fail2banMu.WpFail2banMu.LoginFailed | wordpress-fail2ban/mu-plugin/wp-fail2ban-mu.php:155-158 | it logs the attempted user name as `wpf2b_login_failed` at level error |
| Fail2banMu.WpFail2banMu.LoginAsWritten | wordpress-fail2ban/mu-plugin/wp-fail2ban-mu.php:160-163 | the hook ends in a fatal error |
| Fail2banMu.WpFail2banMu.Login | wordpress-fail2ban/mu-plugin/wp-fail2ban-mu.php:160-163 | corrected: it logs `logged in` at level info with the auth prefix |
| Fail2banMu.WpFail2banMu.LogoutAsWritten | wordpress-fail2ban/mu-plugin/wp-fail2ban-mu.php:165-175 | the hook ends in a fatal error |
| Fail2banMu.WpFail2banMu.Logout | wordpress-fail2ban/mu-plugin/wp-fail2ban-mu.php:165-175 | corrected: it logs the current login name, or `""` when nobody is logged in |
| Fail2banMu.WpFail2banMu.LostPasswordAsWritten | wordpress-fail2ban/mu-plugin/wp-fail2ban-mu.php:177-184 | the hook ends in a fatal error |
| Fail2banMu.WpFail2banMu.LostPassword | wordpress-fail2ban/mu-plugin/wp-fail2ban-mu.php:177-184 | corrected: it logs every request, empty user names included, at level warn |
| Fail2banMu.WpFail2banMu.Robot403 | wordpress-fail2ban/mu-plugin/wp-fail2ban-mu.php:189-224 | it refuses the request exactly when the six-part condition holds. A refusal drops output, logs `wpf2b_robot403` with the path, sends both 403 headers and ends the request; otherwise nothing happens |
| Fail2banMu.WpFail2banMu.WpDieAjax | wordpress-fail2ban/mu-plugin/wp-fail2ban-mu.php:226-232 | it remembers the previous AJAX handler and returns its own |
| Fail2banMu.WpFail2banMu.WpDieAjaxHandler | wordpress-fail2ban/mu-plugin/wp-fail2ban-mu.php:234-242 | it logs only a non-scalar message or one that casts to a negative number, and always forwards to the remembered handler |
| Fail2banMu.WpFail2banMu.WpDieXmlrpc | wordpress-fail2ban/mu-plugin/wp-fail2ban-mu.php:244-250 | it remembers the previous XML-RPC handler and returns its own |
| Fail2banMu.WpFail2banMu.WpDieXmlrpcHandler | wordpress-fail2ban/mu-plugin/wp-fail2ban-mu.php:252-259 | it logs only a non-empty message, and always forwards to the remembered handler |
| Fail2banMu.WpFail2banMu.WpDie | wordpress-fail2ban/mu-plugin/wp-fail2ban-mu.php:261-267 | it remembers the previous default handler and returns its own |
| Fail2banMu.WpFail2banMu.WpDieHandler | wordpress-fail2ban/mu-plugin/wp-fail2ban-mu.php:269-276 | it logs only a non-empty message, and always forwards to the remembered handler |
| Fail2banMu.WpFail2banMu.Wpcf7Spam | wordpress-fail2ban/mu-plugin/wp-fail2ban-mu.php:278-281 | it logs `wpf2b_wpcf7_spam` at level error |
| Fail2banMu.WpFail2banMu.Wpcf7SpamMx | wordpress-fail2ban/mu-plugin/wp-fail2ban-mu.php:283-286 | it logs `wpf2b_wpcf7_spam_mx` at level warn |
| Fail2banMu.CanonicalRedirectRequest | wordpress-fail2ban/mu-plugin/wp-fail2ban-mu.php:133-153 | `url_hack` followed by `redirect` logs exactly one line: the path hack when there is one, the redirect otherwise; the redirect target is unchanged |
| Fail2banMu.DieThroughPlugin | wordpress-fail2ban/mu-plugin/wp-fail2ban-mu.php:226-276 | the plugin's handler is installed; it forwards to exactly the handler it replaced and logs one line exactly when the message is reportable |
| Fail2banMu.LoginBothWays | wordpress-fail2ban/mu-plugin/wp-fail2ban-mu.php:160-163 | the written login hook dies, while the corrected one logs one line that is not a ban event |
| Fail2banMu.AjaxBreachReported | wordpress-fail2ban/mu-plugin/wp-fail2ban-mu.php:236-237 | `-1` and non-scalars (null, arrays, objects) are reported; `0`, `1` and `true` are not |
| Fail2banMu.AjaxNegativeTextReported | wordpress-fail2ban/mu-plugin/wp-fail2ban-mu.php:236-237 | text that is a minus sign followed by digits, not all zero, is reported |
| Fail2banMu.AjaxDigitsQuiet | wordpress-fail2ban/mu-plugin/wp-fail2ban-mu.php:236-237 | text made only of digits, `''` and `'0'` included, is not reported |
| Fail2banMu.AjaxTextReported | wordpress-fail2ban/mu-plugin/wp-fail2ban-mu.php:237 | a text answer is reported exactly when PHP reads it as a negative integer |
| Fail2banMu.DieTextReported | wordpress-fail2ban/mu-plugin/wp-fail2ban-mu.php:252-276 | the XML-RPC and default handlers report a text message exactly when it is neither `''` nor `'0'` |
| Fail2banMu.HumansSeeThe404Page | wordpress-fail2ban/mu-plugin/wp-fail2ban-mu.php:119-120 | `wp_404` run for a logged-in user or a visitor with a browser signature never ends the request or drops the page, and logs `wpf2b_404` exactly on a 404 |

## Left out

- The guard against loading the file directly, outside WordPress (lines 12-20): it runs before the class exists and uses no part of it.
- The constructor's early return for the command line, local requests and installs, the check against use as a normal plugin, and the hook registration (lines 31-71). The model's constructor only sets the initial state, and each hook is a method the caller invokes.
- `exit_with_instructions` (lines 310-324): it only prints an HTML error page and exits.
- The commented-out backlog after the class (lines 330-354).
- `error_log`, `header`, `ob_end_clean` and `exit`: these are represented by the returned outcome and are not performed. `ob_get_level()` is not modelled; `discardOutput` says that the hook would drop any buffer.
- Everything the hooks read from the server, from PHP's configuration and from WordPress is supplied by the caller as fields of `Host.Env`. This covers `$_SERVER`, `ini_get('error_log')`, `is_404`, `is_user_logged_in`, `WP_CONTENT_DIR`, `wp_upload_dir`, `XMLRPC_REQUEST` and `parse_url`. `parse_url`'s `false` for a malformed URI is treated like a URI without a path; such a request is never refused by `robot_403`, so nothing is logged for it.
- `$admin_path` (line 193) is computed but never used, so the model does not compute it.
- `PhpValues.Serialize`: arrays and objects carry their serialized text as given by the caller, and floats are not modelled.
- `LogEscape.IsOther` covers all control characters, private-use characters and noncharacters, and the common format characters of category C. The rarer format characters and unassigned code points of Unicode's full table are not included. Every sanitizer lemma holds for any choice of this set.
- Invalid UTF-8 input: a `string` holds Unicode scalar values only, so the `/u` modifier's failure on bad UTF-8 is not modelled.
- `Detectors.InWpDir`: the basename of `WP_CONTENT_DIR` is matched as literal text, so regular-expression metacharacters in a directory name are not interpreted.
- Case-insensitive matching folds ASCII letters only, which is what PCRE's `/i` does without `/u` and what `stristr` does.
- Detectors.Robot403Applies: `strstr` follows PHP 8, where an empty needle is found at position 0. PHP 5 and 7 return `false` with a warning, so on those versions an empty basename of the uploads URL switches the media-file exclusion off, and the model does not capture that.
- PhpValues.IntCastString: the cast reads only a sign and a decimal digit prefix. PHP 7.1 and later also read exponent and fraction forms, so `'1e3'` casts to 1000 there but to 1 in the model, and `'-.5e1'` and `'-0.9e1'` cast to -5 and -9 there but to 0 in the model. Values beyond PHP's integer range are not modelled either.
- PhpValues.IntCastStringNegative and Fail2banMu.AjaxTextReported: both characterise the digit-prefix cast, so text such as `'-.5e1'` or `'-0.9e1'`, which `wp_die_ajax_handler` reports on PHP 7.1 and later, is not reported by the model.
- A `wp_die` filter argument that is not callable is not modelled. The remembered handler is either a callback or `null` (`None`); for `null` the forwarding yields `NotCallable`.

## Findings

| source | as written | input that shows it | evidently intended | confidence | as-written member | corrected member |
|---|---|---|---|---|---|---|
| wordpress-fail2ban/mu-plugin/wp-fail2ban-mu.php:160-163 | `login` calls a global `trigger()` that is not defined, so PHP stops with a fatal error | any successful login, e.g. user `admin` | `$this->trigger('logged in', $username, 'info', 'Wordpress auth: ')` logs one line | high; not executed | Fail2banMu.WpFail2banMu.LoginAsWritten | Fail2banMu.WpFail2banMu.Login |
| wordpress-fail2ban/mu-plugin/wp-fail2ban-mu.php:165-175 | `logout` calls the same undefined `trigger()` | any logout | one `logout` line with the current login name, or `""` | high; not executed | Fail2banMu.WpFail2banMu.LogoutAsWritten | Fail2banMu.WpFail2banMu.Logout |
| wordpress-fail2ban/mu-plugin/wp-fail2ban-mu.php:177-184 | `lostpass` calls the same undefined `trigger()` | any lost-password request | one `lost password` line at level warn | high; not executed | Fail2banMu.WpFail2banMu.LostPasswordAsWritten | Fail2banMu.WpFail2banMu.LostPassword |
