/**
 * The request heuristics of the plugin: the User-Agent robot test, the path-traversal
 * test run on the raw request URI, and the conditions under which a robot probing a
 * WordPress directory is refused.
 */
module Detectors {
  import opened Wrappers
  import opened PhpStrings

  // ---------------------------------------------------------------- robots

  /** The browser signatures `is_robot` lets through, in the order it tests them. */
  const BrowserPrefixes: seq<string> := [
    "Mozilla/5.0",
    "Mozilla/4.0 (compatible; MSIE 8.0;",
    "Mozilla/4.0 (compatible; MSIE 7.0;",
    "Opera/9.80"
  ]

  /** `is_robot($ua)`: none of the four fixed-length `substr($ua, 0, n)` comparisons matches. */
  predicate IsRobot(ua: string) {
    && "Mozilla/5.0" != Head(ua, 11)
    && "Mozilla/4.0 (compatible; MSIE 8.0;" != Head(ua, 34)
    && "Mozilla/4.0 (compatible; MSIE 7.0;" != Head(ua, 34)
    && "Opera/9.80" != Head(ua, 10)
  }

  /** A User-Agent is a robot exactly when it starts with none of the browser signatures. */
  lemma IsRobotIff(ua: string)
    ensures IsRobot(ua) <==> forall k :: 0 <= k < |BrowserPrefixes| ==> !(BrowserPrefixes[k] <= ua)
  {
    HeadIsPrefixTest(ua, BrowserPrefixes[0]);
    HeadIsPrefixTest(ua, BrowserPrefixes[1]);
    HeadIsPrefixTest(ua, BrowserPrefixes[2]);
    HeadIsPrefixTest(ua, BrowserPrefixes[3]);
  }

  /** `isset($_SERVER['HTTP_USER_AGENT']) ? $_SERVER['HTTP_USER_AGENT'] : ''`. */
  function UserAgentOrEmpty(header: Option<string>): (ua: string)
    ensures header.None? ==> ua == ""
    ensures header.Some? ==> ua == header.value
  {
    header.GetOr("")
  }

  /** A request without a User-Agent header, or with an empty one, is a robot. */
  lemma MissingUserAgentIsRobot(header: Option<string>)
    requires header.None? || header == Some("")
    ensures IsRobot(UserAgentOrEmpty(header))
  {
  }

  // ---------------------------------------------------------------- path hacks

  /** The test in `url_hack`: a leading `//`, or a `../` or `/..` anywhere in the raw URI. */
  predicate IsPathHack(uri: string) {
    Head(uri, 2) == "//" || Find(uri, "../").Some? || Find(uri, "/..").Some?
  }

  /** Two dots at `i` that touch a slash on either side. */
  predicate DotsTouchSlash(uri: string, i: nat) {
    && i + 2 <= |uri| && uri[i] == '.' && uri[i + 1] == '.'
    && ((i > 0 && uri[i - 1] == '/') || (i + 2 < |uri| && uri[i + 2] == '/'))
  }

  /** An occurrence of a three-character needle, character by character. */
  lemma OccursAt3(uri: string, needle: string, i: nat)
    requires |needle| == 3
    ensures OccursAt(uri, needle, i) <==>
      i + 3 <= |uri| && uri[i] == needle[0] && uri[i + 1] == needle[1] && uri[i + 2] == needle[2]
  {
    if i + 3 <= |uri| && uri[i] == needle[0] && uri[i + 1] == needle[1] && uri[i + 2] == needle[2] {
      assert uri[i..i + 3] == needle;
    }
  }

  /** Every URI the path-hack test flags is protocol-relative or has a `..` touching a slash. */
  lemma PathHackSound(uri: string)
    requires IsPathHack(uri)
    ensures "//" <= uri || exists i: nat :: DotsTouchSlash(uri, i)
  {
    HeadIsPrefixTest(uri, "//");
    var after := Find(uri, "../");
    var before := Find(uri, "/..");
    if after.Some? {
      OccursAt3(uri, "../", after.value);
      assert DotsTouchSlash(uri, after.value);
    } else if before.Some? {
      OccursAt3(uri, "/..", before.value);
      assert DotsTouchSlash(uri, before.value + 1);
    }
  }

  /** Every protocol-relative URI, and every URI with a `..` touching a slash, is flagged. */
  lemma PathHackComplete(uri: string, i: nat)
    requires "//" <= uri || DotsTouchSlash(uri, i)
    ensures IsPathHack(uri)
  {
    HeadIsPrefixTest(uri, "//");
    if !("//" <= uri) {
      if i > 0 && uri[i - 1] == '/' {
        OccursAt3(uri, "/..", i - 1);
        FindFirst(uri, "/..", i - 1);
      } else {
        OccursAt3(uri, "../", i);
        FindFirst(uri, "../", i);
      }
    }
  }

  // ---------------------------------------------------------------- robot_403

  /**
   * `preg_match('/\/(wp-admin|wp-includes|wp-content|<dir>)\//i', $path)` with `<dir>` the
   * basename of the content directory: one of the four names as a whole path segment, in any case.
   */
  predicate InWpDir(path: string, contentDir: string) {
    || ContainsCI(path, "/wp-admin/")
    || ContainsCI(path, "/wp-includes/")
    || ContainsCI(path, "/wp-content/")
    || ContainsCI(path, "/" + Basename(contentDir) + "/")
  }

  /** `preg_match('/\/wp-trackback\.php$/i', $path)`; `$` also matches before a final newline. */
  predicate IsTrackback(path: string) {
    EndsWithCI(path, "/wp-trackback.php") || EndsWithCI(path, "/wp-trackback.php\n")
  }

  /** The media-file exclusion: the path names the uploads directory and has no `.php` in any case. */
  predicate IsMediaMiss(path: string, uploadsBaseUrl: string) {
    Find(path, Basename(uploadsBaseUrl)).Some? && !ContainsCI(path, ".php")
  }

  /** The six-part condition under which `robot_403` refuses a request. */
  predicate Robot403Applies(
    loggedIn: bool, ua: string, path: string, contentDir: string, uploadsBaseUrl: string, xmlrpc: bool)
  {
    && !loggedIn
    && IsRobot(ua)
    && InWpDir(path, contentDir)
    && !IsMediaMiss(path, uploadsBaseUrl)
    && !xmlrpc
    && !IsTrackback(path)
  }

  /**
   * An unauthenticated robot reaching into `/wp-admin/` (in any letter case) is refused,
   * unless the request is XML-RPC, the trackback endpoint or a missing media file.
   */
  lemma {:induction false} AdminProbeRefused(
    ua: string, path: string, i: nat, contentDir: string, uploadsBaseUrl: string)
    requires IsRobot(ua)
    requires i + 10 <= |path| && Lower(path[i..i + 10]) == "/wp-admin/"
    requires !IsTrackback(path) && !IsMediaMiss(path, uploadsBaseUrl)
    ensures Robot403Applies(false, ua, path, contentDir, uploadsBaseUrl, false)
  {
    AdminSegmentFound(path, i, contentDir);
  }

  lemma AdminSegmentFound(path: string, i: nat, contentDir: string)
    requires i + 10 <= |path| && Lower(path[i..i + 10]) == "/wp-admin/"
    ensures InWpDir(path, contentDir)
  {
    assert Lower("/wp-admin/") == "/wp-admin/";
    ContainsCIAt(path, "/wp-admin/", i);
  }

  /** An empty path, which is what a URI without a path gives, is never refused. */
  lemma NoPathNeverRefused(
    loggedIn: bool, ua: string, contentDir: string, uploadsBaseUrl: string, xmlrpc: bool)
    ensures !Robot403Applies(loggedIn, ua, "", contentDir, uploadsBaseUrl, xmlrpc)
  {
    NothingInEmpty("/wp-admin/");
    NothingInEmpty("/wp-includes/");
    NothingInEmpty("/wp-content/");
    NothingInEmpty("/" + Basename(contentDir) + "/");
  }

  lemma NothingInEmpty(needle: string)
    requires needle != []
    ensures !ContainsCI("", needle)
  {
    assert Lower("") == [];
    assert Lower(needle) != [];
  }

  /** A User-Agent that starts with a browser signature is never refused. */
  lemma BrowserNeverRefused(
    loggedIn: bool, ua: string, path: string, contentDir: string, uploadsBaseUrl: string, xmlrpc: bool, k: nat)
    requires k < |BrowserPrefixes| && BrowserPrefixes[k] <= ua
    ensures !Robot403Applies(loggedIn, ua, path, contentDir, uploadsBaseUrl, xmlrpc)
  {
    IsRobotIff(ua);
  }
}
