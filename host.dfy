/**
 * What the plugin reads from the web server, from PHP's configuration and from WordPress
 * while it handles one request. Every such input is a field of `Env`, so the hooks are
 * functions of it rather than of global state.
 */
module Host {
  import opened Wrappers
  import opened PhpValues
  import opened Detectors

  datatype Env = Env(
    /** `$_SERVER['REQUEST_URI']`, as the client sent it. */
    requestUri: string,
    /** `parse_url($_SERVER['REQUEST_URI'], PHP_URL_PATH)`; `None` when there is no path. */
    requestPath: Option<string>,
    /** `$_SERVER['HTTP_USER_AGENT']`, when the header is present. */
    userAgent: Option<string>,
    /** `$_SERVER['HTTP_REFERER']`, when the header is present. */
    referer: Option<string>,
    /** `$_SERVER['REMOTE_ADDR']`, when the server sets it. */
    remoteAddr: Option<string>,
    /** `is_user_logged_in()`. */
    loggedIn: bool,
    /** `is_404()`. */
    is404: bool,
    /** `defined('XMLRPC_REQUEST') && XMLRPC_REQUEST`. */
    xmlrpcRequest: bool,
    /** `WP_CONTENT_DIR`. */
    contentDir: string,
    /** `wp_upload_dir()['baseurl']`. */
    uploadsBaseUrl: string,
    /** `ini_get('error_log')`: where PHP writes `error_log()` output; empty means the server log. */
    errorLog: string
  )

  /** The User-Agent the hooks test, `''` when the header is missing. */
  function UserAgent(env: Env): string {
    UserAgentOrEmpty(env.userAgent)
  }

  /** The request path as the regular expressions see it: a missing path reads as `''`. */
  function PathText(env: Env): string {
    env.requestPath.GetOr("")
  }

  /** The request path as `robot_403` logs it: `null` when there is none. */
  function PathValue(env: Env): Value {
    match env.requestPath
    case Some(p) => Str(p)
    case None => Null
  }
}
