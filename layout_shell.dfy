/**
 * components/shared/LayoutShell.tsx: the site chrome (header, padded main
 * area, footer) around every page. Before hydration everything renders;
 * afterwards the login and admin areas render their children bare.
 */
module LayoutShell {
  import opened Text

  /** What wraps the children: the header, the class of the wrapping `div`, the footer. */
  datatype Chrome = Chrome(header: bool, wrapperClass: string, footer: bool)

  const FullChrome: Chrome := Chrome(true, "pt-16", true)
  const Bare: Chrome := Chrome(false, "", false)

  /** `/login` itself or a path under `/login/`. */
  predicate IsLogin(path: string) {
    path == "/login" || StartsWith(path, "/login/")
  }

  /** `/admin` itself or a path under `/admin/`. */
  predicate IsAdminRoute(path: string) {
    path == "/admin" || StartsWith(path, "/admin/")
  }

  /** The layout for a path, before (`mounted` false) or after hydration. */
  function Layout(mounted: bool, path: string): (c: Chrome)
    ensures !mounted ==> c == FullChrome
    ensures mounted ==> (c == Bare <==> IsLogin(path) || IsAdminRoute(path))
    ensures c == FullChrome || c == Bare
    // the header and the footer always come and go together
    ensures c.header == c.footer && (c.header <==> c.wrapperClass == "pt-16")
  {
    if !mounted then FullChrome
    else
      var hidden := IsLogin(path) || IsAdminRoute(path);
      Chrome(!hidden, if hidden then "" else "pt-16", !hidden)
  }

  /** The server render and the first client render agree whatever the path. */
  lemma ServerRenderIgnoresPath(p1: string, p2: string)
    ensures Layout(false, p1) == Layout(false, p2)
  {
  }

  /** Unlike the access gate's prefix test, `/administrator` and `/loginx` keep the chrome. */
  lemma SegmentBoundaries()
    ensures Layout(true, "/administrator") == FullChrome
    ensures Layout(true, "/loginx") == FullChrome
    ensures Layout(true, "/admin/dashboard") == Bare
    ensures Layout(true, "/login") == Bare
  {
    assert "/administrator"[6] == 'i';
    assert "/loginx"[6] == 'x';
    assert !StartsWith("/administrator", "/login/") by { assert "/administrator"[1] == 'a'; }
    assert !StartsWith("/loginx", "/admin/") by { assert "/loginx"[1] == 'l'; }
    assert StartsWith("/admin/dashboard", "/admin/") by { assert "/admin/dashboard"[..7] == "/admin/"; }
  }
}
