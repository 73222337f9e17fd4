/** The navigation highlighter of public/assets/app.js: the current path and
    each link's href are normalised by dropping trailing slashes (an empty
    result becomes "/"), and a link whose normalised href equals the
    normalised current path is marked aria-current="page". */
module Nav {
  import opened Wrappers

  /** Every character is a slash (vacuously so for ""). */
  predicate AllSlashes(s: string)
  {
    forall i :: 0 <= i < |s| ==> s[i] == '/'
  }

  /** The regular-expression replacement of public/assets/app.js:10: the run
      of slashes at the end of p, if any, is removed. */
  function StripTrailingSlashes(p: string): string
  {
    if |p| > 0 && p[|p| - 1] == '/' then StripTrailingSlashes(p[..|p| - 1]) else p
  }

  /** Stripping keeps a prefix, removes only slashes, and removes all of the
      trailing ones. */
  lemma {:induction false} StripSpec(p: string)
    ensures var s := StripTrailingSlashes(p);
      && s <= p
      && AllSlashes(p[|s|..])
      && (s == "" || s[|s| - 1] != '/')
  {
    if |p| > 0 && p[|p| - 1] == '/' {
      var q := p[..|p| - 1];
      StripSpec(q);
      var s := StripTrailingSlashes(q);
      assert p[|s|..] == q[|s|..] + ['/'];
    }
  }

  /** Appending slashes does not change what stripping keeps. */
  lemma {:induction false} StripIgnoresSlashes(p: string, t: string)
    requires AllSlashes(t)
    ensures StripTrailingSlashes(p + t) == StripTrailingSlashes(p)
    decreases |t|
  {
    if |t| > 0 {
      assert (p + t)[..|p + t| - 1] == p + t[..|t| - 1];
      StripIgnoresSlashes(p, t[..|t| - 1]);
    } else {
      assert p + t == p;
    }
  }

  /** A string that does not end in a slash is kept whole. */
  lemma StripKeepsUnslashed(s: string)
    requires s == "" || s[|s| - 1] != '/'
    ensures StripTrailingSlashes(s) == s
  {
  }

  /** The normaliser of public/assets/app.js:10: p without its trailing
      slashes, or "/" when nothing is left. */
  function Normalize(p: string): (r: string)
    ensures r != ""
    ensures r[|r| - 1] == '/' ==> r == "/"
    ensures r == "/" <==> AllSlashes(p)
    ensures r != "/" ==> r <= p && AllSlashes(p[|r|..])
  {
    StripSpec(p);
    var s := StripTrailingSlashes(p);
    if s == "" then "/" else s
  }

  /** Normalising a normalised path changes nothing. */
  lemma NormalizeIdempotent(p: string)
    ensures Normalize(Normalize(p)) == Normalize(p)
  {
    var r := Normalize(p);
    if r != "/" {
      StripKeepsUnslashed(r);
    }
  }

  /** Trailing slashes do not matter to the normal form. */
  lemma TrailingSlashesIgnored(p: string, t: string)
    requires AllSlashes(t)
    ensures Normalize(p + t) == Normalize(p)
  {
    StripIgnoresSlashes(p, t);
  }

  /** a and b agree up to some point, after which each has only slashes. */
  predicate DifferOnlyInTrailingSlashes(a: string, b: string)
  {
    exists n :: 0 <= n <= |a| && n <= |b| && a[..n] == b[..n] && AllSlashes(a[n..]) && AllSlashes(b[n..])
  }

  /** Two paths have the same normal form exactly when they differ only in
      their trailing slashes. */
  lemma SameNormalForm(a: string, b: string)
    ensures Normalize(a) == Normalize(b) <==> DifferOnlyInTrailingSlashes(a, b)
  {
    if DifferOnlyInTrailingSlashes(a, b) {
      var n :| 0 <= n <= |a| && n <= |b| && a[..n] == b[..n] && AllSlashes(a[n..]) && AllSlashes(b[n..]);
      assert a == a[..n] + a[n..];
      assert b == b[..n] + b[n..];
      TrailingSlashesIgnored(a[..n], a[n..]);
      TrailingSlashesIgnored(b[..n], b[n..]);
    }
    if Normalize(a) == Normalize(b) {
      var r := Normalize(a);
      if r == "/" {
        assert a[..0] == b[..0];
        assert a[0..] == a && b[0..] == b;
      } else {
        var n := |r|;
        assert a[..n] == r == b[..n];
      }
    }
  }

  /** An anchor of the navigation bar: its href and its aria-current
      attribute, if it has one. */
  datatype Link = Link(href: string, ariaCurrent: Option<string>)

  /** The test of line 13: the normalised href equals the normalised path. */
  predicate IsCurrent(href: string, pathname: string)
  {
    Normalize(href) == Normalize(pathname)
  }

  /** One link after the highlighter has visited it. */
  function Mark(link: Link, pathname: string): Link
  {
    if IsCurrent(link.href, pathname) then link.(ariaCurrent := Some("page")) else link
  }

  /** The highlighter's pass over the navigation links, in document order. */
  function Highlight(links: seq<Link>, pathname: string): seq<Link>
  {
    if links == [] then [] else [Mark(links[0], pathname)] + Highlight(links[1..], pathname)
  }

  /** The highlighter keeps every link and its href, marks exactly the links
      whose normalised href is the normalised current path, and leaves the
      attribute of every other link as it was. */
  lemma {:induction false} HighlightSpec(links: seq<Link>, pathname: string)
    ensures |Highlight(links, pathname)| == |links|
    ensures forall i :: 0 <= i < |links| ==> Highlight(links, pathname)[i].href == links[i].href
    ensures forall i :: 0 <= i < |links| && IsCurrent(links[i].href, pathname) ==>
              Highlight(links, pathname)[i].ariaCurrent == Some("page")
    ensures forall i :: 0 <= i < |links| && !IsCurrent(links[i].href, pathname) ==>
              Highlight(links, pathname)[i] == links[i]
  {
    if links != [] {
      HighlightSpec(links[1..], pathname);
      var r := Highlight(links, pathname);
      forall i | 0 < i < |links| ensures r[i] == Highlight(links[1..], pathname)[i - 1] {
      }
    }
  }

  /** Running the highlighter a second time changes nothing. */
  lemma HighlightIdempotent(links: seq<Link>, pathname: string)
    ensures Highlight(Highlight(links, pathname), pathname) == Highlight(links, pathname)
  {
    var once := Highlight(links, pathname);
    HighlightSpec(links, pathname);
    HighlightSpec(once, pathname);
  }

  /** Examples: "/about/" is the page "/about"; "", "/" and "///" are all the
      root; and the worker's health path with and without its trailing slash
      is the same page to the highlighter. */
  lemma NormalizeExamples()
    ensures IsCurrent("/about/", "/about") && IsCurrent("/about///", "/about/")
    ensures Normalize("") == "/" && Normalize("/") == "/" && Normalize("///") == "/"
    ensures !IsCurrent("/about", "/")
    ensures Normalize("/api/health/") == Normalize("/api/health")
  {
    TrailingSlashesIgnored("/about", "/");
    TrailingSlashesIgnored("/about", "///");
    TrailingSlashesIgnored("/api/health", "/");
    assert "/about" + "/" == "/about/";
    assert "/about" + "///" == "/about///";
    assert "/api/health" + "/" == "/api/health/";
  }
}
