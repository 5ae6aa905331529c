/**
 * The two URL helpers: `normalize_url`, which makes a URL fetchable by giving
 * it a scheme, and `universe_url`, which turns a website into the identity key
 * the maps-mode merge joins on.
 */
module Urls {
  import opened Wrappers
  import opened Strings

  /** The URL already names one of the two schemes the scraper accepts. */
  predicate HasScheme(url: string) {
    StartsWith(url, "http://") || StartsWith(url, "https://")
  }

  /**
   * `normalize_url` (and the same rule inlined in `scrape_single_site`): a URL
   * without a scheme gets `http://` in front, any other URL is kept.
   */
  function NormalizeUrl(url: string): (r: string)
    ensures HasScheme(r)
    ensures r == url <==> HasScheme(url)
    ensures r == url || r == "http://" + url
  {
    if HasScheme(url) then url else "http://" + url
  }

  lemma NormalizeUrlIdempotent(url: string)
    ensures NormalizeUrl(NormalizeUrl(url)) == NormalizeUrl(url)
  {
  }

  /** The rewriting `universe_url` applies after `strip()` and `lower()`. */
  function Canonical(u: string): string {
    var withScheme := if StartsWith(u, "http") then u else "http://" + u;
    var plainHttp := Replace(withScheme, "https://", "http://");
    var noWww := Replace(plainHttp, "www.", "");
    if EndsWith(noWww, "/") then noWww[..|noWww| - 1] else noWww
  }

  /** `universe_url` on a string argument. */
  function IdentityKey(s: string): string {
    Canonical(Lower(Strip(s)))
  }

  /**
   * `universe_url`: a string becomes its identity key; anything else (here
   * `None`) fails inside the `try` and is handed back unchanged.
   */
  function UniverseUrl(url: Option<string>): (r: Option<string>)
    ensures r.None? <==> url.None?
    ensures r.Some? ==> StartsWith(r.value, "http") && NoUpper(r.value)
  {
    match url
    case None => None
    case Some(s) => KeyShape(s); Some(IdentityKey(s))
  }

  /** Both `replace` calls of `universe_url` keep a leading `http`. */
  lemma ReplaceKeepsHttp(t: string, pat: string, rep: string)
    requires StartsWith(t, "http")
    requires (pat == "https://" && rep == "http://") || (pat == "www." && rep == "")
    ensures StartsWith(Replace(t, pat, rep), "http")
  {
    if pat <= t {
      assert pat == "https://";
      assert rep <= Replace(t, pat, rep);
    } else {
      var rest := t[4..];
      assert t == "http" + rest;
      forall i | 0 <= i < 4
        ensures !(pat <= ("http" + rest)[i..])
      {
        if i > 0 {
          assert ("http" + rest)[i..][0] == "http"[i] != pat[0];
        }
      }
      ReplaceSkip("http", rest, pat, rep);
    }
  }

  /** The rewriting yields a string that begins with `http` and adds no capital letter. */
  lemma CanonicalShape(u: string)
    requires NoUpper(u)
    ensures StartsWith(Canonical(u), "http") && NoUpper(Canonical(u))
  {
    var withScheme := if StartsWith(u, "http") then u else "http://" + u;
    NoUpperConcat("http://", u);
    var plainHttp := Replace(withScheme, "https://", "http://");
    ReplaceKeepsHttp(withScheme, "https://", "http://");
    ReplaceNoUpper(withScheme, "https://", "http://");
    var noWww := Replace(plainHttp, "www.", "");
    ReplaceKeepsHttp(plainHttp, "www.", "");
    ReplaceNoUpper(plainHttp, "www.", "");
    if EndsWith(noWww, "/") {
      assert noWww[|noWww| - 1] == '/' != noWww[3];
      assert "http" <= noWww[..|noWww| - 1];
    }
  }

  /** Every identity key begins with `http` and holds no capital letter. */
  lemma KeyShape(s: string)
    ensures StartsWith(IdentityKey(s), "http") && NoUpper(IdentityKey(s))
  {
    CanonicalShape(Lower(Strip(s)));
  }

  /** Case never matters: inputs equal up to case have the same key. */
  lemma CaseInsensitive(s: string, t: string)
    requires Lower(s) == Lower(t)
    ensures UniverseUrl(Some(s)) == UniverseUrl(Some(t))
  {
    StripLower(s);
    StripLower(t);
    LowerOfLower(Strip(s));
    LowerOfLower(Strip(t));
  }

  /**
   * A host name as a user would type it: no white space, no `/`, no capital,
   * no `www.` inside, and not itself starting with `http`.
   */
  predicate PlainHost(h: string) {
    && h != []
    && NoUpper(h)
    && NoOccurrence(h, "www.")
    && !StartsWith(h, "http")
    && forall i :: 0 <= i < |h| ==> !IsSpace(h[i]) && h[i] != '/'
  }

  /** `https://` cannot occur where no `/` is followed by another. */
  lemma NoHttpsWithoutDoubleSlash(t: string)
    requires forall i :: 0 <= i < |t| - 1 ==> t[i] != '/'
    ensures NoOccurrence(t, "https://")
  {
    forall i | 0 <= i <= |t|
      ensures !("https://" <= t[i..])
    {
      if i + 8 <= |t| {
        assert t[i..][6] == t[i + 6] != '/';
      }
    }
  }

  /** Appending a character that `pat` does not contain creates no occurrence. */
  lemma NoOccurrenceExtend(h: string, c: char, pat: string)
    requires pat != [] && NoOccurrence(h, pat)
    requires forall k :: 0 <= k < |pat| ==> pat[k] != c
    ensures NoOccurrence(h + [c], pat)
  {
    var t := h + [c];
    forall i | 0 <= i <= |t|
      ensures !(pat <= t[i..])
    {
      if i + |pat| <= |h| {
        assert !(pat <= h[i..]);
        assert t[i..][..|pat|] == h[i..][..|pat|];
      } else if i + |pat| == |t| {
        assert t[i..][|pat| - 1] == c != pat[|pat| - 1];
      }
    }
  }

  /** A pattern that cannot start inside `http://` leaves that prefix alone. */
  lemma SkipHttp(rest: string, pat: string, rep: string)
    requires pat != [] && !(pat <= "http://" + rest)
    requires pat[0] != 't' && pat[0] != 'p' && pat[0] != ':' && pat[0] != '/'
    ensures Replace("http://" + rest, pat, rep) == "http://" + Replace(rest, pat, rep)
  {
    forall i | 0 <= i < 7
      ensures !(pat <= ("http://" + rest)[i..])
    {
      if i > 0 {
        assert ("http://" + rest)[i..][0] == "http://"[i];
      }
    }
    ReplaceSkip("http://", rest, pat, rep);
  }

  /** The `https://` rewrite leaves `http://` in front of a text with no `//`. */
  lemma HttpsStage(s: string, rest: string)
    requires s == "http://" || s == "https://"
    requires forall i :: 0 <= i < |rest| - 1 ==> rest[i] != '/'
    ensures Replace(s + rest, "https://", "http://") == "http://" + rest
  {
    NoHttpsWithoutDoubleSlash(rest);
    ReplaceAbsent(rest, "https://", "http://");
    if s == "https://" {
      ReplaceHere(rest, "https://", "http://");
    } else {
      assert ("http://" + rest)[4] == ':';
      SkipHttp(rest, "https://", "http://");
    }
  }

  /** Past the scheme, a `www.` before a host that holds no other is dropped. */
  lemma WwwRest(h: string, www: string, slash: string)
    requires NoOccurrence(h, "www.")
    requires www == "" || www == "www."
    requires slash == "" || slash == "/"
    ensures Replace(www + (h + slash), "www.", "") == h + slash
  {
    if slash == "/" {
      NoOccurrenceExtend(h, '/', "www.");
    } else {
      assert h + slash == h;
    }
    ReplaceAbsent(h + slash, "www.", "");
    if www == "www." {
      ReplaceHere(h + slash, "www.", "");
    } else {
      assert www + (h + slash) == h + slash;
    }
  }

  /** A plain host, written as the user would, is its own `strip().lower()`. */
  lemma SpellingKept(h: string, scheme: string, www: string, slash: string)
    requires PlainHost(h)
    requires scheme == "" || scheme == "http://" || scheme == "https://"
    requires www == "" || www == "www."
    requires slash == "" || slash == "/"
    ensures var t := scheme + (www + (h + slash)); Lower(Strip(t)) == t
  {
    var t := scheme + (www + (h + slash));
    assert t[0] in {'h', 'w', h[0]};
    assert t[|t| - 1] in {'/', h[|h| - 1]};
    StripNoop(t);
    SpellingNoUpper(h, scheme, www, slash);
    LowerOfNoUpper(t);
  }

  lemma SpellingNoUpper(h: string, scheme: string, www: string, slash: string)
    requires NoUpper(h)
    requires scheme == "" || scheme == "http://" || scheme == "https://"
    requires www == "" || www == "www."
    requires slash == "" || slash == "/"
    ensures NoUpper(scheme + (www + (h + slash)))
  {
    assert NoUpper(scheme) by {
      if scheme != "" {
        forall i | 0 <= i < |scheme| ensures !IsUpper(scheme[i]) {
          assert scheme[i] in "https:/";
        }
      }
    }
    assert NoUpper(www) by {
      if www != "" {
        forall i | 0 <= i < 4 ensures !IsUpper(www[i]) {
          assert www[i] in "w.";
        }
      }
    }
    NoUpperConcat(h, slash);
    NoUpperConcat(www, h + slash);
    NoUpperConcat(scheme, www + (h + slash));
  }

  /** A scheme is added to a plain host written without one. */
  lemma SchemeStage(h: string, scheme: string, www: string, slash: string)
    requires PlainHost(h)
    requires scheme == "" || scheme == "http://" || scheme == "https://"
    requires www == "" || www == "www."
    requires slash == "" || slash == "/"
    ensures var t := scheme + (www + (h + slash));
            (if StartsWith(t, "http") then t else "http://" + t)
            == (if scheme == "" then "http://" else scheme) + (www + (h + slash))
  {
    var rest := www + (h + slash);
    var t := scheme + rest;
    if scheme == "" {
      assert t == rest;
      if www != "" {
        assert rest[0] == 'w';
      } else if |h| >= 4 {
        assert rest[..4] == h[..4];
      } else if |rest| >= 4 {
        assert rest[3] == '/';
      }
    } else {
      assert t[..4] == "http";
    }
  }

  /** The two `replace` calls turn a spelling that already has a scheme into `http://` + host + slash. */
  lemma ReplaceStages(h: string, s: string, www: string, slash: string)
    requires PlainHost(h)
    requires s == "http://" || s == "https://"
    requires www == "" || www == "www."
    requires slash == "" || slash == "/"
    ensures Replace(Replace(s + (www + (h + slash)), "https://", "http://"), "www.", "")
            == "http://" + (h + slash)
  {
    var rest := www + (h + slash);
    assert forall i :: 0 <= i < |rest| - 1 ==> rest[i] != '/';
    HttpsStage(s, rest);
    assert ("http://" + rest)[0] == 'h';
    SkipHttp(rest, "www.", "");
    WwwRest(h, www, slash);
  }

  /** The rewriting after `strip().lower()` turns every spelling of a plain host into `http://` + host. */
  lemma CanonicalHost(h: string, scheme: string, www: string, slash: string)
    requires PlainHost(h)
    requires scheme == "" || scheme == "http://" || scheme == "https://"
    requires www == "" || www == "www."
    requires slash == "" || slash == "/"
    ensures Canonical(scheme + (www + (h + slash))) == "http://" + h
  {
    var rest := www + (h + slash);
    var t := scheme + rest;
    var s := if scheme == "" then "http://" else scheme;
    SchemeStage(h, scheme, www, slash);
    var withScheme := if StartsWith(t, "http") then t else "http://" + t;
    assert withScheme == s + rest;
    ReplaceStages(h, s, www, slash);
    var noWww := Replace(Replace(withScheme, "https://", "http://"), "www.", "");
    assert noWww == "http://" + (h + slash);
    SlashStage(h, slash);
  }

  /** Only the one trailing `/` goes. */
  lemma SlashStage(h: string, slash: string)
    requires h != [] && h[|h| - 1] != '/'
    requires slash == "" || slash == "/"
    ensures var n := "http://" + (h + slash);
            (if EndsWith(n, "/") then n[..|n| - 1] else n) == "http://" + h
  {
    var n := "http://" + (h + slash);
    if slash == "/" {
      assert n[..|n| - 1] == "http://" + h;
    } else {
      assert n[|n| - 1] == h[|h| - 1];
      assert n == "http://" + h;
    }
  }

  /**
   * The identity key ignores the scheme (none, `http://`, `https://`), a
   * `www.` before the host and one trailing `/`: all twelve spellings of a
   * plain host share the key `http://` + host.
   */
  lemma HostKey(h: string, scheme: string, www: string, slash: string)
    requires PlainHost(h)
    requires scheme == "" || scheme == "http://" || scheme == "https://"
    requires www == "" || www == "www."
    requires slash == "" || slash == "/"
    ensures UniverseUrl(Some(scheme + www + h + slash)) == Some("http://" + h)
  {
    assert scheme + www + h + slash == scheme + (www + (h + slash));
    SpellingKept(h, scheme, www, slash);
    CanonicalHost(h, scheme, www, slash);
  }

  lemma ExampleIsPlainHost()
    ensures PlainHost("example.com")
  {
    var h := "example.com";
    forall i | 0 <= i < |h|
      ensures !IsSpace(h[i]) && h[i] != '/' && !IsUpper(h[i]) && h[i] != 'w'
    {
      assert h[i] in "exampl.co";
    }
    forall i | 0 <= i <= |h|
      ensures !("www." <= h[i..])
    {
      if i < |h| {
        assert h[i..][0] == h[i];
      }
    }
    assert h[0] == 'e';
  }

  lemma ExampleLower(shouted: string, lowered: string)
    requires shouted == "HTTPS://WWW.Example.com/"
    requires lowered == "https://www.example.com/"
    ensures Lower(shouted) == lowered
  {
    forall i | 0 <= i < |shouted|
      ensures Lower(shouted)[i] == lowered[i]
    {
    }
  }

  /** Literal facts about the spellings of `example.com`, kept apart because they are costly in context. */
  lemma ExampleSlashed(bare: string, slashed: string)
    requires bare == "example.com"
    requires slashed == "http://example.com/"
    ensures "http://" + "" + bare + "/" == slashed
  {
  }

  lemma ExampleLowered(bare: string, lowered: string)
    requires bare == "example.com"
    requires lowered == "https://www.example.com/"
    ensures "https://" + "www." + bare + "/" == lowered
  {
  }

  lemma ExampleKey(bare: string)
    requires bare == "example.com"
    ensures "" + "" + bare + "" == bare
    ensures "http://" + bare == "http://example.com"
  {
  }

  /** Three spellings of one site that share the key `http://example.com`. */
  lemma ExampleSpellings(shouted: string, bare: string, slashed: string)
    requires shouted == "HTTPS://WWW.Example.com/"
    requires bare == "example.com"
    requires slashed == "http://example.com/"
    ensures UniverseUrl(Some(shouted)) == Some("http://example.com")
    ensures UniverseUrl(Some(bare)) == Some("http://example.com")
    ensures UniverseUrl(Some(slashed)) == Some("http://example.com")
  {
    var lowered := "https://www.example.com/";
    ExampleLower(shouted, lowered);
    ExampleSlashed(bare, slashed);
    ExampleLowered(bare, lowered);
    ExampleKey(bare);
    ExampleIsPlainHost();
    HostKey(bare, "", "", "");
    HostKey(bare, "http://", "", "/");
    HostKey(bare, "https://", "www.", "/");
    CaseInsensitive(shouted, lowered);
  }

  /** `x//` is unchanged by `strip()` and `lower()`, has no scheme and contains no `www.`. */
  lemma DoubleSlashPlain(t: string)
    requires t == "x//"
    ensures Lower(Strip(t)) == t && !StartsWith(t, "http") && NoOccurrence(t, "www.")
  {
    assert t[0] == 'x' && t[1] == '/' && t[2] == '/';
    StripNoop(t);
    assert NoUpper(t);
    LowerOfNoUpper(t);
    forall i | 0 <= i <= |t|
      ensures !("www." <= t[i..])
    {
      if i < |t| {
        assert t[i..][0] == t[i] != 'w';
      }
    }
  }

  /** `x//` loses one of its two trailing slashes. */
  lemma DoubleSlashKey(t: string)
    requires t == "x//"
    ensures IdentityKey(t) == "http://x/"
  {
    DoubleSlashPlain(t);
    ReplaceAbsent(t, "https://", "http://");
    assert ("http://" + t)[4] == ':';
    SkipHttp(t, "https://", "http://");
    ReplaceAbsent(t, "www.", "");
    assert ("http://" + t)[0] == 'h';
    SkipHttp(t, "www.", "");
    var n := "http://" + t;
    assert n[..|n| - 1] == "http://x/";
  }

  /** `http://x/` loses its trailing slash. */
  lemma SingleSlashKey(h: string, u: string)
    requires h == "x" && u == "http://x/"
    ensures UniverseUrl(Some(u)) == Some("http://x")
  {
    assert "http://" + "" + h + "/" == u;
    assert "http://" + h == "http://x";
    assert h[0] == 'x';
    HostKey(h, "http://", "", "/");
  }

  /**
   * The key is not idempotent: only one trailing `/` goes per call, so
   * `x//` has the key `http://x/`, whose own key is `http://x`.
   */
  lemma KeyNotIdempotent(t: string)
    requires t == "x//"
    ensures UniverseUrl(Some(t)) == Some("http://x/")
    ensures UniverseUrl(UniverseUrl(Some(t))) == Some("http://x")
  {
    DoubleSlashKey(t);
    SingleSlashKey("x", IdentityKey(t));
  }

  /**
   * A host name that itself begins with `http`, such as `httpbin.org`: no
   * white space, no `/`, no capital and no `www.` inside.
   */
  predicate HttpNamedHost(h: string) {
    && NoUpper(h)
    && NoOccurrence(h, "www.")
    && StartsWith(h, "http")
    && forall i :: 0 <= i < |h| ==> !IsSpace(h[i]) && h[i] != '/'
  }

  /** Such a host is its own key: `universe_url` adds no scheme to text that starts with `http`. */
  lemma HttpHostBare(h: string)
    requires HttpNamedHost(h)
    ensures UniverseUrl(Some(h)) == Some(h)
  {
    assert h[0] == 'h';
    StripNoop(h);
    LowerOfNoUpper(h);
    NoHttpsWithoutDoubleSlash(h);
    ReplaceAbsent(h, "https://", "http://");
    ReplaceAbsent(h, "www.", "");
  }

  /** With `www.` in front, the same host gets a scheme and loses the `www.`. */
  lemma HttpHostWww(h: string)
    requires HttpNamedHost(h)
    ensures UniverseUrl(Some("www." + h)) == Some("http://" + h)
  {
    var t := "www." + h;
    assert t[0] == 'w' && t[|t| - 1] == h[|h| - 1];
    StripNoop(t);
    assert NoUpper("www.") by {
      forall i | 0 <= i < 4 ensures !IsUpper("www."[i]) {
        assert "www."[i] in "w.";
      }
    }
    NoUpperConcat("www.", h);
    LowerOfNoUpper(t);
    assert !StartsWith(t, "http");
    assert forall i :: 0 <= i < |t| - 1 ==> t[i] != '/';
    HttpsStage("http://", t);
    assert ("http://" + t)[0] == 'h';
    SkipHttp(t, "www.", "");
    assert h + "" == h;
    WwwRest(h, "www.", "");
    var n := "http://" + h;
    assert n[|n| - 1] == h[|h| - 1];
  }

  /**
   * For a host that begins with `http`, the key depends on the spelling: the
   * bare host and the host with `www.` get different keys.
   */
  lemma HttpHostSplits(h: string)
    requires HttpNamedHost(h)
    ensures UniverseUrl(Some(h)) != UniverseUrl(Some("www." + h))
  {
    HttpHostBare(h);
    HttpHostWww(h);
  }

  lemma HttpbinIsHttpHost(h: string)
    requires h == "httpbin.org"
    ensures HttpNamedHost(h)
  {
    forall i | 0 <= i < |h|
      ensures !IsSpace(h[i]) && h[i] != '/' && !IsUpper(h[i]) && h[i] != 'w'
    {
      assert h[i] in "htpbin.org";
    }
    forall i | 0 <= i <= |h|
      ensures !("www." <= h[i..])
    {
      if i < |h| {
        assert h[i..][0] == h[i];
      }
    }
    assert "http" <= h;
  }

  /** `httpbin.org` keeps its spelling as its key, while `www.httpbin.org` gets `http://httpbin.org`. */
  lemma HttpbinSplits(h: string)
    requires h == "httpbin.org"
    ensures UniverseUrl(Some(h)) == Some(h)
    ensures UniverseUrl(Some("www." + h)) == Some("http://" + h)
  {
    HttpbinIsHttpHost(h);
    HttpHostBare(h);
    HttpHostWww(h);
  }

  /**
   * A website with a path, as a user would type it: no white space, no
   * capital, no scheme, no `www.` or `https://` inside, and no trailing `/`.
   */
  predicate PlainPath(t: string) {
    && t != []
    && NoUpper(t)
    && NoOccurrence(t, "www.")
    && NoOccurrence(t, "https://")
    && !StartsWith(t, "http")
    && t[|t| - 1] != '/'
    && forall i :: 0 <= i < |t| ==> !IsSpace(t[i])
  }

  /** The path is part of the key: such a website only gains the scheme. */
  lemma PlainPathKey(t: string)
    requires PlainPath(t)
    ensures UniverseUrl(Some(t)) == Some("http://" + t)
  {
    StripNoop(t);
    LowerOfNoUpper(t);
    ReplaceAbsent(t, "https://", "http://");
    assert ("http://" + t)[4] == ':';
    SkipHttp(t, "https://", "http://");
    ReplaceAbsent(t, "www.", "");
    assert ("http://" + t)[0] == 'h';
    SkipHttp(t, "www.", "");
    var n := "http://" + t;
    assert n[|n| - 1] == t[|t| - 1];
  }

  /** Two pages of one host keep apart: different paths give different keys. */
  lemma PathsKeepApart(h: string, p: string, q: string)
    requires PlainPath(h + "/" + p) && PlainPath(h + "/" + q)
    requires p != q
    ensures UniverseUrl(Some(h + "/" + p)) != UniverseUrl(Some(h + "/" + q))
  {
    var t, u := h + "/" + p, h + "/" + q;
    assert t[|h| + 1..] == p && u[|h| + 1..] == q;
    PlainPathKey(t);
    PlainPathKey(u);
    assert ("http://" + t)[7..] == t && ("http://" + u)[7..] == u;
  }

  lemma ExamplePagePlain(t: string)
    requires t == "example.com/a" || t == "example.com/b"
    ensures PlainPath(t)
  {
    forall i | 0 <= i < |t|
      ensures !IsSpace(t[i]) && !IsUpper(t[i]) && t[i] != 'w' && t[i] != 'h'
    {
      assert t[i] in "exampl.co/b";
    }
    forall i | 0 <= i <= |t|
      ensures !("www." <= t[i..]) && !("https://" <= t[i..])
    {
      if i < |t| {
        assert t[i..][0] == t[i];
      }
    }
    assert t[0] == 'e' && t[|t| - 1] != '/';
  }

  /** `example.com/a` and `example.com/b` get two keys, one per page. */
  lemma ExamplePagesApart(a: string, b: string)
    requires a == "example.com/a" && b == "example.com/b"
    ensures UniverseUrl(Some(a)) != UniverseUrl(Some(b))
  {
    ExamplePagePlain(a);
    ExamplePagePlain(b);
    assert a == "example.com" + "/" + "a" && b == "example.com" + "/" + "b";
    PathsKeepApart("example.com", "a", "b");
  }
}
