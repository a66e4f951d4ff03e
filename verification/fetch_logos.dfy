/** The pure part of the logo-fetching script: the file name a logo is
    saved under and the logo.dev URL it is downloaded from. The API key is
    the optional `LOGO_DEV_API_KEY` environment value, passed in. */
module FetchLogos {
  import opened Wrappers
  import opened Strings
  import opened Domains

  /** The characters `[a-zA-Z0-9.-]` a file name keeps. */
  predicate SafeChar(c: char) {
    ('a' <= c <= 'z') || ('A' <= c <= 'Z') || ('0' <= c <= '9') || c == '.' || c == '-'
  }

  /** `.replace(/[^a-zA-Z0-9.-]/g, '_')`: each character outside the safe
      set becomes one underscore, position by position. */
  function Sanitize(s: String): (r: String)
    ensures |r| == |s|
    ensures forall i :: 0 <= i < |r| ==> SafeChar(r[i]) || r[i] == '_'
    ensures forall i :: 0 <= i < |s| && SafeChar(s[i]) ==> r[i] == s[i]
    ensures forall i :: 0 <= i < |s| && !SafeChar(s[i]) ==> r[i] == '_'
  {
    if s == [] then []
    else Sanitize(s[..|s| - 1]) + [if SafeChar(s[|s| - 1]) then s[|s| - 1] else '_']
  }

  /** Sanitising a sanitised name changes nothing. */
  lemma SanitizeIdempotent(s: String)
    ensures Sanitize(Sanitize(s)) == Sanitize(s)
  {
    var r := Sanitize(s);
    assert forall i :: 0 <= i < |r| ==> Sanitize(r)[i] == r[i];
  }

  /** Sanitising works piece by piece. */
  lemma SanitizeAppend(a: String, b: String)
    ensures Sanitize(a + b) == Sanitize(a) + Sanitize(b)
  {
    var l := Sanitize(a + b);
    var r := Sanitize(a) + Sanitize(b);
    forall i | 0 <= i < |a + b| ensures l[i] == r[i] {
      if i < |a| {
        assert (a + b)[i] == a[i];
      } else {
        assert (a + b)[i] == b[i - |a|];
      }
    }
  }

  /** A name made of safe characters only is kept as it is. */
  lemma SanitizeSafe(s: String)
    requires forall i :: 0 <= i < |s| ==> SafeChar(s[i])
    ensures Sanitize(s) == s
  {
    assert forall i :: 0 <= i < |s| ==> Sanitize(s)[i] == s[i];
  }

  /** `createSafeFilename`: the cleaned domain, sanitised. It is as long as
      the cleaned domain and uses only safe characters and '_'; each safe
      character of the cleaned domain keeps its place and each other one
      becomes a single '_'. */
  function CreateSafeFilename(website: String): (r: String)
    ensures |r| == |CleanDomain(website)|
    ensures forall i :: 0 <= i < |r| ==> SafeChar(r[i]) || r[i] == '_'
    ensures forall i :: 0 <= i < |r| ==>
      r[i] == if SafeChar(CleanDomain(website)[i]) then CleanDomain(website)[i] else '_'
  {
    Sanitize(CleanDomain(website))
  }

  /** A path in the website becomes part of the file name, its slash
      replaced: "https://a.io/x/" is saved as "a.io_x". */
  lemma PathSlashReplaced(p: String, w: String, dom: String, path: String, t: String)
    requires p == "" || p == Http || p == Https
    requires w == "" || w == Www
    requires t == "" || t == "/"
    requires var d := dom + "/" + path;
      !StartsWith(d, Http) && !StartsWith(d, Https) && !StartsWith(d, Www)
    requires path != []
    requires forall i :: 0 <= i < |dom| ==> SafeChar(dom[i])
    requires forall i :: 0 <= i < |path| ==> SafeChar(path[i])
    ensures CreateSafeFilename(p + w + (dom + "/" + path) + t) == dom + "_" + path
  {
    var d := dom + "/" + path;
    assert d[|d| - 1] == path[|path| - 1];
    assert !EndsWith(d, "/") by {
      assert SafeChar(path[|path| - 1]);
    }
    CleanDomainRoundTrip(p, w, d, t);
    SanitizeAppend(dom + "/", path);
    SanitizeAppend(dom, "/");
    SanitizeSafe(dom);
    SanitizeSafe(path);
    assert Sanitize("/") == "_" by {
      assert !SafeChar('/');
    }
  }

  const MissingKeyMessage: String := "LOGO_DEV_API_KEY environment variable is required"

  /** The script's `generateLogoUrl`: it throws without a (non-empty) key,
      else builds the logo.dev URL for the cleaned domain at size 60. */
  function GenerateLogoUrl(website: String, apiKey: Option<String>): (r: Result<String, String>)
    ensures r.Failure? <==> apiKey.None? || apiKey.value == []
    ensures r.Failure? ==> r.error == MissingKeyMessage
    ensures r.Success? ==> r.value == LogoDevUrl(CleanDomain(website), apiKey.value, "60")
  {
    if apiKey.None? || apiKey.value == [] then Failure(MissingKeyMessage)
    else Success(LogoDevUrl(CleanDomain(website), apiKey.value, "60"))
  }

  /** The URL names the bare domain however the website was written, and
      the logo is saved under that domain's own name. */
  lemma GenerateLogoUrlRoundTrip(p: String, w: String, d: String, t: String, key: String)
    requires p == "" || p == Http || p == Https
    requires w == "" || w == Www
    requires t == "" || t == "/"
    requires !StartsWith(d, Http) && !StartsWith(d, Https) && !StartsWith(d, Www)
    requires !EndsWith(d, "/")
    requires key != []
    ensures GenerateLogoUrl(p + w + d + t, Some(key)) == Success(LogoDevUrl(d, key, "60"))
    ensures (forall i :: 0 <= i < |d| ==> SafeChar(d[i])) ==> CreateSafeFilename(p + w + d + t) == d
  {
    CleanDomainRoundTrip(p, w, d, t);
    if forall i :: 0 <= i < |d| ==> SafeChar(d[i]) {
      SanitizeSafe(d);
    }
  }
}
