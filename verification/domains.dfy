/** The domain cleaning shared by the card's `generateLogoUrl` and the logo
    script's `generateLogoUrl`/`createSafeFilename`: three anchored
    `replace` calls that drop one leading `http://` or `https://`, then one
    leading `www.`, then one trailing `/`. */
module Domains {
  import opened Strings

  const Https: String := "https://"
  const Http: String := "http://"
  const Www: String := "www."

  /** No string starts with both protocols: they differ at index 4. */
  lemma ProtocolsExclusive(s: String)
    ensures StartsWith(s, Https) ==> !StartsWith(s, Http)
  {
    if StartsWith(s, Https) && |s| >= |Http| {
      assert s[4] == Https[4] != Http[4];
      assert s[..|Http|][4] != Http[4];
    }
  }

  /** `.replace(/^https?:\/\//, "")`: the result is what follows the
      protocol when there is one, else the input. */
  function StripProtocol(s: String): (r: String)
    ensures StartsWith(s, Https) ==> s == Https + r
    ensures StartsWith(s, Http) ==> s == Http + r
    ensures !StartsWith(s, Https) && !StartsWith(s, Http) ==> r == s
  {
    ProtocolsExclusive(s);
    if StartsWith(s, Https) then s[|Https|..]
    else if StartsWith(s, Http) then s[|Http|..]
    else s
  }

  /** `.replace(/^www\./, "")`. */
  function StripWww(s: String): (r: String)
    ensures StartsWith(s, Www) ==> s == Www + r
    ensures !StartsWith(s, Www) ==> r == s
  {
    if StartsWith(s, Www) then s[|Www|..] else s
  }

  /** `.replace(/\/$/, "")`. */
  function StripTrailingSlash(s: String): (r: String)
    ensures EndsWith(s, "/") ==> s == r + "/"
    ensures !EndsWith(s, "/") ==> r == s
  {
    if EndsWith(s, "/") then s[..|s| - 1] else s
  }

  /** The cleaned domain is the end of the website string, short of at most
      one trailing slash, and at most 8 + 4 + 1 characters shorter. */
  function CleanDomain(website: String): (r: String)
    ensures |website| - 13 <= |r| <= |website|
    ensures EndsWith(website, r) || EndsWith(website, r + "/")
  {
    var a := StripProtocol(website);
    var b := StripWww(a);
    assert EndsWith(website, b) by {
      assert website[|website| - |a|..] == a;
      assert a[|a| - |b|..] == b;
      assert website[|website| - |b|..] == b;
    }
    StripTrailingSlash(b)
  }

  /** Exactly one of each is removed: after a protocol and `www.`, whatever
      follows is kept verbatim except for a single trailing slash, even when
      it starts with another `www.` or ends with another `/`. */
  lemma StripsExactlyOneOfEach(p: String, d: String)
    requires p == Https || p == Http
    ensures CleanDomain(p + Www + d + "/") == d
  {
    var s := p + Www + d + "/";
    assert s == p + (Www + d + "/");
    ProtocolStrip(p, Www + d + "/");
    assert (Www + d + "/")[..|Www|] == Www;
    assert (Www + d + "/")[|Www|..] == d + "/";
  }

  /** A leading protocol is always removed, whatever follows it. */
  lemma ProtocolStrip(p: String, rest: String)
    requires p == Https || p == Http
    ensures StripProtocol(p + rest) == rest
  {
    var s := p + rest;
    assert s[..|p|] == p;
    assert s[|p|..] == rest;
    if p == Http {
      assert s[4] == ':';
      assert |s| < |Https| || s[..|Https|][4] != Https[4];
    }
  }

  /** Appending a slash to a string that does not end in one cannot create a
      protocol or `www.` prefix. */
  lemma SlashAddsNoPrefix(d: String, pre: String)
    requires pre == Http || pre == Https || pre == Www
    requires !StartsWith(d, pre) && !EndsWith(d, "/")
    ensures !StartsWith(d + "/", pre)
  {
    var s := d + "/";
    if |d| >= |pre| {
      assert s[..|pre|] == d[..|pre|];
    } else if |d| + 1 == |pre| {
      if pre == Www {
        assert s[3] == '/' != pre[3];
        assert s[..|pre|][3] != pre[3];
      } else {
        var k := |d| - 1;
        assert d[k] != '/' && pre[k] == '/';
        assert s[..|pre|][k] != pre[k];
      }
    }
  }

  /** Round trip: a bare domain decorated with any combination of protocol,
      `www.` and trailing slash is cleaned back to itself. */
  lemma CleanDomainRoundTrip(p: String, w: String, d: String, t: String)
    requires p == "" || p == Http || p == Https
    requires w == "" || w == Www
    requires t == "" || t == "/"
    requires !StartsWith(d, Http) && !StartsWith(d, Https) && !StartsWith(d, Www)
    requires !EndsWith(d, "/")
    ensures CleanDomain(p + w + d + t) == d
  {
    var dt := d + t;
    if t == "/" {
      SlashAddsNoPrefix(d, Http);
      SlashAddsNoPrefix(d, Https);
      SlashAddsNoPrefix(d, Www);
    } else {
      assert dt == d;
    }
    assert StripTrailingSlash(dt) == d;
    var x := w + dt;
    WwwStrip(w, dt);
    var s := p + x;
    Concat4(p, w, d, t);
    if p == "" {
      assert s == x;
    } else {
      ProtocolStrip(p, x);
    }
    assert StripProtocol(s) == x;
    CleanDomainSteps(s);
  }

  lemma Concat4(p: String, w: String, d: String, t: String)
    ensures p + w + d + t == p + (w + (d + t))
  {
  }

  /** Unfolding step: cleaning is the three rewrites in order. Used by
      CleanDomainRoundTrip, CsvData.CleanWebsite and CsvScripts.CopiesAgree. */
  lemma CleanDomainSteps(s: String)
    ensures CleanDomain(s) == StripTrailingSlash(StripWww(StripProtocol(s)))
  {
  }

  lemma WwwStrip(w: String, rest: String)
    requires w == "" || w == Www
    requires !StartsWith(rest, Http) && !StartsWith(rest, Https) && !StartsWith(rest, Www)
    ensures !StartsWith(w + rest, Http) && !StartsWith(w + rest, Https)
    ensures StripWww(w + rest) == rest
  {
    var s := w + rest;
    if w == Www {
      assert s[..|Www|] == Www;
      assert s[|Www|..] == rest;
      assert s[0] == 'w';
      assert |s| < |Http| || s[..|Http|][0] != Http[0];
      assert |s| < |Https| || s[..|Https|][0] != Https[0];
    } else {
      assert s == rest;
    }
  }

  const LogoDevBase: String := "https://img.logo.dev/"

  /** The logo.dev image URL both callers build for a cleaned domain: the
      domain sits right after the base, followed by the token and the size
      query. */
  function LogoDevUrl(domain: String, key: String, size: String): (r: String)
    ensures StartsWith(r, LogoDevBase) && |r| >= |LogoDevBase| + |domain|
    ensures r[|LogoDevBase|..|LogoDevBase| + |domain|] == domain
    ensures r[|LogoDevBase| + |domain|..] == "?token=" + key + "&size=" + size + "&retina=true"
    ensures EndsWith(r, "&retina=true")
  {
    var r := LogoDevBase + domain + "?token=" + key + "&size=" + size + "&retina=true";
    assert r[..|LogoDevBase|] == LogoDevBase;
    assert r[|LogoDevBase|..|LogoDevBase| + |domain|] == domain;
    assert r[|LogoDevBase| + |domain|..] == "?token=" + key + "&size=" + size + "&retina=true";
    r
  }
}
