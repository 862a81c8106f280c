/** Request admission: of the URLs found in a message only the first is
    considered, and it is served only when its lower-cased text contains one
    of the allowed domains. Matching URLs in the text (URL_REGEX.findall) is
    not modelled: the matches are an input, empty when the message has no
    text. */
module Admission {
  import opened Wrappers
  import Text

  const AllowedDomains: seq<string> :=
    ["tiktok.com", "instagram.com", "x.com", "twitter.com", "youtu.be", "youtube.com"]

  /** `any(domain in lowered for domain in domains)`. */
  function AnyDomainIn(lowered: string, domains: seq<string>): (r: bool)
    ensures r <==> exists i :: 0 <= i < |domains| && Text.IsSubstring(domains[i], lowered)
  {
    if domains == [] then false
    else
      var rest := AnyDomainIn(lowered, domains[1..]);
      assert forall i :: 1 <= i < |domains| ==> domains[i] == domains[1..][i - 1];
      Text.Contains(lowered, domains[0]) || rest
  }

  /** The allow-list test of the handler, as written: a substring test on
      the whole lower-cased URL. */
  predicate Admitted(url: string)
  {
    AnyDomainIn(Text.Lower(url), AllowedDomains)
  }

  /** The URL the handler goes on to serve, given the URLs found in the
      message in order; None when it returns without a reply. */
  function Admit(urls: seq<string>): (r: Option<string>)
    ensures r.Some? <==> (|urls| > 0 &&
      exists i :: 0 <= i < |AllowedDomains| && Text.IsSubstring(AllowedDomains[i], Text.Lower(urls[0])))
    ensures r.Some? ==> r.value == urls[0]
  {
    if urls == [] then None
    else if Admitted(urls[0]) then Some(urls[0])
    else None
  }

  /** Only the first URL counts: a later allowed URL does not rescue a
      message whose first URL is refused. */
  lemma OnlyFirstUrlCounts(first: string, rest: seq<string>)
    ensures Admit([first] + rest) == Admit([first])
  {
    assert ([first] + rest)[0] == first;
  }

  /** Admission ignores letter case. */
  lemma AdmissionIgnoresCase(u: string, v: string)
    requires Text.Lower(u) == Text.Lower(v)
    ensures Admitted(u) <==> Admitted(v)
  {
  }

  /** The scheme of an `https://` URL is stripped. */
  lemma AfterHttps(rest: string)
    ensures AfterScheme("https://" + rest) == rest
  {
    var url := "https://" + rest;
    Text.LowerSlice(url, 0, 8);
    assert url[..8] == "https://";
    assert Text.Lower("https://") == "https://";
  }

  /** A host free of delimiters ends at the delimiter that follows it. */
  lemma {:induction false} UntilFirstDelimiter(a: string, b: string)
    requires forall i :: 0 <= i < |a| ==> a[i] !in "/?#:"
    requires b != [] && b[0] in "/?#:"
    ensures UntilDelimiter(a + b) == a
  {
    if a != [] {
      assert (a + b)[1..] == a[1..] + b;
      UntilFirstDelimiter(a[1..], b);
    } else {
      assert a + b == b;
    }
  }

  // ---- Corrected admission: compare the host name, not the whole text ----

  /** The length of the URL's `http://` or `https://` scheme (any letter
      case), which URL_REGEX guarantees is there; 0 when it is missing. */
  function SchemeLength(url: string): (k: nat)
    ensures k <= |url|
    ensures k == 8 ==> Text.Lower(url[..8]) == "https://"
    ensures k == 7 ==> Text.Lower(url[..7]) == "http://"
  {
    var l := Text.Lower(url);
    if |url| >= 8 && l[..8] == "https://" then 8
    else if |url| >= 7 && l[..7] == "http://" then 7
    else 0
  }

  /** The URL without its scheme. */
  function AfterScheme(url: string): string
  {
    url[SchemeLength(url)..]
  }

  /** The text up to the first `/`, `?`, `#` or `:` (path, query, fragment
      or port). */
  function UntilDelimiter(s: string): (r: string)
    ensures |r| <= |s| && r == s[..|r|]
  {
    if s == [] || s[0] in "/?#:" then [] else [s[0]] + UntilDelimiter(s[1..])
  }

  /** The host name of the URL. */
  function Host(url: string): string
  {
    UntilDelimiter(AfterScheme(url))
  }

  /** `host` is `domain` or one of its subdomains. */
  predicate HostUnder(host: string, domain: string)
  {
    || host == domain
    || (|host| > |domain| && host[|host| - |domain| - 1] == '.' && host[|host| - |domain|..] == domain)
  }

  /** The corrected allow-list test: the lower-cased host is an allowed
      domain or a subdomain of one. */
  predicate AdmittedByHost(url: string)
  {
    exists i :: 0 <= i < |AllowedDomains| && HostUnder(Text.Lower(Host(url)), AllowedDomains[i])
  }

  /** The corrected request admission: the first URL, when its host is allowed. */
  function AdmitByHost(urls: seq<string>): (r: Option<string>)
    ensures r.Some? <==> (|urls| > 0 &&
      exists i :: 0 <= i < |AllowedDomains| && HostUnder(Text.Lower(Host(urls[0])), AllowedDomains[i]))
    ensures r.Some? ==> r.value == urls[0]
  {
    if urls != [] && AdmittedByHost(urls[0]) then Some(urls[0]) else None
  }

  /** The host is a piece of the URL's text. */
  lemma HostInUrl(url: string)
    ensures Text.IsSubstring(Text.Lower(Host(url)), Text.Lower(url))
  {
    var rest := AfterScheme(url);
    var k := SchemeLength(url);
    var h := Host(url);
    assert h == rest[..|h|] == url[k..k + |h|];
    Text.LowerSlice(url, k, k + |h|);
    assert Text.OccursAt(Text.Lower(h), Text.Lower(url), k);
  }

  /** The correction only narrows admission: every URL it admits, the
      handler as written admits too. */
  lemma AdmittedByHostIsStricter(url: string)
    requires AdmittedByHost(url)
    ensures Admitted(url)
  {
    var i :| 0 <= i < |AllowedDomains| && HostUnder(Text.Lower(Host(url)), AllowedDomains[i]);
    var h := Text.Lower(Host(url));
    var d := AllowedDomains[i];
    if h == d {
      assert Text.OccursAt(d, h, 0);
    } else {
      Text.SuffixIsSubstring(d, h);
    }
    HostInUrl(url);
    Text.SubstringTrans(d, h, Text.Lower(url));
  }

  /** The host of `https://<host><tail>` when the tail starts at a delimiter. */
  lemma HostOfHttps(host: string, tail: string)
    requires forall i :: 0 <= i < |host| ==> host[i] !in "/?#:"
    requires tail != [] && tail[0] in "/?#:"
    ensures Host("https://" + host + tail) == host
  {
    assert "https://" + host + tail == "https://" + (host + tail);
    AfterHttps(host + tail);
    UntilFirstDelimiter(host, tail);
  }

  /** A host name made of lower-case letters only. */
  predicate IsLetters(p: string)
  {
    forall i :: 0 <= i < |p| ==> 'a' <= p[i] <= 'z'
  }

  /** A host ending in a letter followed by `x.com` is none of the allowed
      domains and no subdomain of one. */
  lemma XComSuffixHostRefused(h: string)
    requires |h| >= 6 && h[|h| - 5..] == "x.com" && 'a' <= h[|h| - 6] <= 'z'
    ensures forall i :: 0 <= i < |AllowedDomains| ==> !HostUnder(h, AllowedDomains[i])
  {
    forall i | 0 <= i < |AllowedDomains|
      ensures !HostUnder(h, AllowedDomains[i])
    {
      var d := AllowedDomains[i];
      assert |d| >= 5 && (d == "x.com" || d[|d| - 5] != 'x');
      if |h| >= |d| && h[|h| - |d|..] == d {
        assert h[|h| - 5] == d[|d| - 5];
      }
    }
  }

  /** The as-written check admits `https://<p>x.com/` for any `p`: `x.com`
      occurs in its text. */
  lemma XComSuffixAdmitted(p: string)
    ensures Admitted("https://" + p + "x.com/")
  {
    var url := "https://" + p + "x.com/";
    var k := 8 + |p|;
    assert url[k..k + 5] == "x.com";
    Text.LowerSlice(url, k, k + 5);
    assert Text.Lower("x.com") == "x.com";
    assert Text.OccursAt(AllowedDomains[2], Text.Lower(url), k);
  }

  /** The corrected check refuses `https://<p>x.com/` for every name `p`
      of letters (box.com, dropbox.com, netflix.com, ...), all of which the
      as-written check admits. */
  lemma XComSuffixRefusedByHost(p: string)
    requires p != [] && IsLetters(p)
    ensures !AdmittedByHost("https://" + p + "x.com/")
  {
    var h := p + "x.com";
    forall i | 0 <= i < |h|
      ensures ('a' <= h[i] <= 'z' || h[i] == '.') && h[i] !in "/?#:"
    {
      if i < |p| {
        assert h[i] == p[i];
      } else {
        assert h[i] == "x.com"[i - |p|];
      }
    }
    LowerOfHostName(h);
    assert h[|h| - 5..] == "x.com" && h[|h| - 6] == p[|p| - 1];
    XComHostUrlRefused(h);
    assert "https://" + p + "x.com/" == "https://" + h + "/";
  }

  /** Lower-casing leaves a host name of lower-case letters and dots alone. */
  lemma LowerOfHostName(h: string)
    requires forall i :: 0 <= i < |h| ==> 'a' <= h[i] <= 'z' || h[i] == '.'
    ensures Text.Lower(h) == h
  {
  }

  /** `https://<h>/` is refused when `h` ends in a letter followed by `x.com`. */
  lemma XComHostUrlRefused(h: string)
    requires forall i :: 0 <= i < |h| ==> h[i] !in "/?#:"
    requires |h| >= 6 && h[|h| - 5..] == "x.com" && 'a' <= h[|h| - 6] <= 'z'
    requires Text.Lower(h) == h
    ensures !AdmittedByHost("https://" + h + "/")
  {
    HostOfHttps(h, "/");
    XComSuffixHostRefused(h);
  }

  /** The URLs of every allowed site and its subdomains keep being admitted. */
  lemma AllowedHostsAdmitted(url: string, i: int)
    requires 0 <= i < |AllowedDomains| && Text.Lower(Host(url)) == AllowedDomains[i]
    ensures AdmitByHost([url]) == Some(url)
  {
  }
}
