/** The part of `urllib.parse.urlsplit` that decides whether a URL has a
    scheme (Python 3.11 and later). */
module UrlParse {
  import opened PyStr

  /** U+0000 to U+0020, which `urlsplit` strips from the front. */
  predicate IsC0OrSpace(c: char) {
    c <= ' '
  }

  /** Tab, CR and LF, which `urlsplit` deletes everywhere. */
  predicate IsUnsafe(c: char) {
    c == '\t' || c == '\r' || c == '\n'
  }

  /** `scheme_chars`: ASCII letters, digits, "+", "-" and ".". */
  predicate IsSchemeChar(c: char) {
    IsAsciiLetter(c) || IsAsciiDigit(c) || c == '+' || c == '-' || c == '.'
  }

  /** Scheme syntax of section 3.1 of RFC 3986:
      ALPHA *( ALPHA / DIGIT / "+" / "-" / "." ). */
  predicate Rfc3986Scheme(s: string) {
    |s| > 0 && IsAsciiLetter(s[0]) && forall i :: 0 <= i < |s| ==> IsSchemeChar(s[i])
  }

  function LStripC0(s: string): (r: string)
    ensures |r| <= |s| && r == s[|s| - |r|..]
    ensures r != [] ==> !IsC0OrSpace(r[0])
  {
    if s != [] && IsC0OrSpace(s[0]) then LStripC0(s[1..]) else s
  }

  function RemoveUnsafe(s: string): string
  {
    if s == [] then []
    else (if IsUnsafe(s[0]) then [] else [s[0]]) + RemoveUnsafe(s[1..])
  }

  lemma {:induction false} RemoveUnsafeIdentity(s: string)
    requires forall i :: 0 <= i < |s| ==> !IsUnsafe(s[i])
    ensures RemoveUnsafe(s) == s
  {
    if s != [] {
      RemoveUnsafeIdentity(s[1..]);
      assert s == [s[0]] + s[1..];
    }
  }

  /** A URL that starts with a visible character and holds no tab or line
      break is looked at as it is. */
  lemma CleanedIdentity(s: string)
    requires s == [] || !IsC0OrSpace(s[0])
    requires forall i :: 0 <= i < |s| ==> !IsUnsafe(s[i])
    ensures Cleaned(s) == s
  {
    RemoveUnsafeIdentity(s);
  }

  lemma {:induction false} RemoveUnsafeAppend(a: string, b: string)
    ensures RemoveUnsafe(a + b) == RemoveUnsafe(a) + RemoveUnsafe(b)
  {
    if a == [] {
      assert a + b == b;
    } else {
      assert (a + b)[1..] == a[1..] + b;
      RemoveUnsafeAppend(a[1..], b);
    }
  }

  /** `s.find(':')`: the first colon's position, or -1. */
  function ColonIndex(s: string): (r: int)
    ensures -1 <= r < |s|
    ensures r >= 0 ==> s[r] == ':' && forall j :: 0 <= j < r ==> s[j] != ':'
    ensures r == -1 ==> forall j :: 0 <= j < |s| ==> s[j] != ':'
  {
    if s == [] then -1
    else if s[0] == ':' then 0
    else
      var i := ColonIndex(s[1..]);
      if i == -1 then -1 else i + 1
  }

  /** What `urlsplit` looks at: the URL with leading controls and spaces
      stripped and tabs and line breaks deleted. */
  function Cleaned(url: string): string {
    RemoveUnsafe(LStripC0(url))
  }

  /** `urlparse(url).scheme`: the lower-cased text before the first colon
      when that text is a scheme, else "". */
  function Scheme(url: string): (r: string)
    ensures r != [] ==> Rfc3986Scheme(r)
    ensures r != [] <==>
      var u := Cleaned(url); var i := ColonIndex(u); i > 0 && Rfc3986Scheme(u[..i])
  {
    var u := Cleaned(url);
    var i := ColonIndex(u);
    if i > 0 && IsAsciiLetter(u[0]) && forall j :: 0 <= j < i ==> IsSchemeChar(u[j]) then
      var r := Lower(u[..i]);
      assert forall j :: 0 <= j < i ==> IsSchemeChar(r[j]) by {
        forall j | 0 <= j < i ensures IsSchemeChar(r[j]) {
          assert r[j] == LowerChar(u[j]);
        }
      }
      r
    else []
  }

  /** `Website.__init__`'s rule: "http://" is put in front exactly when the
      URL has no scheme; a URL that has one is kept as given. */
  function WithDefaultScheme(url: string): (r: string)
    ensures Scheme(url) == [] ==> r == "http://" + url
    ensures Scheme(url) != [] ==> r == url
    ensures Scheme(r) != []
  {
    if Scheme(url) == [] then
      HttpPrefixGivesScheme(url);
      "http://" + url
    else url
  }

  lemma HttpPrefixGivesScheme(url: string)
    ensures Scheme("http://" + url) == "http"
  {
    HttpPrefixCleaned(url);
    HttpPrefixColon(RemoveUnsafe(url));
    HttpPrefixHead(RemoveUnsafe(url));
  }

  lemma HttpPrefixColon(rest: string)
    ensures ColonIndex("http://" + rest) == 4
  {
    var s := "http://" + rest;
    assert s[0] == 'h' && s[1] == 't' && s[2] == 't' && s[3] == 'p' && s[4] == ':';
    FirstColon(s, 4);
  }

  lemma HttpPrefixHead(rest: string)
    ensures IsAsciiLetter(("http://" + rest)[0])
    ensures forall j :: 0 <= j < 4 ==> IsSchemeChar(("http://" + rest)[j])
    ensures Lower(("http://" + rest)[..4]) == "http"
  {
    var s := "http://" + rest;
    assert s[0] == 'h' && s[1] == 't' && s[2] == 't' && s[3] == 'p';
    assert s[..4] == "http";
    LowerOfLower("http");
  }

  lemma HttpPrefixCleaned(url: string)
    ensures Cleaned("http://" + url) == "http://" + RemoveUnsafe(url)
  {
    VisibleStart("http://" + url);
    RemoveUnsafeAppend("http://", url);
    HttpIsSafe();
  }

  lemma HttpIsSafe()
    ensures RemoveUnsafe("http://") == "http://"
  {
    var p := "http://";
    assert !IsUnsafe(p[0]) && !IsUnsafe(p[1]) && !IsUnsafe(p[2]) && !IsUnsafe(p[3]);
    assert !IsUnsafe(p[4]) && !IsUnsafe(p[5]) && !IsUnsafe(p[6]);
    RemoveUnsafeIdentity(p);
  }

  lemma VisibleStart(s: string)
    requires s != [] && !IsC0OrSpace(s[0])
    ensures LStripC0(s) == s
  {
  }

  lemma FirstColon(s: string, i: nat)
    requires i < |s| && s[i] == ':'
    requires forall j :: 0 <= j < i ==> s[j] != ':'
    ensures ColonIndex(s) == i
  {
  }

  lemma LowerOfLower(s: string)
    requires forall i :: 0 <= i < |s| ==> IsAsciiLower(s[i])
    ensures Lower(s) == s
  {
  }

  /** Cleaning only deletes characters. */
  lemma {:induction false} CleanedSubset(s: string)
    ensures forall c :: c in Cleaned(s) ==> c in s
  {
    LStripC0Subset(s);
    RemoveUnsafeSubset(LStripC0(s));
  }

  lemma {:induction false} LStripC0Subset(s: string)
    ensures forall c :: c in LStripC0(s) ==> c in s
  {
  }

  lemma {:induction false} RemoveUnsafeSubset(s: string)
    ensures forall c :: c in RemoveUnsafe(s) ==> c in s
  {
    if s != [] {
      RemoveUnsafeSubset(s[1..]);
    }
  }

  /** Adding the default scheme twice is adding it once. */
  lemma WithDefaultSchemeIdempotent(url: string)
    ensures WithDefaultScheme(WithDefaultScheme(url)) == WithDefaultScheme(url)
  {
  }

  /** A URL with no colon anywhere has no scheme and gets "http://". */
  lemma NoColonGetsHttp(url: string)
    requires forall i :: 0 <= i < |url| ==> url[i] != ':'
    ensures WithDefaultScheme(url) == "http://" + url
  {
    CleanedSubset(url);
    var u := Cleaned(url);
    forall j | 0 <= j < |u| ensures u[j] != ':' {
      assert u[j] in u;
    }
  }

  /** A host name followed by a port, as in "localhost:8080", reads as a
      scheme followed by a path, so it is kept without "http://". */
  lemma HostPortKept(host: string, port: string)
    requires Rfc3986Scheme(host)
    requires forall i :: 0 <= i < |port| ==> IsAsciiDigit(port[i])
    ensures WithDefaultScheme(host + ":" + port) == host + ":" + port
  {
    var s := host + ":" + port;
    assert forall i :: 0 <= i < |s| ==> !IsUnsafe(s[i]) by {
      forall i | 0 <= i < |s| ensures !IsUnsafe(s[i]) {
        if i < |host| { assert s[i] == host[i]; }
        else if i > |host| { assert s[i] == port[i - |host| - 1]; }
      }
    }
    CleanedIdentity(s);
    FirstColon(s, |host|);
    assert s[..|host|] == host;
  }
}
