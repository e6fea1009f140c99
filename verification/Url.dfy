/** The link filter of the note sanitizer, against the generic URI syntax of RFC 3986. */
module Url {
  import opened Text

  /** `strings.Cut(s, ":")`: the text before the first colon and whether there is one. */
  function CutColon(s: string): (r: (string, bool))
    ensures r.0 <= s && ':' !in r.0
    ensures r.1 <==> ':' in s
    ensures r.1 ==> |r.0| < |s| && s[|r.0|] == ':'
    ensures !r.1 ==> r.0 == s
  {
    if s == "" then ("", false)
    else if s[0] == ':' then ("", true)
    else
      var (head, found) := CutColon(s[1..]);
      assert s == [s[0]] + s[1..];
      ([s[0]] + head, found)
  }

  predicate ControlFree(s: string) {
    forall i :: 0 <= i < |s| ==> s[i] >= ' ' && s[i] != '\U{7F}'
  }

  predicate Delimiter(c: char) {
    c == '/' || c == '?' || c == '#'
  }

  /** Some delimiter occurs in `s`: `strings.ContainsAny(s, "/?#")`. */
  predicate HasDelimiter(s: string) {
    exists i :: 0 <= i < |s| && Delimiter(s[i])
  }

  const LINK_SCHEMES: set<string> := {"http", "https", "mailto"}

  /** safeURL. */
  predicate SafeUrl(value: string) {
    var trimmed := TrimSpace(value);
    if trimmed == "" || !ControlFree(trimmed) then false
    else
      var (scheme, hasScheme) := CutColon(Lower(trimmed));
      !hasScheme || HasDelimiter(scheme) || scheme in LINK_SCHEMES
  }

  // ---- RFC 3986 ----

  predicate Alpha(c: char) { 'a' <= c <= 'z' || 'A' <= c <= 'Z' }
  predicate Digit(c: char) { '0' <= c <= '9' }
  predicate Hex(c: char) { Digit(c) || 'a' <= c <= 'f' || 'A' <= c <= 'F' }

  /** unreserved / sub-delims, sections 2.2 and 2.3. */
  predicate Plain(c: char) {
    Alpha(c) || Digit(c) ||
    c == '-' || c == '.' || c == '_' || c == '~' ||
    c == '!' || c == '$' || ('&' <= c <= ',') || c == ';' || c == '='
  }

  /** A run of plain characters, percent-encodings (section 2.1) and the characters of `extra`. */
  predicate RunOf(s: string, extra: set<char>) {
    s == "" ||
    (if s[0] == '%' then |s| >= 3 && Hex(s[1]) && Hex(s[2]) && RunOf(s[3..], extra)
     else (Plain(s[0]) || s[0] in extra) && RunOf(s[1..], extra))
  }

  /** scheme, section 3.1. */
  predicate Scheme(s: string) {
    s != "" && Alpha(s[0]) &&
    forall i :: 0 <= i < |s| ==> Alpha(s[i]) || Digit(s[i]) || s[i] == '+' || s[i] == '-' || s[i] == '.'
  }

  /** Section 3.2, as any run of the characters its parts may use. */
  predicate Authority(s: string) { RunOf(s, {':', '@', '[', ']'}) }

  /** path-abempty, section 3.3: empty or a slash followed by segments and slashes. */
  predicate PathAbEmpty(s: string) { s == "" || (s[0] == '/' && RunOf(s, {':', '@', '/'})) }

  /** path-absolute: a slash not followed by a second one. */
  predicate PathAbsolute(s: string) { s != "" && PathAbEmpty(s) && !("//" <= s) }

  /** path-rootless: a non-empty first segment, then more. */
  predicate PathRootless(s: string) { s != "" && s[0] != '/' && RunOf(s, {':', '@', '/'}) }

  /** path-noscheme: a rootless path whose first segment holds no colon. */
  ghost predicate PathNoScheme(s: string) {
    PathRootless(s) && exists n :: 0 < n <= |s| && ':' !in s[..n] && (n == |s| || s[n] == '/')
  }

  ghost predicate Network(s: string) {
    "//" <= s && exists n :: 2 <= n <= |s| && Authority(s[2..n]) && PathAbEmpty(s[n..])
  }

  predicate Query(s: string) { s == "" || (s[0] == '?' && RunOf(s[1..], {':', '@', '/', '?'})) }
  predicate Fragment(s: string) { s == "" || (s[0] == '#' && RunOf(s[1..], {':', '@', '/', '?'})) }

  ghost predicate RelativePart(p: string) {
    Network(p) || PathAbsolute(p) || PathNoScheme(p) || p == ""
  }

  ghost predicate HierPart(p: string) {
    Network(p) || PathAbsolute(p) || PathRootless(p) || p == ""
  }

  /** relative-ref, section 4.2. */
  ghost predicate RelativeRef(s: string) {
    exists p, q, f :: s == p + q + f && RelativePart(p) && Query(q) && Fragment(f)
  }

  /** URI, section 3, with the given scheme. */
  ghost predicate UriWithScheme(s: string, scheme: string) {
    exists p, q, f ::
      s == scheme + ":" + (p + q + f) && Scheme(scheme) && HierPart(p) && Query(q) && Fragment(f)
  }

  function UpperRune(c: char): char {
    if 'a' <= c <= 'z' then c - 'a' + 'A' else c
  }

  /** Equal when ASCII case is ignored. */
  predicate EqualFold(s: string, t: string) {
    |s| == |t| && forall i :: 0 <= i < |s| ==> UpperRune(s[i]) == UpperRune(t[i])
  }

  /** Every character a URI reference can hold is printable ASCII. */
  predicate Visible(s: string) {
    forall i :: 0 <= i < |s| ==> '!' <= s[i] <= '~'
  }

  lemma {:induction false} RunIsVisible(s: string, extra: set<char>)
    requires RunOf(s, extra) && forall c :: c in extra ==> '!' <= c <= '~'
    ensures Visible(s)
  {
    if s != "" {
      if s[0] == '%' {
        RunIsVisible(s[3..], extra);
        assert s == [s[0], s[1], s[2]] + s[3..];
      } else {
        RunIsVisible(s[1..], extra);
        assert s == [s[0]] + s[1..];
      }
    }
  }

  lemma NetworkIsVisible(p: string)
    requires Network(p)
    ensures Visible(p)
  {
    var n :| 2 <= n <= |p| && Authority(p[2..n]) && PathAbEmpty(p[n..]);
    RunIsVisible(p[2..n], {':', '@', '[', ']'});
    if p[n..] != "" {
      RunIsVisible(p[n..], {':', '@', '/'});
    }
    assert p == p[..2] + p[2..n] + p[n..];
  }

  lemma PartIsVisible(p: string)
    requires HierPart(p) || RelativePart(p)
    ensures Visible(p)
  {
    if Network(p) {
      NetworkIsVisible(p);
    } else if p != "" {
      RunIsVisible(p, {':', '@', '/'});
    }
  }

  lemma TailIsVisible(q: string, f: string)
    requires Query(q) && Fragment(f)
    ensures Visible(q + f)
  {
    if q != "" {
      RunIsVisible(q[1..], {':', '@', '/', '?'});
      assert q == [q[0]] + q[1..];
    }
    if f != "" {
      RunIsVisible(f[1..], {':', '@', '/', '?'});
      assert f == [f[0]] + f[1..];
    }
  }

  lemma LowerKeepsDelimiter(c: char)
    ensures Delimiter(LowerRune(c)) <==> Delimiter(c)
  {
  }

  lemma LowerKeepsDelimiters(s: string)
    ensures HasDelimiter(Lower(s)) <==> HasDelimiter(s)
  {
    if HasDelimiter(s) {
      var i :| 0 <= i < |s| && Delimiter(s[i]);
      LowerKeepsDelimiter(s[i]);
      assert Delimiter(Lower(s)[i]);
    }
    if HasDelimiter(Lower(s)) {
      var i :| 0 <= i < |s| && Delimiter(Lower(s)[i]);
      LowerKeepsDelimiter(s[i]);
      assert Delimiter(s[i]);
    }
  }

  lemma VisibleIsTrimmed(s: string)
    requires s != "" && Visible(s)
    ensures TrimSpace(s) == s && ControlFree(s)
  {
  }

  lemma {:induction false} SafeUrlOfVisible(s: string)
    requires s != "" && Visible(s)
    ensures var (scheme, found) := CutColon(s);
            SafeUrl(s) <==> !found || HasDelimiter(scheme) || Lower(scheme) in LINK_SCHEMES
  {
    VisibleIsTrimmed(s);
    CutLower(s);
    LowerKeepsDelimiters(CutColon(s).0);
  }

  /** No other rune lower-cases to a colon, so the cut falls at the same place. */
  lemma {:induction false} CutLower(s: string)
    ensures CutColon(Lower(s)) == (Lower(CutColon(s).0), CutColon(s).1)
  {
    if s != "" && s[0] != ':' {
      CutLower(s[1..]);
      assert Lower(s)[1..] == Lower(s[1..]);
      var head := CutColon(s[1..]).0;
      assert ([s[0]] + head)[1..] == head;
    }
  }

  lemma RelativePartStart(p: string) returns (cut: nat)
    requires RelativePart(p)
    ensures cut <= |p| && ':' !in p[..cut] && (cut < |p| ==> p[cut] == '/')
  {
    cut := 0;
    if PathNoScheme(p) {
      cut :| 0 < cut <= |p| && ':' !in p[..cut] && (cut == |p| || p[cut] == '/');
    }
  }

  lemma DelimiterIsCutOff(s: string, at: nat)
    requires at < |s| && Delimiter(s[at]) && ':' !in s[..at] && CutColon(s).1
    ensures HasDelimiter(CutColon(s).0)
  {
    var head := CutColon(s).0;
    assert forall k :: 0 <= k < at ==> s[k] == s[..at][k];
    assert at < |head|;
    assert Delimiter(head[at]);
  }

  lemma PartsAt(p: string, q: string, f: string, cut: nat)
    requires cut <= |p| && (cut < |p| || q != "" || f != "")
    ensures (p + q + f)[..cut] == p[..cut]
    ensures (p + q + f)[cut] == if cut < |p| then p[cut] else if q != "" then q[0] else f[0]
  {
  }

  /** In a relative reference a delimiter comes before any colon. */
  lemma {:induction false} RelativeHasEarlyDelimiter(s: string)
    requires RelativeRef(s) && CutColon(s).1
    ensures HasDelimiter(CutColon(s).0)
  {
    var p, q, f :| s == p + q + f && RelativePart(p) && Query(q) && Fragment(f);
    var cut := RelativePartStart(p);
    assert p[..|p|] == p && (q == "" && f == "" ==> s == p);
    PartsAt(p, q, f, cut);
    DelimiterIsCutOff(s, cut);
  }

  lemma FoldIsLower(scheme: string, known: string)
    requires Scheme(scheme)
    requires forall i :: 0 <= i < |known| ==> 'a' <= known[i] <= 'z'
    ensures EqualFold(scheme, known) <==> Lower(scheme) == known
  {
    assert forall i :: 0 <= i < |scheme| && i < |known| ==>
        (UpperRune(scheme[i]) == UpperRune(known[i]) <==> Lower(scheme)[i] == known[i]);
  }

  lemma {:induction false} UriCut(scheme: string, rest: string)
    requires ':' !in scheme
    ensures CutColon(scheme + ":" + rest) == (scheme, true)
  {
    var s := scheme + ":" + rest;
    if scheme != "" {
      assert s[1..] == scheme[1..] + ":" + rest;
      UriCut(scheme[1..], rest);
      assert s[0] == scheme[0] && scheme == [scheme[0]] + scheme[1..];
    }
  }

  lemma SchemeText(scheme: string)
    requires Scheme(scheme)
    ensures ':' !in scheme && Visible(scheme) && !HasDelimiter(scheme)
  {
  }

  lemma JoinIsVisible(a: string, b: string)
    requires Visible(a) && Visible(b)
    ensures Visible(a + b)
  {
  }

  lemma UriIsVisible(scheme: string, p: string, q: string, f: string)
    requires Scheme(scheme) && (HierPart(p) || RelativePart(p)) && Query(q) && Fragment(f)
    ensures Visible(p + q + f) && Visible(scheme + ":" + (p + q + f))
  {
    PartIsVisible(p);
    TailIsVisible(q, f);
    assert p + q + f == p + (q + f);
    JoinIsVisible(p, q + f);
    SchemeText(scheme);
    JoinIsVisible(scheme, ":");
    JoinIsVisible(scheme + ":", p + q + f);
  }

  lemma {:induction false} UriIsJudgedByScheme(s: string, scheme: string)
    requires UriWithScheme(s, scheme)
    ensures SafeUrl(s) <==> Lower(scheme) in LINK_SCHEMES
  {
    var p, q, f :| s == scheme + ":" + (p + q + f) && HierPart(p) && Query(q) && Fragment(f);
    UriIsVisible(scheme, p, q, f);
    SchemeText(scheme);
    UriCut(scheme, p + q + f);
    SafeUrlOfVisible(s);
  }

  lemma {:induction false} RelativeIsAccepted(s: string)
    requires s != "" && RelativeRef(s)
    ensures SafeUrl(s)
  {
    var p, q, f :| s == p + q + f && RelativePart(p) && Query(q) && Fragment(f);
    UriIsVisible("a", p, q, f);
    SafeUrlOfVisible(s);
    if CutColon(s).1 {
      RelativeHasEarlyDelimiter(s);
    }
  }

  /** http, https or mailto, in any case. */
  predicate LinkScheme(scheme: string) {
    EqualFold(scheme, "http") || EqualFold(scheme, "https") || EqualFold(scheme, "mailto")
  }

  lemma LinkSchemeIsLowered(scheme: string)
    requires Scheme(scheme)
    ensures LinkScheme(scheme) <==> Lower(scheme) in LINK_SCHEMES
  {
    FoldIsLower(scheme, "http");
    FoldIsLower(scheme, "https");
    FoldIsLower(scheme, "mailto");
  }

  /** Every colon comes after a delimiter: nothing in `s` can be a scheme. */
  ghost predicate NoColonFirst(s: string) {
    forall i :: 0 <= i < |s| && s[i] == ':' ==> HasDelimiter(s[..i])
  }

  /** `s` starts with `scheme` and a colon. */
  predicate Starts(s: string, scheme: string) {
    scheme + ":" <= s
  }

  lemma CutIsFirst(s: string, scheme: string)
    requires Starts(s, scheme) && ':' !in scheme
    ensures CutColon(s) == (scheme, true)
  {
    assert s == scheme + ":" + s[|scheme| + 1..];
    UriCut(scheme, s[|scheme| + 1..]);
  }

  lemma {:induction false} NoColonFirstIsCut(s: string)
    ensures NoColonFirst(s) <==> !CutColon(s).1 || HasDelimiter(CutColon(s).0)
  {
    var (head, found) := CutColon(s);
    if found && HasDelimiter(head) {
      forall i | 0 <= i < |s| && s[i] == ':' ensures HasDelimiter(s[..i]) {
        assert forall k :: 0 <= k < |head| ==> s[k] == head[k] != ':';
        var k :| 0 <= k < |head| && Delimiter(head[k]);
        assert s[..i][k] == head[k];
      }
    }
    if found && NoColonFirst(s) {
      assert s[..|head|] == head;
    }
  }

  /** What stands before the first colon lower-cases to an allowed scheme. */
  ghost predicate LinkHead(s: string) {
    exists head :: Starts(s, head) && ':' !in head && Lower(head) in LINK_SCHEMES
  }

  lemma LinkHeadIsCut(s: string)
    ensures LinkHead(s) <==> CutColon(s).1 && Lower(CutColon(s).0) in LINK_SCHEMES
  {
    var (head, found) := CutColon(s);
    if found {
      assert s[..|head| + 1] == head + ":";
      assert Starts(s, head);
    }
    if LinkHead(s) {
      var other :| Starts(s, other) && ':' !in other && Lower(other) in LINK_SCHEMES;
      CutIsFirst(s, other);
    }
  }

  lemma SafeUrlOfCut(value: string)
    ensures var s := TrimSpace(value);
            var (head, found) := CutColon(s);
            SafeUrl(value) <==>
            s != "" && ControlFree(s) && (!found || HasDelimiter(head) || Lower(head) in LINK_SCHEMES)
  {
    var s := TrimSpace(value);
    CutLower(s);
    LowerKeepsDelimiters(CutColon(s).0);
  }

  /** The filter on every text whatsoever, RFC 3986 or not: after trimming, it must be non-empty and free
      of control characters, and either no colon comes before the first delimiter or what stands before the
      first colon lower-cases to an allowed scheme. */
  lemma {:induction false} SafeUrlOnEveryText(value: string)
    ensures var s := TrimSpace(value);
            SafeUrl(value) <==>
            s != "" && (forall i :: 0 <= i < |s| ==> s[i] as int >= 0x20 && s[i] as int != 0x7F) &&
            (NoColonFirst(s) || LinkHead(s))
  {
    SafeUrlOfCut(value);
    NoColonFirstIsCut(TrimSpace(value));
    LinkHeadIsCut(TrimSpace(value));
  }

  /** Script and data links are refused however they go on: a text that starts with a scheme is accepted
      exactly when that scheme is allowed and no control character hides in the text. */
  lemma SafeUrlJudgesScheme(value: string, scheme: string)
    requires Scheme(scheme) && Starts(TrimSpace(value), scheme)
    ensures SafeUrl(value) <==> LinkScheme(scheme) && ControlFree(TrimSpace(value))
  {
    SchemeText(scheme);
    CutIsFirst(TrimSpace(value), scheme);
    SafeUrlOfCut(value);
    LinkSchemeIsLowered(scheme);
  }

  /** The filter is exact on URI references: it accepts one just when it is a relative reference or
      its scheme is http, https or mailto in any case. */
  lemma SafeUrlIsExact(s: string)
    requires s != ""
    requires RelativeRef(s) || exists scheme :: UriWithScheme(s, scheme)
    ensures SafeUrl(s) <==>
            RelativeRef(s) || exists scheme :: UriWithScheme(s, scheme) && LinkScheme(scheme)
  {
    if RelativeRef(s) {
      RelativeIsAccepted(s);
    } else {
      forall scheme | UriWithScheme(s, scheme)
        ensures SafeUrl(s) <==> LinkScheme(scheme)
      {
        UriIsJudgedByScheme(s, scheme);
        LinkSchemeIsLowered(scheme);
      }
    }
  }
}
