/** Notes as node lists, the text the sanitizer prints for them, and a strict parser for exactly
    that output grammar. */
module Markup {
  import opened Text

  datatype Attr = Attr(key: string, val: string)

  /** A list of sibling nodes in the first-child / next-sibling form of `html.Node`. `Other` is a
      comment, doctype or any node that is neither text nor element. */
  datatype Forest =
    | Empty
    | Txt(data: string, next: Forest)
    | Other(next: Forest)
    | Element(tag: string, attrs: seq<Attr>, kids: Forest, next: Forest)
  {
    ghost function Size(): nat {
      match this
      case Empty => 0
      case Txt(_, n) => 1 + n.Size()
      case Other(n) => 1 + n.Size()
      case Element(_, _, k, n) => 2 + k.Size() + n.Size()
    }
  }

  const ALLOWED_TAGS: set<string> := {
    "p", "br", "div", "span", "strong", "b", "em", "i", "u", "s", "strike", "h2", "h3", "h4",
    "ul", "ol", "li", "a", "code", "pre", "blockquote", "hr"}

  predicate Void(tag: string) {
    tag == "br" || tag == "hr"
  }

  // ---- html.EscapeString and its strict inverse ----

  /** The rune itself, or the character reference `html.EscapeString` writes for it. */
  function EscapeRune(c: char): string {
    if c == '&' then "&amp;"
    else if c == '\'' then "&#39;"
    else if c == '<' then "&lt;"
    else if c == '>' then "&gt;"
    else if c == '\"' then "&#34;"
    else if c == '\r' then "&#13;"
    else [c]
  }

  function Escape(s: string): string {
    if s == "" then "" else EscapeRune(s[0]) + Escape(s[1..])
  }

  predicate Special(c: char) {
    c == '&' || c == '\'' || c == '<' || c == '>' || c == '\"' || c == '\r'
  }

  /** The rune whose escape starts `s`, if any: the six references or one rune needing none. */
  function DecodeRune(s: string): (r: Option<char>)
    requires s != ""
    ensures r.Some? ==> EscapeRune(r.value) <= s
  {
    if "&amp;" <= s then Some('&')
    else if "&#39;" <= s then Some('\'')
    else if "&lt;" <= s then Some('<')
    else if "&gt;" <= s then Some('>')
    else if "&#34;" <= s then Some('\"')
    else if "&#13;" <= s then Some('\r')
    else if Special(s[0]) then None
    else Some(s[0])
  }

  function Unescape(s: string): Option<string>
    decreases |s|
  {
    if s == "" then Some("") else
    match DecodeRune(s)
    case None => None
    case Some(c) =>
      match Unescape(s[|EscapeRune(c)|..])
      case None => None
      case Some(t) => Some([c] + t)
  }

  lemma {:induction false} DecodeFirst(c: char, rest: string)
    ensures DecodeRune(EscapeRune(c) + rest) == Some(c)
  {
    var s := EscapeRune(c) + rest;
    assert s[0] == EscapeRune(c)[0];
    if Special(c) {
      assert s[..|EscapeRune(c)|] == EscapeRune(c);
      assert |s| >= 4 && s[1] == EscapeRune(c)[1] && s[2] == EscapeRune(c)[2] && s[3] == EscapeRune(c)[3];
    }
  }

  lemma {:induction false} UnescapeFirst(c: char, rest: string, t: string)
    requires Unescape(rest) == Some(t)
    ensures Unescape(EscapeRune(c) + rest) == Some([c] + t)
  {
    DecodeFirst(c, rest);
    SkipPrefix(EscapeRune(c), rest);
    UnescapeStep(EscapeRune(c) + rest, c, t);
  }

  lemma SkipPrefix(e: string, rest: string)
    ensures (e + rest)[|e|..] == rest
  {
  }

  lemma UnescapeStep(s: string, c: char, t: string)
    requires s != "" && DecodeRune(s) == Some(c) && Unescape(s[|EscapeRune(c)|..]) == Some(t)
    ensures Unescape(s) == Some([c] + t)
  {
  }

  lemma {:induction false} EscapeThenUnescape(s: string)
    ensures Unescape(Escape(s)) == Some(s)
  {
    if s != "" {
      EscapeThenUnescape(s[1..]);
      UnescapeFirst(s[0], Escape(s[1..]), s[1..]);
      assert [s[0]] + s[1..] == s;
    }
  }

  lemma EscapeFirst(c: char, t: string)
    ensures Escape([c] + t) == EscapeRune(c) + Escape(t)
  {
    assert ([c] + t)[1..] == t;
  }

  lemma SplitPrefix(e: string, s: string)
    requires e <= s
    ensures s == e + s[|e|..]
  {
  }

  lemma {:induction false} UnescapeThenEscape(s: string)
    requires Unescape(s).Some?
    ensures Escape(Unescape(s).value) == s
    decreases |s|
  {
    if s != "" {
      var c := DecodeRune(s).value;
      var rest := s[|EscapeRune(c)|..];
      UnescapeThenEscape(rest);
      EscapeFirst(c, Unescape(rest).value);
      SplitPrefix(EscapeRune(c), s);
    }
  }

  lemma {:induction false} EscapeJoin(s: string, t: string)
    ensures Escape(s + t) == Escape(s) + Escape(t)
  {
    if s == "" {
      assert s + t == t;
    } else {
      assert (s + t)[1..] == s[1..] + t;
      EscapeJoin(s[1..], t);
    }
  }

  /** No rune that could end a text run or an attribute value, and no carriage return. */
  predicate Inert(s: string) {
    forall i :: 0 <= i < |s| ==> s[i] != '<' && s[i] != '>' && s[i] != '\"' && s[i] != '\'' && s[i] != '\r'
  }

  lemma RuneIsInert(c: char)
    ensures Inert(EscapeRune(c)) && EscapeRune(c) != ""
  {
  }

  lemma InertJoin(a: string, b: string)
    requires Inert(a) && Inert(b)
    ensures Inert(a + b)
  {
  }

  lemma {:induction false} EscapeIsInert(s: string)
    ensures Inert(Escape(s)) && (s != "" ==> Escape(s) != "")
  {
    if s != "" {
      EscapeIsInert(s[1..]);
      RuneIsInert(s[0]);
      InertJoin(EscapeRune(s[0]), Escape(s[1..]));
    }
  }

  lemma EscapeHasNoMarkup(s: string)
    ensures '<' !in Escape(s) && '>' !in Escape(s) && '\"' !in Escape(s) && '\'' !in Escape(s) && '\r' !in Escape(s)
    ensures s != "" ==> Escape(s) != ""
  {
    EscapeIsInert(s);
  }

  // ---- printing ----

  function PrintAttr(a: Attr): string {
    a.key + ("=\"" + (Escape(a.val) + "\""))
  }

  function PrintAttrs(attrs: seq<Attr>): string {
    if attrs == [] then "" else " " + (PrintAttr(attrs[0]) + PrintAttrs(attrs[1..]))
  }

  function Open(tag: string, attrs: seq<Attr>): string {
    "<" + (tag + (PrintAttrs(attrs) + ">"))
  }

  function Close(tag: string): string {
    "</" + tag + ">"
  }

  function Print(f: Forest): string
    decreases f, 0
  {
    match f
    case Empty => ""
    case Txt(d, n) => Escape(d) + Print(n)
    case Other(n) => Print(n)
    case Element(t, a, k, n) => Open(t, a) + Body(t, k) + Print(n)
  }

  function Body(tag: string, kids: Forest): string
    decreases kids, 1
  {
    if Void(tag) then "" else Print(kids) + Close(tag)
  }

  // ---- the strict parser ----

  predicate NameRune(c: char) {
    'a' <= c <= 'z' || '0' <= c <= '9'
  }

  predicate IsName(s: string) {
    s != "" && forall i :: 0 <= i < |s| ==> NameRune(s[i])
  }

  function NameLength(s: string): (n: nat)
    ensures n <= |s|
    ensures forall i :: 0 <= i < n ==> NameRune(s[i])
    ensures n < |s| ==> !NameRune(s[n])
  {
    if s != "" && NameRune(s[0]) then 1 + NameLength(s[1..]) else 0
  }

  /** Index of the first `c`, or the length when there is none. */
  function IndexOr(s: string, c: char): (n: nat)
    ensures n <= |s| && (n < |s| ==> s[n] == c)
    ensures c !in s[..n]
  {
    if s == "" || s[0] == c then 0
    else
      var n := IndexOr(s[1..], c);
      assert s[..n + 1] == [s[0]] + s[1..][..n];
      n + 1
  }

  /** An escaped value up to its closing quote. */
  function ParseValue(q: string): (r: Option<(string, string)>)
    ensures r.Some? ==> |r.value.1| < |q|
  {
    var v := IndexOr(q, '\"');
    if v == |q| then None
    else
      match Unescape(q[..v])
      case None => None
      case Some(val) => Some((val, q[v + 1..]))
  }

  /** One `name="escaped"`. */
  function ParseAttr(s: string): (r: Option<(Attr, string)>)
    ensures r.Some? ==> |r.value.1| < |s|
  {
    var n := NameLength(s);
    if n == 0 || !("=\"" <= s[n..]) then None
    else
      match ParseValue(s[n..][2..])
      case None => None
      case Some((val, rest)) => Some((Attr(s[..n], val), rest))
  }

  /** Zero or more attributes, each after one space, up to the closing `>`. */
  function ParseAttrs(s: string): (r: Option<(seq<Attr>, string)>)
    ensures r.Some? ==> |r.value.1| < |s|
    decreases |s|
  {
    if s == "" then None
    else if s[0] == '>' then Some(([], s[1..]))
    else if s[0] != ' ' then None
    else
      match ParseAttr(s[1..])
      case None => None
      case Some((a, t)) =>
        match ParseAttrs(t)
        case None => None
        case Some((rest, u)) => Some(([a] + rest, u))
  }

  function ParseOpen(s: string): (r: Option<(string, seq<Attr>, string)>)
    requires s != "" && s[0] == '<'
    ensures r.Some? ==> |r.value.2| < |s| && r.value.0 in ALLOWED_TAGS
  {
    var n := NameLength(s[1..]);
    var tag := s[1..][..n];
    if tag !in ALLOWED_TAGS then None
    else
      match ParseAttrs(s[1..][n..])
      case None => None
      case Some((attrs, rest)) => Some((tag, attrs, rest))
  }

  /** A text run up to the next `<` or the end. */
  function ParseText(s: string): (r: Option<(string, string)>)
    requires s != "" && s[0] != '<'
    ensures r.Some? ==> |r.value.1| < |s|
  {
    var n := IndexOr(s, '<');
    match Unescape(s[..n])
    case None => None
    case Some(d) => Some((d, s[n..]))
  }

  /** Where a printed sibling list may end. */
  predicate Boundary(rest: string) {
    rest == "" || "</" <= rest
  }

  /** Sibling nodes up to the end of the text or the next `</`. */
  function ParseForest(s: string): (r: Option<(Forest, string)>)
    ensures r.Some? ==> |r.value.1| <= |s|
    decreases |s|, 0
  {
    if Boundary(s) then Some((Empty, s))
    else if s[0] != '<' then
      match ParseText(s)
      case None => None
      case Some((d, t)) =>
        match ParseForest(t)
        case None => None
        case Some((next, r)) => Some((Txt(d, next), r))
    else
      match ParseOpen(s)
      case None => None
      case Some((tag, attrs, t)) =>
        match ParseContent(tag, t)
        case None => None
        case Some((kids, u)) =>
          match ParseForest(u)
          case None => None
          case Some((next, r)) => Some((Element(tag, attrs, kids, next), r))
  }

  /** What follows a start tag: nothing for a void element, else children and the end tag. */
  function ParseContent(tag: string, s: string): (r: Option<(Forest, string)>)
    ensures r.Some? ==> |r.value.1| <= |s|
    decreases |s|, 1
  {
    if Void(tag) then Some((Empty, s))
    else
      match ParseForest(s)
      case None => None
      case Some((kids, t)) => if Close(tag) <= t then Some((kids, t[|Close(tag)|..])) else None
  }

  function Parse(s: string): Option<Forest> {
    match ParseForest(s)
    case None => None
    case Some((f, rest)) => if rest == "" then Some(f) else None
  }

  // ---- which forests the grammar describes ----

  predicate NamedAttrs(attrs: seq<Attr>) {
    forall a :: a in attrs ==> IsName(a.key)
  }

  /** What a document of the output grammar can hold: text runs are non-empty and merged, only
      allowed tags occur, and void elements are childless. */
  predicate Normal(f: Forest) {
    match f
    case Empty => true
    case Txt(d, n) => d != "" && !n.Txt? && Normal(n)
    case Other(_) => false
    case Element(t, a, k, n) =>
      t in ALLOWED_TAGS && NamedAttrs(a) && (Void(t) ==> k == Empty) && Normal(k) && Normal(n)
  }

  lemma AllowedTagsAreNames(tag: string)
    requires tag in ALLOWED_TAGS
    ensures IsName(tag)
  {
  }

  lemma {:induction false} NameThenOther(name: string, rest: string)
    requires forall i :: 0 <= i < |name| ==> NameRune(name[i])
    requires rest != "" && !NameRune(rest[0])
    ensures NameLength(name + rest) == |name|
    ensures (name + rest)[..|name|] == name && (name + rest)[|name|..] == rest
  {
    if name != "" {
      assert (name + rest)[1..] == name[1..] + rest;
      NameThenOther(name[1..], rest);
    } else {
      assert name + rest == rest;
    }
  }

  lemma {:induction false} IndexAfter(s: string, c: char, rest: string)
    requires c !in s && (rest == "" || rest[0] == c)
    ensures IndexOr(s + rest, c) == |s|
    ensures (s + rest)[..|s|] == s && (s + rest)[|s|..] == rest
  {
    if s == "" {
      assert s + rest == rest;
    } else {
      assert (s + rest)[0] == s[0] && (s + rest)[1..] == s[1..] + rest;
      IndexAfter(s[1..], c, rest);
    }
  }

  // ---- parsing what was printed ----

  lemma {:induction false} ValueRoundTrip(val: string, rest: string)
    ensures ParseValue(Escape(val) + ("\"" + rest)) == Some((val, rest))
  {
    var quoted := "\"" + rest;
    EscapeHasNoMarkup(val);
    IndexAfter(Escape(val), '\"', quoted);
    EscapeThenUnescape(val);
    PastQuote(Escape(val), rest);
  }

  lemma PastQuote(e: string, rest: string)
    ensures (e + ("\"" + rest))[..|e|] == e && (e + ("\"" + rest))[|e| + 1..] == rest
  {
  }

  lemma AttrShape(a: Attr, rest: string)
    ensures PrintAttr(a) + rest == a.key + ("=\"" + (Escape(a.val) + ("\"" + rest)))
  {
    AttrRegroup(a.key, Escape(a.val), rest);
  }

  lemma DropTwo(q: string)
    ensures "=\"" <= "=\"" + q && ("=\"" + q)[2..] == q
  {
  }

  lemma AttrRoundTrip(a: Attr, rest: string)
    requires IsName(a.key)
    ensures ParseAttr(PrintAttr(a) + rest) == Some((a, rest))
  {
    var q := Escape(a.val) + ("\"" + rest);
    AttrShape(a, rest);
    NameThenOther(a.key, "=\"" + q);
    DropTwo(q);
    ValueRoundTrip(a.val, rest);
  }

  lemma AttrRegroup(key: string, e: string, rest: string)
    ensures (key + ("=\"" + (e + "\""))) + rest == key + ("=\"" + (e + ("\"" + rest)))
  {
  }

  lemma SpaceRegroup(p: string, q: string, rest: string)
    ensures (" " + (p + q)) + rest == " " + (p + (q + rest))
  {
  }

  lemma AttrsShape(attrs: seq<Attr>, rest: string)
    requires attrs != []
    ensures PrintAttrs(attrs) + rest == " " + (PrintAttr(attrs[0]) + (PrintAttrs(attrs[1..]) + rest))
  {
    SpaceRegroup(PrintAttr(attrs[0]), PrintAttrs(attrs[1..]), rest);
  }

  lemma ParseAttrsStep(s: string, a: Attr, t: string, more: seq<Attr>, rest: string)
    requires s != "" && s[0] == ' ' && ParseAttr(s[1..]) == Some((a, t)) && ParseAttrs(t) == Some((more, rest))
    ensures ParseAttrs(s) == Some(([a] + more, rest))
  {
  }

  lemma AfterSpace(s: string, t: string)
    requires s == " " + t
    ensures s != "" && s[0] == ' ' && s[1..] == t
  {
  }

  lemma HeadAndTail(attrs: seq<Attr>)
    requires attrs != []
    ensures [attrs[0]] + attrs[1..] == attrs
  {
  }

  lemma {:induction false} ParseOneMore(s: string, attrs: seq<Attr>, tail: string, rest: string)
    requires attrs != [] && IsName(attrs[0].key) && ParseAttrs(tail) == Some((attrs[1..], rest))
    requires s == " " + (PrintAttr(attrs[0]) + tail)
    ensures ParseAttrs(s) == Some((attrs, rest))
  {
    AfterSpace(s, PrintAttr(attrs[0]) + tail);
    AttrRoundTrip(attrs[0], tail);
    ParseAttrsStep(s, attrs[0], tail, attrs[1..], rest);
    HeadAndTail(attrs);
  }

  lemma ParseNoMore(rest: string)
    ensures ParseAttrs(PrintAttrs([]) + (">" + rest)) == Some(([], rest))
  {
    assert PrintAttrs([]) + (">" + rest) == ">" + rest;
  }

  lemma {:induction false} AttrsRoundTrip(attrs: seq<Attr>, rest: string)
    requires NamedAttrs(attrs)
    ensures ParseAttrs(PrintAttrs(attrs) + (">" + rest)) == Some((attrs, rest))
  {
    if attrs == [] {
      ParseNoMore(rest);
    } else {
      AttrsShape(attrs, ">" + rest);
      assert attrs[0] in attrs;
      AttrsRoundTrip(attrs[1..], rest);
      ParseOneMore(PrintAttrs(attrs) + (">" + rest), attrs, PrintAttrs(attrs[1..]) + (">" + rest), rest);
    }
  }

  lemma OpenShape(tag: string, attrs: string, rest: string)
    requires tag != ""
    ensures var s := ("<" + (tag + (attrs + ">"))) + rest;
            |s| >= 2 && s[0] == '<' && s[1] == tag[0] && s[1..] == tag + (attrs + (">" + rest))
  {
  }

  lemma {:induction false} OpenIsRead(s: string, tag: string, t: string, attrs: seq<Attr>, rest: string)
    requires s != "" && s[0] == '<' && s[1..] == tag + t && tag in ALLOWED_TAGS
    requires ParseAttrs(t) == Some((attrs, rest)) && (t == "" || !NameRune(t[0]))
    ensures ParseOpen(s) == Some((tag, attrs, rest))
  {
    AllowedTagsAreNames(tag);
    NameThenOther(tag, t);
    SkipPrefix(tag, t);
  }

  lemma OpenRoundTrip(tag: string, attrs: seq<Attr>, rest: string)
    requires tag in ALLOWED_TAGS && NamedAttrs(attrs)
    ensures var s := Open(tag, attrs) + rest;
            !Boundary(s) && s[0] == '<' && ParseOpen(s) == Some((tag, attrs, rest))
  {
    AllowedTagsAreNames(tag);
    OpenShape(tag, PrintAttrs(attrs), rest);
    AttrsRoundTrip(attrs, rest);
    OpenIsRead(Open(tag, attrs) + rest, tag, PrintAttrs(attrs) + (">" + rest), attrs, rest);
  }

  lemma {:induction false} TextRoundTrip(d: string, rest: string)
    requires d != "" && (rest == "" || rest[0] == '<')
    ensures var s := Escape(d) + rest;
            !Boundary(s) && s[0] != '<' && ParseText(s) == Some((d, rest))
  {
    EscapeHasNoMarkup(d);
    assert (Escape(d) + rest)[0] == Escape(d)[0];
    IndexAfter(Escape(d), '<', rest);
    EscapeThenUnescape(d);
  }

  lemma PrintStartsWithTag(f: Forest, rest: string)
    requires Normal(f) && !f.Txt? && Boundary(rest)
    ensures var s := Print(f) + rest; s == "" || s[0] == '<'
  {
  }

  lemma CloseSplits(tag: string, rest: string)
    ensures var s := Close(tag) + rest;
            Boundary(s) && Close(tag) <= s && s[|Close(tag)|..] == rest
  {
  }

  lemma ElementRoundTrip(t: string, a: seq<Attr>, k: Forest, n: Forest, after: string, rest: string)
    requires t in ALLOWED_TAGS && NamedAttrs(a) && (Void(t) ==> k == Empty)
    requires !Void(t) ==> ParseForest(Print(k) + (Close(t) + after)) == Some((k, Close(t) + after))
    requires ParseForest(after) == Some((n, rest))
    ensures ParseForest(Open(t, a) + (Body(t, k) + after)) == Some((Element(t, a, k, n), rest))
  {
    var body := Body(t, k);
    OpenRoundTrip(t, a, body + after);
    if Void(t) {
      assert body + after == after;
    } else {
      Regroup(Print(k), Close(t), after);
      CloseSplits(t, after);
    }
    assert ParseContent(t, body + after) == Some((k, after));
  }

  lemma Regroup(a: string, b: string, c: string)
    ensures (a + b) + c == a + (b + c)
  {
  }

  /** Parsing what was printed gives back exactly the forest. */
  lemma {:induction false} PrintThenParse(f: Forest, rest: string)
    requires Normal(f) && Boundary(rest)
    ensures ParseForest(Print(f) + rest) == Some((f, rest))
  {
    match f
    case Empty => assert Print(f) + rest == rest;
    case Txt(d, n) =>
      Regroup(Escape(d), Print(n), rest);
      PrintStartsWithTag(n, rest);
      TextRoundTrip(d, Print(n) + rest);
      PrintThenParse(n, rest);
    case Element(t, a, k, n) =>
      var after := Print(n) + rest;
      Regroup(Open(t, a) + Body(t, k), Print(n), rest);
      Regroup(Open(t, a), Body(t, k), after);
      if !Void(t) {
        CloseSplits(t, after);
        PrintThenParse(k, Close(t) + after);
      }
      PrintThenParse(n, rest);
      ElementRoundTrip(t, a, k, n, after, rest);
  }

  // ---- printing what was parsed ----

  lemma ValueParsedIsPrinted(q: string)
    requires ParseValue(q).Some?
    ensures var (val, rest) := ParseValue(q).value; q == Escape(val) + ("\"" + rest)
  {
    var v := IndexOr(q, '\"');
    UnescapeThenEscape(q[..v]);
    QuoteSplits(q, v);
  }

  lemma QuoteSplits(t: string, v: nat)
    requires v < |t| && t[v] == '\"'
    ensures t == t[..v] + ("\"" + t[v + 1..])
  {
  }

  lemma NameSplits(s: string, n: nat)
    requires n <= |s| && "=\"" <= s[n..]
    ensures s == s[..n] + ("=\"" + s[n..][2..])
  {
    SplitAt(s[n..], "=\"");
  }

  lemma AttrParsedIsPrinted(s: string)
    requires ParseAttr(s).Some?
    ensures var (a, rest) := ParseAttr(s).value;
            IsName(a.key) && s == PrintAttr(a) + rest
  {
    var n := NameLength(s);
    NameSplits(s, n);
    ValueParsedIsPrinted(s[n..][2..]);
    var (a, rest) := ParseAttr(s).value;
    AttrShape(a, rest);
  }

  lemma {:induction false} AttrsParsedArePrinted(s: string)
    requires ParseAttrs(s).Some?
    ensures var (attrs, rest) := ParseAttrs(s).value;
            NamedAttrs(attrs) && s == PrintAttrs(attrs) + (">" + rest)
    decreases |s|
  {
    if s[0] == '>' {
      assert s == "" + (">" + s[1..]);
    } else {
      var (a, t) := ParseAttr(s[1..]).value;
      AttrParsedIsPrinted(s[1..]);
      AttrsParsedArePrinted(t);
      var (more, rest) := ParseAttrs(t).value;
      assert ([a] + more)[1..] == more;
      assert s == " " + s[1..];
      AttrsRegroup(PrintAttr(a), PrintAttrs(more), ">" + rest);
    }
  }

  lemma AttrsRegroup(a: string, b: string, c: string)
    ensures " " + (a + (b + c)) == " " + (a + b) + c
  {
  }

  lemma OpenRegroup(tag: string, attrs: string, rest: string)
    ensures "<" + (tag + (attrs + (">" + rest))) == "<" + (tag + (attrs + ">")) + rest
  {
  }

  lemma OpenParsedIsPrinted(s: string)
    requires s != "" && s[0] == '<' && ParseOpen(s).Some?
    ensures var (tag, attrs, rest) := ParseOpen(s).value;
            NamedAttrs(attrs) && s == Open(tag, attrs) + rest
  {
    var n := NameLength(s[1..]);
    OpenSplits(s, n);
    var tail := s[1..][n..];
    AttrsParsedArePrinted(tail);
    var (attrs, rest) := ParseAttrs(tail).value;
    OpenRegroup(s[1..][..n], PrintAttrs(attrs), rest);
  }

  lemma OpenSplits(s: string, n: nat)
    requires s != "" && s[0] == '<' && n <= |s| - 1
    ensures s == "<" + (s[1..][..n] + s[1..][n..])
  {
    assert s == "<" + s[1..];
  }

  lemma TextParsedIsPrinted(s: string)
    requires s != "" && s[0] != '<' && ParseText(s).Some?
    ensures var (d, rest) := ParseText(s).value;
            d != "" && s == Escape(d) + rest && (rest == "" || rest[0] == '<')
  {
    var n := IndexOr(s, '<');
    UnescapeThenEscape(s[..n]);
    assert s == s[..n] + s[n..];
    assert Escape("") == "";
  }

  lemma SplitAt(s: string, p: string)
    requires p <= s
    ensures s == p + s[|p|..]
  {
  }

  /** Printing what was parsed gives back exactly the text, so the strict grammar is the set of
      printed normal forests and nothing else. */
  lemma {:induction false} ParseThenPrint(s: string)
    requires ParseForest(s).Some?
    ensures var (f, rest) := ParseForest(s).value;
            Normal(f) && Boundary(rest) && s == Print(f) + rest
    decreases |s|
  {
    if Boundary(s) {
      assert s == "" + s;
    } else if s[0] != '<' {
      var (d, t) := ParseText(s).value;
      TextParsedIsPrinted(s);
      ParseThenPrint(t);
      var (n, rest) := ParseForest(t).value;
      Regroup(Escape(d), Print(n), rest);
    } else {
      var (tag, attrs, t) := ParseOpen(s).value;
      OpenParsedIsPrinted(s);
      var (kids, u) := ParseContent(tag, t).value;
      var body := Body(tag, kids);
      ParseThenPrint(u);
      var (n, rest) := ParseForest(u).value;
      if Void(tag) {
        assert t == body + u;
      } else {
        ParseThenPrint(t);
        SplitAt(ParseForest(t).value.1, Close(tag));
        Regroup(Print(kids), Close(tag), u);
      }
      Regroup(Open(tag, attrs), body, u);
      Regroup(Open(tag, attrs) + body, Print(n), rest);
    }
  }
}
