/** The note sanitizer and the search-text flattener: the cleaner as a tree transformation, the
    builder-writing walks proved against it, and what the two walks promise together. */
module Sanitize {
  import opened Text
  import opened Markup
  import Url

  const STRIPPED_SUBTREES: set<string> := {
    "script", "style", "iframe", "object", "embed", "form", "input", "button",
    "textarea", "select", "link", "meta", "svg", "math", "template", "base"}

  const DIRECTIONS: set<string> := {"ltr", "rtl", "auto"}

  /** Elements after which NoteText writes a space. */
  const SEPARATORS: set<string> := {"p", "br", "div", "li", "h2", "h3", "h4", "pre"}

  const LINK_ATTRS: seq<Attr> := [Attr("target", "_blank"), Attr("rel", "noopener noreferrer")]

  // ---- cleanAttrs ----

  function KeptAttr(tag: string, a: Attr): seq<Attr> {
    var key := Lower(a.key);
    if key == "dir" && Lower(a.val) in DIRECTIONS then [Attr("dir", Lower(a.val))]
    else if key == "href" && tag == "a" && Url.SafeUrl(a.val) then [Attr("href", a.val)]
    else []
  }

  function KeptAttrs(tag: string, attrs: seq<Attr>): seq<Attr> {
    if attrs == [] then []
    else KeptAttrs(tag, attrs[..|attrs| - 1]) + KeptAttr(tag, attrs[|attrs| - 1])
  }

  predicate HasHref(attrs: seq<Attr>) {
    exists i :: 0 <= i < |attrs| && attrs[i].key == "href"
  }

  function CleanAttrs(tag: string, attrs: seq<Attr>): seq<Attr> {
    var kept := KeptAttrs(tag, attrs);
    if tag == "a" && HasHref(kept) then kept + LINK_ATTRS else kept
  }

  /** The second loop of cleanAttrs. */
  method FindHref(kept: seq<Attr>) returns (hasHref: bool)
    ensures hasHref <==> HasHref(kept)
  {
    hasHref := false;
    for i := 0 to |kept|
      invariant hasHref <==> exists j :: 0 <= j < i && kept[j].key == "href"
    {
      if kept[i].key == "href" {
        hasHref := true;
      }
    }
  }

  /** cleanAttrs. */
  method CleanAttrsLoop(tag: string, attrs: seq<Attr>) returns (kept: seq<Attr>)
    ensures kept == CleanAttrs(tag, attrs)
  {
    kept := [];
    for i := 0 to |attrs|
      invariant kept == KeptAttrs(tag, attrs[..i])
    {
      var attr := attrs[i];
      assert attrs[..i + 1][..i] == attrs[..i];
      var key := Lower(attr.key);
      if key == "dir" {
        if Lower(attr.val) in DIRECTIONS {
          kept := kept + [Attr("dir", Lower(attr.val))];
        }
      } else if key == "href" {
        if tag == "a" && Url.SafeUrl(attr.val) {
          kept := kept + [Attr("href", attr.val)];
        }
      }
    }
    assert attrs[..|attrs|] == attrs;
    if tag == "a" {
      var hasHref := FindHref(kept);
      if hasHref {
        kept := kept + LINK_ATTRS;
      }
    }
  }

  /** A `dir` with one of the three directions, or a vetted `href` on a link. */
  predicate Harmless(tag: string, a: Attr) {
    (a.key == "dir" && a.val in DIRECTIONS) ||
    (a.key == "href" && tag == "a" && Url.SafeUrl(a.val))
  }

  predicate AllHarmless(tag: string, attrs: seq<Attr>) {
    forall i :: 0 <= i < |attrs| ==> Harmless(tag, attrs[i])
  }

  /** What an element may carry: harmless attributes only, and a list with an `href` ends in the
      `target` and `rel` that make it safe to open. */
  predicate CleanAttrList(tag: string, attrs: seq<Attr>) {
    var n := |attrs| - 2;
    if HasHref(attrs) then n >= 0 && attrs[n..] == LINK_ATTRS && AllHarmless(tag, attrs[..n])
    else AllHarmless(tag, attrs)
  }

  lemma {:induction false} LowerStays(s: string)
    requires forall i :: 0 <= i < |s| ==> 'a' <= s[i] <= 'z'
    ensures Lower(s) == s
  {
    if s != "" {
      LowerStays(s[1..]);
    }
  }

  lemma DirectionsAreLower(val: string)
    requires val in DIRECTIONS
    ensures Lower(val) == val
  {
    LowerStays(val);
  }

  lemma KeptAttrIsHarmless(tag: string, a: Attr)
    ensures AllHarmless(tag, KeptAttr(tag, a))
  {
  }

  lemma HarmlessIsKept(tag: string, a: Attr)
    requires Harmless(tag, a)
    ensures KeptAttr(tag, a) == [a]
  {
    assert Lower("dir") == "dir" && Lower("href") == "href";
    if a.val in DIRECTIONS {
      DirectionsAreLower(a.val);
    }
  }

  lemma OtherKeyIsDropped(tag: string, a: Attr)
    requires |Lower(a.key)| != 3 && |Lower(a.key)| != 4
    ensures KeptAttr(tag, a) == []
  {
  }

  lemma LinkAttrIsDropped(tag: string, a: Attr)
    requires a in LINK_ATTRS
    ensures KeptAttr(tag, a) == []
  {
    if |a.key| == 3 {
      assert Lower(a.key)[0] == 'r';
    } else {
      OtherKeyIsDropped(tag, a);
    }
  }

  lemma {:induction false} KeptAttrsAreHarmless(tag: string, attrs: seq<Attr>)
    ensures AllHarmless(tag, KeptAttrs(tag, attrs))
  {
    if attrs != [] {
      KeptAttrsAreHarmless(tag, attrs[..|attrs| - 1]);
      KeptAttrIsHarmless(tag, attrs[|attrs| - 1]);
    }
  }

  /** Some attribute is a `dir`, in any case, that names direction `v`. */
  predicate NamesDir(attrs: seq<Attr>, v: string) {
    exists i :: 0 <= i < |attrs| && Lower(attrs[i].key) == "dir" && Lower(attrs[i].val) == v
  }

  /** Some attribute is an `href`, in any case, with value `v`. */
  predicate NamesHref(attrs: seq<Attr>, v: string) {
    exists i :: 0 <= i < |attrs| && Lower(attrs[i].key) == "href" && attrs[i].val == v
  }

  function Concat(parts: seq<seq<Attr>>): seq<Attr> {
    if parts == [] then [] else Concat(parts[..|parts| - 1]) + parts[|parts| - 1]
  }

  lemma {:induction false} ConcatHas(parts: seq<seq<Attr>>, a: Attr)
    ensures a in Concat(parts) <==> exists i :: 0 <= i < |parts| && a in parts[i]
  {
    if parts != [] {
      var n := |parts| - 1;
      ConcatHas(parts[..n], a);
      InEither(Concat(parts[..n]), parts[n], a);
      assert forall i :: 0 <= i < n ==> parts[..n][i] == parts[i];
    }
  }

  function Pieces(tag: string, attrs: seq<Attr>): seq<seq<Attr>> {
    seq(|attrs|, i requires 0 <= i < |attrs| => KeptAttr(tag, attrs[i]))
  }

  lemma {:induction false} KeptIsConcat(tag: string, attrs: seq<Attr>)
    ensures KeptAttrs(tag, attrs) == Concat(Pieces(tag, attrs))
  {
    if attrs != [] {
      var n := |attrs| - 1;
      KeptIsConcat(tag, attrs[..n]);
      assert Pieces(tag, attrs)[..n] == Pieces(tag, attrs[..n]);
    }
  }

  /** An attribute is kept exactly when some attribute leaves it behind. */
  lemma {:induction false} KeptFromSome(tag: string, attrs: seq<Attr>, a: Attr)
    ensures a in KeptAttrs(tag, attrs) <==> exists i :: 0 <= i < |attrs| && a in KeptAttr(tag, attrs[i])
  {
    KeptIsConcat(tag, attrs);
    var parts := Pieces(tag, attrs);
    ConcatHas(parts, a);
    assert forall i :: 0 <= i < |attrs| ==> parts[i] == KeptAttr(tag, attrs[i]);
  }

  lemma KeptDirs(tag: string, attrs: seq<Attr>, v: string)
    ensures Attr("dir", v) in KeptAttrs(tag, attrs) <==> v in DIRECTIONS && NamesDir(attrs, v)
  {
    KeptFromSome(tag, attrs, Attr("dir", v));
    forall i | 0 <= i < |attrs|
      ensures Attr("dir", v) in KeptAttr(tag, attrs[i]) <==>
              v in DIRECTIONS && Lower(attrs[i].key) == "dir" && Lower(attrs[i].val) == v
    {
      KeptAttrExactly(tag, attrs[i], v);
    }
  }

  lemma {:induction false} KeptHrefs(tag: string, attrs: seq<Attr>, v: string)
    ensures Attr("href", v) in KeptAttrs(tag, attrs) <==> tag == "a" && Url.SafeUrl(v) && NamesHref(attrs, v)
  {
    KeptFromSome(tag, attrs, Attr("href", v));
    forall i | 0 <= i < |attrs|
      ensures Attr("href", v) in KeptAttr(tag, attrs[i]) <==>
              tag == "a" && Url.SafeUrl(v) && Lower(attrs[i].key) == "href" && attrs[i].val == v
    {
      KeptAttrExactly(tag, attrs[i], v);
    }
  }

  /** Nothing the note may keep is lost: a direction or a vetted link is kept exactly when some attribute
      names it. */
  lemma {:induction false} KeptExactly(tag: string, attrs: seq<Attr>, v: string)
    ensures Attr("dir", v) in KeptAttrs(tag, attrs) <==>
            (v == "ltr" || v == "rtl" || v == "auto") && NamesDir(attrs, v)
    ensures Attr("href", v) in KeptAttrs(tag, attrs) <==> tag == "a" && Url.SafeUrl(v) && NamesHref(attrs, v)
  {
    KeptDirs(tag, attrs, v);
    KeptHrefs(tag, attrs, v);
  }

  lemma InEither(xs: seq<Attr>, ys: seq<Attr>, a: Attr)
    ensures a in xs + ys <==> a in xs || a in ys
  {
  }

  lemma KeptAttrExactly(tag: string, a: Attr, v: string)
    ensures Attr("dir", v) in KeptAttr(tag, a) <==> v in DIRECTIONS && Lower(a.key) == "dir" && Lower(a.val) == v
    ensures Attr("href", v) in KeptAttr(tag, a) <==>
            tag == "a" && Url.SafeUrl(v) && Lower(a.key) == "href" && a.val == v
  {
  }

  lemma HarmlessInit(tag: string, attrs: seq<Attr>)
    requires AllHarmless(tag, attrs) && attrs != []
    ensures AllHarmless(tag, attrs[..|attrs| - 1]) && KeptAttr(tag, attrs[|attrs| - 1]) == [attrs[|attrs| - 1]]
  {
    HarmlessIsKept(tag, attrs[|attrs| - 1]);
  }

  lemma KeptLast(tag: string, attrs: seq<Attr>)
    requires attrs != [] && KeptAttrs(tag, attrs[..|attrs| - 1]) == attrs[..|attrs| - 1]
    requires KeptAttr(tag, attrs[|attrs| - 1]) == [attrs[|attrs| - 1]]
    ensures KeptAttrs(tag, attrs) == attrs
  {
    Rejoin(attrs, KeptAttrs(tag, attrs[..|attrs| - 1]), KeptAttr(tag, attrs[|attrs| - 1]));
  }

  lemma Rejoin(attrs: seq<Attr>, init: seq<Attr>, last: seq<Attr>)
    requires attrs != [] && init == attrs[..|attrs| - 1] && last == [attrs[|attrs| - 1]]
    ensures init + last == attrs
  {
  }

  lemma {:induction false} HarmlessAreKept(tag: string, attrs: seq<Attr>)
    requires AllHarmless(tag, attrs)
    ensures KeptAttrs(tag, attrs) == attrs
  {
    if attrs != [] {
      HarmlessInit(tag, attrs);
      HarmlessAreKept(tag, attrs[..|attrs| - 1]);
      KeptLast(tag, attrs);
    }
  }

  lemma OneIsDropped(tag: string, attrs: seq<Attr>, a: Attr)
    requires KeptAttr(tag, a) == []
    ensures KeptAttrs(tag, attrs + [a]) == KeptAttrs(tag, attrs)
  {
    assert (attrs + [a])[..|attrs|] == attrs;
    assert KeptAttrs(tag, attrs) + [] == KeptAttrs(tag, attrs);
  }

  lemma LinkAttrsAreDropped(tag: string, attrs: seq<Attr>)
    ensures KeptAttrs(tag, attrs + LINK_ATTRS) == KeptAttrs(tag, attrs)
  {
    var target, rel := LINK_ATTRS[0], LINK_ATTRS[1];
    LinkAttrIsDropped(tag, target);
    LinkAttrIsDropped(tag, rel);
    OneIsDropped(tag, attrs, target);
    OneIsDropped(tag, attrs + [target], rel);
    assert attrs + LINK_ATTRS == (attrs + [target]) + [rel];
  }

  lemma HrefSurvives(attrs: seq<Attr>)
    ensures HasHref(attrs + LINK_ATTRS) <==> HasHref(attrs)
  {
    var all := attrs + LINK_ATTRS;
    if HasHref(attrs) {
      var i :| 0 <= i < |attrs| && attrs[i].key == "href";
      assert all[i].key == "href";
    }
    if HasHref(all) {
      var i :| 0 <= i < |all| && all[i].key == "href";
      assert all[|attrs|].key[0] == 't' && all[|attrs| + 1].key[0] == 'r';
      assert i < |attrs| && attrs[i].key == "href";
    }
  }

  /** cleanAttrs always produces a clean list. */
  lemma CleanAttrsAreClean(tag: string, attrs: seq<Attr>)
    ensures CleanAttrList(tag, CleanAttrs(tag, attrs))
  {
    var kept := KeptAttrs(tag, attrs);
    KeptAttrsAreHarmless(tag, attrs);
    var clean := CleanAttrs(tag, attrs);
    if HasHref(kept) {
      HrefSurvives(kept);
      assert clean == kept + LINK_ATTRS;
      assert clean[..|clean| - 2] == kept && clean[|clean| - 2..] == LINK_ATTRS;
    } else {
      assert clean == kept;
    }
  }

  /** On a clean list it changes nothing: dropping and re-adding `target` and `rel` restores them. */
  lemma CleanAttrsStay(tag: string, attrs: seq<Attr>)
    requires CleanAttrList(tag, attrs)
    ensures CleanAttrs(tag, attrs) == attrs
  {
    if HasHref(attrs) {
      var body := attrs[..|attrs| - 2];
      assert attrs == body + LINK_ATTRS;
      HrefSurvives(body);
      LinkAttrsAreDropped(tag, body);
      HarmlessAreKept(tag, body);
    } else {
      HarmlessAreKept(tag, attrs);
    }
  }

  lemma {:induction false} CleanAttrsFixpoint(tag: string, attrs: seq<Attr>)
    ensures CleanAttrs(tag, attrs) == attrs <==> CleanAttrList(tag, attrs)
  {
    CleanAttrsAreClean(tag, attrs);
    if CleanAttrList(tag, attrs) {
      CleanAttrsStay(tag, attrs);
    }
  }

  lemma KeysAreNames()
    ensures IsName("dir") && IsName("href") && IsName("target") && IsName("rel")
  {
  }

  lemma HarmlessAreNamed(tag: string, attrs: seq<Attr>)
    requires AllHarmless(tag, attrs)
    ensures NamedAttrs(attrs)
  {
    KeysAreNames();
  }

  lemma NamedJoin(xs: seq<Attr>, ys: seq<Attr>)
    requires NamedAttrs(xs) && NamedAttrs(ys)
    ensures NamedAttrs(xs + ys)
  {
  }

  lemma CleanAttrsAreNamed(tag: string, attrs: seq<Attr>)
    requires CleanAttrList(tag, attrs)
    ensures NamedAttrs(attrs)
  {
    if HasHref(attrs) {
      var n := |attrs| - 2;
      KeysAreNames();
      HarmlessAreNamed(tag, attrs[..n]);
      NamedJoin(attrs[..n], LINK_ATTRS);
      assert attrs == attrs[..n] + LINK_ATTRS;
    } else {
      HarmlessAreNamed(tag, attrs);
    }
  }

  // ---- the cleaner as a tree transformation ----

  /** Text in front of siblings, merged with a text run that comes first. */
  function ConsText(d: string, f: Forest): Forest {
    if d == "" then f
    else if f.Txt? then Txt(d + f.data, f.next)
    else Txt(d, f)
  }

  /** `f` followed by `g`, with text runs merged. */
  function Join(f: Forest, g: Forest): Forest {
    match f
    case Empty => g
    case Txt(d, n) => ConsText(d, Join(n, g))
    case Other(n) => Other(Join(n, g))
    case Element(t, a, k, n) => Element(t, a, k, Join(n, g))
  }

  /** What one node leaves behind. */
  function CleanNode(node: Forest): Forest
    requires !node.Empty?
    decreases node, 0
  {
    match node
    case Txt(d, _) => ConsText(d, Empty)
    case Other(_) => Empty
    case Element(t, a, k, _) =>
      if t in STRIPPED_SUBTREES then Empty
      else if t !in ALLOWED_TAGS then Clean(k)
      else Element(t, CleanAttrs(t, a), if Void(t) then Empty else Clean(k), Empty)
  }

  function Clean(f: Forest): Forest
    decreases f, 1
  {
    if f.Empty? then Empty else Join(CleanNode(f), Clean(f.next))
  }

  /** The note that is stored. */
  function Sanitized(f: Forest): string {
    TrimSpace(Print(Clean(f)))
  }

  /** A cleaned tree, described without the cleaner: it fits the output grammar and every element
      carries a clean attribute list. */
  predicate IsClean(f: Forest) {
    Normal(f) && SafeAttrs(f)
  }

  predicate SafeAttrs(f: Forest) {
    match f
    case Empty => true
    case Txt(_, n) => SafeAttrs(n)
    case Other(n) => SafeAttrs(n)
    case Element(t, a, k, n) => CleanAttrList(t, a) && SafeAttrs(k) && SafeAttrs(n)
  }

  lemma {:induction false} JoinIsClean(f: Forest, g: Forest)
    requires IsClean(f) && IsClean(g)
    ensures IsClean(Join(f, g))
    ensures Join(f, g).Txt? ==> f.Txt? || f.Empty?
  {
    match f
    case Empty =>
    case Txt(_, n) => JoinIsClean(n, g);
    case Element(_, _, _, n) => JoinIsClean(n, g);
  }

  lemma {:induction false} CleanIsClean(f: Forest)
    ensures IsClean(Clean(f))
  {
    if !f.Empty? {
      CleanIsClean(f.next);
      if f.Element? {
        CleanIsClean(f.kids);
        CleanAttrsAreClean(f.tag, f.attrs);
        CleanAttrsAreNamed(f.tag, CleanAttrs(f.tag, f.attrs));
      }
      JoinIsClean(CleanNode(f), Clean(f.next));
    }
  }

  lemma AllowedIsNotStripped(tag: string)
    requires tag in ALLOWED_TAGS
    ensures tag !in STRIPPED_SUBTREES
  {
  }

  lemma {:induction false} CleanKeepsClean(f: Forest)
    requires IsClean(f)
    ensures Clean(f) == f
  {
    match f
    case Empty =>
    case Txt(d, n) =>
      CleanKeepsClean(n);
      assert CleanNode(f) == Txt(d, Empty) && Join(Empty, n) == n;
    case Element(t, a, k, n) =>
      AllowedIsNotStripped(t);
      CleanKeepsClean(k);
      CleanKeepsClean(n);
      CleanAttrsStay(t, a);
      assert CleanNode(f) == Element(t, a, k, Empty) && Join(Empty, n) == n;
  }

  /** The clean trees are exactly the trees the cleaner leaves alone. */
  lemma CleanFixpoint(f: Forest)
    ensures Clean(f) == f <==> IsClean(f)
  {
    CleanIsClean(f);
    if IsClean(f) {
      CleanKeepsClean(f);
    }
  }

  // ---- the builder-writing walk ----

  /** `strings.Builder`. */
  class Builder {
    var text: string

    constructor ()
      ensures text == ""
    {
      text := "";
    }

    method WriteString(s: string)
      modifies this
      ensures text == old(text) + s
    {
      text := text + s;
    }
  }

  lemma {:induction false} PrintJoin(f: Forest, g: Forest)
    ensures Print(Join(f, g)) == Print(f) + Print(g)
  {
    match f
    case Empty =>
    case Txt(d, n) =>
      PrintJoin(n, g);
      PrintConsText(d, Join(n, g));
      Regroup(Escape(d), Print(n), Print(g));
    case Other(n) => PrintJoin(n, g);
    case Element(t, a, k, n) =>
      PrintJoin(n, g);
      Regroup(Open(t, a) + Body(t, k), Print(n), Print(g));
  }

  lemma PrintConsText(d: string, f: Forest)
    ensures Print(ConsText(d, f)) == Escape(d) + Print(f)
  {
    if d == "" {
      assert Escape(d) == "";
    } else if f.Txt? {
      EscapeJoin(d, f.data);
      Regroup(Escape(d), Escape(f.data), Print(f.next));
    }
  }

  lemma {:induction false} PrintCleanCons(f: Forest)
    requires !f.Empty?
    ensures Print(Clean(f)) == Print(CleanNode(f)) + Print(Clean(f.next))
  {
    PrintJoin(CleanNode(f), Clean(f.next));
  }

  lemma PrintOne(f: Forest)
    requires f.Empty? || f.next.Empty?
    ensures f.Txt? ==> Print(f) == Escape(f.data)
    ensures f.Element? ==> Print(f) == Open(f.tag, f.attrs) + Body(f.tag, f.kids)
  {
  }

  method WriteClean(out: Builder, node: Forest)
    requires !node.Empty?
    modifies out
    ensures out.text == old(out.text) + Print(CleanNode(node))
    decreases node.Size(), 0
  {
    if node.Txt? {
      out.WriteString(Escape(node.data));
      PrintConsText(node.data, Empty);
      assert Escape(node.data) + "" == Escape(node.data);
      return;
    } else if !node.Element? {
      assert Print(CleanNode(node)) == "";
      return;
    }

    if node.tag in STRIPPED_SUBTREES {
      assert Print(CleanNode(node)) == "";
      return;
    }
    if node.tag !in ALLOWED_TAGS {
      WriteChildren(out, node.kids);
      return;
    }

    PrintOne(CleanNode(node));
    var tag := node.tag;
    var attrs := CleanAttrsLoop(tag, node.attrs);
    out.WriteString("<" + tag);
    WriteAttrs(out, attrs);
    if tag == "br" || tag == "hr" {
      out.WriteString(">");
      OpenPieces(old(out.text), tag, attrs);
      return;
    }
    out.WriteString(">");
    OpenPieces(old(out.text), tag, attrs);
    ghost var before := out.text;
    WriteChildren(out, node.kids);
    out.WriteString("</" + tag + ">");
    Regroup(before, Print(Clean(node.kids)), Close(tag));
    Regroup(old(out.text), Open(tag, attrs), Body(tag, Clean(node.kids)));
  }

  lemma OpenPieces(before: string, tag: string, attrs: seq<Attr>)
    ensures before + ("<" + tag) + PrintAttrs(attrs) + ">" == before + Open(tag, attrs)
    ensures before + Open(tag, attrs) + "" == before + (Open(tag, attrs) + "")
  {
  }

  method WriteAttrs(out: Builder, attrs: seq<Attr>)
    modifies out
    ensures out.text == old(out.text) + PrintAttrs(attrs)
  {
    assert attrs[0..] == attrs;
    for i := 0 to |attrs|
      invariant out.text + PrintAttrs(attrs[i..]) == old(out.text) + PrintAttrs(attrs)
    {
      var attr := attrs[i];
      AttrPiece(out.text, attrs, i);
      out.WriteString(" " + attr.key + "=\"" + Escape(attr.val) + "\"");
    }
    assert attrs[|attrs|..] == [];
  }

  lemma AttrPiece(before: string, attrs: seq<Attr>, i: nat)
    requires i < |attrs|
    ensures var a := attrs[i];
            before + PrintAttrs(attrs[i..]) ==
            before + (" " + a.key + "=\"" + Escape(a.val) + "\"") + PrintAttrs(attrs[i + 1..])
  {
    assert attrs[i..][1..] == attrs[i + 1..];
    AttrText(attrs[i].key, Escape(attrs[i].val));
    Regroup(" ", PrintAttr(attrs[i]), PrintAttrs(attrs[i + 1..]));
    Regroup(before, " " + PrintAttr(attrs[i]), PrintAttrs(attrs[i + 1..]));
  }

  lemma AttrText(key: string, val: string)
    ensures " " + key + "=\"" + val + "\"" == " " + (key + ("=\"" + (val + "\"")))
  {
  }

  method WriteChildren(out: Builder, kids: Forest)
    modifies out
    ensures out.text == old(out.text) + Print(Clean(kids))
    decreases kids.Size(), 1
  {
    var child := kids;
    while !child.Empty?
      invariant child.Size() <= kids.Size()
      invariant out.text + Print(Clean(child)) == old(out.text) + Print(Clean(kids))
      decreases child.Size()
    {
      PrintCleanCons(child);
      Regroup(out.text, Print(CleanNode(child)), Print(Clean(child.next)));
      WriteClean(out, child);
      child := child.next;
    }
  }

  /** SanitizeNote. `parsed` is what the HTML parser made of the input, `None` when it failed. */
  method SanitizeNote(input: string, parsed: Option<Forest>) returns (note: string)
    ensures parsed.Some? ==> note == Sanitized(parsed.value)
    ensures parsed.None? ==> Unescape(note) == Some(input) && '<' !in note
  {
    if parsed.None? {
      EscapeThenUnescape(input);
      EscapeHasNoMarkup(input);
      return Escape(input);
    }
    var out := new Builder();
    WriteChildren(out, parsed.value);
    assert "" + Print(Clean(parsed.value)) == Print(Clean(parsed.value));
    return TrimSpace(out.text);
  }

  // ---- the outer trim, as a tree operation ----

  /** The spaces `strings.TrimSpace` can still see after escaping: a carriage return is written as a
      character reference. */
  predicate SoftSpace(c: char) {
    IsSpace(c) && c != '\r'
  }

  function SoftTrimLeft(s: string): string {
    if s != "" && SoftSpace(s[0]) then SoftTrimLeft(s[1..]) else s
  }

  function SoftTrimRight(s: string): string {
    if s != "" && SoftSpace(s[|s| - 1]) then SoftTrimRight(s[..|s| - 1]) else s
  }

  function TrimStart(f: Forest): Forest {
    if f.Txt? then ConsText(SoftTrimLeft(f.data), f.next) else f
  }

  function TrimEnd(f: Forest): Forest {
    match f
    case Empty => Empty
    case Txt(d, n) => if n.Empty? then ConsText(SoftTrimRight(d), Empty) else Txt(d, TrimEnd(n))
    case Other(n) => Other(TrimEnd(n))
    case Element(t, a, k, n) => Element(t, a, k, TrimEnd(n))
  }

  /** The tree that the stored note holds. */
  function CleanTree(f: Forest): Forest {
    TrimEnd(TrimStart(Clean(f)))
  }

  lemma {:induction false} SoftTrimLeftSplits(s: string) returns (space: string)
    ensures AllSpace(space) && s == space + SoftTrimLeft(s)
  {
    space := "";
    if s != "" && SoftSpace(s[0]) {
      var rest := SoftTrimLeftSplits(s[1..]);
      space := [s[0]] + rest;
      assert s == [s[0]] + s[1..];
    }
  }

  lemma TrimLeftCons(c: char, s: string)
    requires IsSpace(c)
    ensures TrimLeft([c] + s) == TrimLeft(s)
  {
    assert ([c] + s)[1..] == s;
  }

  /** The first rune of an escaped text is a space only where the text starts with a soft space. */
  lemma EscapedStart(s: string)
    requires s != "" && !SoftSpace(s[0])
    ensures Escape(s) != "" && !IsSpace(Escape(s)[0])
  {
    EscapeRuneStart(s[0]);
    assert Escape(s) == EscapeRune(s[0]) + Escape(s[1..]);
  }

  lemma EscapeRuneStart(c: char)
    requires !SoftSpace(c)
    ensures EscapeRune(c) != "" && !IsSpace(EscapeRune(c)[0])
  {
  }

  lemma {:induction false} TrimLeftOfEscaped(s: string)
    ensures TrimLeft(Escape(s)) == Escape(SoftTrimLeft(s))
  {
    if s != "" {
      if SoftSpace(s[0]) {
        assert Escape(s) == [s[0]] + Escape(s[1..]);
        TrimLeftCons(s[0], Escape(s[1..]));
        TrimLeftOfEscaped(s[1..]);
      } else {
        EscapedStart(s);
      }
    }
  }

  lemma EscapeSnoc(s: string, c: char)
    ensures Escape(s + [c]) == Escape(s) + EscapeRune(c)
  {
    EscapeJoin(s, [c]);
    assert [c][1..] == "" && Escape("") == "";
    assert Escape([c]) == EscapeRune(c) + Escape([c][1..]);
  }

  /** The last rune of an escaped text is a space only where the text ends in a soft space. */
  lemma EscapedEnd(s: string)
    requires s != "" && !SoftSpace(s[|s| - 1])
    ensures Escape(s) != "" && !IsSpace(Escape(s)[|Escape(s)| - 1])
  {
    var init, last := s[..|s| - 1], s[|s| - 1];
    assert s == init + [last];
    EscapeSnoc(init, last);
    EscapeRuneEnd(last);
  }

  lemma EscapeRuneEnd(c: char)
    requires !SoftSpace(c)
    ensures EscapeRune(c) != "" && !IsSpace(EscapeRune(c)[|EscapeRune(c)| - 1])
  {
  }

  lemma {:induction false} SoftTrimRightSplits(s: string) returns (space: string)
    ensures AllSpace(space) && s == SoftTrimRight(s) + space
  {
    space := "";
    if s != "" && SoftSpace(s[|s| - 1]) {
      var rest := SoftTrimRightSplits(s[..|s| - 1]);
      space := rest + [s[|s| - 1]];
      assert s == s[..|s| - 1] + [s[|s| - 1]];
    }
  }

  lemma {:induction false} TrimRightOfEscaped(s: string)
    ensures TrimRight(Escape(s)) == Escape(SoftTrimRight(s))
  {
    if s != "" {
      var init, last := s[..|s| - 1], s[|s| - 1];
      if SoftSpace(last) {
        SnocEscapes(init, last, s);
        TrimRightSnoc(Escape(init), last, Escape(s));
        TrimRightOfEscaped(init);
      } else {
        EscapedEnd(s);
      }
    }
  }

  lemma SnocEscapes(init: string, last: char, s: string)
    requires s == init + [last] && SoftSpace(last)
    ensures Escape(s) == Escape(init) + [last]
  {
    EscapeSnoc(init, last);
  }

  lemma TrimRightSnoc(s: string, c: char, longer: string)
    requires IsSpace(c) && longer == s + [c]
    ensures TrimRight(longer) == TrimRight(s)
  {
    assert longer[..|s|] == s;
  }

  lemma {:induction false} TrimLeftPrefix(s: string, t: string)
    requires TrimLeft(s) != ""
    ensures TrimLeft(s + t) == TrimLeft(s) + t
  {
    if s != "" && IsSpace(s[0]) {
      assert (s + t)[1..] == s[1..] + t;
      TrimLeftPrefix(s[1..], t);
    }
  }

  lemma {:induction false} TrimLeftAll(s: string, t: string)
    requires TrimLeft(s) == ""
    ensures TrimLeft(s + t) == TrimLeft(t)
  {
    if s == "" {
      assert s + t == t;
    } else {
      assert (s + t)[1..] == s[1..] + t;
      TrimLeftAll(s[1..], t);
    }
  }

  lemma TrimStartPrints(f: Forest)
    requires Normal(f)
    ensures TrimLeft(Print(f)) == Print(TrimStart(f))
  {
    match f
    case Empty =>
    case Element(_, _, _, _) => assert Print(f)[0] == '<';
    case Txt(d, n) =>
      TrimLeftOfEscaped(d);
      PrintConsText(SoftTrimLeft(d), n);
      if SoftTrimLeft(d) == "" {
        TrimLeftAll(Escape(d), Print(n));
        TrimStartPrints(n);
      } else {
        EscapeHasNoMarkup(SoftTrimLeft(d));
        TrimLeftPrefix(Escape(d), Print(n));
      }
  }

  /** A printed forest that does not end in text ends in `>`, so nothing is cut from it. */
  lemma {:induction false} TrimEndPrints(f: Forest, before: string)
    requires Normal(f)
    requires before == "" || !IsSpace(before[|before| - 1])
    ensures TrimRight(before + Print(f)) == before + Print(TrimEnd(f))
    decreases f, 1
  {
    match f
    case Empty => assert before + "" == before;
    case Txt(d, n) =>
      if n.Empty? {
        TrimRightOfEscaped(d);
        PrintOne(f);
        PrintOne(TrimEnd(f));
        TrimRightSuffix(before, Escape(d));
      } else {
        TrimEndElement(n, before + Escape(d));
        Regroup(before, Escape(d), Print(n));
        Regroup(before, Escape(d), Print(TrimEnd(n)));
      }
    case Element(t, a, k, n) => TrimEndElement(f, before);
  }

  lemma MarkupEnd(before: string, tag: string, attrs: seq<Attr>, kids: Forest)
    ensures var m := before + (Open(tag, attrs) + Body(tag, kids)); m != "" && m[|m| - 1] == '>'
  {
    if !Void(tag) {
      assert Body(tag, kids)[|Body(tag, kids)| - 1] == '>';
    }
  }

  lemma {:induction false} TrimEndElement(f: Forest, before: string)
    requires Normal(f) && f.Element?
    ensures TrimRight(before + Print(f)) == before + Print(TrimEnd(f))
    decreases f, 0
  {
    var markup := Open(f.tag, f.attrs) + Body(f.tag, f.kids);
    MarkupEnd(before, f.tag, f.attrs, f.kids);
    Regroup(before, markup, Print(f.next));
    Regroup(before, markup, Print(TrimEnd(f.next)));
    TrimEndPrints(f.next, before + markup);
  }

  lemma {:induction false} TrimRightSuffix(s: string, t: string)
    requires s == "" || !IsSpace(s[|s| - 1])
    ensures TrimRight(s + t) == s + TrimRight(t)
  {
    if t == "" {
      assert s + t == s;
    } else if IsSpace(t[|t| - 1]) {
      assert (s + t)[..|s + t| - 1] == s + t[..|t| - 1];
      TrimRightSuffix(s, t[..|t| - 1]);
    }
  }

  lemma {:induction false} TrimEndIsClean(f: Forest)
    requires IsClean(f)
    ensures IsClean(TrimEnd(f))
    ensures TrimEnd(f).Txt? ==> f.Txt?
  {
    match f
    case Empty =>
    case Txt(_, n) => TrimEndIsClean(n);
    case Element(_, _, _, n) => TrimEndIsClean(n);
  }

  // ---- the search text ----

  /** What NoteText's walk writes for a list of nodes. */
  function RawText(f: Forest): string {
    match f
    case Empty => ""
    case Txt(d, n) => d + RawText(n)
    case Other(n) => RawText(n)
    case Element(t, _, k, n) =>
      if t in STRIPPED_SUBTREES then RawText(n)
      else RawText(k) + (if t in SEPARATORS then " " else "") + RawText(n)
  }

  function SearchText(f: Forest): string {
    JoinSpace(Fields(RawText(f)))
  }

  method Walk(out: Builder, node: Forest)
    requires !node.Empty?
    modifies out
    ensures out.text + RawText(node.next) == old(out.text) + RawText(node)
    decreases node.Size(), 0
  {
    match node
    case Txt(data, _) =>
      out.WriteString(data);
    case Other(_) =>
    case Element(tag, _, kids, next) =>
      if tag in STRIPPED_SUBTREES {
        return;
      }
      WalkChildren(out, kids);
      ghost var inner := out.text;
      if tag in SEPARATORS {
        out.WriteString(" ");
      }
      var gap := if tag in SEPARATORS then " " else "";
      assert out.text == inner + gap;
      assert old(out.text) + RawText(kids) + gap + RawText(next) ==
             old(out.text) + (RawText(kids) + gap + RawText(next));
  }

  method WalkChildren(out: Builder, kids: Forest)
    modifies out
    ensures out.text == old(out.text) + RawText(kids)
    decreases kids.Size(), 1
  {
    var child := kids;
    while !child.Empty?
      invariant child.Size() <= kids.Size()
      invariant out.text + RawText(child) == old(out.text) + RawText(kids)
      decreases child.Size()
    {
      Walk(out, child);
      child := child.next;
    }
    assert out.text + "" == out.text;
  }

  /** NoteText, with the parser's outcome as for SanitizeNote. */
  method NoteText(note: string, parsed: Option<Forest>) returns (text: string)
    ensures text == if parsed.Some? then SearchText(parsed.value) else note
  {
    if parsed.None? {
      return note;
    }
    var out := new Builder();
    WalkChildren(out, parsed.value);
    assert "" + RawText(parsed.value) == RawText(parsed.value);
    return JoinSpace(Fields(out.text));
  }

  /** Void elements have no children, as in every tree the HTML parser builds. */
  predicate WellFormed(f: Forest) {
    match f
    case Empty => true
    case Txt(_, n) => WellFormed(n)
    case Other(n) => WellFormed(n)
    case Element(t, _, k, n) => (Void(t) ==> k.Empty?) && WellFormed(k) && WellFormed(n)
  }

  lemma RawTextConsText(d: string, f: Forest)
    ensures RawText(ConsText(d, f)) == d + RawText(f)
  {
    if f.Txt? {
      Regroup(d, f.data, RawText(f.next));
    }
  }

  lemma {:induction false} RawTextJoin(f: Forest, g: Forest)
    ensures RawText(Join(f, g)) == RawText(f) + RawText(g)
  {
    match f
    case Empty => assert "" + RawText(g) == RawText(g);
    case Txt(d, n) =>
      RawTextJoin(n, g);
      RawTextConsText(d, Join(n, g));
      Regroup(d, RawText(n), RawText(g));
    case Other(n) => RawTextJoin(n, g);
    case Element(t, a, k, n) => RawTextJoin(n, g);
  }

  lemma SeparatorIsAllowed(tag: string)
    requires tag in SEPARATORS
    ensures tag in ALLOWED_TAGS
  {
  }

  /** Cleaning does not change what a search sees: unwrapping, stripping and the separator spaces
      commute, because every separator is an allowed tag. */
  lemma {:induction false} RawTextIsInvariant(f: Forest)
    requires WellFormed(f)
    ensures RawText(Clean(f)) == RawText(f)
  {
    if !f.Empty? {
      RawTextIsInvariant(f.next);
      RawTextJoin(CleanNode(f), Clean(f.next));
      if f.Element? {
        RawTextIsInvariant(f.kids);
        if f.tag in SEPARATORS {
          SeparatorIsAllowed(f.tag);
        }
        if f.tag in ALLOWED_TAGS {
          AllowedIsNotStripped(f.tag);
        }
      }
    }
  }

  lemma {:induction false} TrimEndRawText(f: Forest) returns (space: string)
    ensures AllSpace(space) && RawText(f) == RawText(TrimEnd(f)) + space
  {
    match f
    case Empty => space := "";
    case Txt(d, n) =>
      if n.Empty? {
        space := SoftTrimRightSplits(d);
        RawTextConsText(SoftTrimRight(d), Empty);
        Regroup(d, "", "");
        Regroup(SoftTrimRight(d), "", "");
      } else {
        space := TrimEndRawText(n);
        Regroup(d, RawText(TrimEnd(n)), space);
      }
    case Other(n) => space := TrimEndRawText(n);
    case Element(t, a, k, n) =>
      space := TrimEndRawText(n);
      Regroup(RawText(k) + (if t in SEPARATORS then " " else ""), RawText(TrimEnd(n)), space);
  }

  lemma TrimKeepsSearchText(f: Forest)
    ensures SearchText(TrimEnd(TrimStart(f))) == SearchText(f)
  {
    var g := TrimStart(f);
    if f.Txt? {
      var space := SoftTrimLeftSplits(f.data);
      assert RawText(f) == space + RawText(g);
      FieldsSkipLeading(space, RawText(g));
    }
    var after := TrimEndRawText(g);
    FieldsSkipTrailing(RawText(TrimEnd(g)), after, "");
  }

  // ---- the main theorem ----

  /** The stored note parses, strictly, to the cleaned and trimmed tree. */
  lemma {:induction false} SanitizedParses(f: Forest)
    ensures IsClean(CleanTree(f)) && Sanitized(f) == Print(CleanTree(f))
    ensures Parse(Sanitized(f)) == Some(CleanTree(f))
  {
    var c := Clean(f);
    CleanIsClean(f);
    TrimStartPrints(c);
    assert IsClean(TrimStart(c));
    TrimEndPrints(TrimStart(c), "");
    TrimEndIsClean(TrimStart(c));
    var g := CleanTree(f);
    assert "" + Print(TrimStart(c)) == Print(TrimStart(c)) && "" + Print(g) == Print(g);
    PrintThenParse(g, "");
    assert Print(g) + "" == Print(g);
  }

  /** Sanitizing a second time changes nothing, and the search text of the stored note is that of
      what the operator wrote. */
  lemma SanitizeIsIdempotent(f: Forest)
    ensures var stored := Parse(Sanitized(f));
            stored.Some? && Sanitized(stored.value) == Sanitized(f) &&
            (WellFormed(f) ==> SearchText(stored.value) == SearchText(f))
  {
    SanitizedParses(f);
    var g := CleanTree(f);
    CleanKeepsClean(g);
    var before, after := TrimSpaceIsExact(Print(Clean(f)));
    TrimKeepsSearchText(Clean(f));
    if WellFormed(f) {
      RawTextIsInvariant(f);
    }
  }

  // ---- what survives ----

  /** What the note editor can write. */
  predicate Formatting(tag: string) {
    tag == "p" || tag == "br" || tag == "div" || tag == "span" || tag == "strong" || tag == "b" ||
    tag == "em" || tag == "i" || tag == "u" || tag == "s" || tag == "strike" ||
    tag == "h2" || tag == "h3" || tag == "h4" || tag == "ul" || tag == "ol" || tag == "li" ||
    tag == "a" || tag == "code" || tag == "pre" || tag == "blockquote" || tag == "hr"
  }

  /** What takes its content along. */
  predicate Active(tag: string) {
    tag == "script" || tag == "style" || tag == "iframe" || tag == "object" || tag == "embed" ||
    tag == "form" || tag == "input" || tag == "button" || tag == "textarea" || tag == "select" ||
    tag == "link" || tag == "meta" || tag == "svg" || tag == "math" || tag == "template" || tag == "base"
  }

  lemma TagsAreThese(tag: string)
    ensures Formatting(tag) <==> tag in ALLOWED_TAGS
    ensures Active(tag) <==> tag in STRIPPED_SUBTREES
  {
  }

  /** A note as its reader meets it: tags and runes in document order, however the text is split up. */
  datatype Token = Start(tag: string, attrs: seq<Attr>) | End(tag: string) | Rune(c: char)

  function Runes(d: string): seq<Token> {
    seq(|d|, i requires 0 <= i < |d| => Rune(d[i]))
  }

  function Tokens(f: Forest): seq<Token> {
    match f
    case Empty => []
    case Txt(d, n) => Runes(d) + Tokens(n)
    case Other(n) => Tokens(n)
    case Element(t, a, k, n) => [Start(t, a)] + Tokens(k) + [End(t)] + Tokens(n)
  }

  /** The tokens of a note that should be kept: every rune outside active elements, and every formatting
      element outside them, with its attributes cleaned. */
  function Survivors(f: Forest): seq<Token> {
    match f
    case Empty => []
    case Txt(d, n) => Runes(d) + Survivors(n)
    case Other(n) => Survivors(n)
    case Element(t, a, k, n) =>
      if Active(t) then Survivors(n)
      else if !Formatting(t) then Survivors(k) + Survivors(n)
      else if t == "br" || t == "hr" then [Start(t, CleanAttrs(t, a)), End(t)] + Survivors(n)
      else [Start(t, CleanAttrs(t, a))] + Survivors(k) + [End(t)] + Survivors(n)
  }

  lemma JoinTokens(a: seq<Token>, b: seq<Token>, c: seq<Token>)
    ensures a + (b + c) == a + b + c
  {
  }

  lemma TokensConsText(d: string, f: Forest)
    ensures Tokens(ConsText(d, f)) == Runes(d) + Tokens(f)
  {
    if d == "" {
      assert Runes(d) == [] && [] + Tokens(f) == Tokens(f);
    } else if f.Txt? {
      assert Runes(d + f.data) == Runes(d) + Runes(f.data);
      JoinTokens(Runes(d), Runes(f.data), Tokens(f.next));
    }
  }

  lemma {:induction false} TokensJoin(f: Forest, g: Forest)
    ensures Tokens(Join(f, g)) == Tokens(f) + Tokens(g)
  {
    match f
    case Empty => assert [] + Tokens(g) == Tokens(g);
    case Txt(d, n) =>
      TokensJoin(n, g);
      TokensConsText(d, Join(n, g));
      JoinTokens(Runes(d), Tokens(n), Tokens(g));
    case Other(n) => TokensJoin(n, g);
    case Element(t, a, k, n) =>
      TokensJoin(n, g);
      JoinTokens([Start(t, a)] + Tokens(k) + [End(t)], Tokens(n), Tokens(g));
  }

  lemma TokensOfNode(f: Forest)
    requires !f.Empty? && (f.Element? ==> Tokens(Clean(f.kids)) == Survivors(f.kids))
    ensures Tokens(CleanNode(f)) + Survivors(f.next) == Survivors(f)
  {
    match f
    case Txt(d, n) =>
      TokensConsText(d, Empty);
      assert Runes(d) + [] == Runes(d);
    case Other(n) => assert [] + Survivors(n) == Survivors(n);
    case Element(t, a, k, n) =>
      TagsAreThese(t);
      var attrs := CleanAttrs(t, a);
      if Active(t) {
        assert [] + Survivors(n) == Survivors(n);
      } else if Formatting(t) {
        var inner := if t == "br" || t == "hr" then [] else Survivors(k);
        assert [Start(t, attrs)] + inner + [End(t)] + [] == [Start(t, attrs)] + inner + [End(t)];
        assert [Start(t, attrs)] + [] + [End(t)] == [Start(t, attrs), End(t)];
      }
  }

  /** Cleaning keeps, in order and nested as before, exactly what should be kept of every forest. */
  lemma {:induction false} MarkupSurvives(f: Forest)
    ensures Tokens(Clean(f)) == Survivors(f)
  {
    if !f.Empty? {
      if f.Element? {
        MarkupSurvives(f.kids);
      }
      MarkupSurvives(f.next);
      TokensJoin(CleanNode(f), Clean(f.next));
      TokensOfNode(f);
    }
  }

  predicate SpaceRunes(tokens: seq<Token>) {
    forall i :: 0 <= i < |tokens| ==> tokens[i].Rune? && IsSpace(tokens[i].c)
  }

  lemma {:induction false} TrimEndTokens(f: Forest) returns (space: string)
    ensures AllSpace(space) && Tokens(f) == Tokens(TrimEnd(f)) + Runes(space)
  {
    match f
    case Empty => space := "";
    case Txt(d, n) =>
      if n.Empty? {
        space := SoftTrimRightSplits(d);
        TokensConsText(SoftTrimRight(d), Empty);
        assert Runes(d) == Runes(SoftTrimRight(d)) + Runes(space);
        assert Runes(d) + [] == Runes(d);
      } else {
        space := TrimEndTokens(n);
        JoinTokens(Runes(d), Tokens(TrimEnd(n)), Runes(space));
      }
    case Other(n) => space := TrimEndTokens(n);
    case Element(t, a, k, n) =>
      space := TrimEndTokens(n);
      JoinTokens([Start(t, a)] + Tokens(k) + [End(t)], Tokens(TrimEnd(n)), Runes(space));
  }

  lemma TrimStartTokens(f: Forest) returns (space: string)
    ensures AllSpace(space) && Tokens(f) == Runes(space) + Tokens(TrimStart(f))
  {
    space := "";
    if f.Txt? {
      space := SoftTrimLeftSplits(f.data);
      TokensConsText(SoftTrimLeft(f.data), f.next);
      assert Runes(f.data) == Runes(space) + Runes(SoftTrimLeft(f.data));
      JoinTokens(Runes(space), Runes(SoftTrimLeft(f.data)), Tokens(f.next));
    } else {
      assert Runes("") == [] && [] + Tokens(f) == Tokens(f);
    }
  }

  /** The stored note, parsed, holds exactly what should be kept of what the operator wrote, but for white
      space at its two ends. */
  lemma StoredNoteKeepsMarkup(f: Forest) returns (before: seq<Token>, after: seq<Token>)
    ensures SpaceRunes(before) && SpaceRunes(after)
    ensures var stored := Parse(Sanitized(f));
            stored.Some? && before + Tokens(stored.value) + after == Survivors(f)
  {
    SanitizedParses(f);
    MarkupSurvives(f);
    var left := TrimStartTokens(Clean(f));
    var right := TrimEndTokens(TrimStart(Clean(f)));
    before, after := Runes(left), Runes(right);
    JoinTokens(before, Tokens(CleanTree(f)), after);
  }

  // ---- what the tests of the repository ask of every link and every word ----

  lemma OneLink(attrs: seq<Attr>, href: string)
    requires attrs == [Attr("href", href)]
    ensures CleanAttrs("a", attrs) ==
            if Url.SafeUrl(href)
            then [Attr("href", href), Attr("target", "_blank"), Attr("rel", "noopener noreferrer")] else []
  {
    assert attrs[..0] == [] && KeptAttrs("a", attrs[..0]) == [];
    assert Lower("href") == "href";
    assert KeptAttr("a", attrs[0]) == if Url.SafeUrl(href) then attrs else [];
    if Url.SafeUrl(href) {
      assert KeptAttrs("a", attrs) == attrs && attrs[0].key == "href";
    }
  }

  /** An attribute as a browser reads it. */
  function Written(key: string, val: string): string {
    " " + key + "=\"" + val + "\""
  }

  lemma PrintCons(a: Attr, rest: seq<Attr>)
    ensures PrintAttrs([a] + rest) == Written(a.key, Escape(a.val)) + PrintAttrs(rest)
  {
    assert ([a] + rest)[1..] == rest;
    AttrText(a.key, Escape(a.val));
    Regroup(" ", PrintAttr(a), PrintAttrs(rest));
  }

  lemma PrintThree(a: Attr, b: Attr, c: Attr)
    ensures PrintAttrs([a, b, c]) ==
            Written(a.key, Escape(a.val)) + Written(b.key, Escape(b.val)) + Written(c.key, Escape(c.val))
  {
    assert [a, b, c] == [a] + ([b] + ([c] + []));
    PrintCons(a, [b] + ([c] + []));
    PrintCons(b, [c] + []);
    PrintCons(c, []);
    var x, y, z := Written(a.key, Escape(a.val)), Written(b.key, Escape(b.val)), Written(c.key, Escape(c.val));
    assert z + "" == z;
    Regroup(x, y, z);
  }

  lemma {:induction false} PlainEscapes(s: string)
    requires forall i :: 0 <= i < |s| ==> !Special(s[i])
    ensures Escape(s) == s
  {
    if s != "" {
      PlainEscapes(s[1..]);
      assert [s[0]] + s[1..] == s;
    }
  }

  lemma PrintElement(tag: string, attrs: seq<Attr>, text: string)
    requires text != "" && !Void(tag)
    ensures Print(Element(tag, attrs, Txt(text, Empty), Empty)) ==
            "<" + tag + PrintAttrs(attrs) + ">" + Escape(text) + "</" + tag + ">"
  {
    assert Print(Txt(text, Empty)) == Escape(text) + "" == Escape(text);
    OpenPieces("", tag, attrs);
    ElementPieces(tag, PrintAttrs(attrs), Escape(text));
  }

  lemma ElementPieces(tag: string, attrs: string, text: string)
    ensures ("<" + (tag + (attrs + ">"))) + (text + ("</" + tag + ">")) + "" ==
            "<" + tag + attrs + ">" + text + "</" + tag + ">"
  {
  }

  lemma CleanElement(tag: string, attrs: seq<Attr>, text: string)
    requires tag in ALLOWED_TAGS && !Void(tag) && text != ""
    ensures Clean(Element(tag, attrs, Txt(text, Empty), Empty)) ==
            Element(tag, CleanAttrs(tag, attrs), Txt(text, Empty), Empty)
  {
    AllowedIsNotStripped(tag);
    var inner := Txt(text, Empty);
    assert CleanNode(inner) == inner && Join(inner, Empty) == ConsText(text, Join(Empty, Empty)) == inner;
    assert Clean(inner) == inner;
    var node := CleanNode(Element(tag, attrs, inner, Empty));
    assert Join(node, Empty) == node;
  }

  /** The print of a link with that text. */
  function Linked(attrs: string, text: string): string {
    "<" + "a" + attrs + ">" + Escape(text) + "</" + "a" + ">"
  }

  lemma PrintedLink(attrs: seq<Attr>, text: string)
    requires text != ""
    ensures Print(Clean(Element("a", attrs, Txt(text, Empty), Empty))) ==
            Linked(PrintAttrs(CleanAttrs("a", attrs)), text)
  {
    CleanElement("a", attrs, text);
    PrintElement("a", CleanAttrs("a", attrs), text);
  }

  /** A usable link is kept and made safe to open; any other loses its address and keeps its text. */
  lemma LinksAreMadeSafe(href: string, text: string)
    requires text != ""
    ensures Print(Clean(Element("a", [Attr("href", href)], Txt(text, Empty), Empty))) ==
            if Url.SafeUrl(href)
            then Linked(Written("href", Escape(href)) + Written("target", "_blank") +
                        Written("rel", "noopener noreferrer"), text)
            else Linked("", text)
  {
    var attrs := [Attr("href", href)];
    PrintedLink(attrs, text);
    OneLink(attrs, href);
    LinkAttrsArePlain(0);
    LinkAttrsArePlain(1);
    SafePrinted(CleanAttrs("a", attrs), Url.SafeUrl(href), attrs[0], LINK_ATTRS[0], LINK_ATTRS[1]);
  }

  lemma SafePrinted(clean: seq<Attr>, safe: bool, a: Attr, b: Attr, c: Attr)
    requires clean == (if safe then [a, b, c] else []) && Escape(b.val) == b.val && Escape(c.val) == c.val
    ensures PrintAttrs(clean) ==
            if safe then Written(a.key, Escape(a.val)) + Written(b.key, b.val) + Written(c.key, c.val) else ""
  {
    if safe {
      PrintThree(a, b, c);
    }
  }

  lemma {:induction false} LinkAttrsArePlain(i: nat)
    requires i < 2
    ensures Escape(LINK_ATTRS[i].val) == LINK_ATTRS[i].val
  {
    PlainEscapes(LINK_ATTRS[i].val);
  }

  // ---- the words a search sees ----

  lemma OneWord(w: string)
    requires IsWord(w)
    ensures Fields(w) == [w] && JoinSpace([w]) == w
  {
    WordThen(w, "", "");
    assert w + "" == w && "" + w == w;
  }

  lemma TwoWords(a: string, b: string)
    requires IsWord(a) && IsWord(b)
    ensures Fields(a + (" " + b)) == [a, b] && JoinSpace([a, b]) == a + " " + b
  {
    WordThen(a, "", " " + b);
    assert "" + a == a && (" " + b)[1..] == b;
    OneWord(b);
    assert [a] + [b] == [a, b] && [a, b][1..] == [b];
  }

  /** The elements after which a word ends. */
  predicate Block(tag: string) {
    tag == "p" || tag == "br" || tag == "div" || tag == "li" || tag == "h2" || tag == "h3" || tag == "h4" ||
    tag == "pre"
  }

  lemma BlocksAreSeparators(tag: string)
    ensures Block(tag) <==> tag in SEPARATORS
  {
  }

  lemma RawOfTwo(tag: string, attrs: seq<Attr>, a: string, b: string)
    ensures RawText(Element(tag, attrs, Txt(a, Empty), Txt(b, Empty))) ==
            if Active(tag) then b else if Block(tag) then a + (" " + b) else a + b
  {
    TagsAreThese(tag);
    BlocksAreSeparators(tag);
    assert a + "" == a && b + "" == b;
    assert RawText(Empty) == "" && RawText(Txt(a, Empty)) == a && RawText(Txt(b, Empty)) == b;
    Regroup(a, " ", b);
  }

  /** A block's text is a word of its own, an inline element's runs on, and an active element's is not
      searched. */
  lemma BlocksSeparateWords(tag: string, attrs: seq<Attr>, a: string, b: string)
    requires IsWord(a) && IsWord(b)
    ensures SearchText(Element(tag, attrs, Txt(a, Empty), Txt(b, Empty))) ==
            if Active(tag) then b else if Block(tag) then a + " " + b else a + b
  {
    RawOfTwo(tag, attrs, a, b);
    OneWord(b);
    TwoWords(a, b);
    OneWord(a + b);
  }

  /** The search text has its words apart by single spaces and nothing else, and reads as the same words. */
  lemma SearchTextIsPlain(f: Forest)
    ensures Fields(SearchText(f)) == Fields(RawText(f))
    ensures SingleSpaced(SearchText(f))
  {
    FieldsAreWords(RawText(f), "");
    JoinedWords(Fields(RawText(f)));
  }
}
