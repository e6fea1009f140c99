/** The search excerpt: a window of bytes around a match, widened to rune boundaries, over UTF-8 as
    section 4 of RFC 3629 defines it. */
module Excerpt {
  import opened Text

  newtype Byte = b: int | 0 <= b < 256

  type Bytes = seq<Byte>

  const RADIUS: nat := 90

  // ---- section 4 of RFC 3629 ----

  predicate Tail(b: Byte) { 0x80 <= b <= 0xBF }

  /** The length of the character that starts `s`, if one does. */
  function CharLength(s: Bytes): (n: nat)
    ensures n <= 4 && n <= |s|
    ensures n > 0 ==> !Tail(s[0]) && forall i :: 0 < i < n ==> Tail(s[i])
  {
    if s == [] then 0
    else if s[0] <= 0x7F then 1
    else if |s| >= 2 && 0xC2 <= s[0] <= 0xDF && Tail(s[1]) then 2
    else if |s| >= 3 && Tail(s[2]) &&
            ((s[0] == 0xE0 && 0xA0 <= s[1] <= 0xBF) ||
             (0xE1 <= s[0] <= 0xEC && Tail(s[1])) ||
             (s[0] == 0xED && 0x80 <= s[1] <= 0x9F) ||
             (0xEE <= s[0] <= 0xEF && Tail(s[1]))) then 3
    else if |s| >= 4 && Tail(s[2]) && Tail(s[3]) &&
            ((s[0] == 0xF0 && 0x90 <= s[1] <= 0xBF) ||
             (0xF1 <= s[0] <= 0xF3 && Tail(s[1])) ||
             (s[0] == 0xF4 && 0x80 <= s[1] <= 0x8F)) then 4
    else 0
  }

  /** UTF8-octets. */
  predicate Valid(s: Bytes) {
    s == [] || (CharLength(s) > 0 && Valid(s[CharLength(s)..]))
  }

  /** utf8.RuneStart. */
  predicate RuneStart(b: Byte) { !Tail(b) }

  /** Where a text can be cut without splitting a character. */
  predicate Boundary(s: Bytes, i: int) {
    0 <= i <= |s| && (i == |s| || RuneStart(s[i]))
  }

  lemma CharIsPrefixClosed(s: Bytes, t: Bytes)
    requires CharLength(s) > 0 && CharLength(s) <= |t| && t[..CharLength(s)] == s[..CharLength(s)]
    ensures CharLength(t) == CharLength(s)
  {
    var n := CharLength(s);
    assert forall i :: 0 <= i < n ==> t[i] == t[..n][i] == s[..n][i] == s[i];
  }

  lemma StepIn(s: Bytes, n: nat, i: nat)
    requires n <= i <= |s|
    ensures s[n..][i - n..] == s[i..] && s[..i][..n] == s[..n] && s[..i][n..] == s[n..][..i - n]
  {
  }

  lemma BoundaryPast(s: Bytes, n: nat, i: nat)
    requires n == CharLength(s) > 0 && i > 0 && Boundary(s, i)
    ensures n <= i && Boundary(s[n..], i - n)
  {
  }

  lemma FirstAndRest(s: Bytes, n: nat)
    requires n == CharLength(s) > 0 && Valid(s[n..])
    ensures Valid(s)
  {
  }

  lemma {:induction false} TailIsValid(s: Bytes, i: nat)
    requires Valid(s) && Boundary(s, i)
    ensures Valid(s[i..])
  {
    if i > 0 {
      var n := CharLength(s);
      BoundaryPast(s, n, i);
      TailIsValid(s[n..], i - n);
      StepIn(s, n, i);
    } else {
      assert s[0..] == s;
    }
  }

  lemma {:induction false} HeadIsValid(s: Bytes, i: nat)
    requires Valid(s) && Boundary(s, i)
    ensures Valid(s[..i])
  {
    if i > 0 {
      var n := CharLength(s);
      BoundaryPast(s, n, i);
      HeadIsValid(s[n..], i - n);
      StepIn(s, n, i);
      CharIsPrefixClosed(s, s[..i]);
      FirstAndRest(s[..i], n);
    }
  }

  /** A valid text cut at a boundary is two valid texts. */
  lemma {:induction false} CutIsValid(s: Bytes, i: nat)
    requires Valid(s) && Boundary(s, i)
    ensures Valid(s[..i]) && Valid(s[i..])
  {
    HeadIsValid(s, i);
    TailIsValid(s, i);
  }

  lemma {:induction false} JoinIsValid(s: Bytes, t: Bytes)
    requires Valid(s) && Valid(t)
    ensures Valid(s + t)
  {
    if s == [] {
      assert s + t == t;
    } else {
      var n := CharLength(s);
      assert (s + t)[..n] == s[..n] && (s + t)[n..] == s[n..] + t;
      CharIsPrefixClosed(s, s + t);
      JoinIsValid(s[n..], t);
    }
  }

  /** Within a valid text, a boundary lies at most three bytes back. */
  lemma {:induction false} BoundaryBelow(s: Bytes, i: nat) returns (j: nat)
    requires Valid(s) && i <= |s|
    ensures i - 3 <= j <= i && Boundary(s, j)
  {
    var n := CharLength(s);
    if i == 0 || i == |s| {
      j := i;
    } else if i < n {
      j := 0;
    } else {
      var k := BoundaryBelow(s[n..], i - n);
      j := k + n;
    }
  }

  /** And at most three bytes ahead. */
  lemma {:induction false} BoundaryAbove(s: Bytes, i: nat) returns (j: nat)
    requires Valid(s) && i <= |s|
    ensures i <= j <= i + 3 && Boundary(s, j)
  {
    var n := CharLength(s);
    if i == 0 || i == |s| {
      j := i;
    } else if i < n {
      j := n;
      if n < |s| {
        assert s[n] == s[n..][0];
      }
    } else {
      var k := BoundaryAbove(s[n..], i - n);
      j := k + n;
    }
  }

  // ---- excerpt ----

  /** U+2026 in UTF-8. */
  const ELLIPSIS: Bytes := [0xE2, 0x80, 0xA6]

  /** The start of the cut before widening. */
  function From(at: nat): nat {
    if at < RADIUS then 0 else at - RADIUS
  }

  function To(text: Bytes, at: nat, length: nat): nat {
    if at + length + RADIUS > |text| then |text| else at + length + RADIUS
  }

  /** The slice and the ellipses of a cut. */
  function Shown(text: Bytes, start: nat, end: nat): Bytes
    requires start <= end <= |text|
  {
    (if start > 0 then ELLIPSIS else []) + text[start..end] + (if end < |text| then ELLIPSIS else [])
  }

  /** The last boundary at or before `i`, where position 0 always stops. */
  function Back(text: Bytes, i: nat): (j: nat)
    requires i < |text| || i == 0
    ensures j <= i && (j == 0 || RuneStart(text[j]))
    ensures forall k :: j < k <= i ==> Tail(text[k])
  {
    if i > 0 && !RuneStart(text[i]) then Back(text, i - 1) else i
  }

  /** The first boundary at or after `i`. */
  function Forward(text: Bytes, i: nat): (j: nat)
    requires i <= |text|
    ensures i <= j <= |text| && (j == |text| || RuneStart(text[j]))
    ensures forall k :: i <= k < j ==> Tail(text[k])
    decreases |text| - i
  {
    if i < |text| && !RuneStart(text[i]) then Forward(text, i + 1) else i
  }

  /** Where the excerpt of a match is cut. */
  function Cut(text: Bytes, at: nat, length: nat): (r: (nat, nat))
    requires From(at) < |text| || From(at) == 0
    ensures r.0 <= From(at) && To(text, at, length) <= r.1 <= |text|
  {
    (Back(text, From(at)), Forward(text, To(text, at, length)))
  }

  /** excerpt; `None` stands for the index-out-of-range panic. */
  method Excerpt(text: Bytes, at: nat, length: nat) returns (out: Option<Bytes>)
    ensures out.None? <==> at > 90 && at - 90 >= |text|
    ensures out.Some? ==>
              var (start, end) := Cut(text, at, length);
              start <= end && out.value == Shown(text, start, end)
  {
    var start: int := at - RADIUS;
    if start < 0 {
      start := 0;
    }
    if start > 0 && start >= |text| {
      return None;
    }
    start := StepBack(text, start);

    var end := at + length + RADIUS;
    if end > |text| {
      end := |text|;
    }
    end := StepForward(text, end);

    var shown := Marked(text, start, end);
    return Some(shown);
  }

  /** The end of excerpt: the slice, with an ellipsis on each side that was cut. */
  method Marked(text: Bytes, start: nat, end: nat) returns (shown: Bytes)
    requires start <= end <= |text|
    ensures shown == Shown(text, start, end)
  {
    shown := text[start..end];
    if start > 0 {
      shown := ELLIPSIS + shown;
    }
    if end < |text| {
      shown := shown + ELLIPSIS;
    }
  }

  /** The first loop of excerpt. */
  method StepBack(text: Bytes, from: nat) returns (start: nat)
    requires from < |text| || from == 0
    ensures start == Back(text, from)
  {
    start := from;
    while start > 0 && !RuneStart(text[start])
      invariant start <= from && Back(text, start) == Back(text, from)
      decreases start
    {
      start := start - 1;
    }
  }

  /** The second loop of excerpt. */
  method StepForward(text: Bytes, to: nat) returns (end: nat)
    requires to <= |text|
    ensures end == Forward(text, to)
  {
    end := to;
    while end < |text| && !RuneStart(text[end])
      invariant to <= end <= |text| && Forward(text, end) == Forward(text, to)
      decreases |text| - end
    {
      end := end + 1;
    }
  }

  lemma EllipsisIsValid()
    ensures Valid(ELLIPSIS)
  {
    assert CharLength(ELLIPSIS) == 3 && ELLIPSIS[3..] == [];
  }

  lemma SliceIsValid(text: Bytes, start: nat, end: nat)
    requires Valid(text) && start <= end && Boundary(text, start) && Boundary(text, end)
    ensures Valid(text[start..end])
  {
    CutIsValid(text, end);
    assert Boundary(text[..end], start);
    CutIsValid(text[..end], start);
    assert text[..end][start..] == text[start..end];
  }

  lemma ShownIsValid(text: Bytes, start: nat, end: nat)
    requires start <= end <= |text| && Valid(text[start..end])
    ensures Valid(Shown(text, start, end))
  {
    EllipsisIsValid();
    var cut := text[start..end];
    JoinIsValid(ELLIPSIS, cut);
    assert [] + cut == cut;
    var front := (if start > 0 then ELLIPSIS else []) + cut;
    JoinIsValid(front, ELLIPSIS);
    assert front + [] == front;
  }

  /** Both loops stop within three bytes of where they start. */
  lemma LoopsStopSoon(text: Bytes, i: nat)
    requires Valid(text) && i <= |text|
    ensures i < |text| ==> i - 3 <= Back(text, i) && Boundary(text, Back(text, i))
    ensures Forward(text, i) <= i + 3 && Boundary(text, Forward(text, i))
  {
    var b := BoundaryBelow(text, i);
    var a := BoundaryAbove(text, i);
    if text != [] {
      assert CharLength(text) > 0;
    }
  }

  /** Where the cut starts and ends, for a match inside the text. */
  lemma CutBounds(text: Bytes, at: nat, length: nat)
    requires Valid(text) && at + length <= |text|
    ensures From(at) < |text| || From(at) == 0
    ensures var start, end := Back(text, From(at)), Forward(text, To(text, at, length));
            && From(at) - 3 <= start <= From(at) && To(text, at, length) <= end <= To(text, at, length) + 3
            && Boundary(text, start) && Boundary(text, end)
  {
    if From(at) < |text| {
      LoopsStopSoon(text, From(at));
    } else {
      assert text == [] && Back(text, 0) == 0;
    }
    LoopsStopSoon(text, To(text, at, length));
  }

  /** For every valid text and every match inside it, the excerpt exists, both loops stop within three
      bytes, and the cut contains the match with 90 to 93 bytes on either side of it, or all there are. */
  lemma {:induction false} ExcerptHoldsMatch(text: Bytes, at: nat, length: nat)
    requires Valid(text) && at + length <= |text|
    ensures !(at > 90 && at - 90 >= |text|)
    ensures var (start, end) := Cut(text, at, length);
            && From(at) - 3 <= start && end <= To(text, at, length) + 3
            && start <= at && at - start <= 93 && (start == 0 || at - start >= 90)
            && at + length <= end && end - (at + length) <= 93 && (end == |text| || end - (at + length) >= 90)
  {
    CutBounds(text, at, length);
  }

  /** The cut and the whole excerpt are valid UTF-8. */
  lemma {:induction false} ExcerptIsValid(text: Bytes, at: nat, length: nat)
    requires Valid(text) && at + length <= |text|
    ensures var (start, end) := Cut(text, at, length);
            start <= end && Valid(text[start..end]) && Valid(Shown(text, start, end))
  {
    CutBounds(text, at, length);
    var (start, end) := Cut(text, at, length);
    SliceIsValid(text, start, end);
    ShownIsValid(text, start, end);
  }

  /** An ellipsis stands exactly on the sides where text was left out. */
  lemma EllipsesMarkCuts(text: Bytes, start: nat, end: nat)
    requires start <= end <= |text|
    ensures var shown, cut := Shown(text, start, end), text[start..end];
            var left, right := if start > 0 then 3 else 0, if end < |text| then 3 else 0;
            && |shown| == left + |cut| + right && shown[left..left + |cut|] == cut
            && (text[..start] != [] ==> shown[..3] == ELLIPSIS)
            && (text[end..] != [] ==> shown[|shown| - 3..] == ELLIPSIS)
  {
  }

  // ---- the caller's index ----

  predicate OneChar(c: Bytes) {
    c != [] && CharLength(c) == |c|
  }

  /** Every character of the text has a lower case of one character, as Go's unicode.ToLower gives. */
  predicate MapsChars(text: Bytes, lower: Bytes -> Bytes)
    requires Valid(text)
  {
    text == [] || (OneChar(lower(text[..CharLength(text)])) && MapsChars(text[CharLength(text)..], lower))
  }

  /** The text with every character replaced by its lower case, as handleSearchNotes searches it. */
  function Lowered(text: Bytes, lower: Bytes -> Bytes): Bytes
    requires Valid(text)
  {
    if text == [] then [] else lower(text[..CharLength(text)]) + Lowered(text[CharLength(text)..], lower)
  }

  /** Every character is as long as its lower case. */
  predicate KeepsLength(text: Bytes, lower: Bytes -> Bytes)
    requires Valid(text)
  {
    text == [] ||
    (var n := CharLength(text); |lower(text[..n])| == n && KeepsLength(text[n..], lower))
  }

  lemma CharThen(c: Bytes, rest: Bytes)
    requires OneChar(c)
    ensures CharLength(c + rest) == |c| && (c + rest)[..|c|] == c && (c + rest)[|c|..] == rest
  {
    assert (c + rest)[..|c|] == c[..|c|];
    CharIsPrefixClosed(c, c + rest);
  }

  lemma {:induction false} LoweredIsValid(text: Bytes, lower: Bytes -> Bytes)
    requires Valid(text) && MapsChars(text, lower)
    ensures Valid(Lowered(text, lower)) && (text != [] ==> Lowered(text, lower) != [])
  {
    if text != [] {
      var n := CharLength(text);
      LoweredIsValid(text[n..], lower);
      CharThen(lower(text[..n]), Lowered(text[n..], lower));
    }
  }

  /** A cut of the text is a cut of its lower case. */
  lemma {:induction false} LoweredCuts(text: Bytes, lower: Bytes -> Bytes, i: nat)
    requires Valid(text) && MapsChars(text, lower) && Boundary(text, i)
    ensures Valid(text[..i]) && Valid(text[i..]) && MapsChars(text[..i], lower) && MapsChars(text[i..], lower)
    ensures Lowered(text, lower) == Lowered(text[..i], lower) + Lowered(text[i..], lower)
  {
    CutIsValid(text, i);
    if i == 0 {
      assert text[0..] == text && [] + Lowered(text, lower) == Lowered(text, lower);
    } else {
      var n := CharLength(text);
      assert i >= n && Boundary(text[n..], i - n);
      LoweredCuts(text[n..], lower, i - n);
      StepIn(text, n, i);
      CharIsPrefixClosed(text, text[..i]);
      Regroup(lower(text[..n]), Lowered(text[n..][..i - n], lower), Lowered(text[i..], lower));
    }
  }

  lemma Regroup(a: Bytes, b: Bytes, c: Bytes)
    ensures a + (b + c) == a + b + c
  {
  }

  lemma SplitAt(a: Bytes, b: Bytes)
    ensures (a + b)[..|a|] == a && (a + b)[|a|..] == b
  {
  }

  /** How long the lower case of the first `p` bytes is. */
  function LoweredTo(text: Bytes, lower: Bytes -> Bytes, p: nat): nat
    requires Valid(text) && Boundary(text, p)
  {
    CutIsValid(text, p);
    |Lowered(text[..p], lower)|
  }

  lemma HalvesLowered(text: Bytes, lower: Bytes -> Bytes, p: nat, at: nat)
    requires Valid(text) && MapsChars(text, lower) && Boundary(text, p) && at == LoweredTo(text, lower, p)
    ensures Valid(text[..p]) && Valid(text[p..]) && MapsChars(text[p..], lower)
    ensures at <= |Lowered(text, lower)|
    ensures Lowered(text, lower)[..at] == Lowered(text[..p], lower)
    ensures Lowered(text, lower)[at..] == Lowered(text[p..], lower)
  {
    LoweredCuts(text, lower, p);
    SplitAt(Lowered(text[..p], lower), Lowered(text[p..], lower));
  }

  lemma {:induction false} LoweredToStep(text: Bytes, lower: Bytes -> Bytes, q: nat, p: nat)
    requires Valid(text) && text != [] && p == CharLength(text) + q && Boundary(text[CharLength(text)..], q)
    ensures Boundary(text, p)
    ensures LoweredTo(text, lower, p) ==
            |lower(text[..CharLength(text)])| + LoweredTo(text[CharLength(text)..], lower, q)
  {
    var n := CharLength(text);
    assert Boundary(text, p);
    CutIsValid(text, p);
    CutIsValid(text[n..], q);
    StepIn(text, n, p);
    CharIsPrefixClosed(text, text[..p]);
  }

  lemma InsideFirstChar(c: Bytes, rest: Bytes, at: nat)
    requires OneChar(c) && 0 < at && Boundary(c + rest, at)
    ensures at >= |c|
  {
    assert forall k :: 0 < k < |c| ==> Tail((c + rest)[k]);
  }

  /** Where a character of the lower case starts, one of the text does. */
  lemma {:induction false} Unlowered(text: Bytes, lower: Bytes -> Bytes, at: nat) returns (p: nat)
    requires Valid(text) && MapsChars(text, lower) && Boundary(Lowered(text, lower), at)
    ensures Boundary(text, p) && LoweredTo(text, lower, p) == at
  {
    if at == 0 {
      p := 0;
      FirstStarts(text);
    } else {
      var n := CharLength(text);
      var c, rest := lower(text[..n]), Lowered(text[n..], lower);
      InsideFirstChar(c, rest, at);
      assert Boundary(rest, at - |c|) by {
        assert at < |c + rest| ==> (c + rest)[at] == rest[at - |c|];
      }
      var q := Unlowered(text[n..], lower, at - |c|);
      p := n + q;
      LoweredToStep(text, lower, q, p);
    }
  }

  /** A valid text in front of another ends where a character of the longer one ends. */
  lemma {:induction false} PrefixEnds(s: Bytes, t: Bytes)
    requires Valid(s) && Valid(t) && s <= t
    ensures Boundary(t, |s|)
  {
    if s == [] {
      FirstStarts(t);
    } else {
      var n := CharLength(s);
      assert t[..n] == s[..n];
      CharIsPrefixClosed(s, t);
      PrefixEnds(s[n..], t[n..]);
    }
  }

  lemma FirstStarts(text: Bytes)
    requires Valid(text)
    ensures Boundary(text, 0)
  {
  }

  /** A hit at the start is the lower case of the text up to some character. */
  lemma HeadLowered(text: Bytes, hit: Bytes, lower: Bytes -> Bytes) returns (m: nat)
    requires Valid(text) && MapsChars(text, lower) && Valid(hit) && hit <= Lowered(text, lower)
    ensures Boundary(text, m) && Valid(text[..m]) && Lowered(text[..m], lower) == hit
  {
    LoweredIsValid(text, lower);
    PrefixEnds(hit, Lowered(text, lower));
    m := Unlowered(text, lower, |hit|);
    HalvesLowered(text, lower, m, |hit|);
  }

  /** `p` and `end` delimit the characters of the text that the hit at `at` is the lower case of. */
  ghost predicate Matches(text: Bytes, lower: Bytes -> Bytes, query: Bytes, at: nat, p: nat, end: nat) {
    && Valid(text) && Valid(query) && p < end <= |text| && Boundary(text, p) && Boundary(text, end)
    && at == LoweredTo(text, lower, p)
    && Valid(text[p..end]) && Lowered(text[p..end], lower) == Lowered(query, lower)
  }

  lemma SliceOf(text: Bytes, at: nat, m: nat, end: nat)
    requires at <= end <= |text| && m == end - at
    ensures text[at..][..m] == text[at..end]
    ensures Boundary(text[at..], m) ==> Boundary(text, end)
  {
  }

  lemma StartOfHit(text: Bytes, lower: Bytes -> Bytes, hit: Bytes, at: nat) returns (p: nat)
    requires Valid(text) && MapsChars(text, lower) && Valid(hit) && hit != []
    requires at <= |Lowered(text, lower)| && hit <= Lowered(text, lower)[at..]
    ensures Boundary(text, p) && LoweredTo(text, lower, p) == at
  {
    FirstStarts(hit);
    assert Lowered(text, lower)[at..][0] == hit[0];
    p := Unlowered(text, lower, at);
  }

  /** Every hit of the search is the lower case of whole characters of the text. */
  lemma HitIsMatch(text: Bytes, query: Bytes, lower: Bytes -> Bytes, at: nat) returns (p: nat, end: nat)
    requires Valid(text) && Valid(query) && MapsChars(text, lower) && MapsChars(query, lower) && query != []
    requires at <= |Lowered(text, lower)| && Lowered(query, lower) <= Lowered(text, lower)[at..]
    ensures Matches(text, lower, query, at, p, end)
  {
    var hit := Lowered(query, lower);
    LoweredIsValid(query, lower);
    p := StartOfHit(text, lower, hit, at);
    HalvesLowered(text, lower, p, at);
    var m := HeadLowered(text[p..], hit, lower);
    end := p + m;
    SliceOf(text, p, m, end);
  }

  // ---- when the excerpt shows the match ----

  /** There is an excerpt, and its cut contains the bytes from `p` to `end`. */
  predicate Shows(text: Bytes, at: nat, length: nat, p: nat, end: nat) {
    !(at > RADIUS && at - RADIUS >= |text|) &&
    (var (start, stop) := Cut(text, at, length); start <= p && end <= stop)
  }

  /** The cut asked for starts no later than the first character of the match ends, and ends after its last
      character starts. */
  predicate Reaches(text: Bytes, at: nat, length: nat, p: nat, end: nat)
    requires p < end <= |text|
  {
    From(at) < p + CharLength(text[p..]) && Back(text, end - 1) < To(text, at, length)
  }

  /** The bytes between a character's first and the next character are tails. */
  lemma CharSpans(text: Bytes, p: nat, n: nat)
    requires Valid(text) && p < |text| && Boundary(text, p) && n == CharLength(text[p..])
    ensures n > 0 && p + n <= |text| && Boundary(text, p + n) && RuneStart(text[p])
    ensures forall k :: p < k < p + n ==> Tail(text[k])
  {
    CutIsValid(text, p);
    var rest := text[p..];
    assert forall k :: 0 <= k < |rest| ==> rest[k] == text[p + k];
    FirstStarts(rest[n..]);
    assert n < |rest| ==> rest[n..][0] == rest[n];
  }

  lemma StartShown(text: Bytes, p: nat, from: nat)
    requires Valid(text) && p < |text| && Boundary(text, p) && from < |text|
    ensures Back(text, from) <= p <==> from < p + CharLength(text[p..])
  {
    var n := CharLength(text[p..]);
    CharSpans(text, p, n);
    BackAgainst(text, p, p + n, from);
  }

  lemma BackAgainst(text: Bytes, p: nat, next: nat, from: nat)
    requires p < next <= |text| && from < |text| && Boundary(text, next) && RuneStart(text[p])
    requires forall k :: p < k < next ==> Tail(text[k])
    ensures Back(text, from) <= p <==> from < next
  {
  }

  lemma EndShown(text: Bytes, end: nat, to: nat)
    requires Valid(text) && 0 < end <= |text| && to <= |text|
    ensures end <= Forward(text, to) <==> Back(text, end - 1) < to
  {
    FirstStarts(text);
    var last, stop := Back(text, end - 1), Forward(text, to);
  }

  /** Whatever the index and the length, the excerpt shows a match in the text if and only if its cut reaches
      the match's first and last characters. */
  lemma CutShowsExactly(text: Bytes, at: nat, length: nat, p: nat, end: nat)
    requires Valid(text) && p < end <= |text| && Boundary(text, p)
    ensures Shows(text, at, length, p, end) <==> Reaches(text, at, length, p, end)
  {
    EndShown(text, end, To(text, at, length));
    if From(at) < |text| {
      StartShown(text, p, From(at));
    }
  }

  /** The search as a whole: every hit stands for a match in the text, and the excerpt shows that match if
      and only if the lower case of what precedes it, `at` bytes long, does not run so far ahead or behind
      that the cut made there misses the match's first or last character. */
  lemma SearchShowsExactly(text: Bytes, query: Bytes, lower: Bytes -> Bytes, at: nat) returns (p: nat, end: nat)
    requires Valid(text) && Valid(query) && MapsChars(text, lower) && MapsChars(query, lower) && query != []
    requires at <= |Lowered(text, lower)| && Lowered(query, lower) <= Lowered(text, lower)[at..]
    ensures Matches(text, lower, query, at, p, end)
    ensures Shows(text, at, |query|, p, end) <==> Reaches(text, at, |query|, p, end)
  {
    p, end := HitIsMatch(text, query, lower, at);
    CutShowsExactly(text, at, |query|, p, end);
  }

  lemma {:induction false} KeptLength(text: Bytes, lower: Bytes -> Bytes)
    requires Valid(text) && KeepsLength(text, lower)
    ensures |Lowered(text, lower)| == |text|
  {
    if text != [] {
      KeptLength(text[CharLength(text)..], lower);
    }
  }

  lemma {:induction false} KeptTail(text: Bytes, lower: Bytes -> Bytes, i: nat)
    requires Valid(text) && KeepsLength(text, lower) && Boundary(text, i)
    ensures Valid(text[i..]) && KeepsLength(text[i..], lower)
  {
    CutIsValid(text, i);
    if i > 0 {
      var n := CharLength(text);
      BoundaryPast(text, n, i);
      KeptTail(text[n..], lower, i - n);
      StepIn(text, n, i);
    } else {
      assert text[0..] == text;
    }
  }

  lemma {:induction false} KeptTo(text: Bytes, lower: Bytes -> Bytes, i: nat)
    requires Valid(text) && KeepsLength(text, lower) && Boundary(text, i)
    ensures LoweredTo(text, lower, i) == i
  {
    if i > 0 {
      var n := CharLength(text);
      BoundaryPast(text, n, i);
      KeptTo(text[n..], lower, i - n);
      LoweredToStep(text, lower, i - n, i);
    }
  }

  lemma KeptPiece(text: Bytes, lower: Bytes -> Bytes, p: nat, m: nat, end: nat)
    requires p <= end <= |text| && m == end - p && Valid(text[p..]) && KeepsLength(text[p..], lower)
    requires Boundary(text[p..], m) && Valid(text[p..end])
    ensures |Lowered(text[p..end], lower)| == m
  {
    KeptTo(text[p..], lower, m);
    SliceLength(text, lower, p, m, end);
  }

  lemma BoundaryWithin(text: Bytes, p: nat, m: nat, end: nat)
    requires p <= end <= |text| && m == end - p && Boundary(text, end)
    ensures Boundary(text[p..], m)
  {
  }

  lemma {:induction false} MatchIsKept(text: Bytes, query: Bytes, lower: Bytes -> Bytes, at: nat, p: nat, end: nat)
    requires Matches(text, lower, query, at, p, end) && KeepsLength(text, lower) && KeepsLength(query, lower)
    ensures p == at && end == at + |query|
  {
    var m := end - p;
    KeptTo(text, lower, p);
    KeptTail(text, lower, p);
    BoundaryWithin(text, p, m, end);
    KeptPiece(text, lower, p, m, end);
    KeptLength(query, lower);
  }

  lemma SliceLength(text: Bytes, lower: Bytes -> Bytes, p: nat, m: nat, end: nat)
    requires p <= end <= |text| && m == end - p && Valid(text[p..]) && Boundary(text[p..], m) && Valid(text[p..end])
    ensures LoweredTo(text[p..], lower, m) == |Lowered(text[p..end], lower)|
  {
    CutIsValid(text[p..], m);
    assert text[p..][..m] == text[p..end];
  }

  lemma KeptMatchIsShown(text: Bytes, at: nat, length: nat, end: nat)
    requires Valid(text) && at < end <= |text| && Boundary(text, at) && end <= at + length
    ensures Shows(text, at, length, at, end)
  {
    CutReachesHit(text, at, length, end);
    CutShowsExactly(text, at, length, at, end);
  }

  lemma CutReachesHit(text: Bytes, at: nat, length: nat, end: nat)
    requires Valid(text) && at < end <= |text| && Boundary(text, at) && end <= at + length
    ensures Reaches(text, at, length, at, end)
  {
    CutIsValid(text, at);
  }

  /** In particular when text and query keep their lengths in lower case: the match lies at the hit. */
  lemma {:induction false} SearchShowsMatch(text: Bytes, query: Bytes, lower: Bytes -> Bytes, at: nat, end: nat)
    requires Valid(text) && Valid(query) && MapsChars(text, lower) && MapsChars(query, lower) && query != []
    requires KeepsLength(text, lower) && KeepsLength(query, lower)
    requires at <= |Lowered(text, lower)| && Lowered(query, lower) <= Lowered(text, lower)[at..]
    requires end == at + |query|
    ensures Matches(text, lower, query, at, at, end) && Shows(text, at, |query|, at, end)
  {
    var p, stop := HitIsMatch(text, query, lower, at);
    MatchIsKept(text, query, lower, at, p, stop);
    assert p == at && stop == end;
    KeptMatchIsShown(text, at, |query|, end);
  }

  // ---- texts on which it goes wrong ----

  /** The lower case of U+023A is a byte longer, that of the Kelvin sign U+212A two bytes shorter; the
      characters y and x are lower case already. */
  function LowerSome(c: Bytes): Bytes {
    if c == [0xC8, 0xBA] then [0xE2, 0xB1, 0xA5]
    else if c == [0xE2, 0x84, 0xAA] then [0x6B]
    else c
  }

  const X: Bytes := [0x78]

  /** `n` times the character `c`, then `tail`. */
  function Repeat(c: Bytes, n: nat, tail: Bytes): Bytes {
    if n == 0 then tail else c + Repeat(c, n - 1, tail)
  }

  lemma {:induction false} RepeatLowers(c: Bytes, n: nat, tail: Bytes, lower: Bytes -> Bytes)
    requires OneChar(c) && Valid(tail)
    ensures Valid(Repeat(c, n, tail))
    ensures Lowered(Repeat(c, n, tail), lower) == Repeat(lower(c), n, Lowered(tail, lower))
  {
    if n > 0 {
      RepeatLowers(c, n - 1, tail, lower);
      CharThen(c, Repeat(c, n - 1, tail));
    }
  }

  lemma {:induction false} RepeatBytes(c: Bytes, n: nat, tail: Bytes, before: nat)
    requires before == n * |c|
    ensures |Repeat(c, n, tail)| == before + |tail| && Repeat(c, n, tail)[before..] == tail
    ensures forall i :: 0 <= i < before ==> Repeat(c, n, tail)[i] in c
  {
    if n > 0 {
      assert before - |c| == (n - 1) * |c|;
      RepeatBytes(c, n - 1, tail, before - |c|);
    }
  }

  lemma OneByteChar(tail: Bytes)
    requires tail == X
    ensures Valid(tail) && Lowered(tail, LowerSome) == tail && OneChar(tail)
  {
    assert tail[1..] == [] && tail[..1] == tail;
  }

  /** A text of `n` characters `c` and then `tail`, which starts with its only x: the search for x hits at
      `n * |LowerSome(c)|`. */
  lemma RepeatThenX(c: Bytes, n: nat, tail: Bytes, p: nat, at: nat)
    requires OneChar(c) && Valid(tail) && tail != [] && tail[0] == 0x78 && Lowered(tail, LowerSome) == tail
    requires p == n * |c| && at == n * |LowerSome(c)| && 0x78 !in c && 0x78 !in LowerSome(c)
    ensures var text := Repeat(c, n, tail);
            && Valid(text) && |text| == p + |tail| && text[p..] == tail && FirstX(text, p)
            && FirstX(Lowered(text, LowerSome), at)
  {
    RepeatLowers(c, n, tail, LowerSome);
    RepeatBytes(c, n, tail, p);
    RepeatBytes(LowerSome(c), n, tail, at);
    assert Repeat(c, n, tail)[p..][0] == 0x78;
    assert Repeat(LowerSome(c), n, tail)[at..][0] == 0x78;
  }

  /** The first x. */
  predicate FirstX(text: Bytes, i: nat) {
    i < |text| && text[i] == 0x78 && forall k :: 0 <= k < i ==> text[k] != 0x78
  }

  /** Searching a hundred times U+023A and an x, 201 bytes, the search hits at 300 and the excerpt indexes
      past the end. */
  lemma SearchIndexCanOverrun() returns (text: Bytes)
    ensures Valid(text) && |text| == 201 && FirstX(text, 200) && FirstX(Lowered(text, LowerSome), 300)
    ensures 300 > RADIUS && 300 - RADIUS >= |text|
  {
    OneByteChar(X);
    var n: nat := 100;
    RepeatThenX([0xC8, 0xBA], n, X, 200, 300);
    text := Repeat([0xC8, 0xBA], n, X);
  }

  lemma {:induction false} PadLowers(n: nat)
    ensures Valid(Repeat([0x79], n, [])) && |Repeat([0x79], n, [])| == n
    ensures Lowered(Repeat([0x79], n, []), LowerSome) == Repeat([0x79], n, [])
  {
    RepeatLowers([0x79], n, [], LowerSome);
    RepeatBytes([0x79], n, [], n);
  }

  lemma XThenPadLowers(pad: Bytes)
    requires Valid(pad) && Lowered(pad, LowerSome) == pad
    ensures Valid(X + pad) && Lowered(X + pad, LowerSome) == X + pad && CharLength(X + pad) == 1
  {
    OneByteChar(X);
    CharThen(X, pad);
  }

  lemma StartsTooLate(text: Bytes, tail: Bytes)
    requires Valid(text) && FirstX(text, 200) && |text| == 301 && text[200..] == tail && CharLength(tail) == 1
    ensures !Reaches(text, 300, 1, 200, 201) && !Shows(text, 300, 1, 200, 201)
  {
    CutShowsExactly(text, 300, 1, 200, 201);
  }

  /** Short of overrunning, the excerpt can begin after the match: with a hundred y's behind that text, the
      x is still at 200, the search hits at 300, and the cut starts at 210. */
  lemma SearchCutCanMissMatch() returns (text: Bytes)
    ensures Valid(text) && |text| == 301 && FirstX(text, 200) && FirstX(Lowered(text, LowerSome), 300)
    ensures !Reaches(text, 300, 1, 200, 201) && !Shows(text, 300, 1, 200, 201)
  {
    var n: nat := 100;
    var pad := Repeat([0x79], n, []);
    PadLowers(n);
    XThenPadLowers(pad);
    RepeatThenX([0xC8, 0xBA], n, X + pad, 200, 300);
    text := Repeat([0xC8, 0xBA], n, X + pad);
    StartsTooLate(text, X + pad);
  }

  /** And it can end before the match: in a hundred Kelvin signs and an x, the x is at 300 and the search hits
      at 100. */
  lemma SearchCutCanStopShort() returns (text: Bytes)
    ensures Valid(text) && |text| == 301 && FirstX(text, 300) && FirstX(Lowered(text, LowerSome), 100)
    ensures !Reaches(text, 100, 1, 300, 301) && !Shows(text, 100, 1, 300, 301)
  {
    OneByteChar(X);
    var n: nat := 100;
    RepeatThenX([0xE2, 0x84, 0xAA], n, X, 300, 100);
    text := Repeat([0xE2, 0x84, 0xAA], n, X);
    CutShowsExactly(text, 100, 1, 300, 301);
  }
}
