/** The string operations of Go's `strings` package that the hub relies on, over
    sequences of Unicode scalar values. */
module Text {

  datatype Option<+T> = None | Some(value: T)

  /** `unicode.IsSpace`: the White_Space property. */
  predicate IsSpace(c: char) {
    '\t' <= c <= '\r' || c == ' ' || c == '\U{85}' || c == '\U{A0}' || c == '\U{1680}' ||
    '\U{2000}' <= c <= '\U{200A}' || c == '\U{2028}' || c == '\U{2029}' || c == '\U{202F}' ||
    c == '\U{205F}' || c == '\U{3000}'
  }

  predicate AllSpace(s: string) {
    forall i :: 0 <= i < |s| ==> IsSpace(s[i])
  }

  /** `unicode.ToLower` restricted to the runes whose lower case is ASCII. Besides A-Z these are the
      dotted capital I and the Kelvin sign; every other rune is only ever compared with ASCII. */
  function LowerRune(c: char): char {
    if 'A' <= c <= 'Z' then c - 'A' + 'a'
    else if c == '\U{130}' then 'i'
    else if c == '\U{212A}' then 'k'
    else c
  }

  function Lower(s: string): (l: string)
    ensures |l| == |s|
    ensures forall i :: 0 <= i < |s| ==> l[i] == LowerRune(s[i])
  {
    if s == "" then "" else [LowerRune(s[0])] + Lower(s[1..])
  }

  // ---- strings.TrimSpace ----

  function TrimLeft(s: string): string {
    if s != "" && IsSpace(s[0]) then TrimLeft(s[1..]) else s
  }

  function TrimRight(s: string): string {
    if s != "" && IsSpace(s[|s| - 1]) then TrimRight(s[..|s| - 1]) else s
  }

  function TrimSpace(s: string): string {
    TrimRight(TrimLeft(s))
  }

  predicate Trimmed(s: string) {
    s == "" || (!IsSpace(s[0]) && !IsSpace(s[|s| - 1]))
  }

  lemma {:induction false} TrimLeftSplits(s: string) returns (space: string)
    ensures AllSpace(space) && s == space + TrimLeft(s)
    ensures TrimLeft(s) == "" || !IsSpace(TrimLeft(s)[0])
  {
    if s != "" && IsSpace(s[0]) {
      var rest := TrimLeftSplits(s[1..]);
      space := [s[0]] + rest;
      assert s == [s[0]] + s[1..];
    } else {
      space := "";
    }
  }

  lemma {:induction false} TrimRightSplits(s: string) returns (space: string)
    ensures AllSpace(space) && s == TrimRight(s) + space
    ensures TrimRight(s) == "" || !IsSpace(TrimRight(s)[|TrimRight(s)| - 1])
  {
    if s != "" && IsSpace(s[|s| - 1]) {
      var rest := TrimRightSplits(s[..|s| - 1]);
      space := rest + [s[|s| - 1]];
      assert s == s[..|s| - 1] + [s[|s| - 1]];
    } else {
      space := "";
    }
  }

  /** TrimSpace cuts white space off both ends, stops at the first other rune, and a second trim
      finds nothing left to cut. */
  lemma TrimSpaceIsExact(s: string) returns (before: string, after: string)
    ensures AllSpace(before) && AllSpace(after) && s == before + TrimSpace(s) + after
    ensures Trimmed(TrimSpace(s)) && TrimSpace(TrimSpace(s)) == TrimSpace(s)
  {
    before := TrimLeftSplits(s);
    after := TrimRightSplits(TrimLeft(s));
    assert TrimSpace(s) <= TrimLeft(s);
  }

  // ---- strings.Fields and strings.Join ----

  function Word(w: string): seq<string> {
    if w == "" then [] else [w]
  }

  function FieldsFrom(s: string, word: string): seq<string> {
    if s == "" then Word(word)
    else if IsSpace(s[0]) then Word(word) + FieldsFrom(s[1..], "")
    else FieldsFrom(s[1..], word + [s[0]])
  }

  function Fields(s: string): seq<string> {
    FieldsFrom(s, "")
  }

  function JoinSpace(words: seq<string>): string {
    if |words| == 0 then "" else if |words| == 1 then words[0]
    else words[0] + " " + JoinSpace(words[1..])
  }

  lemma {:induction false} FieldsSkipLeading(space: string, s: string)
    requires AllSpace(space)
    ensures Fields(space + s) == Fields(s)
  {
    if space == "" {
      assert space + s == s;
    } else {
      assert (space + s)[1..] == space[1..] + s;
      FieldsSkipLeading(space[1..], s);
    }
  }

  lemma {:induction false} FieldsSkipTrailing(s: string, space: string, word: string)
    requires AllSpace(space)
    ensures FieldsFrom(s + space, word) == FieldsFrom(s, word)
    decreases |s|, |space|
  {
    if s != "" {
      assert (s + space)[1..] == s[1..] + space;
      FieldsSkipTrailing(s[1..], space, if IsSpace(s[0]) then "" else word + [s[0]]);
    } else if space != "" {
      assert s + space == space && space[1..] == "" + space[1..];
      FieldsSkipTrailing("", space[1..], "");
    } else {
      assert s + space == s;
    }
  }

  predicate AllWords(words: seq<string>) {
    forall i :: 0 <= i < |words| ==> IsWord(words[i])
  }

  /** A run of runes without white space. */
  predicate IsWord(w: string) {
    w != "" && forall i :: 0 <= i < |w| ==> !IsSpace(w[i])
  }

  lemma {:induction false} WordThen(word: string, taken: string, rest: string)
    requires forall i :: 0 <= i < |word| ==> !IsSpace(word[i])
    ensures FieldsFrom(word + rest, taken) == FieldsFrom(rest, taken + word)
  {
    if word == "" {
      assert word + rest == rest && taken + word == taken;
    } else {
      assert (word + rest)[1..] == word[1..] + rest;
      WordThen(word[1..], taken + [word[0]], rest);
      assert taken + [word[0]] + word[1..] == taken + word;
    }
  }

  lemma {:induction false} FieldsAreWords(s: string, taken: string)
    requires taken == "" || IsWord(taken)
    ensures AllWords(FieldsFrom(s, taken))
  {
    if s != "" {
      FieldsAreWords(s[1..], if IsSpace(s[0]) then "" else taken + [s[0]]);
    }
  }

  /** Single spaces, none at the ends and no other white space. */
  predicate SingleSpaced(s: string) {
    Trimmed(s) &&
    forall i :: 0 <= i < |s| && IsSpace(s[i]) ==> s[i] == ' ' && (i + 1 < |s| ==> !IsSpace(s[i + 1]))
  }

  lemma WordAndMore(w: string, rest: string)
    requires IsWord(w) && SingleSpaced(rest) && rest != ""
    ensures SingleSpaced(w + " " + rest)
  {
    var s := w + " " + rest;
    forall i | 0 <= i < |s| && IsSpace(s[i])
      ensures s[i] == ' ' && (i + 1 < |s| ==> !IsSpace(s[i + 1]))
    {
      if i > |w| {
        assert s[i] == rest[i - |w| - 1];
      }
    }
  }

  lemma WordIsField(w: string, rest: string)
    requires IsWord(w)
    ensures Fields(w + (" " + rest)) == [w] + Fields(rest) && Fields(w) == [w]
  {
    WordThen(w, "", " " + rest);
    WordThen(w, "", "");
    assert "" + w == w && w + "" == w && (" " + rest)[1..] == rest;
  }

  /** Joining words and splitting them again gives the words back. */
  lemma {:induction false} JoinedWords(words: seq<string>)
    requires AllWords(words)
    ensures Fields(JoinSpace(words)) == words && SingleSpaced(JoinSpace(words))
    ensures words != [] ==> JoinSpace(words) != ""
  {
    if |words| == 1 {
      WordIsField(words[0], "");
    } else if |words| > 1 {
      var rest := JoinSpace(words[1..]);
      JoinedWords(words[1..]);
      WordAndMore(words[0], rest);
      WordIsField(words[0], rest);
      assert words[0] + " " + rest == words[0] + (" " + rest);
      assert [words[0]] + words[1..] == words;
    }
  }
}
