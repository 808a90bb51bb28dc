/** The string operations of the Go standard library that the address code uses. */
module Text {

  /** strings.Split with a one-character separator. */
  function Split(s: string, sep: char): (r: seq<string>)
    ensures |r| > 0
  {
    if s == "" then [""]
    else Prefix(s[0], sep, Split(s[1..], sep))
  }

  predicate Lacks(s: string, sep: char) {
    sep !in s
  }

  lemma Assoc<T>(a: seq<T>, b: seq<T>, c: seq<T>)
    ensures (a + b) + c == a + (b + c)
  {
  }

  /** The first character, put in front of a text that has been split. */
  function Prefix(h: char, sep: char, rest: seq<string>): seq<string>
    requires rest != []
  {
    if h == sep then [""] + rest else [[h] + rest[0]] + rest[1..]
  }

  lemma PrefixConcat(h: char, sep: char, x: seq<string>, y: seq<string>)
    requires x != []
    ensures Prefix(h, sep, x + y) == Prefix(h, sep, x) + y
  {
    if h == sep {
      Assoc([""], x, y);
    } else {
      assert (x + y)[1..] == x[1..] + y;
      Assoc([[h] + x[0]], x[1..], y);
    }
  }

  /** Splitting at a separator that is known to be there. */
  lemma {:induction false} SplitAt(a: string, b: string, sep: char)
    ensures Split(a + [sep] + b, sep) == Split(a, sep) + Split(b, sep)
  {
    var whole := a + [sep] + b;
    if a == "" {
      assert whole == [sep] + b && whole[1..] == b;
    } else {
      SplitAt(a[1..], b, sep);
      assert whole[0] == a[0] && whole[1..] == a[1..] + [sep] + b;
      PrefixConcat(a[0], sep, Split(a[1..], sep), Split(b, sep));
    }
  }

  lemma {:induction false} SplitWord(w: string, sep: char)
    requires Lacks(w, sep)
    ensures Split(w, sep) == [w]
  {
    if w != "" {
      SplitWord(w[1..], sep);
      assert [w[0]] + w[1..] == w;
    }
  }

  lemma {:induction false} SplitStart(s: string, sep: char)
    ensures Split(s, sep)[0] == "" <==> s == "" || s[0] == sep
  {
  }

  /** strings.TrimRight with a one-character cutset. */
  function TrimRight(s: string, c: char): (r: string)
    ensures r <= s && (r != "" ==> r[|r| - 1] != c)
    ensures forall k :: |r| <= k < |s| ==> s[k] == c
  {
    if s != "" && s[|s| - 1] == c then TrimRight(s[..|s| - 1], c) else s
  }

  lemma {:induction false} TrimRightConcat(a: string, b: string, c: char)
    requires TrimRight(b, c) != ""
    ensures TrimRight(a + b, c) == a + TrimRight(b, c)
  {
    if b[|b| - 1] == c {
      var init := b[..|b| - 1];
      assert (a + b)[..|a + b| - 1] == a + init;
      TrimRightConcat(a, init, c);
    }
  }

  /** unicode.IsSpace. */
  predicate IsSpace(c: char) {
    c == '\t' || c == '\n' || c == '\U{0B}' || c == '\U{0C}' || c == '\r' || c == ' ' || c == '\U{85}' || c == '\U{A0}' ||
    c == '\U{1680}' || '\U{2000}' <= c <= '\U{200A}' || c == '\U{2028}' || c == '\U{2029}' || c == '\U{202F}' ||
    c == '\U{205F}' || c == '\U{3000}'
  }

  /** strings.TrimSpace. */
  function TrimSpace(s: string): (r: string)
    ensures r != "" ==> !IsSpace(r[0]) && !IsSpace(r[|r| - 1])
    ensures r == "" <==> forall c :: c in s ==> IsSpace(c)
  {
    if s == "" then ""
    else if IsSpace(s[0]) then TrimSpace(s[1..])
    else if IsSpace(s[|s| - 1]) then TrimSpace(s[..|s| - 1])
    else s
  }

  /** Control characters that count as space do, and no printable ASCII character but the blank. */
  lemma AsciiSpaces(c: char)
    ensures c <= '\U{7E}' ==> (IsSpace(c) <==> c == ' ' || '\t' <= c <= '\r')
  {
  }

  predicate Spaces(s: string) {
    forall c :: c in s ==> IsSpace(c)
  }

  /** Trimming removes the spaces around a text and nothing else. */
  lemma {:induction false} TrimSpaceExactly(before: string, core: string, after: string)
    requires Spaces(before) && Spaces(after)
    requires core != "" ==> !IsSpace(core[0]) && !IsSpace(core[|core| - 1])
    ensures TrimSpace(before + core + after) == core
    decreases |before| + |after|
  {
    var s := before + core + after;
    if core == "" {
      assert forall c :: c in s ==> c in before || c in after;
    } else if before != "" {
      assert s[0] == before[0] && s[0] in before && s[1..] == before[1..] + core + after;
      TrimSpaceExactly(before[1..], core, after);
    } else if after != "" {
      assert s[0] == core[0] && s[|s| - 1] == after[|after| - 1] && s[|s| - 1] in after;
      assert s[..|s| - 1] == before + core + after[..|after| - 1];
      TrimSpaceExactly(before, core, after[..|after| - 1]);
    } else {
      assert s == core;
    }
  }

  lemma Regroup(h: string, a: string, b: string, c: string)
    ensures h + (a + b + c) == (h + a) + b + c
  {
  }

  /** Every text is its trimmed text with spaces around it. */
  lemma {:induction false} TrimSpaceSplits(s: string) returns (before: string, after: string)
    ensures s == before + TrimSpace(s) + after && Spaces(before) && Spaces(after)
    decreases |s|
  {
    before, after := "", "";
    if s != "" && IsSpace(s[0]) {
      before, after := TrimSpaceSplits(s[1..]);
      Regroup([s[0]], before, TrimSpace(s), after);
      assert s == [s[0]] + s[1..];
      before := [s[0]] + before;
    } else if s != "" && IsSpace(s[|s| - 1]) {
      before, after := TrimSpaceSplits(s[..|s| - 1]);
      Assoc(before + TrimSpace(s), after, [s[|s| - 1]]);
      assert s == s[..|s| - 1] + [s[|s| - 1]];
      after := after + [s[|s| - 1]];
    }
  }
}
