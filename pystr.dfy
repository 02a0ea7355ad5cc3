/**
 * The Python string built-ins the core relies on: `str.strip()` (title validation),
 * `str.format` with one positional argument (the message templates), `" ".join` (the
 * scope string of a WWW-Authenticate challenge) and `str.split()` (the scope list of the
 * login form).
 */
module PyStr {
  import opened Wrappers

  /** `c.isspace()`: the characters `str.strip()` removes when given no argument. */
  predicate IsSpace(c: char) {
    var n := c as int;
    || 0x09 <= n <= 0x0D
    || 0x1C <= n <= 0x20
    || n == 0x85 || n == 0xA0 || n == 0x1680
    || 0x2000 <= n <= 0x200A
    || n == 0x2028 || n == 0x2029 || n == 0x202F || n == 0x205F || n == 0x3000
  }

  predicate AllSpace(s: string) {
    forall i :: 0 <= i < |s| ==> IsSpace(s[i])
  }

  /** Every character of `s` from position `lo` up to, not including, `hi` is whitespace. */
  predicate SpaceBetween(s: string, lo: int, hi: int)
    requires 0 <= lo <= hi <= |s|
  {
    forall k :: lo <= k < hi ==> IsSpace(s[k])
  }

  /** Neither end of `s` is whitespace. */
  predicate Trimmed(s: string) {
    s == [] || (!IsSpace(s[0]) && !IsSpace(s[|s| - 1]))
  }

  /** The end of the run of whitespace that starts at position `i` of `s`. */
  function SkipSpaceForward(s: string, i: nat): (j: nat)
    requires i <= |s|
    ensures i <= j <= |s| && SpaceBetween(s, i, j)
    ensures j < |s| ==> !IsSpace(s[j])
    decreases |s| - i
  {
    if i < |s| && IsSpace(s[i]) then SkipSpaceForward(s, i + 1) else i
  }

  /** The start of the run of whitespace that ends just before position `j` of `s`, going back no further than `lo`. */
  function SkipSpaceBackward(s: string, lo: nat, j: nat): (i: nat)
    requires lo <= j <= |s|
    ensures lo <= i <= j && SpaceBetween(s, i, j)
    ensures lo < i ==> !IsSpace(s[i - 1])
    decreases j
  {
    if lo < j && IsSpace(s[j - 1]) then SkipSpaceBackward(s, lo, j - 1) else j
  }

  /**
   * `s.strip()`: `s` with its leading and trailing whitespace removed. The result is the
   * part of `s` between two all-whitespace ends, and neither of its own ends is whitespace.
   */
  function Strip(s: string): (r: string)
    ensures |r| <= |s|
    ensures Trimmed(r)
    ensures exists i :: 0 <= i <= |s| - |r| && s[i..i + |r|] == r && SpaceBetween(s, 0, i) && SpaceBetween(s, i + |r|, |s|)
  {
    var i := SkipSpaceForward(s, 0);
    var j := SkipSpaceBackward(s, i, |s|);
    assert i < j ==> s[i..j][0] == s[i] && s[i..j][j - i - 1] == s[j - 1];
    s[i..j]
  }

  /** A string has at most one decomposition into whitespace, a trimmed middle, and whitespace. */
  lemma DecompositionUnique(s: string, i: nat, m: string, k: nat, n: string)
    requires i + |m| <= |s| && s[i..i + |m|] == m && SpaceBetween(s, 0, i) && SpaceBetween(s, i + |m|, |s|) && Trimmed(m)
    requires k + |n| <= |s| && s[k..k + |n|] == n && SpaceBetween(s, 0, k) && SpaceBetween(s, k + |n|, |s|) && Trimmed(n)
    ensures m == n
  {
    assert m != [] ==> s[i] == m[0] && s[i + |m| - 1] == m[|m| - 1];
    assert n != [] ==> s[k] == n[0] && s[k + |n| - 1] == n[|n| - 1];
    assert m != [] <==> n != [];
    assert m != [] ==> i == k && i + |m| == k + |n|;
  }

  /**
   * `strip()` is characterised by its result alone: whatever whitespace `p` and `q` surround
   * a trimmed `m`, stripping `p + m + q` gives back exactly `m`.
   */
  lemma StripCharacterised(p: string, m: string, q: string)
    requires AllSpace(p) && AllSpace(q) && Trimmed(m)
    ensures Strip(p + m + q) == m
  {
    var s := p + m + q;
    var r := Strip(s);
    var i :| 0 <= i <= |s| - |r| && s[i..i + |r|] == r && SpaceBetween(s, 0, i) && SpaceBetween(s, i + |r|, |s|);
    Padded(p, m, q);
    DecompositionUnique(s, i, r, |p|, m);
  }

  /** `p + m + q` with whitespace `p` and `q` is one such decomposition, with `m` at `|p|`. */
  lemma Padded(p: string, m: string, q: string)
    requires AllSpace(p) && AllSpace(q)
    ensures var s := p + m + q;
            && s[|p|..|p| + |m|] == m
            && SpaceBetween(s, 0, |p|) && SpaceBetween(s, |p| + |m|, |s|)
  {
    var s := p + m + q;
    assert s[|p|..|p| + |m|] == m;
    assert forall x :: 0 <= x < |p| ==> s[x] == p[x];
    assert forall x :: |p| + |m| <= x < |s| ==> s[x] == q[x - |p| - |m|];
  }

  /** Stripping twice is stripping once. */
  lemma StripIdempotent(s: string)
    ensures Strip(Strip(s)) == Strip(s)
  {
    var r := Strip(s);
    assert [] + r + [] == r;
    StripCharacterised([], r, []);
  }

  /** Only an all-whitespace string strips to the empty string. */
  lemma StripEmptyIffAllSpace(s: string)
    ensures Strip(s) == [] <==> AllSpace(s)
  {
    var r := Strip(s);
    var i :| 0 <= i <= |s| - |r| && s[i..i + |r|] == r && SpaceBetween(s, 0, i) && SpaceBetween(s, i + |r|, |s|);
    assert r == [] ==> AllSpace(s);
    if AllSpace(s) {
      assert s + [] + [] == s;
      StripCharacterised(s, [], []);
    }
  }

  // ---------------------------------------------------------------------------
  // str.format with a single positional argument
  // ---------------------------------------------------------------------------

  predicate NoBraces(s: string) {
    forall i :: 0 <= i < |s| ==> s[i] != '{' && s[i] != '}'
  }

  /** Prepends `p` to a successful formatting result. */
  function Prepend(p: string, r: Option<string>): Option<string> {
    if r.Some? then Some(p + r.value) else None
  }

  /**
   * `template.format(arg)`: each `{{` and `}}` stands for a literal brace and the first
   * automatically numbered field `{}` is replaced by `arg`, which is not itself re-scanned.
   * `None` is a template Python rejects with this one argument (a second `{}`, which raises
   * IndexError, or a stray brace, which raises ValueError); named, numbered and formatted
   * fields are outside this model and are rejected here too.
   */
  function Format(template: string, arg: string): (r: Option<string>)
    ensures NoBraces(template) ==> r == Some(template)
    ensures template != [] && template[0] == '}' && (|template| == 1 || template[1] != '}') ==> r == None
  {
    FormatBraceFree(template, arg);
    FormatFrom(template, arg, false)
  }

  /** A template without braces is its own formatting. */
  lemma FormatBraceFree(template: string, arg: string)
    ensures NoBraces(template) ==> FormatFrom(template, arg, false) == Some(template)
  {
    if NoBraces(template) {
      FormatPlain(template, arg, false);
    }
  }

  /** `Format` over the rest of a template, `used` telling whether `arg` was already consumed. */
  function FormatFrom(t: string, arg: string, used: bool): Option<string>
    decreases |t|
  {
    if t == [] then Some([])
    else if |t| >= 2 && t[0] == '{' && t[1] == '}' then
      if used then None else Prepend(arg, FormatFrom(t[2..], arg, true))
    else if |t| >= 2 && t[0] == '{' && t[1] == '{' then Prepend("{", FormatFrom(t[2..], arg, used))
    else if |t| >= 2 && t[0] == '}' && t[1] == '}' then Prepend("}", FormatFrom(t[2..], arg, used))
    else if t[0] == '{' || t[0] == '}' then None
    else Prepend([t[0]], FormatFrom(t[1..], arg, used))
  }

  /** Text without braces formats to itself. */
  lemma {:induction false} FormatPlain(t: string, arg: string, used: bool)
    requires NoBraces(t)
    ensures FormatFrom(t, arg, used) == Some(t)
    decreases |t|
  {
    if t != [] {
      FormatPlain(t[1..], arg, used);
      assert [t[0]] + t[1..] == t;
    }
  }

  /**
   * A template with one `{}` field between brace-free text formats to that text with `arg`
   * in the field's place, whatever characters `arg` contains.
   */
  lemma {:induction false} FormatOneField(prefix: string, suffix: string, arg: string)
    requires NoBraces(prefix) && NoBraces(suffix)
    ensures Format(prefix + "{}" + suffix, arg) == Some(prefix + arg + suffix)
  {
    FormatFieldFrom(prefix, suffix, arg);
  }

  lemma {:induction false} FormatFieldFrom(prefix: string, suffix: string, arg: string)
    requires NoBraces(prefix) && NoBraces(suffix)
    ensures FormatFrom(prefix + "{}" + suffix, arg, false) == Some(prefix + arg + suffix)
    decreases |prefix|
  {
    if prefix == [] {
      FormatFieldFirst(suffix, arg);
      assert prefix + "{}" + suffix == "{}" + suffix;
      assert prefix + arg + suffix == arg + suffix;
    } else {
      var t := prefix + "{}" + suffix;
      assert t[0] == prefix[0] && t[1..] == prefix[1..] + "{}" + suffix;
      FormatFieldFrom(prefix[1..], suffix, arg);
      assert [prefix[0]] + (prefix[1..] + arg + suffix) == prefix + arg + suffix;
    }
  }

  /** The case of `FormatFieldFrom` where the field opens the template. */
  lemma FormatFieldFirst(suffix: string, arg: string)
    requires NoBraces(suffix)
    ensures FormatFrom("{}" + suffix, arg, false) == Some(arg + suffix)
  {
    var t := "{}" + suffix;
    assert t[0] == '{' && t[1] == '}' && t[2..] == suffix;
    FormatPlain(suffix, arg, true);
  }

  // ---------------------------------------------------------------------------
  // " ".join
  // ---------------------------------------------------------------------------

  /** `" ".join(items)`. */
  function JoinSpace(items: seq<string>): (r: string)
    ensures |items| == 0 ==> r == ""
    ensures |items| == 1 ==> r == items[0]
    ensures |items| > 0 ==> |r| == Sum(items) + |items| - 1
    decreases |items|
  {
    if |items| == 0 then ""
    else if |items| == 1 then items[0]
    else items[0] + " " + JoinSpace(items[1..])
  }

  /**
   * Appending an item to a non-empty list appends one space and the item to the join: with
   * the one-item case, this fixes the join as the items separated by single spaces.
   */
  lemma {:induction false} JoinSpaceAppend(items: seq<string>, x: string)
    requires items != []
    ensures JoinSpace(items + [x]) == JoinSpace(items) + " " + x
    decreases |items|
  {
    if |items| > 1 {
      JoinSpaceAppend(items[1..], x);
      assert (items + [x])[1..] == items[1..] + [x];
    } else {
      assert (items + [x])[1..] == [x];
    }
  }

  /** Total length of the strings in `items`. */
  function Sum(items: seq<string>): nat
    decreases |items|
  {
    if |items| == 0 then 0 else |items[0]| + Sum(items[1..])
  }

  // ---------------------------------------------------------------------------
  // str.split() with no argument
  // ---------------------------------------------------------------------------

  /** A non-empty string without whitespace: what `str.split()` produces and what survives it intact. */
  predicate IsWord(w: string) {
    w != [] && forall i :: 0 <= i < |w| ==> !IsSpace(w[i])
  }

  /** The end of the run of non-whitespace that starts at position `i` of `s`. */
  function SkipWord(s: string, i: nat): (j: nat)
    requires i <= |s|
    ensures i <= j <= |s|
    ensures forall k :: i <= k < j ==> !IsSpace(s[k])
    ensures j < |s| ==> IsSpace(s[j])
    decreases |s| - i
  {
    if i < |s| && !IsSpace(s[i]) then SkipWord(s, i + 1) else i
  }

  /** The words of `s` from position `i` on. */
  function SplitFrom(s: string, i: nat): seq<string>
    requires i <= |s|
    decreases |s| - i
  {
    var j := SkipSpaceForward(s, i);
    if j == |s| then []
    else
      var e := SkipWord(s, j);
      [s[j..e]] + SplitFrom(s, e)
  }

  /** `s.split()`: the maximal runs of non-whitespace in `s`, in order. */
  function Split(s: string): (r: seq<string>)
    ensures forall k :: 0 <= k < |r| ==> IsWord(r[k])
    ensures r == [] <==> AllSpace(s)
  {
    SplitFromWords(s, 0);
    SplitFrom(s, 0)
  }

  /** Splitting from any position yields only words. */
  lemma {:induction false} SplitFromWords(s: string, i: nat)
    requires i <= |s|
    ensures forall k :: 0 <= k < |SplitFrom(s, i)| ==> IsWord(SplitFrom(s, i)[k])
    decreases |s| - i
  {
    var j := SkipSpaceForward(s, i);
    if j < |s| {
      var e := SkipWord(s, j);
      SplitFromWords(s, e);
      assert IsWord(s[j..e]);
    }
  }

  /** A word at position `i` that runs to the end of `s` or to whitespace is skipped in one go. */
  lemma {:induction false} SkipWordOver(s: string, i: nat, n: nat)
    requires i + n <= |s|
    requires forall k :: i <= k < i + n ==> !IsSpace(s[k])
    requires i + n == |s| || IsSpace(s[i + n])
    ensures SkipWord(s, i) == i + n
    decreases n
  {
    if n > 0 {
      SkipWordOver(s, i + 1, n - 1);
    }
  }

  /** A word at position `i` of `s`, followed by the end of `s` or by whitespace, is the next word there. */
  lemma WordAt(s: string, i: nat, w: string)
    requires IsWord(w) && i + |w| <= |s| && s[i..i + |w|] == w
    requires i + |w| == |s| || IsSpace(s[i + |w|])
    ensures SkipSpaceForward(s, i) == i && SkipWord(s, i) == i + |w|
    ensures SplitFrom(s, i) == [w] + SplitFrom(s, i + |w|)
  {
    assert s[i] == w[0];
    assert forall k :: i <= k < i + |w| ==> s[k] == w[k - i];
    SkipWordOver(s, i, |w|);
  }

  /** Splitting a space-joined list of words gives back the list. */
  lemma SplitJoinSpace(words: seq<string>)
    requires forall k :: 0 <= k < |words| ==> IsWord(words[k])
    ensures Split(JoinSpace(words)) == words
  {
    var gaps := SingleSpaces(|words|);
    SplitSpread("", words, gaps);
    assert "" + Spread(words, gaps) == Spread(words, gaps);
    JoinSpaceSpread(words);
  }

  /** The gaps of a `" ".join`: one space between neighbours and nothing after the last item. */
  function SingleSpaces(n: nat): (r: seq<string>)
    ensures |r| == n
    ensures forall k :: 0 <= k < n - 1 ==> r[k] == " "
    ensures n > 0 ==> r[n - 1] == ""
    ensures forall k :: 0 <= k < n ==> AllSpace(r[k])
  {
    if n == 0 then [] else if n == 1 then [""] else [" "] + SingleSpaces(n - 1)
  }

  /** `" ".join(items)` lays the items out with single spaces between them. */
  lemma {:induction false} JoinSpaceSpread(items: seq<string>)
    ensures JoinSpace(items) == Spread(items, SingleSpaces(|items|))
    decreases |items|
  {
    if |items| > 1 {
      JoinSpaceSpread(items[1..]);
      assert SingleSpaces(|items|)[1..] == SingleSpaces(|items| - 1);
    }
  }

  // `Split` on every string, in three facts: SplitEmpty, SplitSkipsSpace and SplitTakesWord.

  /** The empty string has no words. */
  lemma SplitEmpty()
    ensures Split("") == []
  {
  }

  /** Leading whitespace, of any kind and length, does not change the split. */
  lemma SplitSkipsSpace(p: string, t: string)
    requires AllSpace(p)
    ensures Split(p + t) == Split(t)
  {
    var s := p + t;
    SkipSpaceOver(s, 0, |p|);
    assert s[|p|..] == t;
    SplitFromShift(s, |p|, t, 0);
  }

  /** A word followed by the end or by whitespace is the first word of the split. */
  lemma SplitTakesWord(w: string, t: string)
    requires IsWord(w) && (t == [] || IsSpace(t[0]))
    ensures Split(w + t) == [w] + Split(t)
  {
    var s := w + t;
    assert s[0..|w|] == w;
    WordAt(s, 0, w);
    assert s[|w|..] == t;
    SplitFromShift(s, |w|, t, 0);
  }

  /**
   * Words laid out with arbitrary whitespace: `words[k]` followed by `gaps[k]`. Preceded by
   * whitespace `p`, this covers every string, and splitting it gives back exactly the words.
   */
  function Spread(words: seq<string>, gaps: seq<string>): string
    requires |gaps| == |words|
    decreases |words|
  {
    if words == [] then "" else words[0] + gaps[0] + Spread(words[1..], gaps[1..])
  }

  lemma {:induction false} SplitSpread(p: string, words: seq<string>, gaps: seq<string>)
    requires |gaps| == |words| && AllSpace(p)
    requires forall k :: 0 <= k < |words| ==> IsWord(words[k]) && AllSpace(gaps[k])
    requires forall k :: 0 <= k < |words| - 1 ==> gaps[k] != []
    ensures Split(p + Spread(words, gaps)) == words
    decreases |words|
  {
    SplitSkipsSpace(p, Spread(words, gaps));
    if words == [] {
      SplitEmpty();
    } else {
      var w, g, rest := words[0], gaps[0], Spread(words[1..], gaps[1..]);
      assert Spread(words, gaps) == w + (g + rest);
      assert g + rest == [] || IsSpace((g + rest)[0]) by {
        if g == [] {
          assert |words| == 1;
        }
      }
      SplitTakesWord(w, g + rest);
      SplitSpread(g, words[1..], gaps[1..]);
      assert words == [w] + words[1..];
    }
  }

  /** `"  ab \t cd ".split() == ["ab", "cd"]`: repeated and mixed whitespace between and around words. */
  lemma SplitExample()
    ensures Split("  ab \t cd ") == ["ab", "cd"]
  {
    assert "  ab \t cd " == "  " + Spread(["ab", "cd"], [" \t ", " "]);
    SplitSpread("  ", ["ab", "cd"], [" \t ", " "]);
  }

  /** From a position inside a run of whitespace, splitting skips the rest of the run. */
  lemma {:induction false} SkipSpaceOver(s: string, a: nat, b: nat)
    requires a <= b <= |s| && SpaceBetween(s, a, b)
    ensures SkipSpaceForward(s, a) == SkipSpaceForward(s, b)
    ensures SplitFrom(s, a) == SplitFrom(s, b)
    decreases b - a
  {
    if a < b {
      SkipSpaceOver(s, a + 1, b);
    }
  }

  /** Scanning `s` from inside its suffix `t`, which starts at `d`, sees only `t`. */
  lemma {:induction false} SkipSpaceShift(s: string, d: nat, t: string, i: nat)
    requires d <= |s| && s[d..] == t && i <= |t|
    ensures SkipSpaceForward(s, d + i) == d + SkipSpaceForward(t, i)
    decreases |t| - i
  {
    if i < |t| {
      assert s[d + i] == t[i];
      if IsSpace(t[i]) {
        SkipSpaceShift(s, d, t, i + 1);
      }
    }
  }

  lemma {:induction false} SkipWordShift(s: string, d: nat, t: string, i: nat)
    requires d <= |s| && s[d..] == t && i <= |t|
    ensures SkipWord(s, d + i) == d + SkipWord(t, i)
    decreases |t| - i
  {
    if i < |t| {
      assert s[d + i] == t[i];
      if !IsSpace(t[i]) {
        SkipWordShift(s, d, t, i + 1);
      }
    }
  }

  lemma {:induction false} SplitFromShift(s: string, d: nat, t: string, i: nat)
    requires d <= |s| && s[d..] == t && i <= |t|
    ensures SplitFrom(s, d + i) == SplitFrom(t, i)
    decreases |t| - i
  {
    SkipSpaceShift(s, d, t, i);
    var j := SkipSpaceForward(t, i);
    if j < |t| {
      SkipWordShift(s, d, t, j);
      var e := SkipWord(t, j);
      assert s[d + j..d + e] == t[j..e];
      SplitFromShift(s, d, t, e);
      assert SplitFrom(s, d + i) == [s[d + j..d + e]] + SplitFrom(s, d + e);
    }
  }

}
