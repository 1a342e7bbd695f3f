/**
 * The part of Python's `str` that the bot relies on, stated on `seq<char>`
 * (Dafny's `char` is a Unicode scalar value, as a Python code point is):
 * whitespace, `strip`, `split`, `splitlines`, `join`, `upper`/`lower`,
 * `capitalize`, substring tests, code-point ordering with `sorted`,
 * `str(int)` and `int(str)`.
 */
module Text {

  datatype Option<T> = None | Some(value: T)

  // ---------------------------------------------------------------------------
  // Character classes

  /** `c.isspace()` in Python: the Unicode White_Space code points plus the
      four information separators U+001C..U+001F. */
  predicate IsSpace(c: char) {
    || c == ' '
    || ('\t' <= c <= '\r')
    || ('\U{1C}' <= c <= '\U{1F}')
    || c == '\U{85}'
    || c == '\U{A0}'
    || c == '\U{1680}'
    || ('\U{2000}' <= c <= '\U{200A}')
    || c == '\U{2028}'
    || c == '\U{2029}'
    || c == '\U{202F}'
    || c == '\U{205F}'
    || c == '\U{3000}'
  }

  /** The code points at which `str.splitlines()` breaks a line. */
  predicate IsLineBreak(c: char) {
    || c == '\n'
    || c == '\r'
    || c == '\U{0B}'
    || c == '\U{0C}'
    || ('\U{1C}' <= c <= '\U{1E}')
    || c == '\U{85}'
    || c == '\U{2028}'
    || c == '\U{2029}'
  }

  predicate NoSpace(s: string) {
    forall i :: 0 <= i < |s| ==> !IsSpace(s[i])
  }

  predicate NoLineBreak(s: string) {
    forall i :: 0 <= i < |s| ==> !IsLineBreak(s[i])
  }

  predicate IsDigit(c: char) {
    '0' <= c <= '9'
  }

  // ---------------------------------------------------------------------------
  // Case mapping: ASCII letters and the Cyrillic block U+0400..U+045F with Ґ/ґ

  predicate IsLower(c: char) {
    ('a' <= c <= 'z') || ('\U{430}' <= c <= '\U{45F}') || c == '\U{491}'
  }

  predicate IsUpper(c: char) {
    ('A' <= c <= 'Z') || ('\U{400}' <= c <= '\U{42F}') || c == '\U{490}'
  }

  function UpperChar(c: char): (u: char)
    ensures !IsLower(u)
    ensures IsLower(c) ==> IsUpper(u)
    ensures !IsLower(c) ==> u == c
    ensures IsSpace(u) == IsSpace(c)
  {
    if 'a' <= c <= 'z' then (c as int - 0x20) as char
    else if '\U{430}' <= c <= '\U{44F}' then (c as int - 0x20) as char
    else if '\U{450}' <= c <= '\U{45F}' then (c as int - 0x50) as char
    else if c == '\U{491}' then '\U{490}'
    else c
  }

  function LowerChar(c: char): (l: char)
    ensures !IsUpper(l)
    ensures IsUpper(c) ==> IsLower(l)
    ensures !IsUpper(c) ==> l == c
    ensures IsSpace(l) == IsSpace(c)
  {
    if 'A' <= c <= 'Z' then (c as int + 0x20) as char
    else if '\U{410}' <= c <= '\U{42F}' then (c as int + 0x20) as char
    else if '\U{400}' <= c <= '\U{40F}' then (c as int + 0x50) as char
    else if c == '\U{490}' then '\U{491}'
    else c
  }

  /** `s.upper()` */
  function Upper(s: string): (r: string)
    ensures |r| == |s|
    ensures forall i :: 0 <= i < |s| ==> r[i] == UpperChar(s[i])
  {
    seq(|s|, i requires 0 <= i < |s| => UpperChar(s[i]))
  }

  /** `s.lower()` */
  function Lower(s: string): (r: string)
    ensures |r| == |s|
    ensures forall i :: 0 <= i < |s| ==> r[i] == LowerChar(s[i])
  {
    seq(|s|, i requires 0 <= i < |s| => LowerChar(s[i]))
  }

  /** `s.capitalize()`: the first character upper-cased, the rest lower-cased. */
  function Capitalize(s: string): (r: string)
    ensures |r| == |s|
    ensures s != [] ==> r[0] == UpperChar(s[0]) && r[1..] == Lower(s[1..])
  {
    if s == [] then [] else [UpperChar(s[0])] + Lower(s[1..])
  }

  lemma UpperIdempotent(s: string)
    ensures Upper(Upper(s)) == Upper(s)
  {
  }

  // ---------------------------------------------------------------------------
  // Stripping

  /** The argument of `strip`/`lstrip`/`rstrip`: whitespace when none is given,
      otherwise the characters of the given string. */
  datatype CharClass = Whitespace | Chars(members: string)

  predicate In(c: char, cls: CharClass) {
    match cls
    case Whitespace => IsSpace(c)
    case Chars(members) => c in members
  }

  /** The first position at or after `p` whose character is outside the class. */
  function SkipFrom(s: string, drop: CharClass, p: nat): (n: nat)
    requires p <= |s|
    ensures p <= n <= |s|
    ensures n < |s| ==> !In(s[n], drop)
    decreases |s| - p
  {
    if p < |s| && In(s[p], drop) then SkipFrom(s, drop, p + 1) else p
  }

  /** Everything skipped belongs to the class. */
  lemma {:induction false} SkipFromDrops(s: string, drop: CharClass, p: nat)
    requires p <= |s|
    ensures forall i :: p <= i < SkipFrom(s, drop, p) ==> In(s[i], drop)
    decreases |s| - p
  {
    if p < |s| && In(s[p], drop) {
      SkipFromDrops(s, drop, p + 1);
    }
  }

  /** A run of class members ended by a non-member (or the end) is what is skipped. */
  lemma {:induction false} SkipFromUnique(s: string, drop: CharClass, p: nat, n: nat)
    requires p <= n <= |s|
    requires forall i :: p <= i < n ==> In(s[i], drop)
    requires n < |s| ==> !In(s[n], drop)
    ensures SkipFrom(s, drop, p) == n
    decreases n - p
  {
    if p < n {
      SkipFromUnique(s, drop, p + 1, n);
    }
  }

  /** Going back from `q` but not below `lo`, the end of the last character
      outside the class. */
  function SkipBack(s: string, drop: CharClass, lo: nat, q: nat): (n: nat)
    requires lo <= q <= |s|
    ensures lo <= n <= q
    ensures lo < n ==> !In(s[n - 1], drop)
    decreases q
  {
    if lo < q && In(s[q - 1], drop) then SkipBack(s, drop, lo, q - 1) else q
  }

  /** Everything skipped backwards belongs to the class. */
  lemma {:induction false} SkipBackDrops(s: string, drop: CharClass, lo: nat, q: nat)
    requires lo <= q <= |s|
    ensures forall i :: SkipBack(s, drop, lo, q) <= i < q ==> In(s[i], drop)
    decreases q
  {
    if lo < q && In(s[q - 1], drop) {
      SkipBackDrops(s, drop, lo, q - 1);
    }
  }

  /** A run of class members preceded by a non-member (or `lo`) is what is
      skipped backwards. */
  lemma {:induction false} SkipBackUnique(s: string, drop: CharClass, lo: nat, q: nat, n: nat)
    requires lo <= n <= q <= |s|
    requires forall i :: n <= i < q ==> In(s[i], drop)
    requires lo < n ==> !In(s[n - 1], drop)
    ensures SkipBack(s, drop, lo, q) == n
    decreases q - n
  {
    if n < q {
      SkipBackUnique(s, drop, lo, q - 1, n);
    }
  }

  /** `s.lstrip(chars)` where `drop` tells the characters in `chars`. */
  function TrimLeft(s: string, drop: CharClass): (r: string)
    ensures |r| <= |s| && r == s[|s| - |r|..]
    ensures r == [] || !In(r[0], drop)
  {
    s[SkipFrom(s, drop, 0)..]
  }

  /** `lstrip` stops at the first character outside the class. */
  lemma TrimLeftKeeps(s: string, drop: CharClass, k: nat)
    requires k < |s| && !In(s[k], drop)
    ensures |s| - |TrimLeft(s, drop)| <= k
  {
    SkipFromDrops(s, drop, 0);
  }

  /** `s.rstrip(chars)` */
  function TrimRight(s: string, drop: CharClass): (r: string)
    ensures |r| <= |s| && r == s[..|r|]
    ensures r == [] || !In(r[|r| - 1], drop)
  {
    s[..SkipBack(s, drop, 0, |s|)]
  }

  /** `rstrip` stops at the last character outside the class. */
  lemma TrimRightKeeps(s: string, drop: CharClass, k: nat)
    requires k < |s| && !In(s[k], drop)
    ensures k < |TrimRight(s, drop)|
  {
    SkipBackDrops(s, drop, 0, |s|);
  }

  /** `s.strip(chars)`: the longest infix that neither starts nor ends with a
      character of the class, obtained by removing such characters only. */
  function StripChars(s: string, drop: CharClass): (r: string)
    ensures |r| <= |s|
    ensures r == [] || (!In(r[0], drop) && !In(r[|r| - 1], drop))
  {
    var a := SkipFrom(s, drop, 0);
    s[a..SkipBack(s, drop, a, |s|)]
  }

  /** `s.strip()` */
  function Strip(s: string): (r: string)
    ensures |r| <= |s|
    ensures r == [] || (!IsSpace(r[0]) && !IsSpace(r[|r| - 1]))
  {
    StripChars(s, Whitespace)
  }

  /** `s.strip()` is the identity on text that does not start or end with whitespace. */
  lemma StripUnchanged(s: string)
    requires s == [] || (!IsSpace(s[0]) && !IsSpace(s[|s| - 1]))
    ensures Strip(s) == s
  {
    SkipFromUnique(s, Whitespace, 0, 0);
    SkipBackUnique(s, Whitespace, 0, |s|, |s|);
  }

  /** `strip()` keeps a slice of its argument whose two flanks are whitespace. */
  lemma StripSlice(s: string) returns (a: nat, b: nat)
    ensures a <= b <= |s| && Strip(s) == s[a..b]
    ensures forall j :: 0 <= j < a ==> IsSpace(s[j])
    ensures forall j :: b <= j < |s| ==> IsSpace(s[j])
  {
    a := SkipFrom(s, Whitespace, 0);
    b := SkipBack(s, Whitespace, a, |s|);
    SkipFromDrops(s, Whitespace, 0);
    SkipBackDrops(s, Whitespace, a, |s|);
  }

  /** `strip()` keeps every character that is not whitespace, so the slice
      it keeps reaches over any such position. */
  lemma StripAround(s: string, i: nat) returns (a: nat, b: nat)
    requires i < |s| && !IsSpace(s[i])
    ensures a <= i < b <= |s| && Strip(s) == s[a..b]
    ensures forall j :: b <= j < |s| ==> IsSpace(s[j])
  {
    a, b := StripSlice(s);
  }

  /** `strip()` of a slice `s[lo..hi]` reaches over any non-whitespace
      position of the slice, and is a slice of `s` as well. */
  lemma StripOfSlice(s: string, lo: nat, hi: nat, x: string, i: nat) returns (a: nat, b: nat)
    requires lo <= i < hi <= |s| && x == s[lo..hi] && !IsSpace(s[i])
    ensures lo <= a <= i < b <= hi && Strip(x) == s[a..b]
    ensures forall j :: b <= j < hi ==> IsSpace(s[j])
  {
    assert x[i - lo] == s[i];
    var a2, b2 := StripAround(x, i - lo);
    a := lo + a2;
    b := lo + b2;
    SliceOfSlice(s, lo, hi, x, a2, b2);
  }

  /** A slice of a slice is a slice of the whole. */
  lemma SliceOfSlice(s: string, lo: nat, hi: nat, x: string, a: nat, b: nat)
    requires lo <= hi <= |s| && x == s[lo..hi] && a <= b <= |x|
    ensures x[a..b] == s[lo + a..lo + b]
    ensures forall j :: 0 <= j < |x| ==> x[j] == s[lo + j]
  {
    assert forall j :: 0 <= j < b - a ==> x[a..b][j] == s[lo + a + j];
  }

  /** A suffix is the slice up to a cut followed by the rest. */
  lemma SliceSplit(s: string, p: nat, q: nat)
    requires p <= q <= |s|
    ensures s[p..] == s[p..q] + s[q..]
  {
  }

  /** `s.strip().lstrip(chars)` is a slice of `s` that reaches over any
      position holding neither whitespace nor one of `chars`, and only
      whitespace follows it. */
  lemma StripTrimSlice(s: string, drop: CharClass, i: nat) returns (lo: nat, hi: nat)
    requires i < |s| && !IsSpace(s[i]) && !In(s[i], drop)
    ensures lo <= i < hi <= |s| && TrimLeft(Strip(s), drop) == s[lo..hi]
    ensures forall j :: hi <= j < |s| ==> IsSpace(s[j])
  {
    var a1, b1 := StripAround(s, i);
    var line := Strip(s);
    assert line[i - a1] == s[i];
    TrimLeftKeeps(line, drop, i - a1);
    var k := |line| - |TrimLeft(line, drop)|;
    lo := a1 + k;
    hi := b1;
    assert line[k..] == s[lo..hi];
  }

  /** `s.strip().lstrip(chars).strip()` keeps a slice of `s` that reaches
      over any position holding neither whitespace nor one of `chars`, and
      only whitespace follows that slice. */
  lemma StripTrimStrip(s: string, drop: CharClass, i: nat) returns (a: nat, b: nat)
    requires i < |s| && !IsSpace(s[i]) && !In(s[i], drop)
    ensures a <= i < b <= |s|
    ensures Strip(TrimLeft(Strip(s), drop)) == s[a..b]
    ensures forall j :: b <= j < |s| ==> IsSpace(s[j])
  {
    var lo, hi := StripTrimSlice(s, drop, i);
    a, b := StripOfSlice(s, lo, hi, TrimLeft(Strip(s), drop), i);
  }

  /** A slice flanked by whitespace, whose ends are not whitespace, is what
      `strip()` keeps. */
  lemma StripIsSlice(s: string, a: nat, b: nat)
    requires a < b <= |s| && !IsSpace(s[a]) && !IsSpace(s[b - 1])
    requires forall j :: 0 <= j < a ==> IsSpace(s[j])
    requires forall j :: b <= j < |s| ==> IsSpace(s[j])
    ensures Strip(s) == s[a..b]
  {
    SkipFromUnique(s, Whitespace, 0, a);
    SkipBackUnique(s, Whitespace, a, |s|, b);
  }

  /** `strip()` keeps nothing of text that is all whitespace. */
  lemma StripBlank(s: string)
    requires forall j :: 0 <= j < |s| ==> IsSpace(s[j])
    ensures Strip(s) == []
  {
    SkipFromUnique(s, Whitespace, 0, |s|);
  }

  /** `s.strip()` is empty exactly when `s` is all whitespace. */
  lemma StripEmpty(s: string)
    ensures Strip(s) == [] <==> forall j :: 0 <= j < |s| ==> IsSpace(s[j])
  {
    var a := SkipFrom(s, Whitespace, 0);
    SkipFromDrops(s, Whitespace, 0);
    if a < |s| {
      SkipBackDrops(s, Whitespace, a, |s|);
      assert !IsSpace(s[a]);
    } else {
      StripBlank(s);
    }
  }

  /** Appending leaves a slice of the first part alone. */
  lemma AppendSlice(x: string, w: string, a: nat, b: nat)
    requires a <= b <= |x|
    ensures (x + w)[a..b] == x[a..b]
  {
  }

  /** Whitespace appended to a text does not change what `strip()` keeps. */
  lemma StripIgnoresTrailingSpace(x: string, w: string)
    requires forall j :: 0 <= j < |w| ==> IsSpace(w[j])
    ensures Strip(x + w) == Strip(x)
  {
    var s := x + w;
    var a, b := StripSlice(x);
    assert forall j :: 0 <= j < |s| ==> s[j] == if j < |x| then x[j] else w[j - |x|];
    if a < b {
      StripIsSlice(s, a, b);
      AppendSlice(x, w, a, b);
    } else {
      StripBlank(s);
    }
  }

  // ---------------------------------------------------------------------------
  // Searching

  predicate StartsWith(s: string, prefix: string) {
    |prefix| <= |s| && s[..|prefix|] == prefix
  }

  predicate EndsWith(s: string, suffix: string) {
    |suffix| <= |s| && s[|s| - |suffix|..] == suffix
  }

  /** `sub in s` */
  predicate Contains(s: string, sub: string)
  {
    StartsWith(s, sub) || (s != [] && Contains(s[1..], sub))
  }

  predicate OccursAt(s: string, sub: string, i: nat) {
    i + |sub| <= |s| && s[i..i + |sub|] == sub
  }

  /** `sub in s` holds exactly when `sub` occurs at some position of `s`. */
  lemma {:induction false} ContainsAt(s: string, sub: string)
    ensures Contains(s, sub) <==> exists i: nat :: OccursAt(s, sub, i)
  {
    if StartsWith(s, sub) {
      assert OccursAt(s, sub, 0);
    } else if s != [] {
      ContainsAt(s[1..], sub);
      if Contains(s[1..], sub) {
        var i: nat :| OccursAt(s[1..], sub, i);
        assert s[1..][i..i + |sub|] == s[i + 1..i + 1 + |sub|];
        assert OccursAt(s, sub, i + 1);
      }
      if i: nat :| OccursAt(s, sub, i) {
        assert i != 0;
        assert s[1..][i - 1..i - 1 + |sub|] == s[i..i + |sub|];
        assert OccursAt(s[1..], sub, i - 1);
      }
    }
  }

  /** The index of the first occurrence of `c` in `s`. */
  function IndexOf(s: string, c: char): (i: nat)
    requires c in s
    ensures i < |s| && s[i] == c && c !in s[..i]
  {
    if s[0] == c then 0 else 1 + IndexOf(s[1..], c)
  }

  /** A position holding `c` with no `c` before it is the first occurrence. */
  lemma {:induction false} IndexOfUnique(s: string, c: char, k: nat)
    requires k < |s| && s[k] == c
    requires forall j :: 0 <= j < k ==> s[j] != c
    ensures IndexOf(s, c) == k
  {
    if k > 0 {
      assert s[0] != c;
      assert forall j :: 0 <= j < k - 1 ==> s[1..][j] == s[j + 1];
      IndexOfUnique(s[1..], c, k - 1);
    }
  }

  /** `s.split(c, 1)[1]`: what follows the first `c`. */
  function After(s: string, c: char): (r: string)
    requires c in s
    ensures |r| < |s| && r == s[|s| - |r|..] && s[|s| - |r| - 1] == c && c !in s[..|s| - |r| - 1]
  {
    s[IndexOf(s, c) + 1..]
  }

  // ---------------------------------------------------------------------------
  // Splitting and joining

  /** `sep.join(parts)` */
  function Join(parts: seq<string>, sep: string): string
  {
    if parts == [] then []
    else if |parts| == 1 then parts[0]
    else parts[0] + sep + Join(parts[1..], sep)
  }

  /** Non-empty parts joined by a separator start with the first part's first
      character and end with the last part's last character. */
  lemma {:induction false} JoinEnds(parts: seq<string>, sep: string)
    requires parts != [] && forall i :: 0 <= i < |parts| ==> parts[i] != []
    ensures Join(parts, sep) != []
    ensures Join(parts, sep)[0] == parts[0][0]
    ensures Join(parts, sep)[|Join(parts, sep)| - 1] == parts[|parts| - 1][|parts[|parts| - 1]| - 1]
  {
    if |parts| > 1 {
      JoinEnds(parts[1..], sep);
      assert Join(parts, sep) == parts[0] + sep + Join(parts[1..], sep);
    }
  }

  /** Text that holds `sub` still holds it after something is put in front. */
  lemma ContainsAfterPrefix(p: string, t: string, sub: string)
    requires Contains(t, sub)
    ensures Contains(p + t, sub)
  {
    ContainsAt(t, sub);
    ContainsAt(p + t, sub);
    var i: nat :| OccursAt(t, sub, i);
    assert (p + t)[|p| + i..|p| + i + |sub|] == t[i..i + |sub|];
    assert OccursAt(p + t, sub, |p| + i);
  }

  /** Every part occurs in the parts joined by a separator. */
  lemma {:induction false} JoinContains(parts: seq<string>, sep: string, k: nat)
    requires k < |parts|
    ensures Contains(Join(parts, sep), parts[k])
  {
    var s := Join(parts, sep);
    if k == 0 {
      assert s[..|parts[0]|] == parts[0];
    } else {
      JoinContains(parts[1..], sep, k - 1);
      assert s == parts[0] + sep + Join(parts[1..], sep);
      ContainsAfterPrefix(parts[0] + sep, Join(parts[1..], sep), parts[k]);
    }
  }

  lemma JoinContainsAll(parts: seq<string>, sep: string)
    ensures forall k :: 0 <= k < |parts| ==> Contains(Join(parts, sep), parts[k])
  {
    forall k | 0 <= k < |parts| ensures Contains(Join(parts, sep), parts[k]) {
      JoinContains(parts, sep, k);
    }
  }

  /** `s.split(sep)` for a one-character separator. */
  function SplitOn(s: string, sep: char): (parts: seq<string>)
    ensures |parts| >= 1
    ensures forall i :: 0 <= i < |parts| ==> sep !in parts[i]
    ensures Join(parts, [sep]) == s
  {
    if sep !in s then [s]
    else
      var i := IndexOf(s, sep);
      assert s == s[..i] + [sep] + s[i + 1..];
      [s[..i]] + SplitOn(s[i + 1..], sep)
  }

  /** A text without `sep` splits into itself alone. */
  lemma SplitOnNoSep(s: string, sep: char)
    requires sep !in s
    ensures SplitOn(s, sep) == [s]
  {
  }

  /** Text whose first `sep` follows a part without `sep` splits into that
      part and the split of the rest. */
  lemma SplitOnFirst(part: string, rest: string, sep: char)
    requires sep !in part
    ensures SplitOn(part + [sep] + rest, sep) == [part] + SplitOn(rest, sep)
  {
    var s := part + [sep] + rest;
    assert s[|part|] == sep;
    forall j | 0 <= j < |part| ensures s[j] != sep {
      assert s[j] == part[j];
    }
    IndexOfUnique(s, sep, |part|);
    assert s[..|part|] == part;
    assert s[|part| + 1..] == rest;
  }

  /** `sep.join(parts).split(sep) == parts` when no part holds the separator. */
  lemma {:induction false} SplitOnJoin(parts: seq<string>, sep: char)
    requires parts != []
    requires forall i :: 0 <= i < |parts| ==> sep !in parts[i]
    ensures SplitOn(Join(parts, [sep]), sep) == parts
  {
    if |parts| == 1 {
      SplitOnNoSep(parts[0], sep);
    } else {
      var rest := Join(parts[1..], [sep]);
      assert Join(parts, [sep]) == parts[0] + [sep] + rest;
      SplitOnFirst(parts[0], rest, sep);
      SplitOnJoin(parts[1..], sep);
    }
  }

  /** The leading run of characters that are not whitespace. */
  function Word(s: string): (w: string)
    ensures |w| <= |s| && w == s[..|w|]
    ensures NoSpace(w)
    ensures |w| < |s| ==> IsSpace(s[|w|])
  {
    if s == [] || IsSpace(s[0]) then [] else [s[0]] + Word(s[1..])
  }

  /** `s.split()`: the maximal runs of non-whitespace characters, in order. */
  function SplitWords(s: string): (words: seq<string>)
    ensures forall i :: 0 <= i < |words| ==> words[i] != [] && NoSpace(words[i])
    decreases |s|
  {
    var t := TrimLeft(s, Whitespace);
    if t == [] then []
    else
      var w := Word(t);
      [w] + SplitWords(t[|w|..])
  }

  /** A word followed by nothing or by whitespace is read whole. */
  lemma {:induction false} WordBeforeSpace(w: string, rest: string)
    requires NoSpace(w) && (rest == [] || IsSpace(rest[0]))
    ensures Word(w + rest) == w
  {
    if w == [] {
      assert w + rest == rest;
    } else {
      assert (w + rest)[1..] == w[1..] + rest;
      WordBeforeSpace(w[1..], rest);
    }
  }

  /** A word that starts the text, ended by its end or by whitespace, is
      the first word split off. */
  lemma SplitWordsStep(w: string, rest: string)
    requires w != [] && NoSpace(w) && (rest == [] || IsSpace(rest[0]))
    ensures SplitWords(w + rest) == [w] + SplitWords(rest)
  {
    var s := w + rest;
    assert SkipFrom(s, Whitespace, 0) == 0;
    assert TrimLeft(s, Whitespace) == s;
    WordBeforeSpace(w, rest);
    assert s[|w|..] == rest;
  }

  /** One space before a word changes nothing. */
  lemma SplitWordsAfterSpace(t: string)
    requires t != [] && !IsSpace(t[0])
    ensures SplitWords(" " + t) == SplitWords(t)
  {
    assert SkipFrom(" " + t, Whitespace, 1) == 1;
    assert TrimLeft(" " + t, Whitespace) == t;
    assert SkipFrom(t, Whitespace, 0) == 0;
    assert TrimLeft(t, Whitespace) == t;
  }

  /** Words free of whitespace, joined by single spaces, split back into
      those words. */
  lemma {:induction false} SplitWordsJoin(words: seq<string>)
    requires forall i :: 0 <= i < |words| ==> words[i] != [] && NoSpace(words[i])
    ensures SplitWords(Join(words, " ")) == words
  {
    if |words| == 1 {
      SplitWordsStep(words[0], []);
      assert words[0] + [] == words[0];
      assert Join(words, " ") == words[0];
    } else if |words| > 1 {
      var w, rest := words[0], words[1..];
      assert words == [w] + rest;
      SplitWordsJoin(rest);
      SplitWordsJoinCons(w, rest);
    }
  }

  /** The inductive step: one more word in front. */
  lemma SplitWordsJoinCons(w: string, words: seq<string>)
    requires w != [] && NoSpace(w) && words != [] && words[0] != []
    requires SplitWords(Join(words, " ")) == words
    ensures SplitWords(Join([w] + words, " ")) == [w] + words
  {
    var tail := Join(words, " ");
    JoinStartsWithFirst(words, " ");
    JoinCons(w, words, " ");
    SplitWordsStep(w, " " + tail);
    SplitWordsAfterSpace(tail);
  }

  /** A join opens with the first element's first character. */
  lemma JoinStartsWithFirst(parts: seq<string>, sep: string)
    requires parts != [] && parts[0] != []
    ensures Join(parts, sep) != [] && Join(parts, sep)[0] == parts[0][0]
  {
    if |parts| > 1 {
      assert Join(parts, sep) == parts[0] + sep + Join(parts[1..], sep);
    }
  }

  /** Joining one more part in front puts it and a separator before the old join. */
  lemma JoinCons(head: string, parts: seq<string>, sep: string)
    requires parts != []
    ensures Join([head] + parts, sep) == head + (sep + Join(parts, sep))
  {
    assert ([head] + parts)[1..] == parts;
  }

  /** `s.split(maxsplit=1)`: the first word and, when anything but whitespace
      follows it, the remainder with its leading whitespace removed. */
  function SplitFirstWord(s: string): (parts: seq<string>)
    ensures |parts| <= 2
    ensures |parts| >= 1 ==> parts[0] != [] && NoSpace(parts[0])
    ensures |parts| == 2 ==> parts[1] != [] && !IsSpace(parts[1][0])
  {
    var t := TrimLeft(s, Whitespace);
    if t == [] then []
    else
      var w := Word(t);
      var rest := TrimLeft(t[|w|..], Whitespace);
      if rest == [] then [w] else [w, rest]
  }

  /** `s.splitlines()`: "\r\n" is one break, and a break at the very end
      does not open an empty last line. */
  function SplitLines(s: string): (lines: seq<string>)
    ensures forall i :: 0 <= i < |lines| ==> NoLineBreak(lines[i])
    decreases |s|
  {
    if s == [] then []
    else
      var n := LineLength(s);
      var line := s[..n];
      if n == |s| then [line]
      else
        var next := if s[n] == '\r' && n + 1 < |s| && s[n + 1] == '\n' then n + 2 else n + 1;
        [line] + SplitLines(s[next..])
  }

  /** The length of the first line of `s`. */
  function LineLength(s: string): (n: nat)
    ensures n <= |s|
    ensures NoLineBreak(s[..n])
    ensures n < |s| ==> IsLineBreak(s[n])
  {
    if s == [] || IsLineBreak(s[0]) then 0 else 1 + LineLength(s[1..])
  }

  lemma LineLengthAll(s: string)
    requires NoLineBreak(s)
    ensures LineLength(s) == |s|
  {
  }

  /** One line followed by a newline and more text splits into that line and
      the lines of the rest. */
  lemma SplitLinesCons(line: string, rest: string)
    requires NoLineBreak(line)
    ensures SplitLines(line + "\n" + rest) == [line] + SplitLines(rest)
  {
    var s := line + "\n" + rest;
    var n := LineLength(s);
    assert s[..|line|] == line;
    assert s[|line|] == '\n';
    assert forall j :: 0 <= j < |line| ==> s[j] == line[j];
    assert n == |line|;
    assert s[n + 1..] == rest;
  }

  /** The lines of a text with no line break are that text, unless it is empty. */
  lemma SplitLinesSingle(line: string)
    requires NoLineBreak(line)
    ensures SplitLines(line) == if line == [] then [] else [line]
  {
    if line != [] {
      LineLengthAll(line);
      assert line[..|line|] == line;
    }
  }

  /** `"\n".join(lines).splitlines() == lines` when no line holds a break
      and the last line is not empty. */
  lemma {:induction false} SplitLinesJoin(lines: seq<string>)
    requires forall i :: 0 <= i < |lines| ==> NoLineBreak(lines[i])
    requires lines != [] ==> lines[|lines| - 1] != []
    ensures SplitLines(Join(lines, "\n")) == lines
  {
    if |lines| == 1 {
      SplitLinesSingle(lines[0]);
    } else if |lines| > 1 {
      SplitLinesJoin(lines[1..]);
      SplitLinesCons(lines[0], Join(lines[1..], "\n"));
    }
  }

  /** A character in neither the parts nor the separator is not in the join. */
  lemma {:induction false} JoinAbsent(parts: seq<string>, sep: string, c: char)
    requires c !in sep
    requires forall i :: 0 <= i < |parts| ==> c !in parts[i]
    ensures c !in Join(parts, sep)
  {
    if |parts| > 1 {
      JoinAbsent(parts[1..], sep, c);
    }
  }

  // ---------------------------------------------------------------------------
  // Ordering and sorting: Python compares strings code point by code point

  predicate LexLe(a: string, b: string)
  {
    a == [] || (b != [] && (a[0] < b[0] || (a[0] == b[0] && LexLe(a[1..], b[1..]))))
  }

  lemma {:induction false} LexReflexive(a: string)
    ensures LexLe(a, a)
  {
    if a != [] {
      LexReflexive(a[1..]);
    }
  }

  lemma {:induction false} LexTotal(a: string, b: string)
    ensures LexLe(a, b) || LexLe(b, a)
  {
    if a != [] && b != [] && a[0] == b[0] {
      LexTotal(a[1..], b[1..]);
    }
  }

  lemma {:induction false} LexAntisymmetric(a: string, b: string)
    requires LexLe(a, b) && LexLe(b, a)
    ensures a == b
  {
    if a != [] && b != [] {
      LexAntisymmetric(a[1..], b[1..]);
      assert a == [a[0]] + a[1..] && b == [b[0]] + b[1..];
    }
  }

  lemma {:induction false} LexTransitive(a: string, b: string, c: string)
    requires LexLe(a, b) && LexLe(b, c)
    ensures LexLe(a, c)
  {
    if a != [] && b != [] && c != [] && a[0] == b[0] == c[0] {
      LexTransitive(a[1..], b[1..], c[1..]);
    }
  }

  lemma LexAntisymmetricAll()
    ensures forall a, b :: LexLe(a, b) && LexLe(b, a) ==> a == b
  {
    forall a, b | LexLe(a, b) && LexLe(b, a) ensures a == b {
      LexAntisymmetric(a, b);
    }
  }

  /** Every non-empty set of strings has a smallest element. */
  lemma {:induction false} LeastWitness(s: set<string>) returns (m: string)
    requires s != {}
    ensures m in s && forall y :: y in s ==> LexLe(m, y)
    decreases |s|
  {
    var x :| x in s;
    var rest := s - {x};
    LexReflexive(x);
    if rest == {} {
      m := x;
      assert forall y :: y in s ==> y == x || y in rest;
    } else {
      var m' := LeastWitness(rest);
      LexTotal(x, m');
      if LexLe(x, m') {
        m := x;
        forall y | y in rest ensures LexLe(x, y) {
          LexTransitive(x, m', y);
        }
      } else {
        m := m';
      }
    }
  }

  lemma LeastExists(s: set<string>)
    requires s != {}
    ensures exists m :: m in s && forall y :: y in s ==> LexLe(m, y)
  {
    var m := LeastWitness(s);
  }

  /** The smallest string of a non-empty set. */
  function Least(s: set<string>): (m: string)
    requires s != {}
    ensures m in s && forall y :: y in s ==> LexLe(m, y)
  {
    LeastExists(s);
    LexAntisymmetricAll();
    var m :| m in s && forall y :: y in s ==> LexLe(m, y);
    m
  }

  predicate StrictlySorted(r: seq<string>) {
    forall i, j :: 0 <= i < j < |r| ==> LexLe(r[i], r[j]) && r[i] != r[j]
  }

  /** `sorted(s)` for a set of strings: its elements, each once, in increasing order. */
  function SortedSet(s: set<string>): (r: seq<string>)
    ensures |r| == |s|
    ensures forall x :: x in r <==> x in s
    ensures StrictlySorted(r)
    decreases |s|
  {
    if s == {} then []
    else
      var m := Least(s);
      [m] + SortedSet(s - {m})
  }

  // ---------------------------------------------------------------------------
  // Integers: `str(n)` and `int(s)`

  function DigitChar(d: nat): (c: char)
    requires d < 10
    ensures IsDigit(c)
  {
    ('0' as int + d) as char
  }

  function DigitValue(c: char): (d: nat)
    requires IsDigit(c)
    ensures d < 10 && DigitChar(d) == c
  {
    c as int - '0' as int
  }

  /** The decimal digits of `n`, most significant first, without leading zeros. */
  function Digits(n: nat): (s: string)
    ensures s != [] && forall i :: 0 <= i < |s| ==> IsDigit(s[i])
  {
    if n < 10 then [DigitChar(n)] else Digits(n / 10) + [DigitChar(n % 10)]
  }

  /** The number a string of decimal digits and underscores denotes, ignoring the underscores. */
  function DigitsValue(s: string): nat
    requires forall i :: 0 <= i < |s| ==> IsDigit(s[i]) || s[i] == '_'
  {
    if s == [] then 0
    else if s[|s| - 1] == '_' then DigitsValue(s[..|s| - 1])
    else DigitsValue(s[..|s| - 1]) * 10 + DigitValue(s[|s| - 1])
  }

  lemma {:induction false} DigitsValueOfDigits(n: nat)
    ensures DigitsValue(Digits(n)) == n
  {
    if n >= 10 {
      var s := Digits(n);
      assert s[..|s| - 1] == Digits(n / 10);
      DigitsValueOfDigits(n / 10);
    }
  }

  /** `str(n)` */
  function IntToString(n: int): (s: string)
    ensures s != []
  {
    if n < 0 then "-" + Digits(-n) else Digits(n)
  }

  /** What `int()` accepts after the sign: digits, with single underscores
      allowed only between two digits. */
  predicate DigitRun(s: string) {
    && s != []
    && IsDigit(s[0])
    && IsDigit(s[|s| - 1])
    && (forall i :: 0 <= i < |s| ==> IsDigit(s[i]) || s[i] == '_')
    && (forall i, j :: 0 <= i < |s| && 0 <= j < |s| && j == i + 1 ==> !(s[i] == '_' && s[j] == '_'))
  }

  /** `int(s)` for base 10; `None` where Python raises `ValueError`. */
  function ParseInt(s: string): Option<int>
  {
    var t := Strip(s);
    if t == [] then None
    else
      var body := if t[0] == '-' || t[0] == '+' then t[1..] else t;
      if !DigitRun(body) then None
      else
        var v: int := DigitsValue(body);
        Some(if t[0] == '-' then -v else v)
  }

  /** The digits of a number read back as that number. */
  lemma DigitsRead(m: nat)
    ensures DigitRun(Digits(m)) && DigitsValue(Digits(m)) == m
  {
    DigitsValueOfDigits(m);
  }

  /** A run of digits has no whitespace to strip. */
  lemma DigitRunStripped(d: string)
    requires DigitRun(d)
    ensures Strip(d) == d
  {
    StripUnchanged(d);
  }

  /** `int()` reads a bare run of digits as its value. */
  lemma ParseIntOfDigitRun(d: string)
    requires DigitRun(d)
    ensures ParseInt(d) == Some(DigitsValue(d))
  {
    DigitRunStripped(d);
  }

  /** Nor has a run of digits after a minus sign any whitespace to strip. */
  lemma NegativeRunStripped(s: string)
    requires s != [] && s[0] == '-' && DigitRun(s[1..])
    ensures Strip(s) == s
  {
    assert s[|s| - 1] == s[1..][|s| - 2];
    StripUnchanged(s);
  }

  /** `int()` reads a run of digits after a minus sign as its negation. */
  lemma ParseIntOfNegativeRun(s: string)
    requires s != [] && s[0] == '-' && DigitRun(s[1..])
    ensures ParseInt(s) == Some(-(DigitsValue(s[1..]) as int))
  {
    NegativeRunStripped(s);
  }

  /** `int()` refuses text with whitespace inside it. */
  lemma ParseIntInnerSpace(s: string, k: nat)
    requires Strip(s) == s && 0 < k < |s| && IsSpace(s[k])
    ensures ParseInt(s) == None
  {
    if s[0] == '-' || s[0] == '+' {
      assert s[1..][k - 1] == s[k];
    }
  }

  /** `int(str(n)) == n` */
  /** A rendered integer neither starts nor ends with whitespace. */
  lemma IntToStringEdges(n: int)
    ensures !IsSpace(IntToString(n)[0]) && !IsSpace(IntToString(n)[|IntToString(n)| - 1])
  {
    var m: nat := if n < 0 then -n else n;
    var d := IntToString(n);
    assert d[|d| - 1] == Digits(m)[|Digits(m)| - 1];
  }

  lemma ParseIntToString(n: int)
    ensures ParseInt(IntToString(n)) == Some(n)
  {
    var m: nat := if n < 0 then -n else n;
    if n < 0 {
      var s := IntToString(n);
      assert s[1..] == Digits(m);
      DigitsRead(m);
      ParseIntOfNegativeRun(s);
    } else {
      DigitsRead(m);
      ParseIntOfDigitRun(Digits(m));
    }
  }

  // ---------------------------------------------------------------------------
  // Joining lists: `"".join(parts)`, `sum(lists, [])`

  /** The pieces one after another. */
  function Concat<T>(chunks: seq<seq<T>>): seq<T>
  {
    if chunks == [] then [] else chunks[0] + Concat(chunks[1..])
  }

  lemma {:induction false} ConcatAppend<T>(a: seq<seq<T>>, b: seq<seq<T>>)
    ensures Concat(a + b) == Concat(a) + Concat(b)
  {
    if a != [] {
      assert (a + b)[1..] == a[1..] + b;
      ConcatAppend(a[1..], b);
    } else {
      assert a + b == b;
    }
  }

  lemma ConcatSnoc(blocks: seq<string>, c: string)
    ensures Concat(blocks + [c]) == Concat(blocks) + c
  {
    ConcatAppend(blocks, [c]);
    assert [c][1..] == [];
  }

  /** The lines as they are written out, each with its newline. */
  function Newlined(lines: seq<string>): string {
    if lines == [] then [] else lines[0] + "\n" + Newlined(lines[1..])
  }
}
