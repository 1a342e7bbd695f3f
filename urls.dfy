/**
 * utils/urls.py: picking URLs out of a chat message, telling the shop of a
 * URL from its host name, and reading the set of in-stock sizes back out of a
 * status text written by the page checkers.
 */
module Urls {
  import opened Text

  /** In stock. */
  const Green: char := '🟢'
  /** Only a few left; counted as in stock. */
  const Yellow: char := '🟡'
  /** Out of stock; written by the checkers, ignored when reading sizes back. */
  const Red: char := '🔴'

  // ---------------------------------------------------------------------------
  // extract_urls

  /** The characters `strip("()[],.<>\"'")` removes from both ends of a match. */
  const UrlEdges: CharClass := Chars("()[],.<>\"'")

  predicate HasHttpScheme(u: string) {
    StartsWith(u, "http://") || StartsWith(u, "https://")
  }

  /** The length of a match of `https?://\S+` at the start of `text`, if any. */
  function UrlMatchLength(text: string): (n: Option<nat>)
    ensures n.Some? ==> n.value <= |text| && HasHttpScheme(text[..n.value]) && NoSpace(text[..n.value])
    ensures n.Some? ==> n.value == |text| || IsSpace(text[n.value])
  {
    var p := if StartsWith(text, "https://") then 8 else if StartsWith(text, "http://") then 7 else 0;
    if p == 0 then None
    else
      var w := Word(text[p..]);
      if w == [] then None
      else
        assert text[..p + |w|] == text[..p] + w;
        assert text[..p + |w|][..p] == text[..p];
        Some(p + |w|)
  }

  /** `URL_REGEX.findall(text)`: the leftmost, non-overlapping matches, in order. */
  function FindUrls(text: string): (matches: seq<string>)
    ensures forall i :: 0 <= i < |matches| ==> HasHttpScheme(matches[i]) && NoSpace(matches[i])
    decreases |text|
  {
    if text == [] then []
    else
      var m := UrlMatchLength(text);
      if m.Some? then [text[..m.value]] + FindUrls(text[m.value..])
      else FindUrls(text[1..])
  }

  /** What `extract_urls` promises of each URL it returns. */
  predicate IsCleanUrl(u: string) {
    HasHttpScheme(u) && NoSpace(u) && !In(u[|u| - 1], UrlEdges)
  }

  /** Stripping the edge characters never reaches into the scheme, because
      `h` and `/` are not edge characters. */
  lemma StripEdgesKeepsScheme(u: string)
    requires HasHttpScheme(u) && NoSpace(u)
    ensures IsCleanUrl(StripChars(u, UrlEdges))
  {
    var p := if StartsWith(u, "https://") then 8 else 7;
    assert u[0] == 'h' && u[p - 1] == '/' by {
      assert u[..p] == if p == 8 then "https://" else "http://";
    }
    assert !In(u[0], UrlEdges) && !In(u[p - 1], UrlEdges);
    assert TrimLeft(u, UrlEdges) == u;
    var r := TrimRight(u, UrlEdges);
    TrimRightKeeps(u, UrlEdges, p - 1);
    assert r[..p] == u[..p];
    assert forall j :: 0 <= j < |r| ==> r[j] == u[j];
  }

  /** `extract_urls`: every match of the URL pattern with the edge characters
      stripped; every match survives the `if u:` test. */
  method ExtractUrls(text: string) returns (cleaned: seq<string>)
    ensures text == [] ==> cleaned == []
    ensures |cleaned| == |FindUrls(text)|
    ensures forall i :: 0 <= i < |cleaned| ==> cleaned[i] == StripChars(FindUrls(text)[i], UrlEdges)
    ensures forall i :: 0 <= i < |cleaned| ==> IsCleanUrl(cleaned[i])
  {
    if text == [] {
      return [];
    }
    var raw := FindUrls(text);
    cleaned := [];
    for k := 0 to |raw|
      invariant |cleaned| == k
      invariant forall i :: 0 <= i < k ==> cleaned[i] == StripChars(raw[i], UrlEdges)
    {
      var u := StripChars(raw[k], UrlEdges);
      StripEdgesKeepsScheme(raw[k]);
      if u != [] {
        cleaned := cleaned + [u];
      }
    }
    forall i | 0 <= i < |cleaned| ensures IsCleanUrl(cleaned[i]) {
      StripEdgesKeepsScheme(raw[i]);
    }
  }

  // ---------------------------------------------------------------------------
  // detect_brand

  datatype Brand = Zara | Bershka

  /** The name `detect_brand` returns and the `brand` column stores. */
  function BrandName(b: Brand): string {
    match b
    case Zara => "zara"
    case Bershka => "bershka"
  }

  predicate IsAsciiLetter(c: char) {
    ('a' <= c <= 'z') || ('A' <= c <= 'Z')
  }

  predicate IsSchemeChar(c: char) {
    IsAsciiLetter(c) || IsDigit(c) || c == '+' || c == '-' || c == '.'
  }

  /** Where `urlsplit` would cut a scheme off: the first `:` when it follows a
      non-empty run of scheme characters that starts with a letter. */
  function SchemeEnd(url: string): (k: Option<nat>)
    ensures k.Some? ==> 0 < k.value < |url| && url[k.value] == ':'
  {
    if ':' !in url then None
    else
      var i := IndexOf(url, ':');
      if i > 0 && IsAsciiLetter(url[0]) && forall j :: 0 <= j < i ==> IsSchemeChar(url[j]) then Some(i)
      else None
  }

  /** The length of the network location: up to the first `/`, `?` or `#`. */
  function NetlocLength(s: string): (n: nat)
    ensures n <= |s|
    ensures forall j :: 0 <= j < n ==> s[j] != '/' && s[j] != '?' && s[j] != '#'
    ensures n < |s| ==> s[n] == '/' || s[n] == '?' || s[n] == '#'
  {
    if s == [] || s[0] == '/' || s[0] == '?' || s[0] == '#' then 0 else 1 + NetlocLength(s[1..])
  }

  /** `urlparse(url).netloc`; `None` where `urlparse` raises `ValueError` for
      an unbalanced `[` or `]`. */
  function Netloc(url: string): Option<string>
  {
    var rest := if SchemeEnd(url).Some? then url[SchemeEnd(url).value + 1..] else url;
    if !StartsWith(rest, "//") then Some([])
    else
      var netloc := rest[2..][..NetlocLength(rest[2..])];
      if ('[' in netloc) != (']' in netloc) then None else Some(netloc)
  }

  /** `detect_brand` once the network location is known: Zara is tested first. */
  function BrandOfNetloc(netloc: string): (b: Option<Brand>)
    ensures b == Some(Zara) <==> exists i: nat :: OccursAt(Lower(netloc), "zara.com", i)
    ensures b == Some(Bershka) <==>
      && (forall i: nat :: !OccursAt(Lower(netloc), "zara.com", i))
      && (exists i: nat :: OccursAt(Lower(netloc), "bershka.com", i))
    ensures b == None <==>
      && (forall i: nat :: !OccursAt(Lower(netloc), "zara.com", i))
      && (forall i: nat :: !OccursAt(Lower(netloc), "bershka.com", i))
  {
    var host := Lower(netloc);
    ContainsAt(host, "zara.com");
    ContainsAt(host, "bershka.com");
    if Contains(host, "zara.com") then Some(Zara)
    else if Contains(host, "bershka.com") then Some(Bershka)
    else None
  }

  /** `detect_brand(url)`: `None` also when `urlparse` fails. */
  function DetectBrand(url: string): Option<Brand>
  {
    match Netloc(url)
    case None => None
    case Some(netloc) => BrandOfNetloc(netloc)
  }

  /** A stretch free of `/`, `?` and `#` that ends the text or is followed by
      one of them is the network location's length. */
  lemma {:induction false} NetlocLengthUnique(s: string, n: nat)
    requires n <= |s|
    requires forall j :: 0 <= j < n ==> s[j] != '/' && s[j] != '?' && s[j] != '#'
    requires n < |s| ==> s[n] == '/' || s[n] == '?' || s[n] == '#'
    ensures NetlocLength(s) == n
  {
    if n > 0 {
      assert s[0] != '/' && s[0] != '?' && s[0] != '#';
      assert forall j :: 0 <= j < n - 1 ==> s[1..][j] == s[j + 1];
      NetlocLengthUnique(s[1..], n - 1);
    }
  }

  /** `http:` and `https:` are cut off as the scheme, whatever follows. */
  lemma WebScheme(scheme: string, rest: string)
    requires scheme == "http" || scheme == "https"
    ensures SchemeEnd(scheme + ":" + rest) == Some(|scheme|)
  {
    var url := scheme + ":" + rest;
    assert url[|scheme|] == ':';
    assert forall j :: 0 <= j < |scheme| ==> url[j] == scheme[j];
    IndexOfUnique(url, ':', |scheme|);
  }

  /** After `//`, the network location runs up to the path. */
  lemma HostBeforePath(host: string, path: string)
    requires forall j :: 0 <= j < |host| ==> host[j] !in "/?#"
    requires path == [] || path[0] == '/'
    ensures var s := host + path; s[..NetlocLength(s)] == host
  {
    var s := host + path;
    assert forall j :: 0 <= j < |host| ==> s[j] == host[j];
    NetlocLengthUnique(s, |host|);
    assert s[..|host|] == host;
  }

  /** The host of an `http(s)://host/...` link is its network location. */
  lemma NetlocOfWebUrl(scheme: string, host: string, path: string)
    requires scheme == "http" || scheme == "https"
    requires forall j :: 0 <= j < |host| ==> host[j] !in "/?#[]"
    requires path == [] || path[0] == '/'
    ensures Netloc(scheme + "://" + host + path) == Some(host)
  {
    var rest := "//" + host + path;
    var url := scheme + "://" + host + path;
    assert SchemeEnd(url) == Some(|scheme|) && url[|scheme| + 1..] == rest by {
      assert url == scheme + ":" + rest;
      WebScheme(scheme, rest);
    }
    assert StartsWith(rest, "//") && rest[2..] == host + path;
    var s := host + path;
    assert s[..NetlocLength(s)] == host by {
      HostBeforePath(host, path);
    }
    assert '[' !in host && ']' !in host by {
      assert forall j :: 0 <= j < |host| ==> host[j] != '[' && host[j] != ']';
    }
  }

  // ---------------------------------------------------------------------------
  // extract_available_sizes

  /** The characters `lstrip("• ")` removes. */
  const BulletOrSpace: CharClass := Chars("• ")

  /** `re.sub(r"<.*?>", "", s)` on one line: each `<` with a `>` after it opens
      a tag that closes at the first such `>`, and the tag is removed. */
  function RemoveTags(s: string): (r: string)
    ensures |r| <= |s|
    ensures '<' !in s ==> r == s
    decreases |s|
  {
    if s == [] then []
    else if s[0] == '<' && '>' in s[1..] then RemoveTags(s[1..][IndexOf(s[1..], '>') + 1..])
    else
      [s[0]] + RemoveTags(s[1..])
  }

  /** A size token as the bot stores and compares it. */
  predicate IsSizeToken(t: string) {
    t != [] && NoSpace(t) && forall i :: 0 <= i < |t| ==> !IsLower(t[i])
  }

  /** The last two steps for a line: tags removed, then the first word,
      upper-cased; nothing when only tags or spaces remain. */
  function SizeToken(line: string): (t: Option<string>)
    ensures t.Some? ==> IsSizeToken(t.value)
  {
    var u := Strip(RemoveTags(line));
    if u == [] then None else Some(Upper(Word(u)))
  }

  /** What one line of a status text contributes to the availability set. */
  function LineSize(rawLine: string): (t: Option<string>)
    ensures t.Some? ==> IsSizeToken(t.value)
  {
    var line := Strip(rawLine);
    if Green !in line && Yellow !in line then None
    else
      var bare := Strip(TrimLeft(line, BulletOrSpace));
      var tail :=
        if Green in bare then Strip(After(bare, Green))
        else if Yellow in bare then Strip(After(bare, Yellow))
        else bare;
      SizeToken(tail)
  }

  /** What one line adds to the set. */
  function Contribution(size: Option<string>): set<string> {
    if size.Some? then {size.value} else {}
  }

  /** The union of what each line contributes under `read`, gathered line by line. */
  function Gather<T>(lines: seq<T>, read: T -> Option<string>): set<string>
  {
    if lines == [] then {}
    else Gather(lines[..|lines| - 1], read) + Contribution(read(lines[|lines| - 1]))
  }

  /** A value is gathered exactly when some line yields it. */
  lemma {:induction false} GatherMembership<T>(lines: seq<T>, read: T -> Option<string>, t: string)
    ensures t in Gather(lines, read) <==> exists i :: 0 <= i < |lines| && read(lines[i]) == Some(t)
  {
    if lines != [] {
      var init := lines[..|lines| - 1];
      GatherMembership(init, read, t);
      assert forall i :: 0 <= i < |init| ==> init[i] == lines[i];
    }
  }

  /** The sizes a sequence of lines marks as available. */
  function SizesOfLines(lines: seq<string>): set<string>
  {
    Gather(lines, LineSize)
  }

  /** Reading one more line adds what that line contributes. */
  lemma SizesOfLinesStep(lines: seq<string>, k: nat)
    requires k < |lines|
    ensures SizesOfLines(lines[..k + 1]) == SizesOfLines(lines[..k]) + Contribution(LineSize(lines[k]))
  {
    assert lines[..k + 1][..k] == lines[..k];
  }

  lemma SizesOfLinesMembership(lines: seq<string>, t: string)
    ensures t in SizesOfLines(lines) <==> exists i :: 0 <= i < |lines| && LineSize(lines[i]) == Some(t)
  {
    GatherMembership(lines, LineSize, t);
  }

  /** The availability set of a status text. */
  function AvailableSizes(statusText: string): set<string>
  {
    SizesOfLines(SplitLines(statusText))
  }

  /** Every size read back is non-empty, free of whitespace and upper-case. */
  lemma AvailableSizesAreTokens(statusText: string)
    ensures forall t :: t in AvailableSizes(statusText) ==> IsSizeToken(t)
  {
    forall t | t in AvailableSizes(statusText) ensures IsSizeToken(t) {
      SizesOfLinesMembership(SplitLines(statusText), t);
    }
  }

  /** `extract_available_sizes`, line by line as the source rewrites `line`. */
  method ExtractAvailableSizes(statusText: string) returns (sizes: set<string>)
    ensures sizes == AvailableSizes(statusText)
  {
    sizes := {};
    var lines := SplitLines(statusText);
    for k := 0 to |lines|
      invariant sizes == SizesOfLines(lines[..k])
    {
      SizesOfLinesStep(lines, k);
      var line := Strip(lines[k]);
      if Green !in line && Yellow !in line {
        assert LineSize(lines[k]) == None;
        assert SizesOfLines(lines[..k + 1]) == sizes;
        continue;
      }
      line := Strip(TrimLeft(line, BulletOrSpace));
      if Green in line {
        line := Strip(After(line, Green));
      } else if Yellow in line {
        line := Strip(After(line, Yellow));
      }
      ghost var tail := line;
      assert LineSize(lines[k]) == SizeToken(tail);
      line := Strip(RemoveTags(line));
      if line == [] {
        assert SizeToken(tail) == None;
        assert SizesOfLines(lines[..k + 1]) == sizes;
        continue;
      }
      var token := Upper(Word(line));
      assert SizeToken(tail) == Some(token);
      assert LineSize(lines[k]) == Some(token);
      sizes := sizes + {token};
      assert sizes == SizesOfLines(lines[..k + 1]);
    }
    assert lines[..|lines|] == lines;
  }

  // ---------------------------------------------------------------------------
  // Properties of the availability set

  /** A character missing from a text is missing from any slice of it. */
  lemma AbsentFromSlice(s: string, c: char, a: nat, b: nat)
    requires a <= b <= |s| && c !in s
    ensures c !in s[a..b]
  {
    assert forall j :: 0 <= j < b - a ==> s[a..b][j] == s[a + j];
  }

  /** A line with neither marker contributes nothing. */
  lemma UnmarkedLineIgnored(rawLine: string)
    requires Green !in rawLine && Yellow !in rawLine
    ensures LineSize(rawLine) == None
  {
    var a, b := StripSlice(rawLine);
    AbsentFromSlice(rawLine, Green, a, b);
    AbsentFromSlice(rawLine, Yellow, a, b);
  }

  /** A text with neither marker yields the empty set. */
  lemma UnmarkedTextHasNoSizes(statusText: string)
    requires Green !in statusText && Yellow !in statusText
    ensures AvailableSizes(statusText) == {}
  {
    var lines := SplitLines(statusText);
    forall t | t in AvailableSizes(statusText) ensures false {
      SizesOfLinesMembership(lines, t);
      var i :| 0 <= i < |lines| && LineSize(lines[i]) == Some(t);
      LinesOfTextAreInfixes(statusText, lines[i]);
      UnmarkedLineIgnored(lines[i]);
    }
  }

  /** Every character of a line comes from the text it was split from. */
  lemma {:induction false} LinesOfTextAreInfixes(s: string, l: string)
    requires l in SplitLines(s)
    ensures forall c :: c in l ==> c in s
    decreases |s|
  {
    var n := LineLength(s);
    if l == s[..n] {
    } else {
      var next := if s[n] == '\r' && n + 1 < |s| && s[n + 1] == '\n' then n + 2 else n + 1;
      LinesOfTextAreInfixes(s[next..], l);
    }
  }

  /** In a slice that reaches over the first `c` of `raw`, that `c` is the
      slice's first `c` too, and what follows it is the rest of the slice. */
  lemma FirstInSlice(raw: string, c: char, a: nat, b: nat)
    requires c in raw && a <= IndexOf(raw, c) < b <= |raw|
    ensures c in raw[a..b]
    ensures After(raw[a..b], c) == raw[IndexOf(raw, c) + 1..b]
  {
    var i := IndexOf(raw, c);
    var s := raw[a..b];
    var k := i - a;
    assert s[k] == c;
    forall j | 0 <= j < k
      ensures s[j] != c
    {
      assert s[j] == raw[..i][a + j];
    }
    IndexOfUnique(s, c, k);
    assert s[k + 1..] == raw[i + 1..b];
  }

  /** The line with a marker `c`, after the outer strip, the bullet strip and
      the inner strip, is a slice `raw[a..b]` that still holds the first `c`
      of `raw` and is followed in `raw` by whitespace only. */
  lemma BareLineSlice(raw: string, c: char) returns (a: nat, b: nat)
    requires c in raw && !IsSpace(c) && !In(c, BulletOrSpace)
    ensures c in Strip(raw)
    ensures a <= IndexOf(raw, c) < b <= |raw|
    ensures Strip(TrimLeft(Strip(raw), BulletOrSpace)) == raw[a..b]
    ensures forall j :: b <= j < |raw| ==> IsSpace(raw[j])
  {
    var i := IndexOf(raw, c);
    var a1, b1 := StripAround(raw, i);
    assert Strip(raw)[i - a1] == c;
    a, b := StripTrimStrip(raw, BulletOrSpace, i);
  }

  /** The size is read from the text after the first marker `c` of the line. */
  lemma TailAfterMarker(raw: string, c: char)
    requires c in raw && !IsSpace(c) && !In(c, BulletOrSpace)
    ensures c in Strip(raw)
    ensures c in Strip(TrimLeft(Strip(raw), BulletOrSpace))
    ensures Strip(After(Strip(TrimLeft(Strip(raw), BulletOrSpace)), c)) == Strip(After(raw, c))
  {
    var a, b := BareLineSlice(raw, c);
    TailOfSlice(raw, c, a, b, Strip(TrimLeft(Strip(raw), BulletOrSpace)));
  }

  /** Cutting a line down to a slice that holds its first `c` and is followed
      by whitespace only does not change what `strip()` keeps after `c`. */
  lemma TailOfSlice(raw: string, c: char, a: nat, b: nat, bare: string)
    requires c in raw && a <= IndexOf(raw, c) < b <= |raw| && bare == raw[a..b]
    requires forall j :: b <= j < |raw| ==> IsSpace(raw[j])
    ensures c in bare && Strip(After(bare, c)) == Strip(After(raw, c))
  {
    var i := IndexOf(raw, c);
    FirstInSlice(raw, c, a, b);
    var tail := raw[i + 1..b];
    assert After(bare, c) == tail;
    assert After(raw, c) == tail + raw[b..] by {
      SliceSplit(raw, i + 1, b);
    }
    StripIgnoresTrailingSpace(tail, raw[b..]);
  }

  /** Text made of whitespace and complete tags `<...>` only. */
  predicate TagsAndSpaces(s: string)
    decreases |s|
  {
    if s == [] then true
    else if IsSpace(s[0]) then TagsAndSpaces(s[1..])
    else s[0] == '<' && '>' in s[1..] && TagsAndSpaces(s[1..][IndexOf(s[1..], '>') + 1..])
  }

  /** Removing the tags of such text leaves only whitespace. */
  lemma {:induction false} RemoveTagsLeavesSpaces(s: string)
    requires TagsAndSpaces(s)
    ensures forall i :: 0 <= i < |RemoveTags(s)| ==> IsSpace(RemoveTags(s)[i])
    decreases |s|
  {
    if s != [] {
      if IsSpace(s[0]) {
        RemoveTagsLeavesSpaces(s[1..]);
      } else {
        RemoveTagsLeavesSpaces(s[1..][IndexOf(s[1..], '>') + 1..]);
      }
    }
  }

  /** Whitespace alone strips to nothing. */
  lemma StripSpaces(s: string)
    requires forall i :: 0 <= i < |s| ==> IsSpace(s[i])
    ensures Strip(s) == []
  {
    var a, b := StripSlice(s);
  }

  /** A tail of tags and whitespace only names no size. */
  lemma TagsOnlyNoSize(tail: string)
    requires TagsAndSpaces(tail)
    ensures SizeToken(tail) == None
  {
    RemoveTagsLeavesSpaces(tail);
    StripSpaces(RemoveTags(tail));
  }

  /** A line marked `🟢` whose text after the marker is only tags and
      whitespace adds no size. */
  lemma EmptyMarkedLine(rawLine: string)
    requires Green in rawLine && TagsAndSpaces(Strip(After(rawLine, Green)))
    ensures LineSize(rawLine) == None
  {
    GreenLineSize(rawLine);
    TagsOnlyNoSize(Strip(After(rawLine, Green)));
  }

  /** The line "🟢 <b></b>", a size label left empty, adds no size. */
  lemma EmptyBoldLine()
    ensures LineSize("🟢 <b></b>") == None
  {
    var raw := "🟢 <b></b>";
    assert raw[0] == Green;
    assert IndexOf(raw, Green) == 0;
    var tail := After(raw, Green);
    assert tail == " <b></b>";
    StripIsSlice(tail, 1, 8);
    assert Strip(tail) == "<b></b>";
    EmptyBoldTags();
    EmptyMarkedLine(raw);
  }

  lemma EmptyBoldTags()
    ensures TagsAndSpaces("<b></b>")
  {
    var tag := "<b></b>";
    assert tag[1..] == "b></b>" && IndexOf(tag[1..], '>') == 1;
    assert tag[1..][2..] == "</b>";
    var close := "</b>";
    assert close[1..] == "/b>" && IndexOf(close[1..], '>') == 2;
    assert close[1..][3..] == [];
    assert TagsAndSpaces(close);
  }

  /** When a line holds `🟢`, the size comes from the text after its first `🟢`,
      whether or not the line also holds `🟡`. */
  lemma GreenLineSize(rawLine: string)
    requires Green in rawLine
    ensures LineSize(rawLine) == SizeToken(Strip(After(rawLine, Green)))
  {
    TailAfterMarker(rawLine, Green);
    StripStripped(After(rawLine, Green));
  }

  /** When a line holds `🟡` and no `🟢`, the size comes from the text after
      its first `🟡`. */
  lemma YellowLineSize(rawLine: string)
    requires Green !in rawLine && Yellow in rawLine
    ensures LineSize(rawLine) == SizeToken(Strip(After(rawLine, Yellow)))
  {
    var a, b := BareLineSlice(rawLine, Yellow);
    AbsentFromSlice(rawLine, Green, a, b);
    TailAfterMarker(rawLine, Yellow);
    StripStripped(After(rawLine, Yellow));
  }

  lemma StripStripped(s: string)
    ensures Strip(Strip(s)) == Strip(s)
  {
    StripUnchanged(Strip(s));
  }

  /** Each line is read on its own: two texts whose lines are the same
      collection, in any order and with any repetition, have the same set. */
  lemma SizesIgnoreLineOrder(text1: string, text2: string)
    requires forall l :: l in SplitLines(text1) <==> l in SplitLines(text2)
    ensures AvailableSizes(text1) == AvailableSizes(text2)
  {
    forall t | t in AvailableSizes(text1) ensures t in AvailableSizes(text2) {
      SameLinesSameSize(SplitLines(text1), SplitLines(text2), t);
    }
    forall t | t in AvailableSizes(text2) ensures t in AvailableSizes(text1) {
      SameLinesSameSize(SplitLines(text2), SplitLines(text1), t);
    }
  }

  lemma SameLinesSameSize(lines1: seq<string>, lines2: seq<string>, t: string)
    requires forall l :: l in lines1 ==> l in lines2
    requires t in SizesOfLines(lines1)
    ensures t in SizesOfLines(lines2)
  {
    SizesOfLinesMembership(lines1, t);
    SizesOfLinesMembership(lines2, t);
    var i :| 0 <= i < |lines1| && LineSize(lines1[i]) == Some(t);
    assert lines1[i] in lines2;
    var j :| 0 <= j < |lines2| && lines2[j] == lines1[i];
  }

  /** A size is available exactly when some line marks it. */
  lemma AvailableSizesMembership(statusText: string, t: string)
    ensures t in AvailableSizes(statusText) <==>
      exists l :: l in SplitLines(statusText) && LineSize(l) == Some(t)
  {
    var lines := SplitLines(statusText);
    SizesOfLinesMembership(lines, t);
    if l :| l in lines && LineSize(l) == Some(t) {
      var i :| 0 <= i < |lines| && lines[i] == l;
    }
  }

  // ---------------------------------------------------------------------------
  // Reading back the status texts the page checkers write

  /** Free of both in-stock markers. */
  predicate MarkerFree(s: string) {
    Green !in s && Yellow !in s
  }

  /** The size line `f"{mark} {label}"` of a status text. */
  function MarkedLine(mark: char, sizeLabel: string): (line: string)
    ensures |line| == |sizeLabel| + 2 && line[0] == mark && line[2..] == sizeLabel
  {
    [mark, ' '] + sizeLabel
  }

  /** A size line whose label has no line break is one line. */
  lemma MarkedLineIsLine(mark: char, sizeLabel: string)
    requires mark == Green || mark == Yellow || mark == Red
    requires NoLineBreak(sizeLabel)
    ensures NoLineBreak(MarkedLine(mark, sizeLabel))
  {
    var line := MarkedLine(mark, sizeLabel);
    assert forall j :: 2 <= j < |line| ==> line[j] == sizeLabel[j - 2];
  }

  /** `strip()` of a stripped text behind one space is that text. */
  lemma StripAfterSpace(sizeLabel: string)
    requires Strip(sizeLabel) == sizeLabel
    ensures Strip([' '] + sizeLabel) == sizeLabel
  {
    var s := [' '] + sizeLabel;
    if sizeLabel == [] {
      StripBlank(s);
    } else {
      assert s[1..|sizeLabel| + 1] == sizeLabel;
      StripIsSlice(s, 1, |sizeLabel| + 1);
    }
  }

  /** A size line written with a green or yellow mark reads back as the size
      token of its sizeLabel; one written with a red mark reads back as nothing. */
  lemma MarkedLineSize(mark: char, sizeLabel: string)
    requires mark == Green || mark == Yellow || mark == Red
    requires MarkerFree(sizeLabel) && Strip(sizeLabel) == sizeLabel
    ensures LineSize(MarkedLine(mark, sizeLabel)) == if mark == Red then None else SizeToken(sizeLabel)
  {
    var line := MarkedLine(mark, sizeLabel);
    assert forall j :: 2 <= j < |line| ==> line[j] == sizeLabel[j - 2];
    if mark == Red {
      UnmarkedLineIgnored(line);
    } else {
      IndexOfUnique(line, mark, 0);
      assert After(line, mark) == [' '] + sizeLabel;
      StripAfterSpace(sizeLabel);
      if mark == Green {
        GreenLineSize(line);
      } else {
        YellowLineSize(line);
      }
    }
  }

  /** A size is read back from a text written line by line exactly when one
      of its lines marks it. */
  lemma WrittenTextSizes(lines: seq<string>, t: string)
    requires forall i :: 0 <= i < |lines| ==> NoLineBreak(lines[i])
    requires lines != [] ==> lines[|lines| - 1] != []
    ensures t in AvailableSizes(Join(lines, "\n")) <==>
      exists i :: 0 <= i < |lines| && LineSize(lines[i]) == Some(t)
  {
    SplitLinesJoin(lines);
    SizesOfLinesMembership(lines, t);
  }

  /** Text fit to be a line of a status text read back by the bot: no line
      break and no in-stock marker. */
  predicate LineSafe(s: string) {
    MarkerFree(s) && NoLineBreak(s)
  }

  /** A printable character that is neither a line break nor an in-stock marker. */
  predicate Plain(c: char) {
    ' ' <= c && c != '\U{85}' && c != '\U{2028}' && c != '\U{2029}' && c != Green && c != Yellow
  }

  /** A text of plain characters, as every fixed line of a status text is. */
  predicate PlainText(s: string) {
    forall i :: 0 <= i < |s| ==> Plain(s[i])
  }

  lemma PlainTextSafe(s: string)
    requires PlainText(s)
    ensures LineSafe(s)
  {
    assert forall i :: 0 <= i < |s| ==> s[i] != Green && s[i] != Yellow;
  }

  lemma LineSafeConcat(a: string, b: string)
    ensures LineSafe(a + b) <==> LineSafe(a) && LineSafe(b)
  {
    var s := a + b;
    assert forall j :: 0 <= j < |a| ==> s[j] == a[j];
    assert forall j :: 0 <= j < |b| ==> s[|a| + j] == b[j];
    assert forall j :: |a| <= j < |s| ==> s[j] == b[j - |a|];
  }

  /** What `strip()` keeps of line-safe text is line-safe. */
  lemma LineSafeStrip(s: string)
    requires LineSafe(s)
    ensures LineSafe(Strip(s))
  {
    var a, b := StripSlice(s);
    AbsentFromSlice(s, Green, a, b);
    AbsentFromSlice(s, Yellow, a, b);
    assert forall j :: 0 <= j < b - a ==> s[a..b][j] == s[a + j];
  }

  /** Reading the lines of `a + b` is reading `a`, then `b`. */
  lemma {:induction false} GatherAppend<T>(a: seq<T>, b: seq<T>, read: T -> Option<string>)
    ensures Gather(a + b, read) == Gather(a, read) + Gather(b, read)
    decreases |b|
  {
    if b == [] {
      assert a + b == a;
    } else {
      var init := b[..|b| - 1];
      assert (a + b)[..|a + b| - 1] == a + init;
      GatherAppend(a, init, read);
    }
  }

  /** Lines that yield nothing gather nothing. */
  lemma {:induction false} GatherNothing<T>(lines: seq<T>, read: T -> Option<string>)
    requires forall i :: 0 <= i < |lines| ==> read(lines[i]).None?
    ensures Gather(lines, read) == {}
  {
    if lines != [] {
      GatherNothing(lines[..|lines| - 1], read);
    }
  }

  /** Leading lines that carry no marker do not change what is read back. */
  lemma UnmarkedHead(head: seq<string>, body: seq<string>)
    requires forall i :: 0 <= i < |head| ==> MarkerFree(head[i])
    ensures SizesOfLines(head + body) == SizesOfLines(body)
  {
    forall i | 0 <= i < |head| ensures LineSize(head[i]).None? {
      UnmarkedLineIgnored(head[i]);
    }
    GatherNothing(head, LineSize);
    GatherAppend(head, body, LineSize);
  }

  /** Lines none of which carries a marker or a line break. */
  predicate SafeLines(lines: seq<string>) {
    forall i :: 0 <= i < |lines| ==> LineSafe(lines[i])
  }

  lemma SafeLinesConcat(a: seq<string>, b: seq<string>)
    ensures SafeLines(a + b) <==> SafeLines(a) && SafeLines(b)
  {
    var s := a + b;
    assert forall j :: 0 <= j < |a| ==> s[j] == a[j];
    assert forall j :: 0 <= j < |b| ==> s[|a| + j] == b[j];
  }

  /** A status text whose first lines are line-safe and whose remaining lines
      are non-empty lines reads back as those remaining lines do. */
  lemma StatusTextSizes(head: seq<string>, body: seq<string>)
    requires SafeLines(head)
    requires forall j :: 0 <= j < |body| ==> NoLineBreak(body[j]) && body[j] != []
    requires body == [] && head != [] ==> head[|head| - 1] != []
    ensures AvailableSizes(Join(head + body, "\n")) == SizesOfLines(body)
  {
    JoinableLines(head, body);
    SplitLinesJoin(head + body);
    UnmarkedHead(head, body);
  }

  /** The lines of such a status text may be joined and split back. */
  lemma JoinableLines(head: seq<string>, body: seq<string>)
    requires SafeLines(head)
    requires forall j :: 0 <= j < |body| ==> NoLineBreak(body[j]) && body[j] != []
    requires body == [] && head != [] ==> head[|head| - 1] != []
    ensures forall i :: 0 <= i < |head + body| ==> NoLineBreak((head + body)[i])
    ensures head + body != [] ==> (head + body)[|head + body| - 1] != []
  {
    var lines := head + body;
    forall i | 0 <= i < |lines| ensures NoLineBreak(lines[i]) {
      if i < |head| { assert lines[i] == head[i]; } else { assert lines[i] == body[i - |head|]; }
    }
  }
}
