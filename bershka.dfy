/**
 * services/bershka_parser.py: `parse_sizes`, which turns the size buttons of a
 * Bershka product page into (label, available) entries, and
 * `check_bershka_one`, which writes the status text. The browser is not
 * modelled: what the page shows (the product heading, the size buttons with
 * their label text and attributes) is an input.
 */
module BershkaParser {
  import opened Text
  import opened Urls
  import opened StatusLines

  /** One size button: the text of its `span.text__label`, absent when that
      element cannot be found, and its attributes, each absent when not set. */
  datatype SizeButton = SizeButton(
    caption: Option<string>,
    classes: Option<string>,
    disabled: Option<string>,
    ariaDisabled: Option<string>,
    ariaDescription: Option<string>)

  /** An entry of the list `parse_sizes` returns. */
  datatype Size = Size(size: string, available: bool)

  /** A product page as `check_bershka_one` sees it. */
  datatype BershkaPage =
    | Unreachable
      // `driver.get(url)` raised
    | Loaded(heading: Option<string>, buttons: Option<seq<SizeButton>>)
      // `heading`: the product name element's text, absent when it never appears;
      // `buttons`: absent when the size container never appears

  const NoLabel: string := "(без назви)"
  const InStock: string := "📦 Статус: Є в наявності"
  const OutOfStock: string := "📦 Статус: Немає в наявності"
  const Undetermined: string := "📦 Статус: 😕 Не вдалося визначити наявність"
  const SizesNotFound: string := "📏 Розміри: (не знайдено)"

  /** `x or ""` for an attribute that may be absent. */
  function OrEmpty(attribute: Option<string>): string {
    if attribute.Some? then attribute.value else ""
  }

  /** The four signals any one of which marks a size as sold out. */
  predicate Unavailable(b: SizeButton) {
    || b.disabled.Some?
    || Contains(OrEmpty(b.classes), "is-disabled")
    || Lower(OrEmpty(b.ariaDisabled)) == "true"
    || Contains(Lower(Strip(OrEmpty(b.ariaDescription))), "розпродано")
  }

  /** The entry of one button. */
  function SizeOf(b: SizeButton): Size {
    Size(if b.caption.Some? then Strip(b.caption.value) else NoLabel, !Unavailable(b))
  }

  /** The entries of `parse_sizes`: none when the size container is missing. */
  function ParsedSizes(buttons: Option<seq<SizeButton>>): (sizes: seq<Size>)
    ensures buttons.None? ==> sizes == []
    ensures buttons.Some? ==> |sizes| == |buttons.value|
    ensures buttons.Some? ==> forall i :: 0 <= i < |sizes| ==>
      && sizes[i].size == (if buttons.value[i].caption.Some? then Strip(buttons.value[i].caption.value) else NoLabel)
      && (sizes[i].available <==> !Unavailable(buttons.value[i]))
  {
    if buttons.None? then [] else seq(|buttons.value|, i requires 0 <= i < |buttons.value| => SizeOf(buttons.value[i]))
  }

  /** `parse_sizes`: one entry per button, in button order, labelled with the
      stripped label text or the placeholder, available unless one of the
      sold-out signals is present. */
  method ParseSizes(buttons: Option<seq<SizeButton>>) returns (sizes: seq<Size>)
    ensures sizes == ParsedSizes(buttons)
  {
    sizes := [];
    if buttons.None? {
      return;
    }
    var bs := buttons.value;
    for k := 0 to |bs|
      invariant |sizes| == k
      invariant forall i :: 0 <= i < k ==> sizes[i] == SizeOf(bs[i])
    {
      var entry := ReadButton(bs[k]);
      sizes := sizes + [entry];
    }
  }

  /** The body of the loop over the buttons. */
  method ReadButton(b: SizeButton) returns (entry: Size)
    ensures entry == SizeOf(b)
  {
    var sizeLabel := if b.caption.Some? then Strip(b.caption.value) else NoLabel;
    var classes := OrEmpty(b.classes);
    var ariaDisabled := Lower(OrEmpty(b.ariaDisabled));
    var ariaDescription := Strip(OrEmpty(b.ariaDescription));
    var unavailable :=
      || b.disabled.Some?
      || Contains(classes, "is-disabled")
      || ariaDisabled == "true"
      || Contains(Lower(ariaDescription), "розпродано");
    entry := Size(sizeLabel, !unavailable);
  }

  /** Whether at least one entry is available. */
  function AnyAvailable(sizes: seq<Size>): (r: bool)
    ensures r <==> exists i :: 0 <= i < |sizes| && sizes[i].available
  {
    if sizes == [] then false
    else if sizes[0].available then true
    else
      var rest := AnyAvailable(sizes[1..]);
      assert forall i :: 1 <= i < |sizes| ==> sizes[i] == sizes[1..][i - 1];
      rest
  }

  /** The general status line. */
  function GeneralStatus(sizes: seq<Size>): (status: string)
    ensures status == InStock <==> exists i :: 0 <= i < |sizes| && sizes[i].available
    ensures status == OutOfStock <==> sizes != [] && forall i :: 0 <= i < |sizes| ==> !sizes[i].available
    ensures status == Undetermined <==> sizes == []
  {
    if sizes != [] then
      if AnyAvailable(sizes) then InStock else OutOfStock
    else Undetermined
  }

  /** An entry's size line: the green mark when it is available, the red one otherwise, then its label. */
  function SizeLine(s: Size): string {
    MarkedLine(if s.available then Green else Red, s.size)
  }

  /** The size lines, one per entry, in entry order. */
  function SizeLines(sizes: seq<Size>): seq<string>
  {
    if sizes == [] then [] else SizeLines(sizes[..|sizes| - 1]) + [SizeLine(sizes[|sizes| - 1])]
  }

  /** The first line: a link with the product name, or the default anchor text. */
  function FirstLine(url: string, name: string): string {
    LinkLine(url, if name != [] then name else LinkText)
  }

  /** The lines before any size line: everything, when no size was found. */
  function HeadLines(url: string, page: BershkaPage): seq<string>
  {
    match page
    case Unreachable => [OpenError]
    case Loaded(heading, buttons) =>
      var sizes := ParsedSizes(buttons);
      var head := [FirstLine(url, ProductName(heading)), GeneralStatus(sizes), ""];
      if sizes != [] then head + [SizesHeading] else head + [SizesNotFound]
  }

  /** The lines of the status text. */
  function BershkaLines(url: string, page: BershkaPage): seq<string>
  {
    if page.Loaded? then HeadLines(url, page) + SizeLines(ParsedSizes(page.buttons))
    else HeadLines(url, page)
  }

  /** The status text: its lines joined with newlines. */
  function BershkaText(url: string, page: BershkaPage): string {
    Join(BershkaLines(url, page), "\n")
  }

  /** `check_bershka_one`, line by line as the source appends them. */
  method CheckBershkaOne(url: string, page: BershkaPage) returns (text: string)
    ensures text == BershkaText(url, page)
  {
    if page.Unreachable? {
      return OpenError;
    }
    var name := ProductName(page.heading);
    var sizes := ParseSizes(page.buttons);
    var generalStatus := StatusOf(sizes);
    var lines := StartLines(url, name, generalStatus);
    if sizes != [] {
      lines := lines + [SizesHeading];
      lines := AppendSizeLines(lines, sizes);
    } else {
      lines := lines + [SizesNotFound];
      assert SizeLines(sizes) == [];
    }
    assert lines == BershkaLines(url, page);
    text := Join(lines, "\n");
  }

  /** The general status, as the source's branches choose it. */
  method StatusOf(sizes: seq<Size>) returns (generalStatus: string)
    ensures generalStatus == GeneralStatus(sizes)
  {
    if sizes != [] {
      if AnyAvailable(sizes) {
        generalStatus := InStock;
      } else {
        generalStatus := OutOfStock;
      }
    } else {
      generalStatus := Undetermined;
    }
  }

  /** The link line, the general status and the empty line. */
  method StartLines(url: string, name: string, generalStatus: string) returns (lines: seq<string>)
    ensures lines == [FirstLine(url, name), generalStatus, ""]
  {
    lines := [];
    if name != [] {
      lines := lines + [LinkLine(url, name)];
    } else {
      lines := lines + [LinkLine(url, LinkText)];
    }
    lines := lines + [generalStatus];
    lines := lines + [""];
  }

  /** The loop over the entries: one line per entry. */
  method AppendSizeLines(head: seq<string>, sizes: seq<Size>) returns (lines: seq<string>)
    ensures lines == head + SizeLines(sizes)
  {
    lines := head;
    for k := 0 to |sizes|
      invariant lines == head + SizeLines(sizes[..k])
    {
      assert sizes[..k + 1][..k] == sizes[..k];
      var s := sizes[k];
      var mark := if s.available then Green else Red;
      lines := lines + [MarkedLine(mark, s.size)];
    }
    assert sizes[..|sizes|] == sizes;
  }

  // ---------------------------------------------------------------------------
  // Reading the text back

  /** The size an entry announces as available, as the bot reads a size. */
  function Offered(s: Size): Option<string> {
    if s.available then SizeToken(s.size) else None
  }

  /** The sizes the entries announce as available. */
  function BershkaSizes(sizes: seq<Size>): set<string> {
    Gather(sizes, Offered)
  }

  /** The URL, the product heading and every label found are line-safe. */
  predicate CleanPage(url: string, page: BershkaPage) {
    && LineSafe(url)
    && (page.Loaded? && page.heading.Some? ==> LineSafe(page.heading.value))
    && (page.Loaded? && page.buttons.Some? ==>
          forall i :: 0 <= i < |page.buttons.value| ==>
            page.buttons.value[i].caption.Some? ==> LineSafe(page.buttons.value[i].caption.value))
  }

  /** Every label of a clean page is line-safe and already stripped. */
  predicate CleanSizes(sizes: seq<Size>) {
    forall i :: 0 <= i < |sizes| ==> LineSafe(sizes[i].size) && Strip(sizes[i].size) == sizes[i].size
  }

  lemma NoLabelClean()
    ensures LineSafe(NoLabel) && Strip(NoLabel) == NoLabel
  {
    assert PlainText(NoLabel);
    PlainTextSafe(NoLabel);
    StripUnchanged(NoLabel);
  }

  lemma ParsedSizesClean(url: string, page: BershkaPage)
    requires page.Loaded? && CleanPage(url, page)
    ensures CleanSizes(ParsedSizes(page.buttons))
  {
    var sizes := ParsedSizes(page.buttons);
    NoLabelClean();
    forall i | 0 <= i < |sizes| ensures LineSafe(sizes[i].size) && Strip(sizes[i].size) == sizes[i].size {
      var b := page.buttons.value[i];
      if b.caption.Some? {
        LineSafeStrip(b.caption.value);
        StripStripped(b.caption.value);
      }
    }
  }

  /** The line of an entry with a clean label reads back as the size it offers. */
  lemma SizeLineReadBack(s: Size)
    requires LineSafe(s.size) && Strip(s.size) == s.size
    ensures LineSize(SizeLine(s)) == Offered(s)
    ensures NoLineBreak(SizeLine(s)) && SizeLine(s) != []
  {
    var mark := if s.available then Green else Red;
    MarkedLineSize(mark, s.size);
    MarkedLineIsLine(mark, s.size);
  }

  /** The size lines read back as the sizes the entries offer, and are all
      non-empty lines. */
  lemma SizeLinesReadBack(sizes: seq<Size>)
    requires CleanSizes(sizes)
    ensures SizesOfLines(SizeLines(sizes)) == BershkaSizes(sizes)
    ensures forall j :: 0 <= j < |SizeLines(sizes)| ==> NoLineBreak(SizeLines(sizes)[j]) && SizeLines(sizes)[j] != []
  {
    SizeLinesRead(sizes);
    SizeLinesAreLines(sizes);
  }

  lemma {:induction false} SizeLinesRead(sizes: seq<Size>)
    requires CleanSizes(sizes)
    ensures SizesOfLines(SizeLines(sizes)) == BershkaSizes(sizes)
  {
    if sizes != [] {
      var init := sizes[..|sizes| - 1];
      assert forall i :: 0 <= i < |init| ==> init[i] == sizes[i];
      SizeLinesRead(init);
      SizeLineReadBack(sizes[|sizes| - 1]);
      var lines := SizeLines(sizes);
      assert lines[..|lines| - 1] == SizeLines(init);
    }
  }

  lemma {:induction false} SizeLinesAreLines(sizes: seq<Size>)
    requires CleanSizes(sizes)
    ensures |SizeLines(sizes)| == |sizes|
    ensures forall j :: 0 <= j < |SizeLines(sizes)| ==> NoLineBreak(SizeLines(sizes)[j]) && SizeLines(sizes)[j] != []
  {
    if sizes != [] {
      var init := sizes[..|sizes| - 1];
      assert forall i :: 0 <= i < |init| ==> init[i] == sizes[i];
      SizeLinesAreLines(init);
      SizeLineReadBack(sizes[|sizes| - 1]);
    }
  }

  lemma FixedLinesSafe()
    ensures LineSafe(InStock) && LineSafe(OutOfStock) && LineSafe(SizesNotFound) && LineSafe("")
  {
    InStockSafe();
    OutOfStockSafe();
    SizesNotFoundSafe();
  }

  lemma InStockSafe()
    ensures LineSafe(InStock)
  {
    assert PlainText(InStock);
    PlainTextSafe(InStock);
  }

  lemma OutOfStockSafe()
    ensures LineSafe(OutOfStock)
  {
    assert PlainText(OutOfStock);
    PlainTextSafe(OutOfStock);
  }

  lemma SizesNotFoundSafe()
    ensures LineSafe(SizesNotFound)
  {
    assert PlainText(SizesNotFound);
    PlainTextSafe(SizesNotFound);
  }

  lemma UndeterminedSafe()
    ensures LineSafe(Undetermined)
  {
    assert PlainText(Undetermined);
    PlainTextSafe(Undetermined);
  }

  /** The lines before the size lines: none carries a marker or a break. */
  lemma HeadLinesSafe(url: string, page: BershkaPage)
    requires CleanPage(url, page)
    ensures SafeLines(HeadLines(url, page))
  {
    SharedLinesSafe();
    if page.Loaded? {
      var name := ProductName(page.heading);
      ProductNameSafe(page.heading);
      LinkLineSafe(url, if name != [] then name else LinkText);
      FixedLinesSafe();
      UndeterminedSafe();
      var sizes := ParsedSizes(page.buttons);
      var head := [FirstLine(url, name), GeneralStatus(sizes), ""];
      assert SafeLines(head);
      SafeLinesConcat(head, [SizesHeading]);
      SafeLinesConcat(head, [SizesNotFound]);
    }
  }

  /** What `check_bershka_one` writes reads back as exactly the sizes of the
      entries marked available; an unreachable page reads back as none. */
  lemma BershkaRoundTrip(url: string, page: BershkaPage)
    requires CleanPage(url, page)
    ensures AvailableSizes(BershkaText(url, page)) ==
      if page.Loaded? then BershkaSizes(ParsedSizes(page.buttons)) else {}
  {
    HeadLinesSafe(url, page);
    if page.Loaded? {
      var sizes := ParsedSizes(page.buttons);
      ParsedSizesClean(url, page);
      SizeLinesReadBack(sizes);
      StatusTextSizes(HeadLines(url, page), SizeLines(sizes));
    } else {
      StatusTextSizes(HeadLines(url, page), []);
      assert HeadLines(url, page) + [] == HeadLines(url, page);
      GatherNothing([], LineSize);
    }
  }

  /** Splitting the text gives back the lines `check_bershka_one` joined; the
      second line of a loaded page is the general status, not a product name. */
  lemma BershkaTextLines(url: string, page: BershkaPage)
    requires CleanPage(url, page)
    ensures SplitLines(BershkaText(url, page)) == BershkaLines(url, page)
    ensures page.Unreachable? ==> BershkaLines(url, page) == [OpenError]
    ensures page.Loaded? ==>
      |BershkaLines(url, page)| >= 4 && BershkaLines(url, page)[1] == GeneralStatus(ParsedSizes(page.buttons))
  {
    var lines := BershkaLines(url, page);
    var head := HeadLines(url, page);
    HeadLinesSafe(url, page);
    var body := if page.Loaded? then SizeLines(ParsedSizes(page.buttons)) else [];
    if page.Loaded? {
      ParsedSizesClean(url, page);
      SizeLinesReadBack(ParsedSizes(page.buttons));
    }
    assert lines == head + body;
    forall i | 0 <= i < |lines| ensures NoLineBreak(lines[i]) {
      if i < |head| { assert lines[i] == head[i]; } else { assert lines[i] == body[i - |head|]; }
    }
    SplitLinesJoin(lines);
  }

  /** The text offers a size only when its status line says in stock. */
  lemma OfferedOnlyInStock(url: string, page: BershkaPage)
    requires CleanPage(url, page)
    requires AvailableSizes(BershkaText(url, page)) != {}
    ensures page.Loaded? && GeneralStatus(ParsedSizes(page.buttons)) == InStock
  {
    BershkaRoundTrip(url, page);
    var sizes := ParsedSizes(page.buttons);
    var t :| t in BershkaSizes(sizes);
    GatherMembership(sizes, Offered, t);
  }
}
