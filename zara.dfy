/**
 * services/zara_parser.py, `check_zara`: the status text written for one
 * Zara product page. The browser is not modelled: what the page shows (the
 * product heading, whether the add-to-cart button is there, the size
 * buttons with their label text and `data-qa-action`) is an input.
 */
module ZaraParser {
  import opened Text
  import opened Urls
  import opened StatusLines

  /** One button of the size pop-up: the text of its label element, absent
      when that element cannot be found, and its `data-qa-action`. */
  datatype SizeButton = SizeButton(caption: Option<string>, action: Option<string>)

  /** A product page as `check_zara` sees it. */
  datatype ZaraPage =
    | Unreachable
      // `driver.get(url)` raised
    | Loaded(heading: Option<string>, addToCart: bool, buttons: Option<seq<SizeButton>>)
      // `heading`: the product name element's text, absent when it never appears;
      // `buttons`: absent when the size list never appears

  const Header: string := "<b>🧵 Zara</b>"
  const NoAddButton: string := NoAddFirst + NoAddSecond
  // written in two halves only so that each half can be checked character by character
  const NoAddFirst: string := "❌ Кнопку 'Додати у кошик' не знайдено"
  const NoAddSecond: string := " — товар/розміри можуть бути недоступні."
  const SizesMissing: string := "❗ Розміри не знайдені"

  /** The product name line, present only when the name is not empty. */
  function NameLines(name: string): seq<string> {
    if name != [] then [name] else []
  }

  /** The mark for a button, from its lower-cased `data-qa-action`. */
  function Mark(action: Option<string>): (m: char)
    ensures m == Green || m == Yellow || m == Red
    ensures m == Green <==> action.Some? && Lower(action.value) == "size-in-stock"
    ensures m == Yellow <==> action.Some? && Lower(action.value) == "size-low-on-stock"
  {
    var a := if action.Some? then Lower(action.value) else "";
    if a == "size-in-stock" then Green
    else if a == "size-low-on-stock" then Yellow
    else Red
  }

  /** The line of one button, none when its label cannot be found. */
  function SizeLine(b: SizeButton): Option<string> {
    if b.caption.Some? then Some(MarkedLine(Mark(b.action), Strip(b.caption.value))) else None
  }

  /** The size lines of the buttons, in button order. */
  function SizeLines(bs: seq<SizeButton>): seq<string>
  {
    if bs == [] then []
    else
      var line := SizeLine(bs[|bs| - 1]);
      SizeLines(bs[..|bs| - 1]) + (if line.Some? then [line.value] else [])
  }

  /** The lines before any size line: everything, when the page failed. */
  function HeadLines(url: string, page: ZaraPage): seq<string>
  {
    match page
    case Unreachable => [Header, LinkLine(url, LinkText), OpenError]
    case Loaded(heading, addToCart, buttons) =>
      var name := ProductName(heading);
      if !addToCart then [Header] + NameLines(name) + [LinkLine(url, LinkText), NoAddButton]
      else
        var head := [Header] + NameLines(name) + [LinkLine(url, name), SizesHeading];
        if buttons.None? then head + [SizesMissing] else head
  }

  /** The lines of the status text. */
  function ZaraLines(url: string, page: ZaraPage): seq<string>
  {
    if page.Loaded? && page.addToCart && page.buttons.Some?
    then HeadLines(url, page) + SizeLines(page.buttons.value)
    else HeadLines(url, page)
  }

  /** The status text: its lines joined with newlines. */
  function ZaraText(url: string, page: ZaraPage): string {
    Join(ZaraLines(url, page), "\n")
  }

  /** `check_zara`, line by line as the source appends them. */
  method CheckZara(url: string, page: ZaraPage) returns (text: string)
    ensures text == ZaraText(url, page)
  {
    if page.Unreachable? {
      // the three lines of the source's one f-string
      return Join([Header, LinkLine(url, LinkText), OpenError], "\n");
    }
    var name := ProductName(page.heading);
    if !page.addToCart {
      var headerLines := StartLines(name);
      headerLines := headerLines + [LinkLine(url, LinkText)];
      headerLines := headerLines + [NoAddButton];
      assert headerLines == [Header] + NameLines(name) + [LinkLine(url, LinkText), NoAddButton];
      return Join(headerLines, "\n");
    }
    var lines := StartLines(name);
    lines := lines + [LinkLine(url, name)];
    lines := lines + [SizesHeading];
    if page.buttons.None? {
      lines := lines + [SizesMissing];
    } else {
      lines := AppendSizeLines(lines, page.buttons.value);
    }
    assert lines == ZaraLines(url, page);
    text := Join(lines, "\n");
  }

  /** The header line, then the product name when it is not empty. */
  method StartLines(name: string) returns (lines: seq<string>)
    ensures lines == [Header] + NameLines(name)
  {
    lines := [Header];
    if name != [] {
      lines := lines + [name];
    }
  }

  /** The loop over the size buttons: a line for each button whose label is
      found, none for the others. */
  method AppendSizeLines(head: seq<string>, bs: seq<SizeButton>) returns (lines: seq<string>)
    ensures lines == head + SizeLines(bs)
  {
    lines := head;
    for k := 0 to |bs|
      invariant lines == head + SizeLines(bs[..k])
    {
      assert bs[..k + 1][..k] == bs[..k];
      var b := bs[k];
      if b.caption.None? {
        continue;
      }
      var sizeLabel := Strip(b.caption.value);
      var action := if b.action.Some? then Lower(b.action.value) else "";
      var mark;
      if action == "size-in-stock" {
        mark := Green;
      } else if action == "size-low-on-stock" {
        mark := Yellow;
      } else {
        mark := Red;
      }
      lines := lines + [MarkedLine(mark, sizeLabel)];
    }
    assert bs[..|bs|] == bs;
  }

  // ---------------------------------------------------------------------------
  // Reading the text back

  /** The size a button announces as in stock or low on stock, as the bot
      reads a size: tags removed, first word, upper-cased. */
  function Offered(b: SizeButton): Option<string> {
    if b.caption.Some? && Mark(b.action) != Red then SizeToken(Strip(b.caption.value)) else None
  }

  /** The sizes the buttons announce as in stock or low on stock. */
  function ZaraSizes(bs: seq<SizeButton>): set<string> {
    Gather(bs, Offered)
  }

  /** Every label, the product name and the URL are line-safe. */
  predicate CleanPage(url: string, page: ZaraPage) {
    && LineSafe(url)
    && (page.Loaded? && page.heading.Some? ==> LineSafe(page.heading.value))
    && (page.Loaded? && page.buttons.Some? ==>
          forall i :: 0 <= i < |page.buttons.value| ==>
            page.buttons.value[i].caption.Some? ==> LineSafe(page.buttons.value[i].caption.value))
  }

  /** The line of a labelled button reads back as the size it offers. */
  lemma SizeLineReadBack(b: SizeButton)
    requires b.caption.Some? && LineSafe(b.caption.value)
    ensures LineSize(SizeLine(b).value) == Offered(b)
    ensures NoLineBreak(SizeLine(b).value) && SizeLine(b).value != []
  {
    var sizeLabel := Strip(b.caption.value);
    LineSafeStrip(b.caption.value);
    StripStripped(b.caption.value);
    MarkedLineSize(Mark(b.action), sizeLabel);
    MarkedLineIsLine(Mark(b.action), sizeLabel);
  }

  /** The size lines read back as the sizes the buttons offer. */
  lemma {:induction false} SizeLinesReadBack(bs: seq<SizeButton>)
    requires forall i :: 0 <= i < |bs| ==> bs[i].caption.Some? ==> LineSafe(bs[i].caption.value)
    ensures SizesOfLines(SizeLines(bs)) == ZaraSizes(bs)
  {
    if bs != [] {
      var init := bs[..|bs| - 1];
      var b := bs[|bs| - 1];
      assert forall i :: 0 <= i < |init| ==> init[i] == bs[i];
      SizeLinesReadBack(init);
      var lines := SizeLines(bs);
      if b.caption.Some? {
        SizeLineReadBack(b);
        assert lines[..|lines| - 1] == SizeLines(init);
      } else {
        assert lines == SizeLines(init);
      }
    }
  }

  /** Every size line is a non-empty line. */
  lemma {:induction false} SizeLinesAreLines(bs: seq<SizeButton>)
    requires forall i :: 0 <= i < |bs| ==> bs[i].caption.Some? ==> LineSafe(bs[i].caption.value)
    ensures forall j :: 0 <= j < |SizeLines(bs)| ==> NoLineBreak(SizeLines(bs)[j]) && SizeLines(bs)[j] != []
  {
    if bs != [] {
      var init := bs[..|bs| - 1];
      var b := bs[|bs| - 1];
      assert forall i :: 0 <= i < |init| ==> init[i] == bs[i];
      SizeLinesAreLines(init);
      if b.caption.Some? {
        SizeLineReadBack(b);
      }
    }
  }

  /** The lines before the size lines: none carries a marker or a break. */
  lemma HeadLinesSafe(url: string, page: ZaraPage)
    requires CleanPage(url, page)
    ensures SafeLines(HeadLines(url, page))
  {
    FixedLinesSafe();
    if page.Unreachable? {
      LinkLineSafe(url, LinkText);
      return;
    }
    var name := ProductName(page.heading);
    ProductNameSafe(page.heading);
    assert SafeLines(NameLines(name));
    var start := [Header] + NameLines(name);
    SafeLinesConcat([Header], NameLines(name));
    if !page.addToCart {
      LinkLineSafe(url, LinkText);
      SafeLinesConcat(start, [LinkLine(url, LinkText), NoAddButton]);
    } else {
      LinkLineSafe(url, name);
      var head := start + [LinkLine(url, name), SizesHeading];
      SafeLinesConcat(start, [LinkLine(url, name), SizesHeading]);
      SafeLinesConcat(head, [SizesMissing]);
    }
  }

  /** The fixed lines carry no marker and no line break. */
  lemma FixedLinesSafe()
    ensures LineSafe(Header) && LineSafe(OpenError) && LineSafe(LinkText)
    ensures LineSafe(SizesHeading) && LineSafe(NoAddButton) && LineSafe(SizesMissing)
  {
    assert PlainText(Header) && PlainText(SizesMissing);
    PlainTextSafe(Header);
    PlainTextSafe(SizesMissing);
    SharedLinesSafe();
    NoAddButtonSafe();
  }

  lemma NoAddButtonSafe()
    ensures LineSafe(NoAddButton)
  {
    NoAddHalvesSafe();
    LineSafeConcat(NoAddFirst, NoAddSecond);
  }

  lemma NoAddHalvesSafe()
    ensures LineSafe(NoAddFirst) && LineSafe(NoAddSecond)
  {
    NoAddFirstSafe();
    NoAddSecondSafe();
  }

  lemma NoAddFirstSafe()
    ensures LineSafe(NoAddFirst)
  {
    assert PlainText(NoAddFirst);
    PlainTextSafe(NoAddFirst);
  }

  lemma NoAddSecondSafe()
    ensures LineSafe(NoAddSecond)
  {
    assert PlainText(NoAddSecond);
    PlainTextSafe(NoAddSecond);
  }

  /** What `check_zara` writes for a page with sizes reads back as exactly the
      sizes whose buttons say in stock or low on stock. */
  lemma ZaraRoundTrip(url: string, page: ZaraPage)
    requires page.Loaded? && page.addToCart && page.buttons.Some?
    requires CleanPage(url, page)
    ensures AvailableSizes(ZaraText(url, page)) == ZaraSizes(page.buttons.value)
  {
    var bs := page.buttons.value;
    HeadLinesSafe(url, page);
    SizeLinesAreLines(bs);
    StatusTextSizes(HeadLines(url, page), SizeLines(bs));
    SizeLinesReadBack(bs);
  }

  /** A page that failed (unreachable, no add-to-cart button, no size list)
      reads back as no size at all. */
  lemma ZaraFailureNoSizes(url: string, page: ZaraPage)
    requires !(page.Loaded? && page.addToCart && page.buttons.Some?)
    requires CleanPage(url, page)
    ensures AvailableSizes(ZaraText(url, page)) == {}
  {
    var head := HeadLines(url, page);
    HeadLinesSafe(url, page);
    StatusTextSizes(head, []);
    assert head + [] == head;
    GatherNothing([], LineSize);
  }

  /** Splitting the text into lines gives back the lines `check_zara` joined;
      in particular its second line is the product name when there is one. */
  lemma ZaraTextLines(url: string, page: ZaraPage)
    requires CleanPage(url, page)
    ensures SplitLines(ZaraText(url, page)) == ZaraLines(url, page)
    ensures |ZaraLines(url, page)| >= 3
    ensures ZaraLines(url, page)[1] ==
      if page.Loaded? && ProductName(page.heading) != [] then ProductName(page.heading)
      else if page.Loaded? && page.addToCart then LinkLine(url, [])
      else LinkLine(url, LinkText)
  {
    var lines := ZaraLines(url, page);
    var head := HeadLines(url, page);
    HeadLinesSafe(url, page);
    var body := if page.Loaded? && page.addToCart && page.buttons.Some? then SizeLines(page.buttons.value) else [];
    if body != [] {
      SizeLinesAreLines(page.buttons.value);
    }
    assert lines == head + body;
    forall i | 0 <= i < |lines| ensures NoLineBreak(lines[i]) {
      if i < |head| { assert lines[i] == head[i]; } else { assert lines[i] == body[i - |head|]; }
    }
    SplitLinesJoin(lines);
  }
}
