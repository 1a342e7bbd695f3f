/**
 * The pieces both product checkers (services/zara_parser.py and
 * services/bershka_parser.py) write into a status text in the same way.
 */
module StatusLines {
  import opened Text
  import opened Urls

  const LinkText: string := "Посилання на товар"
  const OpenError: string := "⚠️ Помилка відкриття сторінки"
  const SizesHeading: string := "📏 Розміри:"

  /** The link line: the address as an HTML anchor around the given text. */
  function LinkLine(url: string, text: string): string {
    "🔗 <a href=\"" + url + "\">" + text + "</a>"
  }

  /** `name_el.text.strip()`, or "" when the heading is missing. */
  function ProductName(heading: Option<string>): string {
    if heading.Some? then Strip(heading.value) else ""
  }

  /** The name of a line-safe heading is line-safe. */
  lemma ProductNameSafe(heading: Option<string>)
    requires heading.Some? ==> LineSafe(heading.value)
    ensures LineSafe(ProductName(heading))
  {
    if heading.Some? {
      LineSafeStrip(heading.value);
    }
  }

  /** The link line of line-safe parts is line-safe. */
  lemma LinkLineSafe(url: string, text: string)
    requires LineSafe(url) && LineSafe(text)
    ensures LineSafe(LinkLine(url, text))
  {
    var opening := "🔗 <a href=\"";
    var middle := "\">";
    var closing := "</a>";
    assert LineSafe(opening) && LineSafe(middle) && LineSafe(closing);
    LineSafeConcat(opening, url);
    LineSafeConcat(opening + url, middle);
    LineSafeConcat(opening + url + middle, text);
    LineSafeConcat(opening + url + middle + text, closing);
  }

  /** The fixed lines both checkers share carry no marker and no line break. */
  lemma SharedLinesSafe()
    ensures LineSafe(LinkText) && LineSafe(OpenError) && LineSafe(SizesHeading)
  {
    assert PlainText(LinkText) && PlainText(OpenError) && PlainText(SizesHeading);
    PlainTextSafe(LinkText);
    PlainTextSafe(OpenError);
    PlainTextSafe(SizesHeading);
  }
}
