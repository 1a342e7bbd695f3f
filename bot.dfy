// The monitoring core of bot.py: the notification text, the wanted-size
// filter, the per-subscription change decision, and one monitoring pass over
// the active subscriptions, grouped by chat.

module Bot {
  import opened Text
  import opened Urls
  import StatusLines
  import ZaraParser
  import BershkaParser
  import SeleniumParser

  const DefaultLabel: string := "Товар"
  const NoSizes: string := "—"
  const SizeSeparator: string := ", "

  // ---------------------------------------------------------------------------
  // `html.escape`

  predicate Special(c: char) {
    c == '&' || c == '<' || c == '>' || c == '"' || c == '\''
  }

  function EscapeChar(c: char): string {
    match c
    case '&' => "&amp;"
    case '<' => "&lt;"
    case '>' => "&gt;"
    case '"' => "&quot;"
    case '\'' => "&#x27;"
    case _ => [c]
  }

  /** `html.escape(s)`: markup characters and quotes become entities, so the
      result cannot open or close a tag or end an attribute value. */
  function Escape(s: string): (r: string)
    ensures forall i :: 0 <= i < |r| ==> r[i] != '<' && r[i] != '>' && r[i] != '"' && r[i] != '\''
  {
    if s == [] then [] else EscapeChar(s[0]) + Escape(s[1..])
  }

  /** Text with no character to escape is left as it is. */
  lemma {:induction false} EscapePlain(s: string)
    requires forall i :: 0 <= i < |s| ==> !Special(s[i])
    ensures Escape(s) == s
  {
    if s != [] {
      EscapePlain(s[1..]);
    }
  }

  // ---------------------------------------------------------------------------
  // Wanted sizes

  /** The size filter a subscription stores: each comma piece stripped and
      upper-cased, blank pieces dropped; no filter at all is the empty set,
      which stands for every size. */
  function WantedSizes(sizesRaw: Option<string>): (w: set<string>)
    ensures sizesRaw.None? || sizesRaw.value == [] ==> w == {}
    ensures forall t :: t in w ==> t != [] && Upper(t) == t
  {
    if sizesRaw.None? || sizesRaw.value == [] then {}
    else
      var pieces := SplitOn(sizesRaw.value, ',');
      var w := set p | p in pieces && Strip(p) != [] :: Upper(Strip(p));
      assert forall t :: t in w ==> Upper(t) == t by {
        forall t | t in w ensures Upper(t) == t {
          var p :| p in pieces && Strip(p) != [] && t == Upper(Strip(p));
          UpperIdempotent(Strip(p));
        }
      }
      w
  }

  /** A size is wanted exactly when some comma piece of the filter, stripped
      and upper-cased, is that size. */
  lemma WantedSizesMembership(sizesRaw: string, t: string)
    requires sizesRaw != []
    ensures t in WantedSizes(Some(sizesRaw)) <==>
      exists p :: p in SplitOn(sizesRaw, ',') && Strip(p) != [] && Upper(Strip(p)) == t
  {
  }

  // ---------------------------------------------------------------------------
  // The notification text

  /** The product name the title shows: the second line of the status text,
      stripped, or nothing when the text has fewer than two lines. */
  function TitleName(statusText: string): (name: string)
    ensures name == [] || (!IsSpace(name[0]) && !IsSpace(name[|name| - 1]))
    ensures NoLineBreak(name)
    ensures name != [] ==> |SplitLines(statusText)| >= 2 && Contains(SplitLines(statusText)[1], name)
  {
    var lines := SplitLines(statusText);
    if |lines| >= 2 then
      StripInside(lines[1]);
      Strip(lines[1])
    else ""
  }

  /** The strip of a line without breaks has no break and occurs in the line. */
  lemma StripInside(line: string)
    requires NoLineBreak(line)
    ensures NoLineBreak(Strip(line))
    ensures Contains(line, Strip(line))
  {
    var a, b := StripSlice(line);
    ContainsAt(line, line[a..b]);
    assert OccursAt(line, line[a..b], a);
  }

  /** The shop named in the title: the stored brand, else the brand of the
      address, capitalised; the generic label when neither is known. */
  function BrandLabel(url: string, brand: Option<string>): (shop: string)
    ensures shop != []
  {
    var stored := Strip(if brand.Some? then brand.value else "");
    var named := if stored != [] then stored else (if DetectBrand(url).Some? then BrandName(DetectBrand(url).value) else "");
    if named != [] then Capitalize(named) else DefaultLabel
  }

  /** The sizes the notification lists: the available ones the user wants
      (all available ones when the filter is empty), sorted, each once. */
  function ShownSizes(available: set<string>, wanted: set<string>): (shown: seq<string>)
    ensures forall x :: x in shown <==> x in available && (wanted == {} || x in wanted)
    ensures StrictlySorted(shown)
  {
    SortedSet(if wanted != {} then available * wanted else available)
  }

  /** The sizes as the notification lists them: every shown size, separated
      by commas, or a dash when there is none. */
  function SizesList(shown: seq<string>): (list: string)
    ensures shown == [] ==> list == NoSizes
    ensures forall k :: 0 <= k < |shown| ==> Contains(list, shown[k])
  {
    if shown != [] then
      JoinContainsAll(shown, SizeSeparator);
      Join(shown, SizeSeparator)
    else NoSizes
  }

  /** The title: the shop label, then the escaped product name when there
      is one. */
  function Title(url: string, brand: Option<string>, statusText: string): (t: string)
    ensures StartsWith(t, BrandLabel(url, brand))
    ensures t == BrandLabel(url, brand) <==> TitleName(statusText) == []
  {
    var name := TitleName(statusText);
    if name != [] then BrandLabel(url, brand) + " — " + Escape(name) else BrandLabel(url, brand)
  }

  /** `build_notify_text`: the title in bold on the first line, then the
      change notice and the link, and last the sizes on offer. */
  function NotifyText(url: string, brand: Option<string>, statusText: string,
                      available: set<string>, wanted: set<string>): (text: string)
    ensures StartsWith(text, "🆕 <b>" + Title(url, brand, statusText) + "</b>\n")
    ensures EndsWith(text, "📏 Доступні розміри зараз: <b>" + SizesList(ShownSizes(available, wanted)) + "</b>")
  {
    var heading := "🆕 <b>" + Title(url, brand, statusText) + "</b>\n";
    var link := "Зміни в наявності!\n\n" + "🔗 <a href=\"" + url + "\">" + StatusLines.LinkText + "</a>\n\n";
    var sizes := "📏 Доступні розміри зараз: <b>" + SizesList(ShownSizes(available, wanted)) + "</b>";
    HeadAndTail(heading, link, sizes);
    heading + link + sizes
  }

  /** Three pieces in a row start with the first and end with the last. */
  lemma HeadAndTail(head: string, middle: string, tail: string)
    ensures StartsWith(head + middle + tail, head)
    ensures EndsWith(head + middle + tail, tail)
  {
    assert (head + middle + tail)[..|head|] == head;
    assert (head + middle + tail)[|head + middle|..] == tail;
  }

  /** Without a stored brand, the label is the capitalised brand of the
      address, or the generic label for an unsupported address. */
  lemma BrandLabelDetected(url: string)
    ensures DetectBrand(url) == Some(Zara) ==> BrandLabel(url, None) == "Zara"
    ensures DetectBrand(url) == Some(Bershka) ==> BrandLabel(url, None) == "Bershka"
    ensures DetectBrand(url) == None ==> BrandLabel(url, None) == DefaultLabel
  {
    StripUnchanged("");
    assert Lower("ara") == "ara";
    assert Lower("ershka") == "ershka";
  }

  /** A stored brand that is not blank wins over the address. */
  lemma BrandLabelStored(url: string, brand: string)
    requires Strip(brand) != []
    ensures BrandLabel(url, Some(brand)) == Capitalize(Strip(brand))
  {
  }

  /** For a Zara page with a product name, the title shows that name. */
  lemma ZaraTitleName(url: string, page: ZaraParser.ZaraPage)
    requires ZaraParser.CleanPage(url, page)
    requires page.Loaded? && StatusLines.ProductName(page.heading) != []
    ensures TitleName(ZaraParser.ZaraText(url, page)) == StatusLines.ProductName(page.heading)
  {
    ZaraParser.ZaraTextLines(url, page);
    StripUnchanged(StatusLines.ProductName(page.heading));
  }

  /** For a Zara page without a product name, the second line is the link
      line, so the title shows that line's markup, escaped. */
  lemma ZaraTitleWithoutName(url: string, page: ZaraParser.ZaraPage)
    requires ZaraParser.CleanPage(url, page)
    requires page.Loaded? && page.addToCart && StatusLines.ProductName(page.heading) == []
    ensures TitleName(ZaraParser.ZaraText(url, page)) == StatusLines.LinkLine(url, [])
  {
    ZaraParser.ZaraTextLines(url, page);
    var line := StatusLines.LinkLine(url, []);
    assert line[0] == '🔗' && line[|line| - 1] == '>';
    StripUnchanged(line);
  }

  /** For a Bershka page the second line is the general stock status, so the
      title shows that status where a product name was meant. */
  lemma BershkaTitleIsStatus(url: string, page: BershkaParser.BershkaPage)
    requires BershkaParser.CleanPage(url, page)
    requires page.Loaded?
    ensures TitleName(BershkaParser.BershkaText(url, page)) ==
      BershkaParser.GeneralStatus(BershkaParser.ParsedSizes(page.buttons))
  {
    BershkaParser.BershkaTextLines(url, page);
    var status := BershkaParser.GeneralStatus(BershkaParser.ParsedSizes(page.buttons));
    assert status[0] == '📦';
    StripUnchanged(status);
  }

  // ---------------------------------------------------------------------------
  // The decision for one subscription

  /** What one subscription's check leads to: the status written back to the
      store, and the notification sent, if any. */
  datatype Decision = Decision(write: Option<string>, send: Option<string>)

  /** The per-subscription body of `monitor_loop`: availability sets are
      compared, not texts; a change is written back before anything else is
      decided; a change to no sizes at all, or to sizes the user does not
      want, is written but not announced. */
  function Decide(url: string, brand: Option<string>, sizesRaw: Option<string>,
                  newStatus: Option<string>, oldStatus: string): (d: Decision)
    ensures d.write.Some? <==>
      newStatus.Some? && newStatus.value != [] && AvailableSizes(newStatus.value) != AvailableSizes(oldStatus)
    ensures d.write.Some? ==> d.write == newStatus
    ensures d.send.Some? ==> d.write.Some?
    ensures d.send.Some? <==>
      && d.write.Some?
      && AvailableSizes(newStatus.value) != {}
      && (WantedSizes(sizesRaw) == {} || AvailableSizes(newStatus.value) * WantedSizes(sizesRaw) != {})
    ensures d.send.Some? ==>
      d.send.value == NotifyText(url, brand, newStatus.value, AvailableSizes(newStatus.value), WantedSizes(sizesRaw))
  {
    if newStatus.None? || newStatus.value == [] then Decision(None, None)
    else
      var newAvailable := AvailableSizes(newStatus.value);
      var oldAvailable := AvailableSizes(oldStatus);
      if newAvailable == oldAvailable then Decision(None, None)
      else if newAvailable == {} then Decision(newStatus, None)
      else
        var wanted := WantedSizes(sizesRaw);
        var trigger := wanted == {} || newAvailable * wanted != {};
        if !trigger then Decision(newStatus, None)
        else Decision(newStatus, Some(NotifyText(url, brand, newStatus.value, newAvailable, wanted)))
  }

  /** A notification lists only sizes that are available and wanted, and
      at least one of them. */
  lemma NotifiedSizesWanted(url: string, brand: Option<string>, sizesRaw: Option<string>,
                            newStatus: Option<string>, oldStatus: string)
    requires Decide(url, brand, sizesRaw, newStatus, oldStatus).send.Some?
    ensures ShownSizes(AvailableSizes(newStatus.value), WantedSizes(sizesRaw)) != []
  {
    var available := AvailableSizes(newStatus.value);
    var wanted := WantedSizes(sizesRaw);
    var x :| x in (if wanted != {} then available * wanted else available);
    assert x in ShownSizes(available, wanted);
  }

  // ---------------------------------------------------------------------------
  // Grouping the active subscriptions by chat

  /** One row of the active subscriptions. */
  datatype Row = Row(id: int, chatId: int, url: string, brand: Option<string>,
                     lastStatus: Option<string>, sizes: Option<string>)

  /** What a chat's list keeps of a row. */
  datatype Item = Item(subId: int, url: string, brand: Option<string>, sizesRaw: Option<string>)

  function ItemOf(r: Row): Item {
    Item(r.id, r.url, r.brand, r.sizes)
  }

  /** The chats in the order their first row appears. */
  function ChatOrder(rows: seq<Row>): seq<int> {
    if rows == [] then []
    else
      var order := ChatOrder(rows[..|rows| - 1]);
      var c := rows[|rows| - 1].chatId;
      if c in order then order else order + [c]
  }

  /** A chat's items, in row order. */
  function Group(rows: seq<Row>, chat: int): seq<Item> {
    if rows == [] then []
    else
      var r := rows[|rows| - 1];
      Group(rows[..|rows| - 1], chat) + (if r.chatId == chat then [ItemOf(r)] else [])
  }

  /** The last stored status of each subscription, a missing one read as empty. */
  function LastStatuses(rows: seq<Row>): map<int, string> {
    if rows == [] then map[]
    else
      var r := rows[|rows| - 1];
      LastStatuses(rows[..|rows| - 1])[r.id := if r.lastStatus.Some? then r.lastStatus.value else ""]
  }

  /** The grouping loop of `monitor_loop`. */
  method GroupRows(rows: seq<Row>) returns (chats: seq<int>, usersMap: map<int, seq<Item>>, lastStatusMap: map<int, string>)
    ensures chats == ChatOrder(rows)
    ensures forall c :: c in usersMap <==> c in chats
    ensures forall c :: c in usersMap ==> usersMap[c] == Group(rows, c)
    ensures lastStatusMap == LastStatuses(rows)
  {
    chats, usersMap, lastStatusMap := [], map[], map[];
    for k := 0 to |rows|
      invariant chats == ChatOrder(rows[..k])
      invariant forall c :: c in usersMap <==> c in chats
      invariant forall c :: c in usersMap ==> usersMap[c] == Group(rows[..k], c)
      invariant lastStatusMap == LastStatuses(rows[..k])
    {
      var r := rows[k];
      assert rows[..k + 1][..k] == rows[..k];
      lastStatusMap := lastStatusMap[r.id := if r.lastStatus.Some? then r.lastStatus.value else ""];
      if r.chatId !in usersMap {
        GroupAbsent(rows[..k], r.chatId);
        usersMap := usersMap[r.chatId := []];
        chats := chats + [r.chatId];
      }
      usersMap := usersMap[r.chatId := usersMap[r.chatId] + [ItemOf(r)]];
    }
    assert rows[..|rows|] == rows;
  }

  /** A chat appears once in the order, exactly when some row belongs to it. */
  lemma {:induction false} ChatOrderMembers(rows: seq<Row>, c: int)
    ensures c in ChatOrder(rows) <==> exists i :: 0 <= i < |rows| && rows[i].chatId == c
    ensures forall i, j :: 0 <= i < j < |ChatOrder(rows)| ==> ChatOrder(rows)[i] != ChatOrder(rows)[j]
  {
    if rows != [] {
      var init := rows[..|rows| - 1];
      ChatOrderMembers(init, c);
      assert forall i :: 0 <= i < |init| ==> init[i] == rows[i];
    }
  }

  /** A chat with no rows has no items. */
  lemma {:induction false} GroupAbsent(rows: seq<Row>, c: int)
    requires c !in ChatOrder(rows)
    ensures Group(rows, c) == []
  {
    if rows != [] {
      GroupAbsent(rows[..|rows| - 1], c);
    }
  }

  /** How often a chat occurs in a list of chats. */
  function Occurrences(cs: seq<int>, c: int): nat {
    if cs == [] then 0 else Occurrences(cs[..|cs| - 1], c) + (if cs[|cs| - 1] == c then 1 else 0)
  }

  lemma {:induction false} OccursOnce(cs: seq<int>, c: int)
    requires forall i, j :: 0 <= i < j < |cs| ==> cs[i] != cs[j]
    ensures Occurrences(cs, c) == if c in cs then 1 else 0
  {
    if cs != [] {
      var init := cs[..|cs| - 1];
      OccursOnce(init, c);
      if cs[|cs| - 1] == c {
        assert c !in init by {
          forall i | 0 <= i < |init| ensures init[i] != c {
            assert cs[i] != cs[|cs| - 1];
          }
        }
      }
    }
  }

  /** The number of items over the groups of the given chats. */
  function GroupedCount(rows: seq<Row>, cs: seq<int>): nat {
    if cs == [] then 0 else GroupedCount(rows, cs[..|cs| - 1]) + |Group(rows, cs[|cs| - 1])|
  }

  lemma {:induction false} GroupedCountStep(rows: seq<Row>, r: Row, cs: seq<int>)
    ensures GroupedCount(rows + [r], cs) == GroupedCount(rows, cs) + Occurrences(cs, r.chatId)
  {
    if cs != [] {
      GroupedCountStep(rows, r, cs[..|cs| - 1]);
      assert (rows + [r])[..|rows|] == rows;
    }
  }

  /** Every row lands in exactly one group: the groups of all chats hold as
      many items as there are rows, and a row is in its own chat's group. */
  lemma {:induction false} GroupsPartition(rows: seq<Row>)
    ensures GroupedCount(rows, ChatOrder(rows)) == |rows|
  {
    if rows != [] {
      var init := rows[..|rows| - 1];
      var r := rows[|rows| - 1];
      var order := ChatOrder(init);
      assert rows == init + [r];
      GroupsPartition(init);
      ChatOrderMembers(init, r.chatId);
      OccursOnce(order, r.chatId);
      GroupedCountStep(init, r, order);
      if r.chatId !in order {
        GroupAbsent(init, r.chatId);
        assert ChatOrder(rows)[..|ChatOrder(rows)| - 1] == order;
      }
    }
  }

  lemma {:induction false} RowInGroup(rows: seq<Row>, i: int)
    requires 0 <= i < |rows|
    ensures ItemOf(rows[i]) in Group(rows, rows[i].chatId)
  {
    if i < |rows| - 1 {
      RowInGroup(rows[..|rows| - 1], i);
    }
  }

  // ---------------------------------------------------------------------------
  // One monitoring pass

  /** What a pass does to the outside world, in order: status write-backs to
      the store and messages to chats. */
  datatype Event = Write(subId: int, status: string) | Send(chatId: int, text: string)

  /** The events of one subscription, given its chat's fresh statuses. */
  function ItemEvents(chat: int, item: Item, statusMap: map<string, string>, lastStatusMap: map<int, string>): seq<Event> {
    var newStatus := if item.url in statusMap then Some(statusMap[item.url]) else None;
    var oldStatus := if item.subId in lastStatusMap then lastStatusMap[item.subId] else "";
    Effects(chat, item.subId, Decide(item.url, item.brand, item.sizesRaw, newStatus, oldStatus))
  }

  /** A decision as events: the write-back, then the message. */
  function Effects(chat: int, subId: int, d: Decision): seq<Event> {
    (if d.write.Some? then [Write(subId, d.write.value)] else [])
    + (if d.send.Some? then [Send(chat, d.send.value)] else [])
  }

  function ChatEvents(chat: int, items: seq<Item>, statusMap: map<string, string>, lastStatusMap: map<int, string>): seq<Event> {
    if items == [] then []
    else ChatEvents(chat, items[..|items| - 1], statusMap, lastStatusMap)
         + ItemEvents(chat, items[|items| - 1], statusMap, lastStatusMap)
  }

  function UrlsOf(items: seq<Item>): seq<string> {
    seq(|items|, i requires 0 <= i < |items| => items[i].url)
  }

  /** The statuses of one chat's addresses, checked with four workers. */
  function ChatStatuses(items: seq<Item>, starts: seq<string> -> bool, probe: string -> Option<string>): map<string, string> {
    SeleniumParser.CheckManyOk(UrlsOf(items), 4, starts, probe);
    SeleniumParser.StatusesParallel(UrlsOf(items), 4, starts, probe).value
  }

  function PassEvents(rows: seq<Row>, chats: seq<int>, starts: seq<string> -> bool, probe: string -> Option<string>): seq<Event> {
    if chats == [] then []
    else
      var chat := chats[|chats| - 1];
      var items := Group(rows, chat);
      PassEvents(rows, chats[..|chats| - 1], starts, probe)
      + (if items == [] then [] else ChatEvents(chat, items, ChatStatuses(items, starts, probe), LastStatuses(rows)))
  }

  /** The events of one pass of `monitor_loop` over the active subscriptions. */
  function MonitorEvents(rows: seq<Row>, starts: seq<string> -> bool, probe: string -> Option<string>): seq<Event> {
    PassEvents(rows, ChatOrder(rows), starts, probe)
  }

  /** The loop over one chat's subscriptions. */
  method NotifyChat(chat: int, items: seq<Item>, statusMap: map<string, string>, lastStatusMap: map<int, string>)
    returns (events: seq<Event>)
    ensures events == ChatEvents(chat, items, statusMap, lastStatusMap)
  {
    events := [];
    for k := 0 to |items|
      invariant events == ChatEvents(chat, items[..k], statusMap, lastStatusMap)
    {
      assert items[..k + 1][..k] == items[..k];
      var itemEvents := HandleItem(chat, items[k], statusMap, lastStatusMap);
      events := events + itemEvents;
    }
    assert items[..|items|] == items;
  }

  /** The body of the per-subscription loop, with its early exits. */
  method HandleItem(chat: int, item: Item, statusMap: map<string, string>, lastStatusMap: map<int, string>)
    returns (events: seq<Event>)
    ensures events == ItemEvents(chat, item, statusMap, lastStatusMap)
  {
    var newStatus := if item.url in statusMap then Some(statusMap[item.url]) else None;
    var oldStatus := if item.subId in lastStatusMap then lastStatusMap[item.subId] else "";
    var d := Decide(item.url, item.brand, item.sizesRaw, newStatus, oldStatus);
    events := Emit(chat, item.subId, d);
  }

  /** The write-back, then the message, each only when decided. */
  method Emit(chat: int, subId: int, d: Decision) returns (events: seq<Event>)
    ensures events == Effects(chat, subId, d)
  {
    events := [];
    if d.write.Some? {
      events := events + [Write(subId, d.write.value)];
    }
    if d.send.Some? {
      events := events + [Send(chat, d.send.value)];
    }
  }

  /** One pass of `monitor_loop`: group the rows, check each chat's
      addresses together, then decide subscription by subscription. */
  method MonitorPass(rows: seq<Row>, starts: seq<string> -> bool, probe: string -> Option<string>)
    returns (events: seq<Event>)
    ensures events == MonitorEvents(rows, starts, probe)
  {
    var chats, usersMap, lastStatusMap := GroupRows(rows);
    events := [];
    for k := 0 to |chats|
      invariant events == PassEvents(rows, chats[..k], starts, probe)
    {
      PassEventsStep(rows, chats, k, starts, probe);
      var chatEvents := CheckChat(chats[k], usersMap[chats[k]], lastStatusMap, starts, probe);
      events := events + chatEvents;
    }
    assert chats[..|chats|] == chats;
  }

  lemma PassEventsStep(rows: seq<Row>, chats: seq<int>, k: int, starts: seq<string> -> bool, probe: string -> Option<string>)
    requires 0 <= k < |chats|
    ensures PassEvents(rows, chats[..k + 1], starts, probe) ==
      PassEvents(rows, chats[..k], starts, probe)
      + (if Group(rows, chats[k]) == [] then []
         else ChatEvents(chats[k], Group(rows, chats[k]), ChatStatuses(Group(rows, chats[k]), starts, probe), LastStatuses(rows)))
  {
    assert chats[..k + 1][..k] == chats[..k];
  }

  /** One chat's turn in the pass: nothing for a chat without addresses. */
  method CheckChat(chatId: int, items: seq<Item>, lastStatusMap: map<int, string>,
                   starts: seq<string> -> bool, probe: string -> Option<string>)
    returns (events: seq<Event>)
    ensures events == if items == [] then [] else ChatEvents(chatId, items, ChatStatuses(items, starts, probe), lastStatusMap)
  {
    var urls := UrlsOf(items);
    if |urls| == 0 {
      return [];
    }
    SeleniumParser.CheckManyOk(urls, 4, starts, probe);
    var statusMap := SeleniumParser.StatusesParallel(urls, 4, starts, probe).value;
    events := NotifyChat(chatId, items, statusMap, lastStatusMap);
  }

  /** A subscription whose address has no status in the map, as when the
      parallel check as written drops the rest of a chunk, leads to nothing;
      with the worker-error status instead, a change away from available
      sizes is written back, without a message. */
  lemma MissingStatusSkipped(chat: int, item: Item, statusMap: map<string, string>, lastStatusMap: map<int, string>)
    requires item.url !in statusMap
    requires item.subId in lastStatusMap && AvailableSizes(lastStatusMap[item.subId]) != {}
    ensures ItemEvents(chat, item, statusMap, lastStatusMap) == []
    ensures ItemEvents(chat, item, statusMap[item.url := SeleniumParser.WorkerError], lastStatusMap) ==
      [Write(item.subId, SeleniumParser.WorkerError)]
  {
    NoStatusNoEvents(chat, item, statusMap, lastStatusMap);
    ErrorStatusWritten(chat, item, statusMap[item.url := SeleniumParser.WorkerError], lastStatusMap);
  }

  lemma NoStatusNoEvents(chat: int, item: Item, statusMap: map<string, string>, lastStatusMap: map<int, string>)
    requires item.url !in statusMap
    ensures ItemEvents(chat, item, statusMap, lastStatusMap) == []
  {
    var oldStatus := if item.subId in lastStatusMap then lastStatusMap[item.subId] else "";
    var d := Decide(item.url, item.brand, item.sizesRaw, None, oldStatus);
    assert d.write.None? && d.send.None?;
  }

  lemma ErrorStatusWritten(chat: int, item: Item, statusMap: map<string, string>, lastStatusMap: map<int, string>)
    requires item.url in statusMap && statusMap[item.url] == SeleniumParser.WorkerError
    requires item.subId in lastStatusMap && AvailableSizes(lastStatusMap[item.subId]) != {}
    ensures ItemEvents(chat, item, statusMap, lastStatusMap) == [Write(item.subId, SeleniumParser.WorkerError)]
  {
    var error := SeleniumParser.WorkerError;
    WorkerErrorHasNoSizes();
    var d := Decide(item.url, item.brand, item.sizesRaw, Some(error), lastStatusMap[item.subId]);
    assert d.write == Some(error) && d.send.None?;
    assert Effects(chat, item.subId, d) == [Write(item.subId, error)];
  }

  /** The worker-error status lists no sizes. */
  lemma WorkerErrorHasNoSizes()
    ensures AvailableSizes(SeleniumParser.WorkerError) == {}
  {
    var error := SeleniumParser.WorkerError;
    assert Green !in error && Yellow !in error by {
      assert forall i :: 0 <= i < |error| ==> error[i] != Green && error[i] != Yellow;
    }
    UnmarkedTextHasNoSizes(error);
  }

  /** Every message is sent right after the write-back of the same change. */
  predicate WriteBeforeSend(events: seq<Event>) {
    forall k :: 0 <= k < |events| && events[k].Send? ==> k > 0 && events[k - 1].Write?
  }

  lemma WriteBeforeSendConcat(a: seq<Event>, b: seq<Event>)
    requires WriteBeforeSend(a) && WriteBeforeSend(b)
    ensures WriteBeforeSend(a + b)
  {
    forall k | 0 <= k < |a + b| && (a + b)[k].Send? ensures k > 0 && (a + b)[k - 1].Write? {
      if k >= |a| {
        assert b[k - |a|].Send?;
        assert (a + b)[k - 1] == b[k - |a| - 1];
      } else {
        assert a[k].Send?;
      }
    }
  }

  lemma {:induction false} ChatEventsOrdered(chat: int, items: seq<Item>, statusMap: map<string, string>, lastStatusMap: map<int, string>)
    ensures WriteBeforeSend(ChatEvents(chat, items, statusMap, lastStatusMap))
  {
    if items != [] {
      ChatEventsOrdered(chat, items[..|items| - 1], statusMap, lastStatusMap);
      WriteBeforeSendConcat(ChatEvents(chat, items[..|items| - 1], statusMap, lastStatusMap),
                            ItemEvents(chat, items[|items| - 1], statusMap, lastStatusMap));
    }
  }

  lemma {:induction false} PassEventsOrdered(rows: seq<Row>, chats: seq<int>, starts: seq<string> -> bool, probe: string -> Option<string>)
    ensures WriteBeforeSend(PassEvents(rows, chats, starts, probe))
  {
    if chats != [] {
      var chat := chats[|chats| - 1];
      var items := Group(rows, chat);
      PassEventsOrdered(rows, chats[..|chats| - 1], starts, probe);
      if items != [] {
        ChatEventsOrdered(chat, items, ChatStatuses(items, starts, probe), LastStatuses(rows));
        WriteBeforeSendConcat(PassEvents(rows, chats[..|chats| - 1], starts, probe),
                              ChatEvents(chat, items, ChatStatuses(items, starts, probe), LastStatuses(rows)));
      } else {
        assert PassEvents(rows, chats, starts, probe) == PassEvents(rows, chats[..|chats| - 1], starts, probe);
      }
    }
  }

  /** A pass never notifies about a change it has not written back first. */
  lemma MonitorWritesBeforeSending(rows: seq<Row>, starts: seq<string> -> bool, probe: string -> Option<string>)
    ensures WriteBeforeSend(MonitorEvents(rows, starts, probe))
  {
    PassEventsOrdered(rows, ChatOrder(rows), starts, probe);
  }
}
