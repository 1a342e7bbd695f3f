// The command handlers of handlers/subscriptions.py, without the chat and
// storage plumbing: the arguments of /add and /del, and the /my_links listing
// cut into messages.

module Subscriptions {
  import opened Text
  import opened Urls
  import Bot

  // ---------------------------------------------------------------------------
  // /add <url> [size ...]

  /** The row /add stores: the address, its brand, no status yet, and the
      sizes as one comma-separated, upper-cased string (none for every size). */
  datatype NewSubscription = NewSubscription(url: string, brand: Brand, lastStatus: Option<string>, sizes: Option<string>)

  datatype AddReply = AddUsage | AddUnsupported | Added(subscription: NewSubscription)

  function UpperAll(tokens: seq<string>): seq<string> {
    seq(|tokens|, i requires 0 <= i < |tokens| => Upper(tokens[i]))
  }

  /** `cmd_add`: usage with fewer than two words, a refusal for an address
      of neither shop, otherwise the subscription to store. */
  function ParseAdd(text: string): (r: AddReply)
    ensures r.AddUsage? <==> |SplitWords(Strip(text))| < 2
    ensures |SplitWords(Strip(text))| >= 2 ==>
      (r.AddUnsupported? <==> DetectBrand(SplitWords(Strip(text))[1]).None?)
    ensures r.Added? ==> r.subscription.url == SplitWords(Strip(text))[1]
    ensures r.Added? ==> DetectBrand(r.subscription.url) == Some(r.subscription.brand)
    ensures r.Added? ==> r.subscription.lastStatus.None?
  {
    var parts := SplitWords(Strip(text));
    if |parts| < 2 then AddUsage
    else
      WordStripped(parts[1]);
      var url := Strip(parts[1]);
      match DetectBrand(url)
      case None => AddUnsupported
      case Some(brand) =>
        var sizes := if |parts| > 2 then Join(UpperAll(parts[2..]), ",") else "";
        Added(NewSubscription(url, brand, None, if sizes == [] then None else Some(sizes)))
  }

  /** A word has no whitespace to strip. */
  lemma WordStripped(w: string)
    requires w != [] && NoSpace(w)
    ensures Strip(w) == w
  {
    StripUnchanged(w);
  }

  lemma {:induction false} JoinStartsWith(parts: seq<string>, sep: string)
    requires parts != []
    ensures StartsWith(Join(parts, sep), parts[0])
  {
    if |parts| > 1 {
      assert Join(parts, sep) == parts[0] + (sep + Join(parts[1..], sep));
    }
  }

  /** Upper-casing never produces a comma. */
  lemma UpperAllCommaFree(tokens: seq<string>)
    requires forall i :: 0 <= i < |tokens| ==> ',' !in tokens[i]
    ensures forall i :: 0 <= i < |tokens| ==> ',' !in UpperAll(tokens)[i]
  {
    forall i, j | 0 <= i < |tokens| && 0 <= j < |tokens[i]| ensures UpperAll(tokens)[i][j] != ',' {
      assert tokens[i][j] != ',';
    }
  }

  /** The words after the address, upper-cased and joined with commas, are
      read back by the monitor's size filter as the set of those words,
      upper-cased, when no word holds a comma. */
  lemma SizesRoundTrip(tokens: seq<string>)
    requires tokens != [] && SizeWords(tokens)
    ensures Join(UpperAll(tokens), ",") != []
    ensures Bot.WantedSizes(Some(Join(UpperAll(tokens), ","))) == set t | t in tokens :: Upper(t)
  {
    var ups := UpperAll(tokens);
    UpperAllCommaFree(tokens);
    forall i | 0 <= i < |ups| ensures ups[i] != [] && NoSpace(ups[i]) && Upper(ups[i]) == ups[i] {
      UpperIdempotent(tokens[i]);
    }
    WantedOfWords(ups);
    assert (set p | p in ups) == set t | t in tokens :: Upper(t) by {
      forall t | t in tokens ensures Upper(t) in ups {
        var i :| 0 <= i < |tokens| && tokens[i] == t;
        assert ups[i] == Upper(t);
      }
    }
  }

  /** Words, none of which holds a comma. */
  predicate SizeWords(tokens: seq<string>) {
    forall i :: 0 <= i < |tokens| ==> tokens[i] != [] && NoSpace(tokens[i]) && ',' !in tokens[i]
  }

  lemma SizeWordsAfter(parts: seq<string>, k: nat)
    requires k <= |parts|
    requires forall i :: 0 <= i < |parts| ==> parts[i] != [] && NoSpace(parts[i])
    requires forall i :: k <= i < |parts| ==> ',' !in parts[i]
    ensures SizeWords(parts[k..])
  {
    forall i | 0 <= i < |parts| - k ensures parts[k..][i] == parts[k + i] { }
  }

  /** Upper-case words without commas, joined with commas, are read back by
      the size filter as the set of those words. */
  lemma WantedOfWords(ups: seq<string>)
    requires ups != []
    requires forall i :: 0 <= i < |ups| ==> ups[i] != [] && NoSpace(ups[i]) && ',' !in ups[i] && Upper(ups[i]) == ups[i]
    ensures Join(ups, ",") != []
    ensures Bot.WantedSizes(Some(Join(ups, ","))) == set p | p in ups
  {
    var sizes := Join(ups, ",");
    JoinStartsWith(ups, ",");
    SplitOnJoin(ups, ',');
    forall i | 0 <= i < |ups| ensures Strip(ups[i]) == ups[i] {
      WordStripped(ups[i]);
    }
    var wanted := Bot.WantedSizes(Some(sizes));
    forall t ensures t in wanted <==> t in ups {
      Bot.WantedSizesMembership(sizes, t);
      if t in ups {
        var i :| 0 <= i < |ups| && ups[i] == t;
        assert Strip(ups[i]) == t;
      }
    }
  }

  /** An /add command written as words separated by single spaces is read
      back: the second word is the address stored, with its brand. */
  lemma AddRoundTrip(words: seq<string>)
    requires |words| >= 2 && forall i :: 0 <= i < |words| ==> words[i] != [] && NoSpace(words[i])
    requires DetectBrand(words[1]).Some?
    ensures ParseAdd(Join(words, " ")).Added?
    ensures ParseAdd(Join(words, " ")).subscription.url == words[1]
    ensures ParseAdd(Join(words, " ")).subscription.brand == DetectBrand(words[1]).value
  {
    var text := Join(words, " ");
    JoinEnds(words, " ");
    var last := words[|words| - 1];
    assert !IsSpace(words[0][0]) && !IsSpace(last[|last| - 1]);
    StripUnchanged(text);
    SplitWordsJoin(words);
  }

  /** What /add stores for its size words, spelled out. */
  lemma AddedSizes(text: string)
    requires |SplitWords(Strip(text))| >= 2 && DetectBrand(Strip(SplitWords(Strip(text))[1])).Some?
    ensures ParseAdd(text).Added?
    ensures |SplitWords(Strip(text))| == 2 ==> ParseAdd(text).subscription.sizes.None?
    ensures |SplitWords(Strip(text))| > 2 && Join(UpperAll(SplitWords(Strip(text))[2..]), ",") != [] ==>
      ParseAdd(text).subscription.sizes == Some(Join(UpperAll(SplitWords(Strip(text))[2..]), ","))
  {
  }

  /** What /add stores for its size words: nothing when there are none,
      which the monitor reads as every size; otherwise their round trip. */
  lemma AddSizes(text: string)
    requires |SplitWords(Strip(text))| >= 2 && DetectBrand(Strip(SplitWords(Strip(text))[1])).Some?
    requires forall i :: 2 <= i < |SplitWords(Strip(text))| ==> ',' !in SplitWords(Strip(text))[i]
    ensures ParseAdd(text).Added?
    ensures ParseAdd(text).subscription.sizes.None? <==> |SplitWords(Strip(text))| == 2
    ensures Bot.WantedSizes(ParseAdd(text).subscription.sizes) ==
      set t | t in SplitWords(Strip(text))[2..] :: Upper(t)
  {
    var parts := SplitWords(Strip(text));
    var tokens := parts[2..];
    var sizes := ParseAdd(text).subscription.sizes;
    AddedSizes(text);
    if |parts| > 2 {
      SizeWordsAfter(parts, 2);
      SizesRoundTrip(tokens);
      assert sizes == Some(Join(UpperAll(tokens), ","));
    } else {
      assert tokens == [];
      assert sizes.None?;
      assert Bot.WantedSizes(sizes) == {};
    }
  }

  // ---------------------------------------------------------------------------
  // /del <id>

  datatype DelReply = DelUsage | NotANumber | Delete(subId: int)

  /** `cmd_del`: the text after the command, taken whole, must read as an
      integer. */
  function ParseDel(text: string): (r: DelReply)
    ensures r.DelUsage? <==> |SplitFirstWord(Strip(text))| < 2
  {
    var parts := SplitFirstWord(Strip(text));
    if |parts| < 2 then DelUsage
    else
      match ParseInt(parts[1])
      case None => NotANumber
      case Some(n) => Delete(n)
  }

  lemma {:induction false} WordOf(w: string, rest: string)
    requires NoSpace(w)
    requires rest == [] || IsSpace(rest[0])
    ensures Word(w + rest) == w
  {
    if w != [] {
      assert (w + rest)[1..] == w[1..] + rest;
      WordOf(w[1..], rest);
    } else {
      assert w + rest == rest;
    }
  }

  lemma TrimLeftNothing(s: string)
    requires s != [] && !IsSpace(s[0])
    ensures TrimLeft(s, Whitespace) == s
  {
    TrimLeftKeeps(s, Whitespace, 0);
  }

  /** A command word, one space and an argument split into those two. */
  lemma SplitCommand(cmd: string, arg: string)
    requires cmd != [] && NoSpace(cmd)
    requires arg != [] && !IsSpace(arg[0])
    ensures SplitFirstWord(cmd + " " + arg) == [cmd, arg]
  {
    var s := cmd + " " + arg;
    TrimLeftNothing(s);
    assert s == cmd + (" " + arg);
    WordOf(cmd, " " + arg);
    assert s[|cmd|..] == " " + arg;
    var r := TrimLeft(" " + arg, Whitespace);
    TrimLeftKeeps(" " + arg, Whitespace, 1);
    assert r == arg;
  }

  /** /del with an argument deletes exactly the subscription the argument
      reads as, and answers that it is not a number otherwise. */
  lemma DelArgument(cmd: string, arg: string)
    requires cmd != [] && NoSpace(cmd)
    requires arg != [] && !IsSpace(arg[0]) && !IsSpace(arg[|arg| - 1])
    ensures ParseDel(cmd + " " + arg) == if ParseInt(arg).Some? then Delete(ParseInt(arg).value) else NotANumber
  {
    var s := cmd + " " + arg;
    assert s[|s| - 1] == arg[|arg| - 1];
    StripUnchanged(s);
    SplitCommand(cmd, arg);
  }

  /** /del followed by a number deletes the subscription with that id. */
  lemma DelRoundTrip(cmd: string, n: int)
    requires cmd != [] && NoSpace(cmd)
    ensures ParseDel(cmd + " " + IntToString(n)) == Delete(n)
  {
    IntToStringEdges(n);
    ParseIntToString(n);
    DelArgument(cmd, IntToString(n));
  }

  /** Two numbers after /del are not a number: nothing is deleted. */
  lemma DelTwoNumbers(cmd: string, a: nat, b: nat)
    requires cmd != [] && NoSpace(cmd)
    ensures ParseDel(cmd + " " + (IntToString(a) + " " + IntToString(b))) == NotANumber
  {
    IntToStringEdges(a);
    IntToStringEdges(b);
    var arg := IntToString(a) + " " + IntToString(b);
    assert arg[0] == IntToString(a)[0];
    assert arg[|arg| - 1] == IntToString(b)[|IntToString(b)| - 1];
    StripUnchanged(arg);
    ParseIntInnerSpace(arg, |Digits(a)|);
    DelArgument(cmd, arg);
  }

  // ---------------------------------------------------------------------------
  // /my_links

  const ListHeader: string := "Твої посилання під моніторингом:\n\n"
  const NoLinks: string := "У тебе поки немає збережених посилань для моніторингу."
  const ChunkLimit: nat := 3500
  const Dash: string := "—"
  const ActiveLabel: string := "✅ активне"
  const StoppedLabel: string := "⏹ вимкнене"

  /** A stored subscription as /my_links lists it. */
  datatype SubscriptionRow = SubscriptionRow(id: int, url: string, brand: Option<string>, lastStatus: Option<string>,
                                             isActive: bool, createdAt: string)

  /** `value or "—"`: a dash for a missing or empty value. */
  function OrDash(value: Option<string>): (shown: string)
    ensures shown != []
    ensures shown == Dash <==> value.None? || value.value == [] || value.value == Dash
  {
    if value.None? || value.value == [] then Dash else value.value
  }

  function StateLabel(isActive: bool): (shown: string)
    ensures shown == ActiveLabel <==> isActive
  {
    if isActive then ActiveLabel else StoppedLabel
  }

  /** One subscription's block of the listing. */
  function RowBlock(row: SubscriptionRow): (block: string)
    ensures block != [] && block[0] == '<'
  {
    "<b>ID:</b> <code>" + IntToString(row.id) + "</code>\n"
    + "<b>URL:</b> " + row.url + "\n"
    + "<b>Бренд:</b> " + OrDash(row.brand) + "\n"
    + "<b>Статус:</b> " + OrDash(row.lastStatus) + "\n"
    + "<b>Стан:</b> " + StateLabel(row.isActive) + "\n"
    + "<b>Створено:</b> " + row.createdAt + "\n"
    + "----------------------------\n"
  }

  function RowBlocks(rows: seq<SubscriptionRow>): seq<string> {
    seq(|rows|, i requires 0 <= i < |rows| => RowBlock(rows[i]))
  }

  /** The listing's state: the finished messages and the one being filled. */
  datatype Listing = Listing(chunks: seq<string>, current: string)

  /** The `add_line` of `cmd_my_links`: a block and its newline go to the
      current message unless that would pass the limit; then the current
      message is closed as it is and the block starts a new one. */
  function AfterBlock(l: Listing, block: string): Listing {
    if |l.current| + |block| + 1 > ChunkLimit then Listing(l.chunks + [l.current], block + "\n")
    else Listing(l.chunks, l.current + block + "\n")
  }

  function AfterBlocks(l: Listing, blocks: seq<string>): Listing
    decreases |blocks|
  {
    if blocks == [] then l else AfterBlocks(AfterBlock(l, blocks[0]), blocks[1..])
  }

  /** The last message is sent when it is not blank. */
  function CloseListing(l: Listing): seq<string> {
    if Strip(l.current) != [] then l.chunks + [l.current] else l.chunks
  }

  /** The header and the blocks cut into messages. */
  function Paginate(blocks: seq<string>): seq<string> {
    CloseListing(AfterBlocks(Listing([], ListHeader), blocks))
  }

  /** The messages /my_links sends. */
  function MyLinks(rows: seq<SubscriptionRow>): seq<string> {
    if rows == [] then [NoLinks] else Paginate(RowBlocks(rows))
  }

  /** The state `cmd_my_links` shares with its `add_line` closure. */
  class ListingWriter {
    var chunks: seq<string>
    var current: string

    constructor (header: string)
      ensures chunks == [] && current == header
    {
      chunks := [];
      current := header;
    }

    function State(): Listing
      reads this
    {
      Listing(chunks, current)
    }

    method AddLine(line: string)
      modifies this
      ensures State() == AfterBlock(old(State()), line)
    {
      if |current| + |line| + 1 > ChunkLimit {
        chunks := chunks + [current];
        current := "";
      }
      current := current + line + "\n";
    }
  }

  method MyLinksMessages(rows: seq<SubscriptionRow>) returns (messages: seq<string>)
    ensures messages == MyLinks(rows)
  {
    if |rows| == 0 {
      return [NoLinks];
    }
    var w := new ListingWriter(ListHeader);
    WriteBlocks(w, RowBlocks(rows));
    messages := w.chunks;
    if Strip(w.current) != [] {
      messages := messages + [w.current];
    }
  }

  /** The loop over the rows, each adding its block. */
  method WriteBlocks(w: ListingWriter, blocks: seq<string>)
    modifies w
    ensures w.State() == AfterBlocks(old(w.State()), blocks)
  {
    ghost var start := w.State();
    for k := 0 to |blocks|
      invariant w.State() == AfterBlocks(start, blocks[..k])
    {
      w.AddLine(blocks[k]);
      AfterBlocksSnoc(start, blocks[..k], blocks[k]);
      assert blocks[..k + 1] == blocks[..k] + [blocks[k]];
    }
    assert blocks[..|blocks|] == blocks;
  }

  lemma {:induction false} AfterBlocksSnoc(l: Listing, blocks: seq<string>, block: string)
    ensures AfterBlocks(l, blocks + [block]) == AfterBlock(AfterBlocks(l, blocks), block)
    decreases |blocks|
  {
    if blocks == [] {
      assert [block][1..] == [];
    } else {
      assert (blocks + [block])[1..] == blocks[1..] + [block];
      AfterBlocksSnoc(AfterBlock(l, blocks[0]), blocks[1..], block);
    }
  }

  /** `b` opens with a block that did not fit after `a`. */
  ghost predicate Overflows(a: string, b: string) {
    exists block :: |a| + |block| + 1 > ChunkLimit && StartsWith(b, block + "\n")
  }

  /** A message within the limit, or a single block of `pool` too long by itself. */
  predicate Fits(chunk: string, pool: seq<string>) {
    |chunk| <= ChunkLimit || exists block :: block in pool && chunk == block + "\n"
  }

  predicate NonBlank(s: string) {
    exists j :: 0 <= j < |s| && !IsSpace(s[j])
  }

  /** What the listing keeps true while blocks are added. */
  ghost predicate Shaped(l: Listing, pool: seq<string>) {
    && NonBlank(l.current)
    && Fits(l.current, pool)
    && (forall i :: 0 <= i < |l.chunks| ==> NonBlank(l.chunks[i]) && Fits(l.chunks[i], pool))
    && StartsWith(if l.chunks == [] then l.current else l.chunks[0], ListHeader)
    && (forall i :: 0 <= i < |l.chunks| - 1 ==> Overflows(l.chunks[i], l.chunks[i + 1]))
    && (l.chunks != [] ==> Overflows(l.chunks[|l.chunks| - 1], l.current))
  }

  lemma AfterBlockShaped(l: Listing, block: string, pool: seq<string>)
    requires Shaped(l, pool) && block in pool && block != [] && !IsSpace(block[0])
    ensures Shaped(AfterBlock(l, block), pool)
  {
    if |l.current| + |block| + 1 > ChunkLimit {
      FlushShaped(l, block, pool);
    } else {
      GrowShaped(l, block, pool);
    }
  }

  /** The block opens a new message: the current one is closed. */
  lemma FlushShaped(l: Listing, block: string, pool: seq<string>)
    requires Shaped(l, pool) && block in pool && block != [] && !IsSpace(block[0])
    requires |l.current| + |block| + 1 > ChunkLimit
    ensures Shaped(Listing(l.chunks + [l.current], block + "\n"), pool)
  {
    var next := Listing(l.chunks + [l.current], block + "\n");
    assert (block + "\n")[0] == block[0];
    assert StartsWith(next.current, block + "\n");
    assert Fits(next.current, pool);
    assert forall i :: 0 <= i < |l.chunks| ==> next.chunks[i] == l.chunks[i];
  }

  /** The block joins the current message. */
  lemma GrowShaped(l: Listing, block: string, pool: seq<string>)
    requires Shaped(l, pool)
    requires |l.current| + |block| + 1 <= ChunkLimit
    ensures Shaped(Listing(l.chunks, l.current + block + "\n"), pool)
  {
    var grown := l.current + block + "\n";
    assert grown[..|l.current|] == l.current;
    var j :| 0 <= j < |l.current| && !IsSpace(l.current[j]);
    assert grown[j] == l.current[j];
    if l.chunks == [] {
      assert grown[..|ListHeader|] == l.current[..|ListHeader|];
    } else {
      var b :| |l.chunks[|l.chunks| - 1]| + |b| + 1 > ChunkLimit && StartsWith(l.current, b + "\n");
      assert grown[..|b + "\n"|] == l.current[..|b + "\n"|];
    }
  }

  lemma {:induction false} AfterBlocksShaped(l: Listing, blocks: seq<string>, pool: seq<string>)
    requires Shaped(l, pool)
    requires forall i :: 0 <= i < |blocks| ==> blocks[i] in pool && blocks[i] != [] && !IsSpace(blocks[i][0])
    ensures Shaped(AfterBlocks(l, blocks), pool)
    decreases |blocks|
  {
    if blocks != [] {
      AfterBlockShaped(l, blocks[0], pool);
      AfterBlocksShaped(AfterBlock(l, blocks[0]), blocks[1..], pool);
    }
  }

  lemma StartShaped(pool: seq<string>)
    ensures Shaped(Listing([], ListHeader), pool)
  {
    assert ListHeader[0] == 'Т';
    assert StartsWith(ListHeader, ListHeader);
  }

  /** Blocks that each open with a visible character. */
  predicate Leading(blocks: seq<string>) {
    forall i :: 0 <= i < |blocks| ==> blocks[i] != [] && !IsSpace(blocks[i][0])
  }

  lemma RowBlocksLeading(rows: seq<SubscriptionRow>)
    ensures Leading(RowBlocks(rows))
  {
  }

  /** The header and blocks cut into messages: the first message opens with
      the header; every message is non-empty and within the limit unless it
      is one block too long by itself; and a message is closed only when the
      block that opens the next one would have taken it past the limit. */
  lemma PaginateShape(blocks: seq<string>)
    requires Leading(blocks)
    ensures |Paginate(blocks)| >= 1 && StartsWith(Paginate(blocks)[0], ListHeader)
    ensures forall i :: 0 <= i < |Paginate(blocks)| ==> Paginate(blocks)[i] != []
    ensures forall i :: 0 <= i < |Paginate(blocks)| ==> Fits(Paginate(blocks)[i], blocks)
    ensures forall i :: 0 <= i < |Paginate(blocks)| - 1 ==> Overflows(Paginate(blocks)[i], Paginate(blocks)[i + 1])
  {
    var start := Listing([], ListHeader);
    StartShaped(blocks);
    AfterBlocksShaped(start, blocks, blocks);
    CloseShaped(AfterBlocks(start, blocks), blocks);
  }

  /** Closing a shaped listing sends every message it holds, the last one
      included. */
  lemma CloseShaped(l: Listing, pool: seq<string>)
    requires Shaped(l, pool)
    ensures |CloseListing(l)| >= 1 && StartsWith(CloseListing(l)[0], ListHeader)
    ensures forall i :: 0 <= i < |CloseListing(l)| ==> CloseListing(l)[i] != []
    ensures forall i :: 0 <= i < |CloseListing(l)| ==> Fits(CloseListing(l)[i], pool)
    ensures forall i :: 0 <= i < |CloseListing(l)| - 1 ==> Overflows(CloseListing(l)[i], CloseListing(l)[i + 1])
  {
    var j :| 0 <= j < |l.current| && !IsSpace(l.current[j]);
    StripEmpty(l.current);
    var c := l.chunks + [l.current];
    assert CloseListing(l) == c;
    forall i | 0 <= i < |c|
      ensures c[i] != [] && Fits(c[i], pool)
    {
      if i < |l.chunks| {
        assert c[i] == l.chunks[i];
      }
    }
    forall i | 0 <= i < |c| - 1
      ensures Overflows(c[i], c[i + 1])
    {
      assert c[i] == l.chunks[i];
      if i + 1 < |l.chunks| {
        assert c[i + 1] == l.chunks[i + 1];
      }
    }
  }

  /** /my_links for a user with subscriptions, in the terms of the header and
      the row blocks. */
  lemma MyLinksShape(rows: seq<SubscriptionRow>)
    requires rows != []
    ensures |MyLinks(rows)| >= 1 && StartsWith(MyLinks(rows)[0], ListHeader)
    ensures forall i :: 0 <= i < |MyLinks(rows)| ==> MyLinks(rows)[i] != []
    ensures forall i :: 0 <= i < |MyLinks(rows)| ==> Fits(MyLinks(rows)[i], RowBlocks(rows))
    ensures forall i :: 0 <= i < |MyLinks(rows)| - 1 ==> Overflows(MyLinks(rows)[i], MyLinks(rows)[i + 1])
  {
    RowBlocksLeading(rows);
    PaginateShape(RowBlocks(rows));
  }

  lemma AfterBlockText(l: Listing, block: string)
    ensures Concat(AfterBlock(l, block).chunks) + AfterBlock(l, block).current == Concat(l.chunks) + l.current + block + "\n"
  {
    if |l.current| + |block| + 1 > ChunkLimit {
      ConcatSnoc(l.chunks, l.current);
    }
  }

  lemma {:induction false} AfterBlocksText(l: Listing, blocks: seq<string>)
    ensures Concat(AfterBlocks(l, blocks).chunks) + AfterBlocks(l, blocks).current ==
      Concat(l.chunks) + l.current + Newlined(blocks)
    decreases |blocks|
  {
    if blocks == [] {
      assert Newlined(blocks) == [];
    } else {
      AfterBlockText(l, blocks[0]);
      AfterBlocksText(AfterBlock(l, blocks[0]), blocks[1..]);
      assert Newlined(blocks) == blocks[0] + "\n" + Newlined(blocks[1..]);
    }
  }

  /** Cutting into messages loses nothing and reorders nothing: the
      messages, one after another, are the header and every block with its
      newline. */
  lemma PaginateText(blocks: seq<string>)
    requires Leading(blocks)
    ensures Concat(Paginate(blocks)) == ListHeader + Newlined(blocks)
  {
    var start := Listing([], ListHeader);
    AfterBlocksText(start, blocks);
    var l := AfterBlocks(start, blocks);
    StartShaped(blocks);
    AfterBlocksShaped(start, blocks, blocks);
    StripEmpty(l.current);
    ConcatSnoc(l.chunks, l.current);
    assert Concat(start.chunks) == [];
  }

  lemma MyLinksText(rows: seq<SubscriptionRow>)
    requires rows != []
    ensures Concat(MyLinks(rows)) == ListHeader + Newlined(RowBlocks(rows))
  {
    RowBlocksLeading(rows);
    PaginateText(RowBlocks(rows));
  }
}
