/** Event streams as text: how lines are written and found again, an encoder for any
    chunks, and the server's own writer (internal/server/api.go), each read back by the
    client (internal/llm/sse.go). */
module EventEncoding {
  import opened EventStream

  // ---------- lines of a text ----------

  predicate EndsInReturn(line: string) {
    line != "" && line[|line| - 1] == '\r'
  }

  // The scanner drops one carriage return before the end of a line.
  function DropReturn(line: string): string {
    if EndsInReturn(line) then line[..|line| - 1] else line
  }

  function DropReturns(lines: Lines): Lines {
    if lines == [] then [] else [DropReturn(lines[0])] + DropReturns(lines[1..])
  }

  // A line that comes through the scanner as it is.
  predicate IsLine(line: string) {
    '\n' !in line && !EndsInReturn(line)
  }

  function NewlineAt(text: string): (i: nat)
    ensures i <= |text| && (i < |text| ==> text[i] == '\n')
    ensures forall k :: 0 <= k < i ==> text[k] != '\n'
  {
    if text == "" || text[0] == '\n' then 0 else 1 + NewlineAt(text[1..])
  }

  /** The lines the scanner finds; a last one need not end in a newline. */
  function Scan(text: string): Lines
    decreases |text|
  {
    if text == "" then []
    else
      var i := NewlineAt(text);
      if i == |text| then [DropReturn(text)] else [DropReturn(text[..i])] + Scan(text[i + 1..])
  }

  // Every line and its newline.
  function Text(lines: Lines): string {
    if lines == [] then "" else lines[0] + "\n" + Text(lines[1..])
  }

  ghost predicate NewlineFree(lines: Lines) {
    forall line :: line in lines ==> '\n' !in line
  }

  lemma NewlineFound(line: string, rest: string)
    requires '\n' !in line
    ensures
      var text := line + "\n" + rest;
      NewlineAt(text) == |line| && text[..|line|] == line && text[|line| + 1..] == rest
  {
    var text := line + "\n" + rest;
    assert text[|line|] == '\n';
    assert forall k :: 0 <= k < |line| ==> text[k] == line[k] && line[k] in line;
  }

  /** Scanning finds the lines written, each less a carriage return at its end. */
  lemma {:induction false} ScanText(lines: Lines)
    requires NewlineFree(lines)
    ensures Scan(Text(lines)) == DropReturns(lines)
  {
    if lines != [] {
      var text := lines[0] + "\n" + Text(lines[1..]);
      assert text[|lines[0]|] == '\n';
      NewlineFound(lines[0], Text(lines[1..]));
      ScanText(lines[1..]);
    }
  }

  /** A last line without a newline is found too, unless it is empty. */
  lemma {:induction false} ScanUnfinished(lines: Lines, last: string)
    requires NewlineFree(lines) && '\n' !in last
    ensures Scan(Text(lines) + last) == DropReturns(lines) + if last == "" then [] else [DropReturn(last)]
    decreases |lines|
  {
    if lines == [] {
      assert Text(lines) + last == last;
      assert forall k :: 0 <= k < |last| ==> last[k] in last;
    } else {
      var rest := Text(lines[1..]) + last;
      AssociateText(lines[0] + "\n", Text(lines[1..]), last);
      assert (lines[0] + "\n" + rest)[|lines[0]|] == '\n';
      NewlineFound(lines[0], rest);
      ScanUnfinished(lines[1..], last);
    }
  }

  lemma {:induction false} NothingDropped(lines: Lines)
    ensures DropReturns(lines) == lines <==> forall line :: line in lines ==> !EndsInReturn(line)
    ensures |DropReturns(lines)| == |lines|
  {
    if lines != [] {
      NothingDropped(lines[1..]);
      assert lines == [lines[0]] + lines[1..];
      assert DropReturns(lines)[1..] == DropReturns(lines[1..]);
      assert EndsInReturn(lines[0]) ==> |DropReturn(lines[0])| < |lines[0]|;
      assert lines[0] in lines;
    }
  }

  lemma {:induction false} DropConcat(a: Lines, b: Lines)
    ensures DropReturns(a + b) == DropReturns(a) + DropReturns(b)
  {
    if a == [] {
      assert a + b == b;
    } else {
      DropConcat(a[1..], b);
      assert (a + b)[0] == a[0] && (a + b)[1..] == a[1..] + b;
    }
  }

  // ---------- splitting and joining ----------

  // Splits at newlines; inverse of Join.
  function Split(s: string): (parts: Lines)
    ensures parts != [] && forall p :: p in parts ==> '\n' !in p
  {
    if s == "" then [""]
    else
      var rest := Split(s[1..]);
      if s[0] == '\n' then [""] + rest else [[s[0]] + rest[0]] + rest[1..]
  }

  lemma AssociateText(a: string, b: string, c: string)
    ensures a + b + c == a + (b + c)
  {
  }

  lemma JoinHead(parts: Lines, h: string)
    requires parts != []
    ensures Join([h + parts[0]] + parts[1..]) == h + Join(parts)
  {
    var q := [h + parts[0]] + parts[1..];
    if |parts| > 1 {
      assert q[1..] == parts[1..];
      var tail := "\n" + Join(parts[1..]);
      AssociateText(h + parts[0], "\n", Join(parts[1..]));
      AssociateText(parts[0], "\n", Join(parts[1..]));
      AssociateText(h, parts[0], tail);
    } else {
      assert q == [h + parts[0]];
    }
  }

  lemma {:induction false} JoinSplit(s: string)
    ensures Join(Split(s)) == s
  {
    if s != "" {
      var rest := Split(s[1..]);
      JoinSplit(s[1..]);
      if s[0] == '\n' {
        assert ([""] + rest)[1..] == rest;
        assert Join([""] + rest) == "" + "\n" + Join(rest);
      } else {
        JoinHead(rest, [s[0]]);
      }
      assert s == [s[0]] + s[1..];
    }
  }

  lemma {:induction false} SplitLine(line: string, rest: string)
    requires '\n' !in line
    ensures Split(line) == [line] && Split(line + "\n" + rest) == [line] + Split(rest)
    decreases |line|
  {
    var text := line + "\n" + rest;
    if line == "" {
      assert text == "\n" + rest && text[1..] == rest;
    } else {
      var l := line[1..];
      assert line[0] in line && forall c :: c in l ==> c in line;
      SplitLine(l, rest);
      assert line == [line[0]] + l && text[0] == line[0] && text[1..] == l + "\n" + rest;
      assert ([l] + Split(rest))[1..] == Split(rest);
    }
  }

  /** Joining keeps apart what it joins: splitting gives the lines back. */
  lemma {:induction false} SplitJoin(parts: Lines)
    requires parts != [] && NewlineFree(parts)
    ensures Split(Join(parts)) == parts
  {
    SplitLine(parts[0], Join(parts[1..]));
    if |parts| > 1 {
      SplitJoin(parts[1..]);
      assert parts == [parts[0]] + parts[1..];
    } else {
      assert parts == [parts[0]];
    }
  }

  // ---------- an encoder ----------

  // A line the reader skips inside or between events: a comment or another field.
  predicate IsNoise(line: string) {
    line != "" && !IsData(line)
  }

  datatype Item = Data(part: string) | Noise(line: string)

  // Lines up to and including a blank one; the last event of a stream may omit it.
  datatype Block = Block(items: seq<Item>, blank: bool)

  function ItemLine(item: Item): string {
    match item
    case Data(part) => "data: " + part
    case Noise(line) => line
  }

  function ItemLines(items: seq<Item>): (lines: Lines)
    ensures |lines| == |items|
  {
    seq(|items|, i requires 0 <= i < |items| => ItemLine(items[i]))
  }

  function Parts(items: seq<Item>): Lines {
    if items == [] then []
    else (if items[0].Data? then [items[0].part] else []) + Parts(items[1..])
  }

  function Encode(blocks: seq<Block>): Lines {
    if blocks == [] then []
    else ItemLines(blocks[0].items) + (if blocks[0].blank then [""] else []) + Encode(blocks[1..])
  }

  // The chunks the blocks carry, one for each block with data.
  function Carried(blocks: seq<Block>): Lines {
    if blocks == [] then [] else Dispatched(Parts(blocks[0].items)) + Carried(blocks[1..])
  }

  // Only noise is skipped and only the last block may lack its blank line.
  ghost predicate Framed(blocks: seq<Block>) {
    forall k :: 0 <= k < |blocks| ==>
      && (forall item :: item in blocks[k].items && item.Noise? ==> IsNoise(item.line))
      && (k < |blocks| - 1 ==> blocks[k].blank)
  }

  predicate IsItem(item: Item) {
    match item
    case Data(part) => IsLine(part)
    case Noise(line) => IsNoise(line) && IsLine(line)
  }

  // Framed, and each item one line.
  ghost predicate WellEncoded(blocks: seq<Block>) {
    forall k :: 0 <= k < |blocks| ==>
      && (forall item :: item in blocks[k].items ==> IsItem(item))
      && (k < |blocks| - 1 ==> blocks[k].blank)
  }

  /** Any data lines and any comments or other fields, each one line, in events closed by
      blank lines, the last one perhaps not, are well encoded; nothing else is. */
  lemma WellEncodedMeans(blocks: seq<Block>)
    ensures WellEncoded(blocks) <==>
      && (forall k, item :: 0 <= k < |blocks| && item in blocks[k].items ==>
        match item
        case Data(part) => '\n' !in part && (part == "" || part[|part| - 1] != '\r')
        case Noise(line) =>
          && '\n' !in line && line != "" && line[|line| - 1] != '\r'
          && (|line| < 5 || line[..5] != "data:"))
      && (forall k :: 0 <= k < |blocks| - 1 ==> blocks[k].blank)
  {
  }

  lemma DataLineIsLine(part: string)
    ensures '\n' in "data: " + part <==> '\n' in part
    ensures DropReturn("data: " + part) == "data: " + DropReturn(part)
    ensures EndsInReturn("data: " + part) <==> EndsInReturn(part)
  {
    var line := "data: " + part;
    assert forall k :: 0 <= k < 6 ==> line[k] != '\n' && line[k] != '\r';
    assert forall k :: 0 <= k < |part| ==> part[k] == line[6 + k];
    if EndsInReturn(part) {
      assert line[..|line| - 1] == "data: " + part[..|part| - 1];
    }
  }

  lemma {:induction false} ItemsRead(items: seq<Item>, pending: Lines, rest: Lines)
    requires forall item :: item in items && item.Noise? ==> IsNoise(item.line)
    ensures Chunks(ItemLines(items) + rest, pending) == Chunks(rest, pending + Parts(items))
    decreases |items|
  {
    if items == [] {
      assert ItemLines(items) + rest == rest && pending + Parts(items) == pending;
    } else {
      var lines := ItemLines(items) + rest;
      assert lines[1..] == ItemLines(items[1..]) + rest && lines[0] == ItemLine(items[0]);
      match items[0]
      case Data(part) =>
        DataLine(part);
        ItemsRead(items[1..], pending + [part], rest);
        assert pending + [part] + Parts(items[1..]) == pending + Parts(items);
      case Noise(line) =>
        assert items[0] in items;
        ItemsRead(items[1..], pending, rest);
        assert Parts(items) == Parts(items[1..]);
    }
  }

  /** The lines of framed blocks dispatch the carried chunks, whatever comments and other
      fields are interleaved and however many lines each chunk spans. */
  lemma {:induction false} LinesRead(blocks: seq<Block>)
    requires Framed(blocks)
    ensures Chunks(Encode(blocks), []) == Carried(blocks)
    decreases |blocks|
  {
    if blocks != [] {
      var b := blocks[0];
      var parts := Parts(b.items);
      var end := if b.blank then [""] else [];
      var tail := end + Encode(blocks[1..]);
      assert Encode(blocks) == ItemLines(b.items) + tail;
      ItemsRead(b.items, [], tail);
      assert [] + parts == parts;
      LinesRead(blocks[1..]);
      if b.blank {
        assert tail[0] == "" && tail[1..] == Encode(blocks[1..]);
      } else {
        assert |blocks| == 1 && tail == [];
      }
    }
  }

  lemma ItemIsLine(item: Item)
    requires IsItem(item)
    ensures IsLine(ItemLine(item))
  {
    if item.Data? {
      DataLineIsLine(item.part);
    }
  }

  lemma {:induction false} EncodedLines(blocks: seq<Block>)
    requires WellEncoded(blocks)
    ensures Framed(blocks) && forall line :: line in Encode(blocks) ==> IsLine(line)
    decreases |blocks|
  {
    forall k, item | 0 <= k < |blocks| && item in blocks[k].items && item.Noise?
      ensures IsNoise(item.line)
    {
      assert IsItem(item);
    }
    if blocks != [] {
      var items := blocks[0].items;
      EncodedLines(blocks[1..]);
      forall line | line in ItemLines(items) ensures IsLine(line) {
        var i :| 0 <= i < |items| && ItemLine(items[i]) == line;
        ItemIsLine(items[i]);
      }
    }
  }

  /** Writing encoded blocks as text and scanning it gives their lines back. */
  lemma LinesBack(blocks: seq<Block>)
    requires WellEncoded(blocks)
    ensures Scan(Text(Encode(blocks))) == Encode(blocks)
  {
    EncodedLines(blocks);
    ScanText(Encode(blocks));
    NothingDropped(Encode(blocks));
  }

  /** Reading back the text of what was encoded gives the carried chunks. */
  lemma RoundTrip(blocks: seq<Block>)
    requires WellEncoded(blocks)
    ensures Chunks(Scan(Text(Encode(blocks))), []) == Carried(blocks)
  {
    EncodedLines(blocks);
    LinesBack(blocks);
    LinesRead(blocks);
  }

  lemma {:induction false} BeforeDoneAll(chunks: Lines)
    requires DONE_MARKER !in chunks
    ensures BeforeDone(chunks) == chunks
  {
    BeforeDoneConcat(chunks, []);
    assert chunks + [] == chunks;
  }

  lemma {:induction false} BeforeDoneWhole(chunks: Lines)
    ensures |BeforeDone(chunks)| <= |chunks|
    ensures |BeforeDone(chunks)| == |chunks| ==> BeforeDone(chunks) == chunks
  {
    if chunks != [] {
      BeforeDoneWhole(chunks[1..]);
      assert chunks == [chunks[0]] + chunks[1..];
    }
  }

  /** Every list of chunks, none of them the done marker, is delivered unchanged
      through the text of an encoding of it, to a consumer that accepts. */
  lemma DeliveredUnchanged(env: Surroundings, blocks: seq<Block>)
    requires WellEncoded(blocks) && "[DONE]" !in Carried(blocks)
    requires Calm(env) && AcceptsTo(env, |Carried(blocks)|)
    ensures
      var e := Reading(env, Scan(Text(Encode(blocks))));
      e.outcome == Finished && e.emitted == Carried(blocks)
  {
    RoundTrip(blocks);
    BeforeDoneAll(Carried(blocks));
    ConsumerDecides(env, Scan(Text(Encode(blocks))), |Carried(blocks)|);
  }

  // ---------- the plain encoding of chunks ----------

  function DataItems(parts: Lines): seq<Item> {
    seq(|parts|, i requires 0 <= i < |parts| => Data(parts[i]))
  }

  lemma {:induction false} PartsOfData(parts: Lines)
    ensures Parts(DataItems(parts)) == parts
  {
    if parts != [] {
      assert DataItems(parts)[1..] == DataItems(parts[1..]);
      PartsOfData(parts[1..]);
      assert parts == [parts[0]] + parts[1..];
    }
  }

  // An event whose data lines are the parts, for each list of parts.
  function DataBlocks(all: seq<Lines>): seq<Block> {
    seq(|all|, i requires 0 <= i < |all| => Block(DataItems(all[i]), true))
  }

  function PlainBlocks(chunks: Lines): seq<Block> {
    DataBlocks(Splits(chunks))
  }

  function Splits(chunks: Lines): (all: seq<Lines>)
    ensures |all| == |chunks| && forall i :: 0 <= i < |chunks| ==> all[i] == Split(chunks[i])
  {
    seq(|chunks|, i requires 0 <= i < |chunks| => Split(chunks[i]))
  }

  function Joins(all: seq<Lines>): (chunks: Lines)
    ensures |chunks| == |all| && forall i :: 0 <= i < |all| ==> chunks[i] == Join(all[i])
  {
    seq(|all|, i requires 0 <= i < |all| => Join(all[i]))
  }

  lemma {:induction false} DataCarried(all: seq<Lines>)
    requires forall i :: 0 <= i < |all| ==> all[i] != []
    ensures Framed(DataBlocks(all)) && Carried(DataBlocks(all)) == Joins(all)
  {
    if all != [] {
      DataCarried(all[1..]);
      assert DataBlocks(all)[1..] == DataBlocks(all[1..]);
      PartsOfData(all[0]);
      assert Joins(all) == [Join(all[0])] + Joins(all[1..]);
    }
  }

  function Trimmed(all: seq<Lines>): (after: seq<Lines>)
    ensures |after| == |all| && forall i :: 0 <= i < |all| ==> after[i] == DropReturns(all[i])
  {
    seq(|all|, i requires 0 <= i < |all| => DropReturns(all[i]))
  }

  lemma DataLinesUnfold(parts: Lines)
    requires parts != []
    ensures ItemLines(DataItems(parts)) == ["data: " + parts[0]] + ItemLines(DataItems(parts[1..]))
  {
  }

  lemma {:induction false} DataLinesTrimmed(parts: Lines)
    requires NewlineFree(parts)
    ensures NewlineFree(ItemLines(DataItems(parts)))
    ensures DropReturns(ItemLines(DataItems(parts))) == ItemLines(DataItems(DropReturns(parts)))
  {
    if parts != [] {
      var trimmed := [DropReturn(parts[0])] + DropReturns(parts[1..]);
      assert parts[0] in parts && trimmed == DropReturns(parts);
      assert trimmed[1..] == DropReturns(parts[1..]);
      DataLinesTrimmed(parts[1..]);
      hide ItemLines;
      hide DataItems;
      hide DropReturns;
      hide DropReturn;
      DataLineIsLine(parts[0]);
      DataLinesUnfold(parts);
      DataLinesUnfold(trimmed);
    }
  }

  // Scanning the text of data lines trims each of them.
  lemma {:induction false} DataScanned(all: seq<Lines>)
    requires forall i :: 0 <= i < |all| ==> NewlineFree(all[i])
    ensures NewlineFree(Encode(DataBlocks(all)))
    ensures DropReturns(Encode(DataBlocks(all))) == Encode(DataBlocks(Trimmed(all)))
  {
    if all != [] {
      var lines, rest := ItemLines(DataItems(all[0])), Encode(DataBlocks(all[1..]));
      DataLinesTrimmed(all[0]);
      DataScanned(all[1..]);
      assert DataBlocks(all)[1..] == DataBlocks(all[1..]);
      assert Trimmed(all)[1..] == Trimmed(all[1..]);
      assert DataBlocks(Trimmed(all))[1..] == DataBlocks(Trimmed(all[1..]));
      DropConcat(lines + [""], rest);
      DropConcat(lines, [""]);
      assert DropReturns([""]) == [""];
    }
  }

  /** What is read of the plain encoding of any chunks, empty and multi-line ones
      included: each line of a chunk less a carriage return at its end. */
  lemma PlainRead(chunks: Lines)
    ensures Chunks(Scan(Text(Encode(PlainBlocks(chunks)))), []) == Joins(Trimmed(Splits(chunks)))
  {
    var all := Splits(chunks);
    DataScanned(all);
    ScanText(Encode(DataBlocks(all)));
    forall i | 0 <= i < |all| ensures Trimmed(all)[i] != [] {
      NothingDropped(all[i]);
    }
    LinesRead(DataBlocks(Trimmed(all))) by { DataCarried(Trimmed(all)); }
    DataCarried(Trimmed(all));
  }

  lemma {:induction false} DropKeepsNewlineFree(parts: Lines)
    requires NewlineFree(parts)
    ensures NewlineFree(DropReturns(parts))
  {
    if parts != [] {
      DropKeepsNewlineFree(parts[1..]);
      assert parts[0] in parts;
    }
  }

  /** The plain encoding is read back as the chunks if and only if no line of a chunk
      ends in a carriage return. */
  lemma PlainIff(chunks: Lines)
    ensures Chunks(Scan(Text(Encode(PlainBlocks(chunks)))), []) == chunks <==>
      forall i, line :: 0 <= i < |chunks| && line in Split(chunks[i]) ==> line == "" || line[|line| - 1] != '\r'
  {
    PlainRead(chunks);
    var read := Joins(Trimmed(Splits(chunks)));
    forall i | 0 <= i < |chunks|
      ensures read[i] == chunks[i] <==> forall line :: line in Split(chunks[i]) ==> !EndsInReturn(line)
    {
      var parts := Split(chunks[i]);
      NothingDropped(parts);
      JoinSplit(chunks[i]);
      DropKeepsNewlineFree(parts);
      SplitJoin(DropReturns(parts));
    }
    assert read == chunks <==> forall i :: 0 <= i < |chunks| ==> read[i] == chunks[i];
  }

  /** End to end: with a calm input and context and a consumer that accepts, the reader
      delivers any chunks but the done marker, in order and unchanged, from the text of
      their plain encoding, if and only if no line of them ends in a carriage return. */
  lemma PlainDelivery(env: Surroundings, chunks: Lines)
    requires Calm(env) && AcceptsTo(env, |chunks|) && "[DONE]" !in chunks
    ensures
      var e := Reading(env, Scan(Text(Encode(PlainBlocks(chunks)))));
      (e.outcome == Finished && e.emitted == chunks) <==>
        forall i, line :: 0 <= i < |chunks| && line in Split(chunks[i]) ==> line == "" || line[|line| - 1] != '\r'
  {
    PlainRead(chunks);
    PlainIff(chunks);
    BeforeDoneAll(chunks);
    BeforeDoneWhole(Joins(Trimmed(Splits(chunks))));
    ConsumerDecides(env, Scan(Text(Encode(PlainBlocks(chunks)))), |chunks|);
  }

  // ---------- the server's writer ----------

  // What the server writes: a comment, trimmed, or an event with its type and its data.
  datatype Written = Comment(text: string) | Event(typ: string, data: string)

  function WrittenText(w: Written): string {
    match w
    case Comment(text) => ": " + text + "\n\n"
    case Event(typ, data) => "event: " + typ + "\n" + "data: " + data + "\n\n"
  }

  function AllWritten(ws: seq<Written>): string {
    if ws == [] then "" else WrittenText(ws[0]) + AllWritten(ws[1..])
  }

  // Comments are fixed phrases, types are names, and data is JSON: one line each.
  predicate OneLine(w: Written) {
    match w
    case Comment(text) => IsLine(text)
    case Event(typ, data) => IsLine(typ) && IsLine(data)
  }

  function WrittenBlock(w: Written): Block {
    match w
    case Comment(text) => Block([Noise(": " + text)], true)
    case Event(typ, data) => Block([Noise("event: " + typ), Data(data)], true)
  }

  function WrittenBlocks(ws: seq<Written>): seq<Block> {
    seq(|ws|, i requires 0 <= i < |ws| => WrittenBlock(ws[i]))
  }

  function EventData(ws: seq<Written>): Lines {
    if ws == [] then []
    else (if ws[0].Event? then [ws[0].data] else []) + EventData(ws[1..])
  }

  lemma NoiseLines(text: string)
    ensures IsNoise(": " + text) && IsNoise("event: " + text)
    ensures IsLine(text) ==> IsLine(": " + text) && IsLine("event: " + text)
  {
    var comment, event := ": " + text, "event: " + text;
    CommentIsNotData(comment) by { assert comment[..1] == ":"; }
    assert event[..5][0] == 'e';
    assert forall k :: 0 <= k < 2 ==> comment[k] != '\n' && comment[k] != '\r';
    assert forall k :: 0 <= k < 7 ==> event[k] != '\n' && event[k] != '\r';
  }

  lemma WrittenCarries(w: Written)
    ensures Dispatched(Parts(WrittenBlock(w).items)) == if w.Event? then [w.data] else []
    ensures OneLine(w) ==> forall item :: item in WrittenBlock(w).items ==> IsItem(item)
  {
    match w
    case Comment(text) =>
      NoiseLines(text);
      assert WrittenBlock(w).items[1..] == [];
    case Event(typ, data) =>
      NoiseLines(typ);
      var items := WrittenBlock(w).items;
      assert items[1..] == [Data(data)] && [Data(data)][1..] == [];
      assert Parts([Data(data)]) == [data] + Parts([]);
      assert Parts(items) == [] + Parts(items[1..]);
      assert Join([data]) == data;
  }

  lemma TextUnfold(line: string, rest: Lines)
    ensures Text([line] + rest) == line + "\n" + Text(rest)
  {
    assert ([line] + rest)[1..] == rest;
  }

  lemma {:induction false} TextConcat(a: Lines, b: Lines)
    ensures Text(a + b) == Text(a) + Text(b)
  {
    if a == [] {
      assert a + b == b;
    } else {
      TextUnfold(a[0], a[1..]);
      TextUnfold(a[0], a[1..] + b);
      assert a == [a[0]] + a[1..] && a + b == [a[0]] + (a[1..] + b);
      TextConcat(a[1..], b);
      hide Text;
      AssociateText(a[0] + "\n", Text(a[1..]), Text(b));
    }
  }

  function BlockLines(w: Written): Lines {
    ItemLines(WrittenBlock(w).items) + [""]
  }

  lemma BlockText(w: Written)
    ensures Text(BlockLines(w)) == WrittenText(w)
  {
    var lines := BlockLines(w);
    match w
    case Comment(text) =>
      assert lines == [": " + text, ""] && lines[1..] == [""] && lines[1..][1..] == [];
      assert Text(lines[1..]) == "\n";
      assert ": " + text + "\n" + "\n" == WrittenText(w);
    case Event(typ, data) =>
      assert lines == ["event: " + typ, "data: " + data, ""];
      assert lines[1..] == ["data: " + data, ""] && lines[1..][1..] == [""] && lines[1..][1..][1..] == [];
      assert Text(lines[1..][1..]) == "\n";
      assert Text(lines[1..]) == "data: " + data + "\n" + "\n";
      assert "event: " + typ + "\n" + ("data: " + data + "\n" + "\n") == WrittenText(w);
  }

  lemma WrittenUnfold(ws: seq<Written>)
    requires ws != []
    ensures Encode(WrittenBlocks(ws)) == BlockLines(ws[0]) + Encode(WrittenBlocks(ws[1..]))
    ensures Carried(WrittenBlocks(ws)) ==
      Dispatched(Parts(WrittenBlock(ws[0]).items)) + Carried(WrittenBlocks(ws[1..]))
  {
    assert WrittenBlocks(ws)[1..] == WrittenBlocks(ws[1..]);
  }

  /** The text the server writes is that of an encoding which carries exactly the data
      of its events. */
  lemma {:induction false} WrittenEncoding(ws: seq<Written>)
    ensures Text(Encode(WrittenBlocks(ws))) == AllWritten(ws) && Carried(WrittenBlocks(ws)) == EventData(ws)
  {
    if ws != [] {
      WrittenEncoding(ws[1..]);
      hide Encode;
      hide Text;
      hide WrittenText;
      hide BlockLines;
      hide WrittenBlock;
      WrittenUnfold(ws);
      WrittenCarries(ws[0]);
      BlockText(ws[0]);
      TextConcat(BlockLines(ws[0]), Encode(WrittenBlocks(ws[1..])));
    }
  }

  lemma WrittenWell(ws: seq<Written>)
    requires forall w :: w in ws ==> OneLine(w)
    ensures WellEncoded(WrittenBlocks(ws))
  {
    forall k | 0 <= k < |ws|
      ensures forall item :: item in WrittenBlock(ws[k]).items ==> IsItem(item)
    {
      WrittenCarries(ws[k]);
    }
  }

  lemma LinesAreOne(ws: seq<Written>)
    requires forall w :: w in ws ==> match w
      case Comment(text) => '\n' !in text && (text == "" || text[|text| - 1] != '\r')
      case Event(typ, data) =>
        && '\n' !in typ && (typ == "" || typ[|typ| - 1] != '\r')
        && '\n' !in data && (data == "" || data[|data| - 1] != '\r')
    ensures forall w :: w in ws ==> OneLine(w)
  {
  }

  /** What the server writes, comments and event types included, is read back as the
      data of its events. */
  lemma ServerDelivery(env: Surroundings, ws: seq<Written>)
    requires forall w :: w in ws ==> match w
      case Comment(text) => '\n' !in text && (text == "" || text[|text| - 1] != '\r')
      case Event(typ, data) =>
        && '\n' !in typ && (typ == "" || typ[|typ| - 1] != '\r')
        && '\n' !in data && (data == "" || data[|data| - 1] != '\r')
    requires Calm(env) && AcceptsTo(env, |EventData(ws)|) && "[DONE]" !in EventData(ws)
    ensures
      var e := Reading(env, Scan(AllWritten(ws)));
      e.outcome == Finished && e.emitted == EventData(ws)
  {
    LinesAreOne(ws);
    hide *;
    WrittenEncoding(ws);
    WrittenWell(ws);
    DeliveredUnchanged(env, WrittenBlocks(ws));
  }
}
