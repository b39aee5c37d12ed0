/**
 The signage event stream as text: what the generator prints, what a browser reads back by section
 9.2.6 (Interpreting an event stream) of the WHATWG HTML Standard, and the ids across reconnects.
 */
module EventStream {
  import opened Wrappers

  // ---------- decimal ids ----------

  function DigitChar(d: nat): char
    requires d < 10
  {
    ('0' as int + d) as char
  }

  function Decimal(n: nat): string {
    if n < 10 then [DigitChar(n)] else Decimal(n / 10) + [DigitChar(n % 10)]
  }

  predicate IsAsciiDigit(c: char) {
    '0' <= c <= '9'
  }

  /** Python's `isdigit` on the characters a header can carry: it also accepts three superscripts. */
  predicate IsDigit(c: char) {
    IsAsciiDigit(c) || c == '\U{B2}' || c == '\U{B3}' || c == '\U{B9}'
  }

  predicate AllDigits(s: string) {
    forall i :: 0 <= i < |s| ==> IsDigit(s[i])
  }

  predicate AllAscii(s: string) {
    forall i :: 0 <= i < |s| ==> IsAsciiDigit(s[i])
  }

  function Value(s: string): nat
    requires AllAscii(s)
  {
    if s == "" then 0 else 10 * Value(s[..|s| - 1]) + (s[|s| - 1] as int - '0' as int)
  }

  /** Python refuses to convert between integers and decimal strings of more digits than this. */
  const MAX_DIGITS: nat := 4300

  /**
   The starting sequence number; `int` raises on a superscript that `isdigit` let through, and on too
   many digits, leading zeros included.
   */
  function ResumeFrom(header: Option<string>): Result<nat, string> {
    if header.None? || header.value == "" || !AllDigits(header.value) then Ok(0)
    else if AllAscii(header.value) && |header.value| <= MAX_DIGITS then Ok(Value(header.value))
    else Err("invalid literal for int()")
  }

  lemma {:induction false} DecimalRoundTrip(n: nat)
    ensures Decimal(n) != "" && AllAscii(Decimal(n)) && Value(Decimal(n)) == n
  {
    if n < 10 {
      assert Decimal(n)[..0] == "";
    } else {
      DecimalRoundTrip(n / 10);
      var s := Decimal(n);
      assert s[..|s| - 1] == Decimal(n / 10);
    }
  }

  function Pow10(k: nat): nat {
    if k == 0 then 1 else 10 * Pow10(k - 1)
  }

  lemma {:induction false} DecimalLength(n: nat, k: nat)
    requires 0 < k
    ensures |Decimal(n)| <= k <==> n < Pow10(k)
  {
    if k == 1 {
      assert Pow10(1) == 10 * Pow10(0);
      if n >= 10 {
        DecimalRoundTrip(n / 10);
      }
    } else if n < 10 {
      PowAtLeastTen(k);
    } else {
      DecimalLength(n / 10, k - 1);
    }
  }

  lemma {:induction false} PowAtLeastTen(k: nat)
    requires 0 < k
    ensures Pow10(k) >= 10
  {
    if k > 1 {
      PowAtLeastTen(k - 1);
    }
  }

  /** The first number that is too long to print. */
  ghost function IdLimit(): nat {
    Pow10(MAX_DIGITS)
  }

  /** `str` raises on the others. */
  predicate Printable(n: nat) {
    |Decimal(n)| <= MAX_DIGITS
  }

  lemma PrintableIff(n: nat)
    ensures Printable(n) <==> n < IdLimit()
  {
    DecimalLength(n, MAX_DIGITS);
  }

  /** Resuming from a number in decimal continues after it exactly if the stream could print it. */
  lemma ResumeAfterPrinted(n: nat)
    ensures ResumeFrom(Some(Decimal(n))) == Ok(n) <==> n < IdLimit()
    ensures ResumeFrom(Some(Decimal(n))).Err? <==> n >= IdLimit()
  {
    DecimalRoundTrip(n);
    PrintableIff(n);
  }

  /** Resuming fails exactly on headers of digits that are too long or include a superscript. */
  lemma ResumeFailsIff(header: string)
    ensures ResumeFrom(Some(header)).Err? <==>
      && AllDigits(header)
      && (|header| > MAX_DIGITS || exists i :: 0 <= i < |header| && header[i] in {'\U{B2}', '\U{B3}', '\U{B9}'})
  {
  }

  function Zeros(k: nat): string {
    seq(k, i => '0')
  }

  lemma OneMoreDigit(v: nat, c: char)
    requires IsAsciiDigit(c)
    ensures Decimal(10 * v + (c as int - '0' as int)) == (if v == 0 then "" else Decimal(v)) + [c]
  {
    var d := c as int - '0' as int;
    assert DigitChar(d) == c && (10 * v + d) / 10 == v && (10 * v + d) % 10 == d;
  }

  /** Digits are leading zeros and the decimal form of their value. */
  lemma {:induction false} DigitsAreZerosAndDecimal(s: string) returns (k: nat)
    requires AllAscii(s) && s != ""
    ensures s == Zeros(k) + Decimal(Value(s))
  {
    var n := |s| - 1;
    var init, c := s[..n], s[n];
    assert s == init + [c];
    OneMoreDigit(Value(init), c);
    if n == 0 {
      k := 0;
      assert Value(init) == 0 && Zeros(0) + [c] == s;
    } else {
      k := DigitsAreZerosAndDecimal(init);
      if Value(init) == 0 {
        assert init == Zeros(k) + "0" == Zeros(k + 1);
        k := k + 1;
      } else {
        Reassociate(Zeros(k), Decimal(Value(init)), [c]);
      }
    }
  }

  lemma {:induction false} LeadingZeros(k: nat, s: string)
    requires AllAscii(s)
    ensures AllAscii(Zeros(k) + s) && Value(Zeros(k) + s) == Value(s)
  {
    if s == "" {
      if k > 0 {
        LeadingZeros(k - 1, "");
        assert (Zeros(k) + "")[..k - 1] == Zeros(k - 1) + "";
      }
    } else {
      LeadingZeros(k, s[..|s| - 1]);
      assert (Zeros(k) + s)[..k + |s| - 1] == Zeros(k) + s[..|s| - 1];
    }
  }

  /** The number a header resumes from: none, empty or not all digits is zero; digits are their number. */
  lemma ResumeIff(header: Option<string>, n: nat)
    ensures ResumeFrom(header) == Ok(n) <==>
      if header.None? || header.value == "" || !AllDigits(header.value) then n == 0
      else |header.value| <= 4300 && exists k: nat :: header.value == Zeros(k) + Decimal(n)
  {
    DecimalRoundTrip(n);
    if header.Some? && header.value != "" && AllDigits(header.value) {
      var s := header.value;
      if k: nat :| s == Zeros(k) + Decimal(n) {
        LeadingZeros(k, Decimal(n));
      }
      if AllAscii(s) && Value(s) == n {
        var k := DigitsAreZerosAndDecimal(s);
      }
    }
  }

  function Nines(k: nat): string {
    seq(k, i => '9')
  }

  lemma {:induction false} NinesValue(k: nat)
    ensures AllAscii(Nines(k)) && Value(Nines(k)) == Pow10(k) - 1
  {
    if k > 0 {
      NinesValue(k - 1);
      assert Nines(k)[..k - 1] == Nines(k - 1);
    }
  }

  // ---------- the generator ----------

  datatype Item = Snapshot(payload: string) | Heartbeat

  function EventText(id: nat, data: string): string {
    "id: " + Decimal(id) + (if data != "" then "\n" + "data: " + data else "") + "\n\n"
  }

  function ItemText(id: nat, item: Item): string {
    match item
    case Snapshot(payload) => EventText(id, payload)
    case Heartbeat => "id: " + Decimal(id) + "\n" + ": heartbeat" + "\n\n"
  }

  /** Items printed with ids `last + 1`, `last + 2`, ... */
  function StreamText(last: nat, items: seq<Item>): string
    decreases |items|
  {
    if items == [] then "" else ItemText(last + 1, items[0]) + StreamText(last + 1, items[1..])
  }

  lemma {:induction false} StreamTextSnoc(last: nat, items: seq<Item>, item: Item)
    decreases |items|
    ensures StreamText(last, items + [item]) == StreamText(last, items) + ItemText(last + |items| + 1, item)
  {
    if items == [] {
      assert items + [item] == [item];
      assert [item][1..] == [];
    } else {
      assert (items + [item])[1..] == items[1..] + [item];
      StreamTextSnoc(last + 1, items[1..], item);
    }
  }

  /** How many ids after `last` can be printed. */
  ghost function IdsLeft(last: nat): nat {
    if last < IdLimit() then IdLimit() - 1 - last else 0
  }

  /** The items that get out before an id is too long to print. */
  ghost function Sent(last: nat, items: seq<Item>): seq<Item> {
    if |items| <= IdsLeft(last) then items else items[..IdsLeft(last)]
  }

  /** The first `k` items have been printed. */
  ghost predicate Printed(last: nat, items: seq<Item>, k: nat, text: string) {
    k <= |items| && (k == 0 || Printable(last + k)) && text == StreamText(last, items[..k])
  }

  lemma PrintedOne(last: nat, items: seq<Item>)
    requires items != [] && Printable(last + 1)
    ensures Printed(last, items, 1, ItemText(last + 1, items[0]))
  {
    assert items[..1] == [items[0]] && [items[0]][1..] == [];
  }

  lemma PrintedTurn(last: nat, items: seq<Item>, k: nat, text: string)
    requires k < |items| && Printed(last, items, k, text) && Printable(last + k + 1)
    ensures Printed(last, items, k + 1, text + ItemText(last + k + 1, items[k]))
  {
    var before, block := items[..k], ItemText(last + k + 1, items[k]);
    assert items[..k + 1] == before + [items[k]];
    StreamTextSnoc(last, before, items[k]);
    assert StreamText(last, items[..k + 1]) == text + block;
  }

  lemma PrintedStops(last: nat, items: seq<Item>, k: nat, text: string)
    requires Printed(last, items, k, text) && (k < |items| ==> !Printable(last + k + 1))
    ensures text == StreamText(last, Sent(last, items))
    ensures k < |items| <==> |items| > IdsLeft(last)
  {
    PrintableIff(last + k);
    PrintableIff(last + k + 1);
    assert items[..|items|] == items;
    assert Sent(last, items) == items[..k];
  }

  /**
   The body of `sse_stream`: the first item, a snapshot, then one item per turn of the loop. An id that
   cannot be printed raises; what was yielded before it stays sent.
   */
  method PrintItems(last: nat, items: seq<Item>) returns (text: string, raised: bool)
    requires items != [] && items[0].Snapshot?
    ensures text == StreamText(last, Sent(last, items))
    ensures raised <==> |items| > IdsLeft(last)
  {
    var id := last + 1;
    text, raised := "", !Printable(id);
    if raised {
      PrintedStops(last, items, 0, text);
      return;
    }
    PrintedOne(last, items);
    text := ItemText(id, items[0]);
    for i := 1 to |items|
      invariant id == last + i && !raised
      invariant Printed(last, items, i, text)
    {
      id := id + 1;
      raised := !Printable(id);
      if raised {
        PrintedStops(last, items, i, text);
        return;
      }
      PrintedTurn(last, items, i, text);
      text := text + ItemText(id, items[i]);
    }
    PrintedStops(last, items, |items|, text);
  }

  /** `sse_stream`: resume, then print. */
  method SseStream(lastEventId: Option<string>, items: seq<Item>) returns (text: string, raised: bool)
    requires items != [] && items[0].Snapshot?
    ensures ResumeFrom(lastEventId).Err? ==> raised && text == ""
    ensures ResumeFrom(lastEventId).Ok? ==>
      && text == StreamText(ResumeFrom(lastEventId).value, Sent(ResumeFrom(lastEventId).value, items))
      && (raised <==> ResumeFrom(lastEventId).value + |items| >= IdLimit())
  {
    var start := ResumeFrom(lastEventId);
    if start.Err? {
      return "", true;
    }
    text, raised := PrintItems(start.value, items);
  }

  /** The largest number that resumes leaves no id to print: such a stream raises and sends nothing. */
  lemma NinesSendNothing(items: seq<Item>)
    ensures ResumeFrom(Some(Nines(MAX_DIGITS))) == Ok(Pow10(MAX_DIGITS) - 1)
    ensures Sent(Pow10(MAX_DIGITS) - 1, items) == []
    ensures ResumeFrom(Some(Nines(MAX_DIGITS + 1))).Err?
  {
    NinesValue(MAX_DIGITS);
    NinesValue(MAX_DIGITS + 1);
  }

  // ---------- the browser ----------

  datatype Message = Message(kind: string, data: string, id: string)

  /** Data, event-type and id buffers, the last event id string, and the events dispatched. */
  datatype Reader = Reader(data: string, kind: string, idBuffer: string, lastId: string, got: seq<Message>)

  function Dispatch(r: Reader): Reader {
    if r.data == "" then r.(kind := "", lastId := r.idBuffer)
    else
      var data := if r.data[|r.data| - 1] == '\n' then r.data[..|r.data| - 1] else r.data;
      var message := Message(if r.kind == "" then "message" else r.kind, data, r.idBuffer);
      Reader("", "", r.idBuffer, r.idBuffer, r.got + [message])
  }

  /** Unknown fields are ignored, and `retry` only sets the reconnection time. */
  function Field(r: Reader, name: string, value: string): Reader {
    if name == "event" then r.(kind := value)
    else if name == "data" then r.(data := r.data + value + "\n")
    else if name == "id" && '\0' !in value then r.(idBuffer := value)
    else r
  }

  /** Index of the first character satisfying one of two values, or the length. */
  function IndexOf(s: string, a: char, b: char): (i: nat)
    ensures i <= |s|
    ensures forall j :: 0 <= j < i ==> s[j] != a && s[j] != b
    ensures i < |s| ==> s[i] == a || s[i] == b
  {
    if s == "" || s[0] == a || s[0] == b then 0 else 1 + IndexOf(s[1..], a, b)
  }

  function Line(r: Reader, line: string): Reader {
    if line == "" then Dispatch(r)
    else if line[0] == ':' then r
    else
      var c := IndexOf(line, ':', ':');
      if c == |line| then Field(r, line, "")
      else
        var value := line[c + 1..];
        Field(r, line[..c], if value != "" && value[0] == ' ' then value[1..] else value)
  }

  /** Lines end with LF, CR or CRLF; what follows the last line end is not yet a line. */
  function Feed(r: Reader, text: string): Reader
    decreases |text|
  {
    var i := IndexOf(text, '\n', '\r');
    if i == |text| then r
    else
      var rest := if text[i] == '\r' && i + 1 < |text| && text[i + 1] == '\n' then text[i + 2..] else text[i + 1..];
      Feed(Line(r, text[..i]), rest)
  }

  // ---------- reading back what was printed ----------

  ghost predicate OneLine(s: string) {
    '\n' !in s && '\r' !in s
  }

  ghost predicate OneLineItems(items: seq<Item>) {
    forall i :: 0 <= i < |items| && items[i].Snapshot? ==> OneLine(items[i].payload)
  }

  lemma FeedLine(r: Reader, line: string, rest: string)
    requires OneLine(line)
    ensures Feed(r, line + "\n" + rest) == Feed(Line(r, line), rest)
  {
    var text := line + "\n" + rest;
    var i := IndexOf(text, '\n', '\r');
    assert text[|line|] == '\n';
    assert forall j :: 0 <= j < |line| ==> text[j] == line[j];
    assert i == |line|;
    assert text[..i] == line && text[i + 1..] == rest;
  }

  lemma FieldLine(r: Reader, name: string, value: string)
    requires name != "" && ':' !in name
    ensures Line(r, name + ": " + value) == Field(r, name, value)
  {
    var line := name + ": " + value;
    var c := IndexOf(line, ':', ':');
    assert line[0] == name[0] && line[|name|] == ':';
    assert forall j :: 0 <= j < |name| ==> line[j] == name[j];
    assert c == |name|;
    assert line[..c] == name && line[c + 1..] == " " + value;
    assert (" " + value)[1..] == value;
  }

  /** Lines may also end with CR LF, or with a CR that no LF follows. */
  lemma LineEnds(r: Reader, line: string, rest: string)
    requires OneLine(line)
    ensures Feed(r, line + "\r\n" + rest) == Feed(Line(r, line), rest)
    ensures rest == "" || rest[0] != '\n' ==> Feed(r, line + "\r" + rest) == Feed(Line(r, line), rest)
  {
    CarriageReturn(r, line, "\n" + rest);
    CrLf(line, rest);
    CarriageReturn(r, line, rest);
  }

  lemma CrLf(line: string, rest: string)
    ensures line + "\r" + ("\n" + rest) == line + "\r\n" + rest && ("\n" + rest)[1..] == rest
  {
  }

  lemma CarriageReturn(r: Reader, line: string, rest: string)
    requires OneLine(line)
    ensures Feed(r, line + "\r" + rest) ==
      Feed(Line(r, line), if rest != "" && rest[0] == '\n' then rest[1..] else rest)
  {
    var text := line + "\r" + rest;
    FirstLineEnd(line, "\r" + rest);
    assert text == line + ("\r" + rest);
    var i := |line|;
    assert text[..i] == line && text[i + 1..] == rest;
    if rest != "" { assert text[i + 1] == rest[0] && text[i + 2..] == rest[1..]; }
  }

  lemma FirstLineEnd(line: string, tail: string)
    requires OneLine(line) && tail != "" && (tail[0] == '\n' || tail[0] == '\r')
    ensures IndexOf(line + tail, '\n', '\r') == |line|
  {
    var text := line + tail;
    assert text[|line|] == tail[0];
    assert forall j :: 0 <= j < |line| ==> text[j] == line[j];
  }

  /** The field names that matter, and what they do; one space after the colon is dropped, none needed. */
  lemma FieldsRead(r: Reader, name: string, value: string)
    requires name != "" && ':' !in name
    ensures
      var next := Line(r, name + ": " + value);
      if name == "event" then next == r.(kind := value)
      else if name == "data" then next == r.(data := r.data + value + "\n")
      else if name == "id" && '\0' !in value then next == r.(idBuffer := value)
      else next == r
    ensures value == "" || value[0] != ' ' ==> Line(r, name + ":" + value) == Line(r, name + ": " + value)
    ensures Line(r, name) == Line(r, name + ": ")
    ensures Line(r, ": " + value) == r
  {
    FieldLine(r, name, value);
    FieldLine(r, name, "");
    assert name + ": " + "" == name + ": ";
    if value == "" || value[0] != ' ' { BareFieldLine(r, name, value); }
    assert IndexOf(name, ':', ':') == |name|;
  }

  lemma BareFieldLine(r: Reader, name: string, value: string)
    requires name != "" && ':' !in name && (value == "" || value[0] != ' ')
    ensures Line(r, name + ":" + value) == Field(r, name, value)
  {
    var bare := name + ":" + value;
    assert bare[0] == name[0] && bare[|name|] == ':';
    assert forall j :: 0 <= j < |name| ==> bare[j] == name[j];
    assert IndexOf(bare, ':', ':') == |name|;
    assert bare[..|name|] == name && bare[|name| + 1..] == value;
  }

  ghost predicate Clean(r: Reader) {
    r.data == "" && r.kind == ""
  }

  function Received(id: nat, item: Item): seq<Message> {
    if item.Snapshot? && item.payload != "" then [Message("message", item.payload, Decimal(id))] else []
  }

  /** The reader after a whole block. */
  function AfterItem(r: Reader, id: nat, item: Item): Reader {
    Reader("", "", Decimal(id), Decimal(id), r.got + Received(id, item))
  }

  lemma DecimalIsPlain(n: nat)
    ensures OneLine(Decimal(n)) && '\0' !in Decimal(n)
  {
    DecimalRoundTrip(n);
    var s := Decimal(n);
    forall c | c in s ensures IsAsciiDigit(c) {
      var i :| 0 <= i < |s| && s[i] == c;
    }
  }

  lemma IdLine(r: Reader, id: nat)
    ensures OneLine("id: " + Decimal(id))
    ensures Line(r, "id: " + Decimal(id)) == r.(idBuffer := Decimal(id))
  {
    DecimalIsPlain(id);
    FieldLine(r, "id", Decimal(id));
    assert "id" + ": " + Decimal(id) == "id: " + Decimal(id);
  }

  /** The second line of a block, when it has one. */
  function SecondLine(item: Item): string {
    match item
    case Snapshot(payload) => if payload != "" then "data: " + payload else ""
    case Heartbeat => ": heartbeat"
  }

  /** A block is its id line, its second line if any, and a blank line. */
  lemma ItemLines(id: nat, item: Item, rest: string)
    ensures ItemText(id, item) + rest ==
      ("id: " + Decimal(id)) + "\n" +
      (if SecondLine(item) == "" then "\n" + rest else SecondLine(item) + "\n" + ("\n" + rest))
  {
  }

  lemma BlankLine(r: Reader, rest: string)
    ensures Feed(r, "\n" + rest) == Feed(Dispatch(r), rest)
  {
    assert "" + "\n" + rest == "\n" + rest;
    FeedLine(r, "", rest);
  }

  lemma SecondLineRead(r: Reader, item: Item)
    requires Clean(r) && SecondLine(item) != "" && (item.Snapshot? ==> OneLine(item.payload))
    ensures OneLine(SecondLine(item))
    ensures Dispatch(Line(r, SecondLine(item))) ==
      Reader("", "", r.idBuffer, r.idBuffer,
             r.got + if item.Snapshot? then [Message("message", item.payload, r.idBuffer)] else [])
  {
    match item
    case Snapshot(payload) =>
      FieldLine(r, "data", payload);
      assert "data" + ": " + payload == "data: " + payload;
      assert (payload + "\n")[..|payload|] == payload;
      assert r.data + payload + "\n" == payload + "\n";
    case Heartbeat =>
  }

  lemma FeedItem(r: Reader, id: nat, item: Item, rest: string)
    requires Clean(r) && (item.Snapshot? ==> OneLine(item.payload))
    ensures Feed(r, ItemText(id, item) + rest) == Feed(AfterItem(r, id, item), rest)
  {
    var first, second := "id: " + Decimal(id), SecondLine(item);
    var r1 := r.(idBuffer := Decimal(id));
    ItemLines(id, item, rest);
    IdLine(r, id);
    if second == "" {
      assert r.got + [] == r.got;
      FeedLine(r, first, "\n" + rest);
      BlankLine(r1, rest);
    } else {
      SecondLineRead(r1, item);
      FeedLine(r, first, second + "\n" + ("\n" + rest));
      FeedLine(r1, second, "\n" + rest);
      BlankLine(Line(r1, second), rest);
    }
  }

  /** Messages of the non-empty snapshots, in order, each with the id printed above it. */
  function Messages(last: nat, items: seq<Item>): seq<Message>
    decreases |items|
  {
    if items == [] then [] else Received(last + 1, items[0]) + Messages(last + 1, items[1..])
  }

  /** Reader state at a block boundary. */
  function Caught(r: Reader, last: nat, items: seq<Item>): Reader {
    if items == [] then r
    else Reader("", "", Decimal(last + |items|), Decimal(last + |items|), r.got + Messages(last, items))
  }

  lemma CaughtCons(r: Reader, last: nat, items: seq<Item>)
    requires items != []
    ensures Caught(AfterItem(r, last + 1, items[0]), last + 1, items[1..]) == Caught(r, last, items)
  {
    var received, rest := Received(last + 1, items[0]), Messages(last + 1, items[1..]);
    assert (r.got + received) + rest == r.got + (received + rest);
    assert items[1..] == [] ==> rest == [] && r.got + received + [] == r.got + received;
  }

  lemma Reassociate(a: string, b: string, c: string)
    ensures (a + b) + c == a + (b + c)
  {
  }

  /** Whatever follows, the whole blocks before it are read back exactly. */
  lemma {:induction false} BlocksRead(r: Reader, last: nat, items: seq<Item>, rest: string)
    requires Clean(r) && OneLineItems(items)
    decreases |items|
    ensures Feed(r, StreamText(last, items) + rest) == Feed(Caught(r, last, items), rest)
  {
    if items == [] {
      assert "" + rest == rest;
    } else {
      var block, blocks := ItemText(last + 1, items[0]), StreamText(last + 1, items[1..]);
      Reassociate(block, blocks, rest);
      FeedItem(r, last + 1, items[0], blocks + rest);
      BlocksRead(AfterItem(r, last + 1, items[0]), last + 1, items[1..], rest);
      CaughtCons(r, last, items);
    }
  }

  /** Every complete output is read back exactly: payloads in order, heartbeats only move the id. */
  lemma StreamRoundTrip(r: Reader, last: nat, items: seq<Item>)
    requires Clean(r) && OneLineItems(items)
    ensures Feed(r, StreamText(last, items)) == Caught(r, last, items)
  {
    BlocksRead(r, last, items, "");
    assert StreamText(last, items) + "" == StreamText(last, items);
  }

  // ---------- connections cut anywhere ----------

  /** No blank line is completed in it. */
  ghost predicate Blankless(s: string) {
    && '\r' !in s
    && (s != "" ==> s[0] != '\n')
    && forall i :: 0 < i < |s| && s[i] == '\n' ==> s[i - 1] != '\n'
  }

  lemma FieldKeepsOutput(r: Reader, line: string)
    requires line != ""
    ensures Line(r, line).got == r.got && Line(r, line).lastId == r.lastId
  {
  }

  lemma BlanklessRest(text: string, i: nat)
    requires Blankless(text) && i < |text| && text[i] == '\n'
    ensures text[..i] != "" && Blankless(text[i + 1..])
  {
    var rest := text[i + 1..];
    forall k | 0 < k < |rest| && rest[k] == '\n' ensures rest[k - 1] != '\n' {
      assert rest[k] == text[i + 1 + k] && rest[k - 1] == text[i + k];
    }
    assert rest != "" ==> rest[0] == text[i + 1];
  }

  /** A text without blank lines is read one nonempty line at a time. */
  lemma BlanklessStep(r: Reader, text: string, i: nat)
    requires Blankless(text) && i == IndexOf(text, '\n', '\r') && i < |text|
    ensures text[..i] != "" && Blankless(text[i + 1..])
    ensures Feed(r, text) == Feed(Line(r, text[..i]), text[i + 1..])
  {
    assert text[i] == '\n';
    BlanklessRest(text, i);
  }

  lemma {:induction false} BlanklessDispatchesNothing(r: Reader, text: string)
    requires Blankless(text)
    decreases |text|
    ensures Feed(r, text).got == r.got && Feed(r, text).lastId == r.lastId
  {
    var i := IndexOf(text, '\n', '\r');
    if i < |text| {
      BlanklessStep(r, text, i);
      FieldKeepsOutput(r, text[..i]);
      BlanklessDispatchesNothing(Line(r, text[..i]), text[i + 1..]);
    }
  }

  lemma PartialItem(id: nat, item: Item, k: nat)
    requires k < |ItemText(id, item)| && (item.Snapshot? ==> OneLine(item.payload))
    ensures Blankless(ItemText(id, item)[..k])
  {
    var first, second := "id: " + Decimal(id), SecondLine(item);
    ItemLines(id, item, "");
    DecimalIsPlain(id);
    var text := ItemText(id, item);
    assert text + "" == text;
    if second == "" {
      assert text == first + "\n" + "\n";
    } else {
      assert OneLine(second);
      assert text == first + "\n" + second + "\n" + "\n";
    }
  }

  /** The text delivered exactly the messages of the first `whole` items, and set the id of the last. */
  ghost predicate Delivered(r: Reader, last: nat, items: seq<Item>, text: string, whole: nat) {
    && whole <= |items|
    && Feed(r, text).got == Caught(r, last, items[..whole]).got
    && Feed(r, text).lastId == Caught(r, last, items[..whole]).lastId
  }

  lemma StreamTextCons(last: nat, items: seq<Item>, n: nat)
    requires n < |items|
    ensures StreamText(last, items[..n + 1]) ==
      ItemText(last + 1, items[0]) + StreamText(last + 1, items[1..][..n])
  {
    assert items[..n + 1][1..] == items[1..][..n];
  }

  lemma CutConcat(a: string, b: string, cut: nat)
    requires cut <= |a + b|
    ensures (a + b)[..cut] == if cut < |a| then a[..cut] else a + b[..cut - |a|]
  {
  }

  /** Cut at any character, the output is some whole blocks and a rest that completes none. */
  lemma {:induction false} CutSplits(last: nat, items: seq<Item>, cut: nat) returns (whole: nat, rest: string)
    requires OneLineItems(items) && cut <= |StreamText(last, items)|
    decreases |items|
    ensures whole <= |items| && Blankless(rest)
    ensures StreamText(last, items)[..cut] == StreamText(last, items[..whole]) + rest
  {
    whole, rest := 0, "";
    if items != [] {
      var block, blocks := ItemText(last + 1, items[0]), StreamText(last + 1, items[1..]);
      CutConcat(block, blocks, cut);
      if cut < |block| {
        PartialItem(last + 1, items[0], cut);
        rest := block[..cut];
      } else {
        whole, rest := CutSplits(last + 1, items[1..], cut - |block|);
        StreamTextCons(last, items, whole);
        Reassociate(block, StreamText(last + 1, items[1..][..whole]), rest);
        whole := whole + 1;
      }
    }
  }

  /**
   A connection cut at any character delivers exactly the messages of the blocks that arrived whole,
   and leaves the last event id at the last of them.
   */
  lemma CutStream(r: Reader, last: nat, items: seq<Item>, cut: nat) returns (whole: nat)
    requires Clean(r) && OneLineItems(items) && cut <= |StreamText(last, items)|
    ensures Delivered(r, last, items, StreamText(last, items)[..cut], whole)
  {
    var rest;
    whole, rest := CutSplits(last, items, cut);
    BlocksRead(r, last, items[..whole], rest);
    BlanklessDispatchesNothing(Caught(r, last, items[..whole]), rest);
  }

  // ---------- one client, any number of connections ----------

  datatype Connection = Connection(items: seq<Item>, cut: nat)

  /** The client sends its last event id, if it has one, and the server resumes from it. */
  function Header(lastId: string): Option<string> {
    if lastId == "" then None else Some(lastId)
  }

  /** One more connection; its buffers start empty. */
  ghost function Connect(before: Reader, c: Connection): Reader {
    match ResumeFrom(Header(before.lastId))
    case Err(_) => before
    case Ok(last) =>
      var text := StreamText(last, Sent(last, c.items));
      var cut := if c.cut <= |text| then c.cut else |text|;
      var read := Feed(Reader("", "", "", before.lastId, before.got), text[..cut]);
      Reader("", "", "", read.lastId, read.got)
  }

  /** The client's messages and last id after its connections. */
  ghost function Browse(r: Reader, connections: seq<Connection>): Reader {
    if connections == [] then r
    else Connect(Browse(r, connections[..|connections| - 1]), connections[|connections| - 1])
  }

  const NEW_READER := Reader("", "", "", "", [])

  /** Ids of the messages, as numbers, strictly increase and stay at or below `last`. */
  ghost predicate IdsIncrease(got: seq<Message>, last: nat) {
    && (forall i :: 0 <= i < |got| ==> got[i].id != "" && AllAscii(got[i].id) && 0 < Value(got[i].id) <= last)
    && forall i, j :: 0 <= i < j < |got| ==> Value(got[i].id) < Value(got[j].id)
  }

  lemma ReceivedIncreases(got: seq<Message>, last: nat, item: Item)
    requires IdsIncrease(got, last)
    ensures IdsIncrease(got + Received(last + 1, item), last + 1)
  {
    DecimalRoundTrip(last + 1);
  }

  lemma AppendAssociative(a: seq<Message>, b: seq<Message>, c: seq<Message>)
    ensures (a + b) + c == a + (b + c)
  {
  }

  lemma {:induction false} MessagesIncrease(got: seq<Message>, last: nat, items: seq<Item>)
    requires IdsIncrease(got, last)
    decreases |items|
    ensures IdsIncrease(got + Messages(last, items), last + |items|)
  {
    if items == [] {
      assert got + Messages(last, items) == got;
    } else {
      var more := got + Received(last + 1, items[0]);
      ReceivedIncreases(got, last, items[0]);
      MessagesIncrease(more, last + 1, items[1..]);
      AppendAssociative(got, Received(last + 1, items[0]), Messages(last + 1, items[1..]));
    }
  }

  ghost predicate Numbered(r: Reader, last: nat) {
    && r.lastId == (if last == 0 then "" else Decimal(last))
    && last < IdLimit()
    && IdsIncrease(r.got, last)
  }

  lemma NumberedResumes(r: Reader, last: nat)
    requires Numbered(r, last)
    ensures ResumeFrom(Header(r.lastId)) == Ok(last)
  {
    DecimalRoundTrip(last);
    ResumeAfterPrinted(last);
  }

  lemma CaughtNumbered(r: Reader, last: nat, items: seq<Item>)
    requires Numbered(r, last) && last + |items| < IdLimit()
    ensures Numbered(Caught(r, last, items), last + |items|)
  {
    MessagesIncrease(r.got, last, items);
  }

  /** What one connection delivers is a prefix of what was sent, so its ids were printable. */
  lemma CutNumbered(r: Reader, last: nat, items: seq<Item>, cut: nat) returns (next: nat)
    requires Numbered(r, last) && Clean(r)
    requires OneLineItems(items) && last + |items| < IdLimit() && cut <= |StreamText(last, items)|
    ensures last <= next
    ensures var read := Feed(r, StreamText(last, items)[..cut]);
      Numbered(Reader("", "", "", read.lastId, read.got), next)
  {
    var whole := CutStream(r, last, items, cut);
    CaughtNumbered(r, last, items[..whole]);
    next := last + whole;
  }

  lemma SentFits(last: nat, items: seq<Item>)
    requires last < IdLimit() && OneLineItems(items)
    ensures last + |Sent(last, items)| < IdLimit() && OneLineItems(Sent(last, items))
  {
  }

  lemma ConnectKeepsNumbered(before: Reader, last: nat, c: Connection) returns (next: nat)
    requires Numbered(before, last) && OneLineItems(c.items)
    ensures Numbered(Connect(before, c), next) && last <= next
  {
    NumberedResumes(before, last);
    SentFits(last, c.items);
    var items := Sent(last, c.items);
    var text := StreamText(last, items);
    next := CutNumbered(Reader("", "", "", before.lastId, before.got), last, items,
                        if c.cut <= |text| then c.cut else |text|);
  }

  /** Across any number of reconnects, cut anywhere, the ids one client sees strictly increase. */
  lemma {:induction false} IdsIncreaseAcrossReconnects(connections: seq<Connection>) returns (last: nat)
    requires forall i :: 0 <= i < |connections| ==> OneLineItems(connections[i].items)
    ensures Numbered(Browse(NEW_READER, connections), last)
  {
    last := 0;
    if connections == [] {
      PowAtLeastTen(MAX_DIGITS);
    } else {
      var n := |connections| - 1;
      last := IdsIncreaseAcrossReconnects(connections[..n]);
      last := ConnectKeepsNumbered(Browse(NEW_READER, connections[..n]), last, connections[n]);
    }
  }
}
