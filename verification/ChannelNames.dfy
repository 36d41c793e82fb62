/**
 Channel names with an optional bracketed qualifier. The scanner that finds the qualifier's
 end is compared with a grammar: plain characters, quoted text with escapes, nested brackets.
 */
module ChannelNames {
  import opened Prelude
  import Utf8

  const MAX_NAME_BYTES: nat := 16 * 1024

  const U32_MAX: nat := 0xFFFF_FFFF

  datatype ErrorKind = Empty | Oversized | ControlCharacter | MalformedQualifier | ReservedPrefix

  /** The requested text and where its base begins; 0 means there is no qualifier. */
  datatype ChannelName = ChannelName(requested: string, baseStart: nat) {
    ghost predicate Valid() {
      (baseStart == 0 || baseStart >= 2) && baseStart <= |requested|
    }

    function Base(): string
      requires Valid()
    {
      requested[baseStart..]
    }

    function Qualifier(): Option<string>
      requires Valid()
    {
      if baseStart == 0 then None else Some(requested[1..baseStart - 1])
    }
  }

  /** Unicode category Cc. */
  predicate IsControl(c: char) {
    (c as int) < 0x20 || 0x7F <= (c as int) <= 0x9F
  }

  /** Unicode property White_Space. */
  predicate IsWhitespace(c: char) {
    var cp := c as int;
    || 9 <= cp <= 13 || cp == 0x20 || cp == 0x85 || cp == 0xA0 || cp == 0x1680 || 0x2000 <= cp <= 0x200A
    || cp == 0x2028 || cp == 0x2029 || cp == 0x202F || cp == 0x205F || cp == 0x3000
  }

  predicate IsQuote(c: char) {
    c == '\'' || c == '"' || c == '`'
  }

  predicate Printable(s: string) {
    forall i | 0 <= i < |s| :: !IsControl(s[i])
  }

  /** Trimming leaves nothing. */
  predicate Blank(s: string) {
    forall i | 0 <= i < |s| :: IsWhitespace(s[i])
  }

  // ---------------------------------------------------------------- scanner

  datatype Scan = Scan(depth: nat, quote: Option<char>, escaped: bool)

  datatype Progress = Continue(scan: Scan) | Closed | Failed

  function StepChar(s: Scan, c: char): Progress {
    if s.quote.Some? then
      Continue(if s.escaped then s.(escaped := false)
               else if c == '\\' then s.(escaped := true)
               else if c == s.quote.value then s.(quote := None)
               else s)
    else if IsQuote(c) then Continue(s.(quote := Some(c)))
    else if c == '[' then if s.depth == U32_MAX then Failed else Continue(s.(depth := s.depth + 1))
    else if c == ']' then
      if s.depth == 0 then Failed else if s.depth == 1 then Closed else Continue(s.(depth := s.depth - 1))
    else Continue(s)
  }

  /** How many characters up to and including the bracket that closes everything. */
  function Close(s: string, at: Scan): Option<nat> {
    if s == [] then None
    else
      match StepChar(at, s[0])
      case Failed => None
      case Closed => Some(1)
      case Continue(next) => Shift(1, Close(s[1..], next))
  }

  function Shift(n: nat, r: Option<nat>): Option<nat> {
    if r.Some? then Some(n + r.value) else None
  }

  const OUTSIDE := Scan(0, None, false)

  function Inside(depth: nat): Scan {
    Scan(depth, None, false)
  }

  lemma {:induction false} CloseBounds(s: string, at: Scan)
    ensures Close(s, at).Some? ==> 1 <= Close(s, at).value <= |s|
    ensures Close(s, at).Some? && at.depth == 0 ==> Close(s, at).value >= 2
  {
    if s != [] && StepChar(at, s[0]).Continue? { CloseBounds(s[1..], StepChar(at, s[0]).scan); }
  }

  /** Where the base begins, if the qualifier is closed and not blank. */
  function QualifierEnd(raw: string): Option<nat> {
    CloseBounds(raw, OUTSIDE);
    var end := Close(raw, OUTSIDE);
    if end.None? || Blank(raw[1..end.value - 1]) then None else end
  }

  /** The scanning loop, with its three mutable variables. */
  method ScanQualifier(raw: string) returns (end: Option<nat>)
    ensures end == QualifierEnd(raw)
  {
    var depth: nat, quote: Option<char>, escaped := 0, None, false;
    for index := 0 to |raw|
      invariant Close(raw, OUTSIDE) == Shift(index, Close(raw[index..], Scan(depth, quote, escaped)))
      invariant index == 0 ==> depth == 0
      invariant quote.None? ==> !escaped
    {
      CloseBounds(raw, OUTSIDE);
      var c := raw[index];
      assert raw[index..][0] == c && raw[index..][1..] == raw[index + 1..];
      if quote.Some? {
        if escaped {
          escaped := false;
        } else if c == '\\' {
          escaped := true;
        } else if c == quote.value {
          quote := None;
        }
        continue;
      }
      if c == '\'' || c == '"' || c == '`' {
        quote := Some(c);
      } else if c == '[' {
        if depth == U32_MAX { return None; }
        depth := depth + 1;
      } else if c == ']' {
        if depth == 0 { return None; }
        depth := depth - 1;
        if depth == 0 {
          if Blank(raw[1..index]) { return None; }
          return Some(index + 1);
        }
      }
    }
    return None;
  }

  function Parse(raw: string): (r: Result<ChannelName, ErrorKind>)
    ensures r.Ok? ==> r.value.Valid() && r.value.requested == raw
  {
    if raw == "" then Err(Empty)
    else if Utf8.Length(raw) > MAX_NAME_BYTES then Err(Oversized)
    else if !Printable(raw) then Err(ControlCharacter)
    else
      CloseBounds(raw, OUTSIDE);
      var start := if raw[0] == '[' then QualifierEnd(raw) else Some(0);
      if start.None? then Err(MalformedQualifier)
      else
        var base := raw[start.value..];
        if base == "" || base[0] == '[' || base[0] == ':' then Err(ReservedPrefix)
        else Ok(ChannelName(raw, start.value))
  }

  // ---------------------------------------------------------------- grammar

  /** A character of quoted text, written plainly or after a backslash. */
  datatype Quotable = Literal(c: char) | Escaped(c: char)

  datatype Item = Plain(c: char) | Quoted(delimiter: char, body: seq<Quotable>) | Group(items: seq<Item>)

  predicate BodyOk(delimiter: char, body: seq<Quotable>) {
    forall i | 0 <= i < |body| :: body[i].Literal? ==> body[i].c != delimiter && body[i].c != '\\'
  }

  predicate ItemOk(item: Item) {
    match item
    case Plain(c) => c != '\'' && c != '"' && c != '`' && c != '[' && c != ']'
    case Quoted(delimiter, body) =>
      (delimiter == '\'' || delimiter == '"' || delimiter == '`') && BodyOk(delimiter, body)
    case Group(items) => ItemsOk(items)
  }

  predicate ItemsOk(items: seq<Item>) {
    forall i | 0 <= i < |items| :: ItemOk(items[i])
  }

  function BodyText(body: seq<Quotable>): string {
    if body == [] then "" else
      (match body[0] case Literal(c) => [c] case Escaped(c) => ['\\', c]) + BodyText(body[1..])
  }

  function ItemText(item: Item): string {
    match item
    case Plain(c) => [c]
    case Quoted(delimiter, body) => [delimiter] + BodyText(body) + [delimiter]
    case Group(items) => "[" + Text(items) + "]"
  }

  function Text(items: seq<Item>): string {
    if items == [] then "" else ItemText(items[0]) + Text(items[1..])
  }

  /** Bracket-balanced outside quoted and escaped text. */
  ghost predicate Balanced(q: string) {
    exists items: seq<Item> :: ItemsOk(items) && Text(items) == q
  }

  // ----------------------------------------- the scanner passes over the grammar

  lemma {:induction false} BodyPassed(delimiter: char, body: seq<Quotable>, t: string, depth: nat)
    requires IsQuote(delimiter) && BodyOk(delimiter, body)
    ensures Close(BodyText(body) + [delimiter] + t, Scan(depth, Some(delimiter), false)) ==
            Shift(|BodyText(body)| + 1, Close(t, Inside(depth)))
  {
    var s := BodyText(body) + [delimiter] + t;
    if body == [] {
      assert s[1..] == t;
    } else {
      var rest := BodyText(body[1..]) + [delimiter] + t;
      BodyPassed(delimiter, body[1..], t, depth);
      match body[0]
      case Literal(c) =>
        assert s[1..] == rest;
      case Escaped(c) =>
        assert s[1..] == [c] + rest && s[1..][1..] == rest;
        assert Close(s, Scan(depth, Some(delimiter), false)) ==
                 Shift(1, Close(s[1..], Scan(depth, Some(delimiter), true)));
    }
  }

  lemma QuotedPassed(delimiter: char, body: seq<Quotable>, t: string, depth: nat)
    requires ItemOk(Quoted(delimiter, body)) && depth > 0
    ensures
      var text := ItemText(Quoted(delimiter, body));
      Close(text + t, Inside(depth)) == Shift(|text|, Close(t, Inside(depth)))
  {
    var s := ItemText(Quoted(delimiter, body)) + t;
    assert s[1..] == BodyText(body) + [delimiter] + t;
    BodyPassed(delimiter, body, t, depth);
  }

  lemma {:induction false} ItemPassed(item: Item, t: string, depth: nat)
    requires ItemOk(item) && depth > 0 && depth + |ItemText(item)| <= U32_MAX
    ensures Close(ItemText(item) + t, Inside(depth)) == Shift(|ItemText(item)|, Close(t, Inside(depth)))
    decreases item
  {
    match item
    case Plain(c) =>
      assert (ItemText(item) + t)[1..] == t;
    case Quoted(delimiter, body) => QuotedPassed(delimiter, body, t, depth);
    case Group(items) =>
      var tail := "]" + t;
      assert (ItemText(item) + t)[1..] == Text(items) + tail;
      TextPassed(items, tail, depth + 1);
      assert tail[1..] == t;
  }

  /** Balanced text is passed over without changing the depth, whatever follows it. */
  lemma {:induction false} TextPassed(items: seq<Item>, t: string, depth: nat)
    requires ItemsOk(items) && depth > 0 && depth + |Text(items)| <= U32_MAX
    ensures Close(Text(items) + t, Inside(depth)) == Shift(|Text(items)|, Close(t, Inside(depth)))
    decreases items
  {
    if items == [] {
      assert Text(items) + t == t;
    } else {
      assert Text(items) + t == ItemText(items[0]) + (Text(items[1..]) + t);
      ItemPassed(items[0], Text(items[1..]) + t, depth);
      TextPassed(items[1..], t, depth);
    }
  }

  /** The end found for a balanced qualifier does not depend on the text after its bracket. */
  lemma QualifierIsFound(q: string, b: string)
    requires Balanced(q) && |q| < U32_MAX
    ensures Close("[" + q + "]" + b, OUTSIDE) == Some(|q| + 2)
    ensures QualifierEnd("[" + q + "]" + b) == if Blank(q) then None else Some(|q| + 2)
  {
    var items: seq<Item> :| ItemsOk(items) && Text(items) == q;
    var raw := "[" + q + "]" + b;
    assert raw[1..] == q + ("]" + b);
    TextPassed(items, "]" + b, 1);
    assert raw[1..|q| + 1] == q;
  }

  // ------------------------------------ what the scanner accepts is in the grammar

  lemma {:induction false} BodyRead(s: string, delimiter: char, depth: nat) returns (body: seq<Quotable>, rest: string)
    requires IsQuote(delimiter) && Close(s, Scan(depth, Some(delimiter), false)).Some?
    ensures BodyOk(delimiter, body) && s == BodyText(body) + [delimiter] + rest
  {
    if s[0] == delimiter {
      body, rest := [], s[1..];
    } else if s[0] == '\\' {
      assert Close(s[1..], Scan(depth, Some(delimiter), true)).Some?;
      assert s[1..][1..] == s[2..];
      var others;
      others, rest := BodyRead(s[2..], delimiter, depth);
      body := [Escaped(s[1])] + others;
      assert body[1..] == others;
      assert s == ['\\', s[1]] + s[2..];
    } else {
      var others;
      others, rest := BodyRead(s[1..], delimiter, depth);
      body := [Literal(s[0])] + others;
      assert body[1..] == others;
      assert s == [s[0]] + s[1..];
    }
  }

  /** The first item of text that does not begin with a closing bracket. */
  lemma {:induction false} ItemRead(s: string, depth: nat) returns (item: Item, rest: string)
    requires depth > 0 && depth + |s| <= U32_MAX && Close(s, Inside(depth)).Some? && s[0] != ']'
    ensures ItemOk(item) && s == ItemText(item) + rest
    decreases |s|, 0
  {
    assert s == [s[0]] + s[1..];
    if IsQuote(s[0]) {
      var body;
      body, rest := BodyRead(s[1..], s[0], depth);
      item := Quoted(s[0], body);
    } else if s[0] == '[' {
      var inner;
      inner, rest := TextRead(s[1..], depth + 1);
      item := Group(inner);
    } else {
      item, rest := Plain(s[0]), s[1..];
    }
  }

  /** The text up to the bracket that lowers the depth. */
  lemma {:induction false} TextRead(s: string, depth: nat) returns (items: seq<Item>, rest: string)
    requires depth > 0 && depth + |s| <= U32_MAX && Close(s, Inside(depth)).Some?
    ensures ItemsOk(items) && s == Text(items) + "]" + rest
    decreases |s|, 1
  {
    if s[0] == ']' {
      items, rest := [], s[1..];
    } else {
      var first, tail := ItemRead(s, depth);
      ItemPassed(first, tail, depth);
      assert |ItemText(first)| > 0;
      var others;
      others, rest := TextRead(tail, depth);
      items := [first] + others;
      assert items[1..] == others;
    }
  }

  // ---------------------------------------------------------- main theorems

  /** `raw` is a bracketed qualifier, balanced and not blank, followed by `b`. */
  ghost predicate Splits(raw: string, q: string, b: string) {
    raw == "[" + q + "]" + b && Balanced(q) && !Blank(q)
  }

  ghost predicate Qualified(raw: string) {
    exists q: string, b: string :: Splits(raw, q, b)
  }

  /** The scanner finds an end exactly for qualified text, and that end splits it. */
  lemma ScannerMeetsGrammar(raw: string)
    requires raw != "" && raw[0] == '[' && |raw| <= U32_MAX
    ensures QualifierEnd(raw).Some? <==> Qualified(raw)
    ensures QualifierEnd(raw).Some? ==>
              var k := QualifierEnd(raw).value; 2 <= k <= |raw| && Splits(raw, raw[1..k - 1], raw[k..])
    ensures forall q: string, b: string :: Splits(raw, q, b) ==> QualifierEnd(raw) == Some(|q| + 2)
  {
    CloseBounds(raw, OUTSIDE);
    forall q: string, b: string | Splits(raw, q, b) ensures QualifierEnd(raw) == Some(|q| + 2) {
      QualifierIsFound(q, b);
    }
    if QualifierEnd(raw).Some? {
      var k := QualifierEnd(raw).value;
      var items, b := TextRead(raw[1..], 1);
      var q := Text(items);
      assert raw == "[" + q + "]" + b;
      assert Balanced(q);
      QualifierIsFound(q, b);
      assert raw[1..k - 1] == q && raw[k..] == b;
      assert Splits(raw, q, b);
    }
  }

  /** A name splits in one way only. */
  lemma SplitIsUnique(raw: string, q: string, b: string, q': string, b': string)
    requires Splits(raw, q, b) && Splits(raw, q', b') && |raw| <= U32_MAX
    ensures q == q' && b == b'
  {
    ScannerMeetsGrammar(raw);
    assert q == raw[1..|q| + 1] && q' == raw[1..|q'| + 1];
    assert b == raw[|q| + 2..] && b' == raw[|q'| + 2..];
  }

  predicate ReservedBase(b: string) {
    b == "" || b[0] == '[' || b[0] == ':'
  }

  /** The text that passes the first three checks. */
  predicate Presentable(raw: string) {
    raw != "" && Utf8.Length(raw) <= MAX_NAME_BYTES && Printable(raw)
  }

  /** A qualified text parses to its qualifier and base, unless the base is reserved. */
  lemma ParseQualified(raw: string, q: string, b: string)
    requires Splits(raw, q, b) && Presentable(raw)
    ensures ReservedBase(b) ==> Parse(raw) == Err(ReservedPrefix)
    ensures !ReservedBase(b) ==>
              Parse(raw) == Ok(ChannelName(raw, |q| + 2)) &&
              Parse(raw).value.Qualifier() == Some(q) && Parse(raw).value.Base() == b
  {
    Utf8.BytesPerChar(raw);
    ScannerMeetsGrammar(raw);
    assert raw[1..|q| + 1] == q && raw[|q| + 2..] == b;
  }

  lemma ParseUnqualified(raw: string)
    requires Presentable(raw) && !Qualified(raw)
    ensures Parse(raw) == if raw[0] == '[' then Err(MalformedQualifier)
                          else if raw[0] == ':' then Err(ReservedPrefix)
                          else Ok(ChannelName(raw, 0))
  {
    Utf8.BytesPerChar(raw);
    if raw[0] == '[' { ScannerMeetsGrammar(raw); } else { assert raw[0..] == raw; }
  }

  /**
   What parsing returns, in terms of the grammar alone: a qualified name exactly for a balanced
   non-blank qualifier and an unreserved base, a plain name exactly for an unreserved text,
   and otherwise the error of the first rule broken.
   */
  lemma ParseMeetsGrammar(raw: string)
    ensures Parse(raw) == Err(Empty) <==> raw == ""
    ensures Parse(raw) == Err(Oversized) <==> raw != "" && Utf8.Length(raw) > 16384
    ensures Parse(raw) == Err(ControlCharacter) <==>
            && raw != "" && Utf8.Length(raw) <= 16384
            && exists i | 0 <= i < |raw| :: raw[i] < ' ' || '\U{7F}' <= raw[i] <= '\U{9F}'
    ensures Parse(raw) == Err(MalformedQualifier) <==> Presentable(raw) && raw[0] == '[' && !Qualified(raw)
    ensures Parse(raw) == Err(ReservedPrefix) <==>
            Presentable(raw) && (raw[0] == ':' || (exists q, b :: Splits(raw, q, b) && ReservedBase(b)))
    ensures Parse(raw).Ok? <==>
            Presentable(raw) &&
            ((raw[0] != '[' && raw[0] != ':') || (exists q, b :: Splits(raw, q, b) && !ReservedBase(b)))
  {
    if Presentable(raw) {
      if q, b :| Splits(raw, q, b) {
        ParseQualified(raw, q, b);
        if q', b' :| Splits(raw, q', b') && !ReservedBase(b') { ParseQualified(raw, q', b'); }
        if q', b' :| Splits(raw, q', b') && ReservedBase(b') { ParseQualified(raw, q', b'); }
      } else {
        ParseUnqualified(raw);
      }
    }
  }

  /** An accepted name's base is itself a name, with itself as base and no qualifier. */
  lemma BaseIsAName(raw: string)
    requires Parse(raw).Ok?
    ensures Parse(Parse(raw).value.Base()) == Ok(ChannelName(Parse(raw).value.Base(), 0))
  {
    var n := Parse(raw).value;
    var head, base := raw[..n.baseStart], n.Base();
    assert raw == head + base;
    Utf8.EncodeConcat(head, base);
    forall i | 0 <= i < |base| ensures !IsControl(base[i]) {
      assert base[i] == raw[n.baseStart + i];
    }
    assert base[0..] == base;
  }

  // -------------------------------------------------- closure of balanced text

  lemma {:induction false} TextConcat(a: seq<Item>, b: seq<Item>)
    ensures Text(a + b) == Text(a) + Text(b)
  {
    if a == [] {
      assert a + b == b;
    } else {
      assert (a + b)[1..] == a[1..] + b;
      TextConcat(a[1..], b);
    }
  }

  lemma BalancedConcat(p: string, q: string)
    requires Balanced(p) && Balanced(q)
    ensures Balanced(p + q)
  {
    var a: seq<Item> :| ItemsOk(a) && Text(a) == p;
    var b: seq<Item> :| ItemsOk(b) && Text(b) == q;
    TextConcat(a, b);
    assert ItemsOk(a + b) && Text(a + b) == p + q;
  }

  predicate PlainText(q: string) {
    forall i | 0 <= i < |q| :: !IsQuote(q[i]) && q[i] != '[' && q[i] != ']'
  }

  lemma {:induction false} PlainIsBalanced(q: string)
    requires PlainText(q)
    ensures Balanced(q)
  {
    if q == "" {
      assert ItemsOk([]) && Text([]) == q;
    } else {
      PlainIsBalanced(q[1..]);
      var item := Plain(q[0]);
      assert ItemOk(item);
      assert ItemsOk([item]) && Text([item]) == [q[0]];
      BalancedConcat([q[0]], q[1..]);
      assert q == [q[0]] + q[1..];
    }
  }
}
