/**
 The bounded wire-value visitor over a serde-style token stream, with the serializer it reads
 back and a description of exactly which streams it accepts.
 */
module WireCodec {
  import opened Prelude
  import Utf8

  const MAX_ENTRIES: nat := 4096

  type I64 = n: int | -0x8000_0000_0000_0000 <= n < 0x8000_0000_0000_0000

  /** A format-neutral value; floats by their bit pattern. */
  datatype Wire =
    | Null
    | Bool(b: bool)
    | Signed(i: I64)
    | Unsigned(n: U64)
    | Float(bits: U64)
    | Text(s: string)
    | Binary(bytes: seq<Utf8.Byte>)
    | Array(items: seq<Wire>)
    | Map(entries: map<string, Wire>)

  datatype Token =
    | UnitToken
    | NoneToken
    | SomeToken
    | BoolToken(b: bool)
    | SignedToken(i: I64)
    | UnsignedToken(n: U64)
    | FloatToken(bits: U64)
    | TextToken(s: string)
    | BinaryToken(bytes: seq<Utf8.Byte>)
    | SeqStart(hint: Option<nat>)
    | MapStart(hint: Option<nat>)
    | End

  datatype Error = ArrayLimit | MapLimit | BadStream

  // ---------------------------------------------------------------- visitor

  /** A string key may arrive as text or as UTF-8 bytes. */
  function ReadKey(t: Token): Option<string> {
    match t
    case TextToken(s) => Some(s)
    case BinaryToken(bytes) => Utf8.Decode(bytes)
    case _ => None
  }

  predicate HintTooLarge(hint: Option<nat>) {
    hint.Some? && hint.value > MAX_ENTRIES
  }

  function Visit(ts: seq<Token>): (r: Result<(Wire, seq<Token>), Error>)
    ensures r.Ok? ==> |r.value.1| < |ts|
    decreases |ts|, 0
  {
    if ts == [] then Err(BadStream)
    else
      match ts[0]
      case UnitToken => Ok((Null, ts[1..]))
      case NoneToken => Ok((Null, ts[1..]))
      case SomeToken => Visit(ts[1..])
      case BoolToken(b) => Ok((Bool(b), ts[1..]))
      case SignedToken(i) => Ok((Signed(i), ts[1..]))
      case UnsignedToken(n) => Ok((Unsigned(n), ts[1..]))
      case FloatToken(bits) => Ok((Float(bits), ts[1..]))
      case TextToken(s) => Ok((Text(s), ts[1..]))
      case BinaryToken(bytes) => Ok((Binary(bytes), ts[1..]))
      case SeqStart(hint) => if HintTooLarge(hint) then Err(ArrayLimit) else Elements(ts[1..], [])
      case MapStart(hint) => if HintTooLarge(hint) then Err(MapLimit) else Entries(ts[1..], map[])
      case End => Err(BadStream)
  }

  /** The limit is checked after the next element has been read. */
  function Elements(ts: seq<Token>, values: seq<Wire>): (r: Result<(Wire, seq<Token>), Error>)
    ensures r.Ok? ==> |r.value.1| < |ts|
    decreases |ts|, 1
  {
    if ts == [] then Err(BadStream)
    else if ts[0] == End then Ok((Array(values), ts[1..]))
    else
      match Visit(ts)
      case Err(e) => Err(e)
      case Ok((v, rest)) => if |values| == MAX_ENTRIES then Err(ArrayLimit) else Elements(rest, values + [v])
  }

  function Entries(ts: seq<Token>, values: map<string, Wire>): (r: Result<(Wire, seq<Token>), Error>)
    ensures r.Ok? ==> |r.value.1| < |ts|
    decreases |ts|, 1
  {
    if ts == [] then Err(BadStream)
    else if ts[0] == End then Ok((Map(values), ts[1..]))
    else
      match ReadKey(ts[0])
      case None => Err(BadStream)
      case Some(key) =>
        match Visit(ts[1..])
        case Err(e) => Err(e)
        case Ok((v, rest)) =>
          if |values| == MAX_ENTRIES && key !in values then Err(MapLimit) else Entries(rest, values[key := v])
  }

  /** A whole message: one value and nothing after it. */
  function DecodeExact(ts: seq<Token>): Result<Wire, Error> {
    match Visit(ts)
    case Err(e) => Err(e)
    case Ok((v, rest)) => if rest == [] then Ok(v) else Err(BadStream)
  }

  /** The deserializer the visitor pulls from. */
  class Access {
    var rest: seq<Token>

    constructor (tokens: seq<Token>)
      ensures rest == tokens
    {
      rest := tokens;
    }

    method DeserializeAny() returns (r: Result<Wire, Error>)
      modifies this
      ensures Visit(old(rest)).Ok? ==> r.Ok? && Ok((r.value, rest)) == Visit(old(rest))
      ensures Visit(old(rest)).Err? ==> r == Err(Visit(old(rest)).error)
      decreases |rest|, 0
    {
      if rest == [] { return Err(BadStream); }
      var t := rest[0];
      rest := rest[1..];
      match t {
        case UnitToken => r := Ok(Null);
        case NoneToken => r := Ok(Null);
        case SomeToken => r := DeserializeAny();
        case BoolToken(b) => r := Ok(Bool(b));
        case SignedToken(i) => r := Ok(Signed(i));
        case UnsignedToken(n) => r := Ok(Unsigned(n));
        case FloatToken(bits) => r := Ok(Float(bits));
        case TextToken(s) => r := Ok(Text(s));
        case BinaryToken(bytes) => r := Ok(Binary(bytes));
        case SeqStart(hint) => r := VisitSeq(hint);
        case MapStart(hint) => r := VisitMap(hint);
        case End => r := Err(BadStream);
      }
    }

    method VisitSeq(hint: Option<nat>) returns (r: Result<Wire, Error>)
      modifies this
      ensures HintTooLarge(hint) ==> r == Err(ArrayLimit)
      ensures !HintTooLarge(hint) && Elements(old(rest), []).Ok? ==>
                r.Ok? && Ok((r.value, rest)) == Elements(old(rest), [])
      ensures !HintTooLarge(hint) && Elements(old(rest), []).Err? ==> r == Err(Elements(old(rest), []).error)
      decreases |rest|, 1
    {
      if HintTooLarge(hint) { return Err(ArrayLimit); }
      var values := [];
      while rest != [] && rest[0] != End
        invariant Elements(rest, values) == Elements(old(rest), [])
        invariant |rest| <= |old(rest)|
        decreases |rest|
      {
        var next := DeserializeAny();
        if next.Err? { return Err(next.error); }
        if |values| == MAX_ENTRIES { return Err(ArrayLimit); }
        values := values + [next.value];
      }
      if rest == [] { return Err(BadStream); }
      rest := rest[1..];
      r := Ok(Array(values));
    }

    method VisitMap(hint: Option<nat>) returns (r: Result<Wire, Error>)
      modifies this
      ensures HintTooLarge(hint) ==> r == Err(MapLimit)
      ensures !HintTooLarge(hint) && Entries(old(rest), map[]).Ok? ==>
                r.Ok? && Ok((r.value, rest)) == Entries(old(rest), map[])
      ensures !HintTooLarge(hint) && Entries(old(rest), map[]).Err? ==> r == Err(Entries(old(rest), map[]).error)
      decreases |rest|, 1
    {
      if HintTooLarge(hint) { return Err(MapLimit); }
      var values := map[];
      while rest != [] && rest[0] != End
        invariant Entries(rest, values) == Entries(old(rest), map[])
        invariant |rest| <= |old(rest)|
        decreases |rest|
      {
        var key := ReadKey(rest[0]);
        if key.None? { return Err(BadStream); }
        rest := rest[1..];
        var next := DeserializeAny();
        if next.Err? { return Err(next.error); }
        if |values| == MAX_ENTRIES && key.value !in values { return Err(MapLimit); }
        values := values[key.value := next.value];
      }
      if rest == [] { return Err(BadStream); }
      rest := rest[1..];
      r := Ok(Map(values));
    }
  }

  // ------------------------------------------------- what streams can carry

  datatype Entry = Entry(key: string, asBytes: bool, value: Raw)

  /** One value as a stream presents it: any hints, any repeated keys. */
  datatype Raw =
    | Leaf(token: Token)
    | Present(inner: Raw)
    | Sequence(hint: Option<nat>, items: seq<Raw>)
    | Mapping(hint: Option<nat>, entries: seq<Entry>)

  predicate IsLeaf(t: Token) {
    !t.SomeToken? && !t.SeqStart? && !t.MapStart? && !t.End?
  }

  predicate WellFormed(r: Raw) {
    match r
    case Leaf(t) => IsLeaf(t)
    case Present(inner) => WellFormed(inner)
    case Sequence(_, items) => forall i | 0 <= i < |items| :: WellFormed(items[i])
    case Mapping(_, entries) => forall i | 0 <= i < |entries| :: WellFormed(entries[i].value)
  }

  function Print(r: Raw): seq<Token> {
    match r
    case Leaf(t) => [t]
    case Present(inner) => [SomeToken] + Print(inner)
    case Sequence(hint, items) => [SeqStart(hint)] + PrintItems(items) + [End]
    case Mapping(hint, entries) => [MapStart(hint)] + PrintEntries(entries) + [End]
  }

  function PrintItems(items: seq<Raw>): seq<Token> {
    if items == [] then [] else Print(items[0]) + PrintItems(items[1..])
  }

  function KeyToken(e: Entry): Token {
    if e.asBytes then BinaryToken(Utf8.Encode(e.key)) else TextToken(e.key)
  }

  function PrintEntries(entries: seq<Entry>): seq<Token> {
    if entries == [] then [] else [KeyToken(entries[0])] + Print(entries[0].value) + PrintEntries(entries[1..])
  }

  function LeafValue(t: Token): Wire
    requires IsLeaf(t)
  {
    match t
    case UnitToken => Null
    case NoneToken => Null
    case BoolToken(b) => Bool(b)
    case SignedToken(i) => Signed(i)
    case UnsignedToken(n) => Unsigned(n)
    case FloatToken(bits) => Float(bits)
    case TextToken(s) => Text(s)
    case BinaryToken(bytes) => Binary(bytes)
  }

  /** The source announces more than `n` entries. */
  predicate Hinted(hint: Option<nat>, n: nat) {
    match hint
    case Some(size) => size > n
    case None => false
  }

  /**
   The value described, unless some hint or collection is too large. A repeated key keeps its
   last value, and only distinct keys count against the limit.
   */
  function Meaning(r: Raw): Option<Wire>
    requires WellFormed(r)
  {
    match r
    case Leaf(t) => Some(LeafValue(t))
    case Present(inner) => Meaning(inner)
    case Sequence(hint, items) =>
      var values := Meanings(items);
      if Hinted(hint, 4096) || values.None? || |items| > 4096 then None else Some(Array(values.value))
    case Mapping(hint, entries) =>
      var values := LastWins(entries);
      if Hinted(hint, 4096) || values.None? || |values.value| > 4096 then None else Some(Map(values.value))
  }

  function Meanings(items: seq<Raw>): (r: Option<seq<Wire>>)
    requires forall i | 0 <= i < |items| :: WellFormed(items[i])
    ensures r.Some? ==> |r.value| == |items|
  {
    if items == [] then Some([])
    else
      var first, others := Meaning(items[0]), Meanings(items[1..]);
      if first.None? || others.None? then None else Some([first.value] + others.value)
  }

  function LastWins(entries: seq<Entry>): Option<map<string, Wire>>
    requires forall i | 0 <= i < |entries| :: WellFormed(entries[i].value)
  {
    if entries == [] then Some(map[])
    else
      var first, later := Meaning(entries[0].value), LastWins(entries[1..]);
      if first.None? || later.None? then None else Some(map[entries[0].key := first.value] + later.value)
  }

  // ----------------------------------------------------- reading what is printed

  lemma PrintStarts(r: Raw)
    requires WellFormed(r)
    ensures Print(r) != [] && Print(r)[0] != End
  {}

  lemma {:induction false} VisitPrint(r: Raw, rest: seq<Token>)
    requires WellFormed(r)
    ensures Meaning(r).Some? ==> Visit(Print(r) + rest) == Ok((Meaning(r).value, rest))
    ensures Meaning(r).None? ==> Visit(Print(r) + rest).Err?
    decreases r
  {
    if r.Leaf? {
      assert (Print(r) + rest)[1..] == rest;
    } else if r.Present? {
      assert (Print(r) + rest)[1..] == Print(r.inner) + rest;
      VisitPrint(r.inner, rest);
    } else if r.Sequence? {
      SequencePrint(r.hint, r.items, rest);
    } else {
      MappingPrint(r.hint, r.entries, rest);
    }
  }

  lemma {:induction false} SequencePrint(hint: Option<nat>, items: seq<Raw>, rest: seq<Token>)
    requires WellFormed(Sequence(hint, items))
    ensures
      var r := Sequence(hint, items);
      if Meaning(r).Some? then Visit(Print(r) + rest) == Ok((Meaning(r).value, rest)) else Visit(Print(r) + rest).Err?
    decreases items, 1
  {
    var ts := Print(Sequence(hint, items)) + rest;
    assert ts[0] == SeqStart(hint) && ts[1..] == PrintItems(items) + ([End] + rest);
    ElementsPrint(items, [], rest);
    if Meanings(items).Some? { assert [] + Meanings(items).value == Meanings(items).value; }
  }

  lemma {:induction false} MappingPrint(hint: Option<nat>, entries: seq<Entry>, rest: seq<Token>)
    requires WellFormed(Mapping(hint, entries))
    ensures
      var r := Mapping(hint, entries);
      if Meaning(r).Some? then Visit(Print(r) + rest) == Ok((Meaning(r).value, rest)) else Visit(Print(r) + rest).Err?
    decreases entries, 1
  {
    var ts := Print(Mapping(hint, entries)) + rest;
    assert ts[0] == MapStart(hint) && ts[1..] == PrintEntries(entries) + ([End] + rest);
    EntriesPrint(entries, map[], rest);
    if LastWins(entries).Some? { assert map[] + LastWins(entries).value == LastWins(entries).value; }
  }

  /** What reading `n` elements with the given meanings gives after `values`. */
  ghost predicate ElementsGive(
    r: Result<(Wire, seq<Token>), Error>, values: seq<Wire>, meanings: Option<seq<Wire>>, n: nat, rest: seq<Token>)
  {
    if meanings.Some? && |values| + n <= MAX_ENTRIES then r == Ok((Array(values + meanings.value), rest)) else r.Err?
  }

  /** Reading elements reads one, then the others. */
  lemma OneElement(
    ts: seq<Token>, tail: seq<Token>, first: Option<Wire>, others: Option<seq<Wire>>, n: nat, values: seq<Wire>,
    rest: seq<Token>)
    requires ts != [] && ts[0] != End && |values| <= MAX_ENTRIES
    requires if first.Some? then Visit(ts) == Ok((first.value, tail)) else Visit(ts).Err?
    requires first.Some? && |values| < MAX_ENTRIES ==>
               ElementsGive(Elements(tail, values + [first.value]), values + [first.value], others, n, rest)
    ensures
      var all := if first.None? || others.None? then None else Some([first.value] + others.value);
      ElementsGive(Elements(ts, values), values, all, n + 1, rest)
  {
    if first.Some? && others.Some? {
      assert values + [first.value] + others.value == values + ([first.value] + others.value);
    }
  }

  lemma {:induction false} ElementsPrint(items: seq<Raw>, values: seq<Wire>, rest: seq<Token>)
    requires (forall i | 0 <= i < |items| :: WellFormed(items[i])) && |values| <= MAX_ENTRIES
    ensures ElementsGive(Elements(PrintItems(items) + ([End] + rest), values), values, Meanings(items), |items|, rest)
    decreases items, 0
  {
    var ts := PrintItems(items) + ([End] + rest);
    if items == [] {
      assert ts == [End] + rest && values + [] == values;
    } else {
      var tail, first := PrintItems(items[1..]) + ([End] + rest), Meaning(items[0]);
      assert ts == Print(items[0]) + tail;
      PrintStarts(items[0]);
      VisitPrint(items[0], tail);
      if first.Some? && |values| < MAX_ENTRIES { ElementsPrint(items[1..], values + [first.value], rest); }
      OneElement(ts, tail, first, Meanings(items[1..]), |items| - 1, values, rest);
    }
  }

  /** The outcome of reading entries that add `more` to `values`. */
  ghost predicate ReadsAs(
    r: Result<(Wire, seq<Token>), Error>, values: map<string, Wire>, more: Option<map<string, Wire>>, rest: seq<Token>)
  {
    if more.Some? && |values + more.value| <= MAX_ENTRIES then r == Ok((Map(values + more.value), rest)) else r.Err?
  }

  lemma KeyRead(e: Entry)
    ensures ReadKey(KeyToken(e)) == Some(e.key) && KeyToken(e) != End
  {
    Utf8.RoundTrip(e.key);
  }

  lemma {:induction false} EntriesPrint(entries: seq<Entry>, values: map<string, Wire>, rest: seq<Token>)
    requires (forall i | 0 <= i < |entries| :: WellFormed(entries[i].value)) && |values| <= MAX_ENTRIES
    ensures ReadsAs(Entries(PrintEntries(entries) + ([End] + rest), values), values, LastWins(entries), rest)
    decreases entries, 0
  {
    var ts := PrintEntries(entries) + ([End] + rest);
    if entries == [] {
      assert ts == [End] + rest && values + map[] == values;
    } else {
      var e, tail := entries[0], PrintEntries(entries[1..]) + ([End] + rest);
      assert ts == [KeyToken(e)] + Print(e.value) + tail;
      VisitPrint(e.value, tail);
      if Meaning(e.value).Some? && |values[e.key := Meaning(e.value).value]| <= MAX_ENTRIES {
        EntriesPrint(entries[1..], values[e.key := Meaning(e.value).value], rest);
      }
      EntryPrint(e, values, tail, Meaning(e.value), LastWins(entries[1..]), rest);
    }
  }

  /** Reading one entry, then entries that add `later`. */
  lemma OneEntry(
    ts: seq<Token>, tail: seq<Token>, key: string, first: Option<Wire>, values: map<string, Wire>,
    later: Option<map<string, Wire>>, rest: seq<Token>)
    requires ts != [] && ts[0] != End && ReadKey(ts[0]) == Some(key) && |values| <= MAX_ENTRIES
    requires if first.Some? then Visit(ts[1..]) == Ok((first.value, tail)) else Visit(ts[1..]).Err?
    requires first.Some? && |values[key := first.value]| <= MAX_ENTRIES ==>
               ReadsAs(Entries(tail, values[key := first.value]), values[key := first.value], later, rest)
    ensures ReadsAs(Entries(ts, values), values,
                    if first.None? || later.None? then None else Some(map[key := first.value] + later.value), rest)
  {
    if first.Some? && later.Some? { FirstThenLater(values, key, first.value, later.value); }
  }

  /** The same for a printed entry. */
  lemma EntryPrint(
    e: Entry, values: map<string, Wire>, tail: seq<Token>, first: Option<Wire>, later: Option<map<string, Wire>>,
    rest: seq<Token>)
    requires |values| <= MAX_ENTRIES
    requires if first.Some? then Visit(Print(e.value) + tail) == Ok((first.value, tail))
             else Visit(Print(e.value) + tail).Err?
    requires first.Some? && |values[e.key := first.value]| <= MAX_ENTRIES ==>
               ReadsAs(Entries(tail, values[e.key := first.value]), values[e.key := first.value], later, rest)
    ensures ReadsAs(Entries([KeyToken(e)] + Print(e.value) + tail, values), values,
                    if first.None? || later.None? then None else Some(map[e.key := first.value] + later.value), rest)
  {
    var ts := [KeyToken(e)] + Print(e.value) + tail;
    assert ts[1..] == Print(e.value) + tail;
    KeyRead(e);
    OneEntry(ts, tail, e.key, first, values, later, rest);
  }

  lemma FirstThenLater<K, V>(values: map<K, V>, key: K, v: V, later: map<K, V>)
    ensures values[key := v] + later == values + (map[key := v] + later)
    ensures |values[key := v]| <= |values + (map[key := v] + later)|
  {
    UpdateIsMerge(values, key, v);
    MapMergeAssociative(values, map[key := v], later);
    KeysFit(values[key := v], values[key := v] + later);
  }

  lemma UpdateIsMerge<K, V>(m: map<K, V>, key: K, v: V)
    ensures m[key := v] == m + map[key := v]
  {}

  lemma MapMergeAssociative<K, V>(a: map<K, V>, b: map<K, V>, c: map<K, V>)
    ensures a + b + c == a + (b + c)
  {
    assert (a + b + c).Keys == (a + (b + c)).Keys;
  }

  // ------------------------------------------------ everything accepted is printed

  lemma {:induction false} VisitRead(ts: seq<Token>) returns (r: Raw)
    requires Visit(ts).Ok?
    ensures WellFormed(r) && ts == Print(r) + Visit(ts).value.1
    decreases |ts|, 0
  {
    assert ts == [ts[0]] + ts[1..];
    if ts[0].SomeToken? {
      var inner := VisitRead(ts[1..]);
      r := Present(inner);
    } else if ts[0].SeqStart? {
      var items := ElementsRead(ts[1..], []);
      r := Sequence(ts[0].hint, items);
    } else if ts[0].MapStart? {
      var entries := EntriesRead(ts[1..], map[]);
      r := Mapping(ts[0].hint, entries);
    } else {
      r := Leaf(ts[0]);
    }
  }

  lemma {:induction false} ElementsRead(ts: seq<Token>, values: seq<Wire>) returns (items: seq<Raw>)
    requires Elements(ts, values).Ok?
    ensures forall i | 0 <= i < |items| :: WellFormed(items[i])
    ensures ts == PrintItems(items) + [End] + Elements(ts, values).value.1
    decreases |ts|, 1
  {
    if ts[0] == End {
      items := [];
      assert ts == [End] + ts[1..];
    } else {
      ElementsStep(ts, values);
      var (v, rest) := Visit(ts).value;
      var first := VisitRead(ts);
      var others := ElementsRead(rest, values + [v]);
      items := [first] + others;
      assert items[1..] == others;
      Splice([], Print(first), PrintItems(others), [End], Elements(ts, values).value.1);
    }
  }

  lemma ElementsStep(ts: seq<Token>, values: seq<Wire>)
    requires Elements(ts, values).Ok? && ts[0] != End
    ensures Visit(ts).Ok? && Elements(ts, values) == Elements(Visit(ts).value.1, values + [Visit(ts).value.0])
  {}

  lemma {:induction false} EntriesRead(ts: seq<Token>, values: map<string, Wire>) returns (entries: seq<Entry>)
    requires Entries(ts, values).Ok?
    ensures forall i | 0 <= i < |entries| :: WellFormed(entries[i].value)
    ensures ts == PrintEntries(entries) + [End] + Entries(ts, values).value.1
    decreases |ts|, 1
  {
    if ts[0] == End {
      entries := [];
      assert ts == [End] + ts[1..];
    } else {
      EntriesStep(ts, values);
      var (v, rest) := Visit(ts[1..]).value;
      var value := VisitRead(ts[1..]);
      var others := EntriesRead(rest, values[ReadKey(ts[0]).value := v]);
      var first := EntryRead(ts[0], value);
      entries := [first] + others;
      PrintEntriesCons(first, others);
      assert ts == [ts[0]] + ts[1..];
      Splice([ts[0]], Print(value), PrintEntries(others), [End], Entries(ts, values).value.1);
    }
  }

  lemma Splice<T>(a: seq<T>, b: seq<T>, c: seq<T>, d: seq<T>, e: seq<T>)
    ensures a + (b + (c + d + e)) == a + b + c + d + e
    ensures b + (c + d + e) == b + c + d + e
  {}

  lemma EntriesStep(ts: seq<Token>, values: map<string, Wire>)
    requires Entries(ts, values).Ok? && ts[0] != End
    ensures ReadKey(ts[0]).Some? && Visit(ts[1..]).Ok?
    ensures Entries(ts, values) ==
              Entries(Visit(ts[1..]).value.1, values[ReadKey(ts[0]).value := Visit(ts[1..]).value.0])
  {}

  lemma EntryRead(t: Token, value: Raw) returns (e: Entry)
    requires ReadKey(t).Some?
    ensures KeyToken(e) == t && e.value == value
  {
    var key := ReadKey(t).value;
    if t.BinaryToken? { Utf8.DecodeIsStrict(t.bytes, key); }
    e := Entry(key, t.BinaryToken?, value);
  }

  // ------------------------------------------------------------- main theorems

  /** Every collection, at every depth, is within the limit. */
  predicate Bounded(v: Wire) {
    match v
    case Array(items) => |items| <= 4096 && forall i | 0 <= i < |items| :: Bounded(items[i])
    case Map(entries) => |entries| <= 4096 && forall k | k in entries :: Bounded(entries[k])
    case _ => true
  }

  /**
   A stream is accepted exactly when it prints some value whose hints, arrays and distinct map
   keys are all within the limit; the result is that value and nothing of it is left over.
   */
  lemma AcceptsExactly(ts: seq<Token>, v: Wire)
    ensures DecodeExact(ts) == Ok(v) <==> exists r: Raw :: WellFormed(r) && ts == Print(r) && Meaning(r) == Some(v)
  {
    if DecodeExact(ts) == Ok(v) {
      var r := VisitRead(ts);
      assert ts == Print(r) + [];
      assert ts == Print(r);
      VisitPrint(r, []);
      assert WellFormed(r) && ts == Print(r) && Meaning(r) == Some(v);
    }
    forall r: Raw | WellFormed(r) && ts == Print(r) && Meaning(r) == Some(v) ensures DecodeExact(ts) == Ok(v) {
      VisitPrint(r, []);
      assert ts + [] == ts;
    }
  }

  /** Whatever was decoded, hints or not, is bounded at every depth. */
  lemma DecodedIsBounded(ts: seq<Token>)
    requires Visit(ts).Ok?
    ensures Bounded(Visit(ts).value.0)
  {
    var r := VisitRead(ts);
    VisitPrint(r, Visit(ts).value.1);
    MeaningIsBounded(r);
  }

  lemma {:induction false} MeaningIsBounded(r: Raw)
    requires WellFormed(r) && Meaning(r).Some?
    ensures Bounded(Meaning(r).value)
    decreases r
  {
    match r
    case Leaf(_) =>
    case Present(inner) => MeaningIsBounded(inner);
    case Sequence(_, items) => MeaningsAreBounded(items);
    case Mapping(_, entries) => LastWinsIsBounded(entries);
  }

  lemma {:induction false} MeaningsAreBounded(items: seq<Raw>)
    requires (forall i | 0 <= i < |items| :: WellFormed(items[i])) && Meanings(items).Some?
    ensures forall i | 0 <= i < |items| :: Bounded(Meanings(items).value[i])
    decreases items
  {
    if items != [] {
      MeaningIsBounded(items[0]);
      MeaningsAreBounded(items[1..]);
    }
  }

  lemma {:induction false} LastWinsIsBounded(entries: seq<Entry>)
    requires (forall i | 0 <= i < |entries| :: WellFormed(entries[i].value)) && LastWins(entries).Some?
    ensures forall k | k in LastWins(entries).value :: Bounded(LastWins(entries).value[k])
    decreases entries
  {
    if entries != [] {
      MeaningIsBounded(entries[0].value);
      LastWinsIsBounded(entries[1..]);
    }
  }

  // --------------------------------------------------------------- serializer

  function Serialize(v: Wire): seq<Token> {
    match v
    case Null => [UnitToken]
    case Bool(b) => [BoolToken(b)]
    case Signed(i) => [SignedToken(i)]
    case Unsigned(n) => [UnsignedToken(n)]
    case Float(bits) => [FloatToken(bits)]
    case Text(s) => [TextToken(s)]
    case Binary(bytes) => [BinaryToken(bytes)]
    case Array(items) => [SeqStart(Some(|items|))] + SerializeItems(items) + [End]
    case Map(entries) => [MapStart(Some(|entries|))] + SerializeEntries(v, SortedKeys(entries.Keys)) + [End]
  }

  function SerializeItems(items: seq<Wire>): seq<Token> {
    if items == [] then [] else Serialize(items[0]) + SerializeItems(items[1..])
  }

  function SerializeEntries(v: Wire, keys: seq<string>): seq<Token>
    requires v.Map? && forall k | k in keys :: k in v.entries
    decreases v, keys
  {
    if keys == [] then [] else
      [TextToken(keys[0])] + Serialize(v.entries[keys[0]]) + SerializeEntries(v, keys[1..])
  }

  /** In transit a non-negative signed integer becomes unsigned, and hints may be lost. */
  function Carry(t: Token, keepHints: bool): Token {
    match t
    case SignedToken(i) => if i >= 0 then UnsignedToken(i) else t
    case SeqStart(hint) => if keepHints then t else SeqStart(None)
    case MapStart(hint) => if keepHints then t else MapStart(None)
    case _ => t
  }

  function CarryAll(ts: seq<Token>, keepHints: bool): seq<Token> {
    seq(|ts|, i requires 0 <= i < |ts| => Carry(ts[i], keepHints))
  }

  /** Non-negative signed integers read back as unsigned. */
  function Normalize(v: Wire): Wire {
    match v
    case Signed(i) => if i >= 0 then Unsigned(i) else v
    case Array(items) => Array(NormalizeItems(items))
    case Map(entries) => Map(map k | k in entries :: Normalize(entries[k]))
    case _ => v
  }

  function NormalizeItems(items: seq<Wire>): (r: seq<Wire>)
    ensures |r| == |items|
  {
    if items == [] then [] else [Normalize(items[0])] + NormalizeItems(items[1..])
  }

  /** The raw form of a serialized value. */
  function RawOf(v: Wire, keepHints: bool): Raw
    decreases v
  {
    match v
    case Array(items) => Sequence(if keepHints then Some(|items|) else None, RawItems(items, keepHints))
    case Map(entries) =>
      Mapping(if keepHints then Some(|entries|) else None, RawEntries(v, SortedKeys(entries.Keys), keepHints))
    case _ => Leaf(Carry(Serialize(v)[0], keepHints))
  }

  function RawItems(items: seq<Wire>, keepHints: bool): (r: seq<Raw>)
    ensures |r| == |items|
  {
    if items == [] then [] else [RawOf(items[0], keepHints)] + RawItems(items[1..], keepHints)
  }

  function RawEntries(v: Wire, keys: seq<string>, keepHints: bool): seq<Entry>
    requires v.Map? && forall k | k in keys :: k in v.entries
    decreases v, keys
  {
    if keys == [] then [] else
      [Entry(keys[0], false, RawOf(v.entries[keys[0]], keepHints))] + RawEntries(v, keys[1..], keepHints)
  }

  lemma CarryConcat(a: seq<Token>, b: seq<Token>, keepHints: bool)
    ensures CarryAll(a + b, keepHints) == CarryAll(a, keepHints) + CarryAll(b, keepHints)
  {}

  lemma {:induction false} CarriedIsPrinted(v: Wire, keepHints: bool)
    ensures WellFormed(RawOf(v, keepHints))
    ensures CarryAll(Serialize(v), keepHints) == Print(RawOf(v, keepHints))
    decreases v, 1
  {
    if v.Array? {
      CarriedArray(v, keepHints);
    } else if v.Map? {
      CarriedMap(v, keepHints);
    }
  }

  lemma {:induction false} CarriedArray(v: Wire, keepHints: bool)
    requires v.Array?
    ensures WellFormed(RawOf(v, keepHints))
    ensures CarryAll(Serialize(v), keepHints) == Print(RawOf(v, keepHints))
    decreases v, 0
  {
    CarriedItems(v.items, keepHints);
    CarryWrapped(SeqStart(Some(|v.items|)), SerializeItems(v.items), keepHints);
  }

  lemma {:induction false} CarriedMap(v: Wire, keepHints: bool)
    requires v.Map?
    ensures WellFormed(RawOf(v, keepHints))
    ensures CarryAll(Serialize(v), keepHints) == Print(RawOf(v, keepHints))
    decreases v, 0
  {
    CarriedKeys(v, SortedKeys(v.entries.Keys), keepHints);
  }

  lemma {:induction false} CarriedKeys(v: Wire, keys: seq<string>, keepHints: bool)
    requires v.Map? && forall k | k in keys :: k in v.entries
    ensures
      var raw := Mapping(if keepHints then Some(|v.entries|) else None, RawEntries(v, keys, keepHints));
      WellFormed(raw) &&
      CarryAll([MapStart(Some(|v.entries|))] + SerializeEntries(v, keys) + [End], keepHints) == Print(raw)
    decreases v, 0, |keys| + 1
  {
    CarriedEntries(v, keys, keepHints);
    CarryWrapped(MapStart(Some(|v.entries|)), SerializeEntries(v, keys), keepHints);
    PrintMapping(if keepHints then Some(|v.entries|) else None, RawEntries(v, keys, keepHints));
  }

  lemma PrintMapping(hint: Option<nat>, entries: seq<Entry>)
    requires WellFormedEntries(entries)
    ensures WellFormed(Mapping(hint, entries)) &&
            Print(Mapping(hint, entries)) == [MapStart(hint)] + PrintEntries(entries) + [End]
  {}

  lemma CarryWrapped(start: Token, body: seq<Token>, keepHints: bool)
    ensures CarryAll([start] + body + [End], keepHints) == [Carry(start, keepHints)] + CarryAll(body, keepHints) + [End]
  {
    CarryConcat([start] + body, [End], keepHints);
    CarryConcat([start], body, keepHints);
  }

  lemma {:induction false} CarriedItems(items: seq<Wire>, keepHints: bool)
    ensures forall i | 0 <= i < |items| :: WellFormed(RawItems(items, keepHints)[i])
    ensures CarryAll(SerializeItems(items), keepHints) == PrintItems(RawItems(items, keepHints))
    decreases items
  {
    if items != [] {
      CarriedIsPrinted(items[0], keepHints);
      CarriedItems(items[1..], keepHints);
      CarryConcat(Serialize(items[0]), SerializeItems(items[1..]), keepHints);
    }
  }

  ghost predicate WellFormedEntries(entries: seq<Entry>) {
    forall i | 0 <= i < |entries| :: WellFormed(entries[i].value)
  }

  lemma {:induction false} CarriedEntries(v: Wire, keys: seq<string>, keepHints: bool)
    requires v.Map? && forall k | k in keys :: k in v.entries
    ensures WellFormedEntries(RawEntries(v, keys, keepHints))
    ensures CarryAll(SerializeEntries(v, keys), keepHints) == PrintEntries(RawEntries(v, keys, keepHints))
    decreases v, 0, |keys|
  {
    if keys != [] {
      var x := v.entries[keys[0]];
      CarriedIsPrinted(x, keepHints);
      CarriedEntries(v, keys[1..], keepHints);
      CarryEntry(keys[0], Serialize(x), SerializeEntries(v, keys[1..]), keepHints);
      PrintEntriesCons(Entry(keys[0], false, RawOf(x, keepHints)), RawEntries(v, keys[1..], keepHints));
    }
  }

  lemma CarryEntry(key: string, value: seq<Token>, rest: seq<Token>, keepHints: bool)
    ensures CarryAll([TextToken(key)] + value + rest, keepHints) ==
            [TextToken(key)] + CarryAll(value, keepHints) + CarryAll(rest, keepHints)
  {
    CarryConcat([TextToken(key)] + value, rest, keepHints);
    CarryConcat([TextToken(key)], value, keepHints);
  }

  lemma PrintEntriesCons(e: Entry, rest: seq<Entry>)
    ensures PrintEntries([e] + rest) == [KeyToken(e)] + Print(e.value) + PrintEntries(rest)
  {
    assert ([e] + rest)[1..] == rest;
  }

  lemma {:induction false} RawMeaning(v: Wire, keepHints: bool)
    ensures WellFormed(RawOf(v, keepHints))
    ensures Meaning(RawOf(v, keepHints)) == if Bounded(v) then Some(Normalize(v)) else None
    decreases v, 2
  {
    CarriedIsPrinted(v, keepHints);
    if v.Array? {
      ItemsMeaning(v.items, keepHints);
    } else if v.Map? {
      MapMeaning(v, keepHints);
    }
  }

  lemma {:induction false} ItemsMeaning(items: seq<Wire>, keepHints: bool)
    ensures forall i | 0 <= i < |items| :: WellFormed(RawItems(items, keepHints)[i])
    ensures Meanings(RawItems(items, keepHints)) ==
            if (forall i | 0 <= i < |items| :: Bounded(items[i])) then Some(NormalizeItems(items)) else None
    decreases items
  {
    CarriedItems(items, keepHints);
    if items != [] {
      RawMeaning(items[0], keepHints);
      ItemsMeaning(items[1..], keepHints);
      assert RawItems(items, keepHints)[1..] == RawItems(items[1..], keepHints);
      assert items == [items[0]] + items[1..];
    }
  }

  ghost predicate AllBounded(v: Wire, keys: seq<string>)
    requires v.Map? && forall k | k in keys :: k in v.entries
  {
    forall k | k in keys :: Bounded(v.entries[k])
  }

  function NormalizeKeys(v: Wire, keys: seq<string>): map<string, Wire>
    requires v.Map? && forall k | k in keys :: k in v.entries
  {
    map k | k in keys :: Normalize(v.entries[k])
  }

  lemma NormalizeCons(v: Wire, keys: seq<string>)
    requires v.Map? && keys != [] && forall k | k in keys :: k in v.entries
    ensures NormalizeKeys(v, keys) == map[keys[0] := Normalize(v.entries[keys[0]])] + NormalizeKeys(v, keys[1..])
  {
    assert keys == [keys[0]] + keys[1..];
  }

  lemma LastWinsCons(e: Entry, rest: seq<Entry>)
    requires WellFormed(e.value) && WellFormedEntries(rest)
    ensures WellFormedEntries([e] + rest)
    ensures LastWins([e] + rest) ==
            if Meaning(e.value).None? || LastWins(rest).None? then None
            else Some(map[e.key := Meaning(e.value).value] + LastWins(rest).value)
  {
    assert ([e] + rest)[1..] == rest;
  }

  lemma {:induction false} EntriesMeaning(v: Wire, keys: seq<string>, keepHints: bool)
    requires v.Map? && forall k | k in keys :: k in v.entries
    ensures WellFormedEntries(RawEntries(v, keys, keepHints))
    ensures LastWins(RawEntries(v, keys, keepHints)) ==
              if AllBounded(v, keys) then Some(NormalizeKeys(v, keys)) else None
    decreases v, 0, keys
  {
    if keys != [] {
      var x, rest := v.entries[keys[0]], RawEntries(v, keys[1..], keepHints);
      RawMeaning(x, keepHints);
      EntriesMeaning(v, keys[1..], keepHints);
      LastWinsCons(Entry(keys[0], false, RawOf(x, keepHints)), rest);
      NormalizeCons(v, keys);
      assert AllBounded(v, keys) <==> Bounded(x) && AllBounded(v, keys[1..]);
    }
  }

  lemma {:induction false} MapMeaning(v: Wire, keepHints: bool)
    requires v.Map? && WellFormed(RawOf(v, keepHints))
    ensures Meaning(RawOf(v, keepHints)) == if Bounded(v) then Some(Normalize(v)) else None
    decreases v, 1
  {
    var keys := SortedKeys(v.entries.Keys);
    EntriesMeaning(v, keys, keepHints);
    NormalizeMap(v, keys);
    BoundedMap(v, keys);
  }

  lemma NormalizeMap(v: Wire, keys: seq<string>)
    requires v.Map? && forall k :: k in keys <==> k in v.entries
    ensures Normalize(v) == Map(NormalizeKeys(v, keys)) && |NormalizeKeys(v, keys)| == |v.entries|
  {
    assert NormalizeKeys(v, keys) == Normalize(v).entries;
    SameKeys(NormalizeKeys(v, keys), v.entries);
  }

  lemma SameKeys<K, V>(a: map<K, V>, b: map<K, V>)
    requires a.Keys == b.Keys
    ensures |a| == |b|
  {
    assert |a.Keys| == |a| && |b.Keys| == |b|;
  }

  lemma BoundedMap(v: Wire, keys: seq<string>)
    requires v.Map? && forall k :: k in keys <==> k in v.entries
    ensures Bounded(v) <==> |v.entries| <= MAX_ENTRIES && AllBounded(v, keys)
  {}

  /**
   A serialized value carried with or without hints is read back exactly, signed non-negatives
   as unsigned and whatever follows left alone, if every collection in it is within the
   limit; otherwise it is refused.
   */
  lemma SerializeRoundTrip(v: Wire, keepHints: bool, rest: seq<Token>)
    ensures Bounded(v) ==> Visit(CarryAll(Serialize(v), keepHints) + rest) == Ok((Normalize(v), rest))
    ensures !Bounded(v) ==> Visit(CarryAll(Serialize(v), keepHints) + rest).Err?
  {
    CarriedIsPrinted(v, keepHints);
    RawMeaning(v, keepHints);
    VisitPrint(RawOf(v, keepHints), rest);
  }
}
