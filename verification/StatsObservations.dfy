/** The nine observations the compatibility layer records, as the counters each one adds. */
module StatsObservations {
  import opened Prelude
  import opened StatsBuckets

  datatype Direction = Inbound | Outbound

  datatype Observation =
    | Messages(direction: Direction, transport: string, count: U64, data: U64)
    | ApiRequest(succeeded: bool, requestBytes: U64, responseBytes: U64)
    | TokenRequest(succeeded: bool)
    | ConnectionOpened(transport: string, current: U64)
    | ConnectionClosed(transport: string)
    | ChannelOpened(current: U64)
    | ChannelClosed
    | Presence(count: U64, data: U64)
    | Push(succeeded: bool, recipients: U64, data: U64)

  datatype Counter = Counter(name: string, value: U64, aggregation: Aggregation)

  function DirectionText(d: Direction): string {
    if d == Inbound then "inbound" else "outbound"
  }

  function CountName(d: Direction, scope: string): string {
    "messages." + DirectionText(d) + "." + scope + ".messages.count"
  }

  function DataName(d: Direction, scope: string): string {
    "messages." + DirectionText(d) + "." + scope + ".messages.data"
  }

  /** The counters of one scope, in the order they are added. */
  function ScopeCounters(o: Observation, scope: string): seq<Counter> {
    match o
    case Messages(d, _, count, data) =>
      [Counter(CountName(d, scope), count, Sum), Counter(DataName(d, scope), data, Sum)]
    case ConnectionOpened(_, current) =>
      [Counter("connections." + scope + ".opened", 1, Sum), Counter("connections." + scope + ".peak", current, Peak)]
    case ConnectionClosed(_) => [Counter("connections." + scope + ".closed", 1, Sum)]
    case _ => []
  }

  predicate Scoped(o: Observation) {
    o.Messages? || o.ConnectionOpened? || o.ConnectionClosed?
  }

  function PlainCounters(o: Observation): seq<Counter> {
    match o
    case ApiRequest(succeeded, requestBytes, responseBytes) =>
      [Counter(if succeeded then "apiRequests.succeeded" else "apiRequests.failed", 1, Sum),
       Counter("apiRequests.requestBytes", requestBytes, Sum), Counter("apiRequests.responseBytes", responseBytes, Sum)]
    case TokenRequest(succeeded) =>
      [Counter(if succeeded then "tokenRequests.succeeded" else "tokenRequests.failed", 1, Sum)]
    case ChannelOpened(current) => [Counter("channels.opened", 1, Sum), Counter("channels.peak", current, Peak)]
    case ChannelClosed => [Counter("channels.closed", 1, Sum)]
    case Presence(count, data) =>
      [Counter("persisted.presence.count", count, Sum), Counter("persisted.presence.data", data, Sum)]
    case Push(succeeded, recipients, data) =>
      [Counter(if succeeded then "push.succeeded" else "push.failed", 1, Sum),
       Counter("push.recipients", recipients, Sum), Counter("push.data", data, Sum)]
    case _ => []
  }

  /** Everything an observation adds: the "all" scope and its transport's, or plain counters. */
  function Counters(o: Observation): seq<Counter> {
    if Scoped(o) then ScopeCounters(o, "all") + ScopeCounters(o, o.transport) else PlainCounters(o)
  }

  function Single(c: Counter): Entries {
    OneField(c.name, c.value, c.aggregation)
  }

  function Singles(cs: seq<Counter>): seq<Entries> {
    seq(|cs|, i requires 0 <= i < |cs| => Single(cs[i]))
  }

  /** The bucket of one observation. */
  function Observed(o: Observation): Entries {
    MergeAll(Singles(Counters(o)))
  }

  /** One more counter is one more merge. */
  lemma AddingOne(cs: seq<Counter>, c: Counter)
    ensures MergeAll(Singles(cs + [c])) == MergeEntries(MergeAll(Singles(cs)), Single(c))
  {
    assert Singles(cs + [c]) == Singles(cs) + [Single(c)];
    assert (Singles(cs) + [Single(c)])[..|cs|] == Singles(cs);
  }

  method AddCounters(bucket: StatsBucket, cs: seq<Counter>, ghost before: seq<Counter>)
    requires bucket.entries == MergeAll(Singles(before))
    modifies bucket
    ensures bucket.entries == MergeAll(Singles(before + cs))
  {
    ghost var done := before;
    for i := 0 to |cs|
      invariant done == before + cs[..i] && bucket.entries == MergeAll(Singles(done))
    {
      var c := cs[i];
      AddingOne(done, c);
      bucket.Add(c.name, c.value, c.aggregation);
      TakeOneMore(before, cs, i);
      done := done + [c];
    }
    assert cs[..|cs|] == cs;
  }

  /** Builds the bucket of an observation by adding to it, scope by scope. */
  method Observe(bucket: StatsBucket, o: Observation)
    requires bucket.entries == map[]
    modifies bucket
    ensures bucket.entries == Observed(o)
  {
    assert MergeAll(Singles([])) == map[];
    if Scoped(o) {
      var scopes := ["all", o.transport];
      AddCounters(bucket, ScopeCounters(o, scopes[0]), []);
      assert [] + ScopeCounters(o, "all") == ScopeCounters(o, "all");
      AddCounters(bucket, ScopeCounters(o, scopes[1]), ScopeCounters(o, "all"));
    } else {
      AddCounters(bucket, PlainCounters(o), []);
      assert [] + PlainCounters(o) == PlainCounters(o);
    }
  }

  // ------------------------------------------------------------------ theorems

  /** The kind depends on the last five characters only. */
  lemma SuffixDecides(prefix: string, suffix: string)
    requires |suffix| >= 5
    ensures KindOf(prefix + suffix) == if suffix[|suffix| - 5..] == ".peak" then Peak else Sum
  {
    var s := prefix + suffix;
    assert s[|s| - 5..] == suffix[|suffix| - 5..];
  }

  ghost predicate KindsMatch(cs: seq<Counter>) {
    forall i | 0 <= i < |cs| :: cs[i].aggregation == KindOf(cs[i].name)
  }

  lemma MessageKinds(d: Direction, scope: string)
    ensures KindOf(CountName(d, scope)) == KindOf(DataName(d, scope)) == Sum
  {
    var prefix, count, data := "messages." + DirectionText(d) + "." + scope, ".messages.count", ".messages.data";
    SuffixDecides(prefix, count);
    SuffixDecides(prefix, data);
    assert count[|count| - 5..][0] == 'c' && data[|data| - 5..][0] == '.' && data[|data| - 5..][1] == 'd';
  }

  lemma ConnectionKinds(scope: string)
    ensures KindOf("connections." + scope + ".opened") == KindOf("connections." + scope + ".closed") == Sum
    ensures KindOf("connections." + scope + ".peak") == Peak
  {
    var prefix, up, down, peak := "connections." + scope, ".opened", ".closed", ".peak";
    SuffixDecides(prefix, up);
    SuffixDecides(prefix, down);
    SuffixDecides(prefix, peak);
    assert up[2..][0] == 'p' && down[2..][0] == 'l' && peak[0..] == peak;
  }

  lemma ScopeKindsMatch(o: Observation, scope: string)
    ensures KindsMatch(ScopeCounters(o, scope))
  {
    if o.Messages? { MessageKinds(o.direction, scope); } else { ConnectionKinds(scope); }
  }

  /** Every observation, whatever its transport is called, gives each field its name's kind. */
  lemma ObservedCanonical(o: Observation)
    ensures Canonical(Observed(o))
  {
    CountersCanonical(o);
    MergeAllCanonical(Singles(Counters(o)));
  }

  // Which value goes under which name.

  lemma OneCounter(a: Counter)
    ensures MergeAll(Singles([a])) == map[a.name := FieldValue(a.value, a.aggregation)]
  {
    AddingOne([], a);
    assert [] + [a] == [a] && MergeAll(Singles([])) == map[];
  }

  lemma TwoCounters(a: Counter, b: Counter)
    requires a.name != b.name
    ensures MergeAll(Singles([a, b])) ==
            map[a.name := FieldValue(a.value, a.aggregation), b.name := FieldValue(b.value, b.aggregation)]
  {
    OneCounter(a);
    AddingOne([a], b);
    assert [a] + [b] == [a, b];
  }

  lemma ThreeCounters(a: Counter, b: Counter, c: Counter)
    requires a.name != b.name && a.name != c.name && b.name != c.name
    ensures MergeAll(Singles([a, b, c])) ==
            map[a.name := FieldValue(a.value, a.aggregation), b.name := FieldValue(b.value, b.aggregation),
                c.name := FieldValue(c.value, c.aggregation)]
  {
    TwoCounters(a, b);
    AddingOne([a, b], c);
    assert [a, b] + [c] == [a, b, c];
  }

  /** The fields of every observation without a transport. */
  lemma PlainFields(o: Observation)
    requires !Scoped(o)
    ensures Observed(o) ==
            match o
            case ApiRequest(succeeded, request, response) =>
              map[if succeeded then "apiRequests.succeeded" else "apiRequests.failed" := FieldValue(1, Sum),
                  "apiRequests.requestBytes" := FieldValue(request, Sum),
                  "apiRequests.responseBytes" := FieldValue(response, Sum)]
            case TokenRequest(succeeded) =>
              map[if succeeded then "tokenRequests.succeeded" else "tokenRequests.failed" := FieldValue(1, Sum)]
            case ChannelOpened(current) =>
              map["channels.opened" := FieldValue(1, Sum), "channels.peak" := FieldValue(current, Peak)]
            case ChannelClosed => map["channels.closed" := FieldValue(1, Sum)]
            case Presence(count, data) =>
              map["persisted.presence.count" := FieldValue(count, Sum),
                  "persisted.presence.data" := FieldValue(data, Sum)]
            case Push(succeeded, recipients, data) =>
              map[if succeeded then "push.succeeded" else "push.failed" := FieldValue(1, Sum),
                  "push.recipients" := FieldValue(recipients, Sum), "push.data" := FieldValue(data, Sum)]
  {
    var cs := PlainCounters(o);
    if |cs| == 1 { OneCounter(cs[0]); assert cs == [cs[0]]; }
    if |cs| == 2 { TwoCounters(cs[0], cs[1]); assert cs == [cs[0], cs[1]]; }
    if |cs| == 3 { ThreeCounters(cs[0], cs[1], cs[2]); assert cs == [cs[0], cs[1], cs[2]]; }
  }

  /** What an observation adds to one of its scopes. */
  lemma FieldsOfScope(o: Observation, scope: string)
    requires Scoped(o)
    ensures MergeAll(Singles(ScopeCounters(o, scope))) ==
            match o
            case Messages(d, _, count, data) =>
              var head := "messages." + (if d == Inbound then "inbound" else "outbound") + "." + scope + ".messages.";
              map[head + "count" := FieldValue(count, Sum), head + "data" := FieldValue(data, Sum)]
            case ConnectionOpened(_, current) =>
              map["connections." + scope + ".opened" := FieldValue(1, Sum),
                  "connections." + scope + ".peak" := FieldValue(current, Peak)]
            case ConnectionClosed(_) => map["connections." + scope + ".closed" := FieldValue(1, Sum)]
  {
    var cs := ScopeCounters(o, scope);
    match o {
      case Messages(d, _, _, _) =>
        var head := "messages." + DirectionText(d) + "." + scope;
        assert cs[0].name == head + ".messages." + "count" && cs[1].name == head + ".messages." + "data" by {
          assert ".messages." + "count" == ".messages.count" && ".messages." + "data" == ".messages.data";
        }
        TwoCounters(cs[0], cs[1]);
      case ConnectionOpened(_, _) => TwoCounters(cs[0], cs[1]);
      case ConnectionClosed(_) => OneCounter(cs[0]);
    }
  }

  /** A scoped observation adds the same to "all" and to its transport, so a transport called "all" counts twice. */
  lemma BothScopes(o: Observation)
    requires Scoped(o)
    ensures Observed(o) == MergeEntries(MergeAll(Singles(ScopeCounters(o, "all"))),
                                        MergeAll(Singles(ScopeCounters(o, o.transport))))
  {
    var xs, ys := ScopeCounters(o, "all"), ScopeCounters(o, o.transport);
    ScopeKindsMatch(o, "all");
    ScopeKindsMatch(o, o.transport);
    assert Singles(xs + ys) == Singles(xs) + Singles(ys);
    MergeAllConcat(Singles(xs), Singles(ys));
  }

  function ObservedAll(os: seq<Observation>): seq<Entries> {
    seq(|os|, i requires 0 <= i < |os| => Observed(os[i]))
  }

  /** What an observation adds to "all": its count, or twice that if its transport is itself "all". */
  function Contribution(o: Observation): U64
    requires o.Messages?
  {
    if o.transport == "all" then SaturatingAdd(o.count, o.count) else o.count
  }

  /** The contributions of one direction, over all transports; unbounded. */
  function MessageTotal(os: seq<Observation>, d: Direction): nat {
    if os == [] then 0 else
      var last := os[|os| - 1];
      MessageTotal(os[..|os| - 1], d) + if last.Messages? && last.direction == d then Contribution(last) else 0
  }

  lemma FirstLetter(o: Observation, i: nat)
    requires !o.Messages? && i < |Counters(o)|
    ensures Counters(o)[i].name != "" && Counters(o)[i].name[0] != 'm'
  {
    if Scoped(o) {
      var n := |ScopeCounters(o, "all")|;
      assert Counters(o)[i] == if i < n then ScopeCounters(o, "all")[i] else ScopeCounters(o, o.transport)[i - n];
    }
  }

  lemma DirectionLetter(o: Observation, i: nat)
    requires o.Messages? && i < |Counters(o)|
    ensures |Counters(o)[i].name| > 9 && Counters(o)[i].name[9] == if o.direction == Inbound then 'i' else 'o'
  {
    var n := |ScopeCounters(o, "all")|;
    assert Counters(o)[i] == if i < n then ScopeCounters(o, "all")[i] else ScopeCounters(o, o.transport)[i - n];
  }

  lemma NamesDiffer(d: Direction, o: Observation, i: nat)
    requires i < |Counters(o)| && !(o.Messages? && o.direction == d)
    ensures Counters(o)[i].name != CountName(d, "all")
  {
    var name := CountName(d, "all");
    assert name[0] == 'm' && name[9] == if d == Inbound then 'i' else 'o';
    if o.Messages? { DirectionLetter(o, i); } else { FirstLetter(o, i); }
  }

  lemma ScopesDiffer(d: Direction, scope: string)
    requires scope != "all"
    ensures CountName(d, scope) != CountName(d, "all")
  {
    var head, tail := "messages." + DirectionText(d) + ".", ".messages.count";
    MiddleOf(head, scope, tail);
    MiddleOf(head, "all", tail);
  }

  lemma MiddleOf(head: string, middle: string, tail: string)
    ensures |head + middle + tail| == |head| + |middle| + |tail|
    ensures (head + middle + tail)[|head|..|head| + |middle|] == middle
  {}

  lemma LastLetter(name: string)
    requires name != "" && name[|name| - 1] != 'k'
    ensures KindOf(name) == Sum
  {
    if |name| >= 5 { assert name[|name| - 5..][4] == name[|name| - 1]; }
  }

  lemma PlainKind(o: Observation, i: nat)
    requires !Scoped(o) && i < |PlainCounters(o)|
    ensures PlainCounters(o)[i].aggregation == KindOf(PlainCounters(o)[i].name)
  {
    var name := PlainCounters(o)[i].name;
    if o.ChannelOpened? && i == 1 {
      assert name[8..] == ".peak";
    } else {
      LastLetter(name);
    }
  }

  lemma CountersCanonical(o: Observation)
    ensures AllCanonical(Singles(Counters(o)))
  {
    if Scoped(o) {
      ScopeKindsMatch(o, "all");
      ScopeKindsMatch(o, o.transport);
    } else {
      forall i | 0 <= i < |PlainCounters(o)|
        ensures PlainCounters(o)[i].aggregation == KindOf(PlainCounters(o)[i].name)
      {
        PlainKind(o, i);
      }
    }
    assert KindsMatch(Counters(o));
  }

  /** What one observation contributes to the "all" message count of a direction. */
  lemma AllScopeOf(o: Observation, d: Direction)
    ensures CountName(d, "all") in Observed(o) <==> o.Messages? && o.direction == d
    ensures CountName(d, "all") in Observed(o) ==> Observed(o)[CountName(d, "all")].value == Contribution(o)
  {
    CountersCanonical(o);
    MergeAllMeaning(Singles(Counters(o)), CountName(d, "all"));
    if o.Messages? && o.direction == d {
      AllScopeOfMessages(o, d);
    } else {
      NoneOf(o, d);
    }
  }

  lemma NoneOf(o: Observation, d: Direction)
    requires !(o.Messages? && o.direction == d)
    ensures !Mentions(Singles(Counters(o)), CountName(d, "all"))
  {
    forall i | 0 <= i < |Counters(o)| ensures CountName(d, "all") !in Singles(Counters(o))[i] { NamesDiffer(d, o, i); }
  }

  lemma AllScopeOfMessages(o: Observation, d: Direction)
    requires o.Messages? && o.direction == d
    ensures CountName(d, "all") in Singles(Counters(o))[0]
    ensures FieldSum(Singles(Counters(o)), CountName(d, "all")) == if o.transport == "all" then 2 * o.count else o.count
    ensures KindOf(CountName(d, "all")) == Sum
  {
    var name, parts := CountName(d, "all"), Singles(Counters(o));
    MessageKinds(d, "all");
    assert ScopeCounters(o, "all")[0].name == name;
    if o.transport != "all" { ScopesDiffer(d, o.transport); }
    DataNamesDiffer(d, "all", "all");
    DataNamesDiffer(d, o.transport, "all");
    assert |parts| == 4 && name in parts[0] && name !in parts[1] && name !in parts[3];
    assert name in parts[2] <==> o.transport == "all";
    FourFieldSum(parts, name);
  }

  lemma FourFieldSum(parts: seq<Entries>, name: string)
    requires |parts| == 4 && name in parts[0] && name !in parts[1] && name !in parts[3]
    ensures FieldSum(parts, name) == parts[0][name].value + if name in parts[2] then parts[2][name].value else 0
  {
    LastFieldSum(parts, name);
    LastFieldSum(parts[..3], name);
    LastFieldSum(parts[..3][..2], name);
    LastFieldSum(parts[..3][..2][..1], name);
  }

  lemma DataNamesDiffer(d: Direction, scope: string, scope': string)
    ensures DataName(d, scope) != CountName(d, scope')
  {
    var a, b := DataName(d, scope), CountName(d, scope');
    assert a[|a| - 1] == 'a' && b[|b| - 1] == 't';
  }

  lemma {:induction false} AllScopeSum(os: seq<Observation>, d: Direction)
    ensures FieldSum(ObservedAll(os), CountName(d, "all")) == MessageTotal(os, d)
  {
    if os != [] {
      var front, last := os[..|os| - 1], os[|os| - 1];
      AllScopeSum(front, d);
      ObservedLast(os);
      AllScopeOf(last, d);
      LastFieldSum(ObservedAll(os), CountName(d, "all"));
    }
  }

  lemma ObservedLast(os: seq<Observation>)
    requires os != []
    ensures ObservedAll(os)[..|os| - 1] == ObservedAll(os[..|os| - 1]) &&
            ObservedAll(os)[|os| - 1] == Observed(os[|os| - 1])
  {}

  lemma LastFieldSum(parts: seq<Entries>, name: string)
    requires parts != []
    ensures
      var last := parts[|parts| - 1];
      FieldSum(parts, name) == FieldSum(parts[..|parts| - 1], name) + if name in last then last[name].value else 0
  {}

  /**
   Whatever is observed, the merged "all" count of a direction is the total of its messages
   over all transports, cut off at 64 bits once.
   */
  lemma AllScopeIsTotal(os: seq<Observation>, d: Direction)
    ensures CountName(d, "all") in MergeAll(ObservedAll(os)) ==>
              MergeAll(ObservedAll(os))[CountName(d, "all")].value == Min(U64_MAX, MessageTotal(os, d))
    ensures CountName(d, "all") !in MergeAll(ObservedAll(os)) ==> MessageTotal(os, d) == 0
  {
    var name, parts := CountName(d, "all"), ObservedAll(os);
    AllScopeSum(os, d);
    forall i | 0 <= i < |os| ensures Canonical(parts[i]) { ObservedCanonical(os[i]); }
    MergeAllMeaning(parts, name);
    MessageKinds(d, "all");
  }
}
