/** The filter expression carried in a derived channel's qualifier. */
module ChannelFilters {
  import opened Prelude
  import Utf8
  import Base64
  import opened ChannelNames

  const MAX_EXPRESSION_BYTES: nat := 4096

  datatype FilterError = EmptyOrOversized | NotBase64 | NotUtf8

  const PREFIX := "filter="

  /** The text before the first question mark, or all of it. */
  function BeforeParams(s: string): string {
    if s == "" || s[0] == '?' then "" else [s[0]] + BeforeParams(s[1..])
  }

  function Decoded(encoded: string): Result<Option<string>, FilterError> {
    if encoded == "" || Utf8.Length(encoded) > 2 * MAX_EXPRESSION_BYTES then Err(EmptyOrOversized)
    else
      match Base64.Decode(Base64.Standard, encoded)
      case None => Err(NotBase64)
      case Some(bytes) =>
        if bytes == [] || |bytes| > MAX_EXPRESSION_BYTES then Err(EmptyOrOversized)
        else
          match Utf8.Decode(bytes)
          case None => Err(NotUtf8)
          case Some(source) => Ok(Some(source))
  }

  function SourceFromQualifier(q: string): Result<Option<string>, FilterError> {
    if PREFIX <= q then Decoded(BeforeParams(q[|PREFIX|..])) else Ok(None)
  }

  function SourceFromChannel(channel: ChannelName): Result<Option<string>, FilterError>
    requires channel.Valid()
  {
    match channel.Qualifier()
    case None => Ok(None)
    case Some(q) => SourceFromQualifier(q)
  }

  /** The expression as qualifier text. */
  function Encoded(expression: string): string {
    Base64.Encode(Base64.Standard, Utf8.Encode(expression))
  }

  predicate IsSuffix(params: string) {
    params == "" || params[0] == '?'
  }

  lemma {:induction false} BeforeParamsSplits(s: string, params: string)
    requires (forall i | 0 <= i < |s| :: s[i] != '?') && IsSuffix(params)
    ensures BeforeParams(s + params) == s
  {
    if s == "" {
      assert s + params == params;
    } else {
      assert (s + params)[1..] == s[1..] + params;
      BeforeParamsSplits(s[1..], params);
    }
  }

  lemma {:induction false} BeforeParamsIsPrefix(s: string)
    ensures BeforeParams(s) <= s && IsSuffix(s[|BeforeParams(s)|..])
  {
    if s != "" && s[0] != '?' {
      BeforeParamsIsPrefix(s[1..]);
      assert s == [s[0]] + s[1..];
      assert s[|BeforeParams(s)|..] == s[1..][|BeforeParams(s[1..])|..];
    }
  }

  lemma {:induction false} AsciiLength(s: string)
    requires forall i | 0 <= i < |s| :: (s[i] as int) < 0x80
    ensures Utf8.Length(s) == |s|
  {
    if s != [] { AsciiLength(s[1..]); }
  }

  /** Encoded text has no brackets, quotes, question marks, controls or blanks. */
  lemma EncodedIsPlain(expression: string)
    ensures
      var s := Encoded(expression);
      forall i | 0 <= i < |s| :: s[i] != '?' && (s[i] as int) < 0x80 && !IsControl(s[i]) && !IsWhitespace(s[i])
    ensures PlainText(Encoded(expression))
  {
    Base64.EncodedText(Base64.Standard, Utf8.Encode(expression));
  }

  /** The expression decodes from its encoded form. */
  lemma DecodedRoundTrip(expression: string)
    requires 0 < Utf8.Length(expression) <= MAX_EXPRESSION_BYTES
    ensures Decoded(Encoded(expression)) == Ok(Some(expression))
  {
    var bytes := Utf8.Encode(expression);
    Base64.EncodedLength(Base64.Standard, bytes);
    Base64.RoundTrip(Base64.Standard, bytes);
    Utf8.RoundTrip(expression);
    EncodedIsPlain(expression);
    AsciiLength(Encoded(expression));
  }

  lemma SourceIsEncoded(q: string, expression: string) returns (params: string)
    requires SourceFromQualifier(q) == Ok(Some(expression))
    ensures 0 < Utf8.Length(expression) <= MAX_EXPRESSION_BYTES &&
            IsSuffix(params) && q == PREFIX + Encoded(expression) + params
  {
    var rest := q[|PREFIX|..];
    var encoded := BeforeParams(rest);
    DecodedIsEncoded(encoded, expression);
    BeforeParamsIsPrefix(rest);
    params := rest[|encoded|..];
    assert rest == encoded + params && q == PREFIX + rest;
  }

  /**
   A qualifier yields an expression exactly when it is the prefix, that expression encoded,
   and possibly parameters after a question mark; the expression is within its bounds.
   */
  lemma SourceMeaning(q: string, expression: string)
    ensures SourceFromQualifier(q) == Ok(Some(expression)) <==>
            (0 < Utf8.Length(expression) <= 4096
             && exists params: string :: IsSuffix(params) && q == "filter=" + Encoded(expression) + params)
  {
    if SourceFromQualifier(q) == Ok(Some(expression)) {
      var params := SourceIsEncoded(q, expression);
      assert IsSuffix(params) && q == PREFIX + Encoded(expression) + params;
    }
    if 0 < Utf8.Length(expression) <= MAX_EXPRESSION_BYTES {
      if params: string :| IsSuffix(params) && q == PREFIX + Encoded(expression) + params {
        SourceOfEncoded(expression, params);
      }
    }
  }

  ghost predicate Encodes(bytes: seq<Utf8.Byte>, encoded: string) {
    encoded == Base64.Encode(Base64.Standard, bytes)
  }

  lemma DecodesIff(encoded: string)
    ensures forall bytes :: Encodes(bytes, encoded) <==> Base64.Decode(Base64.Standard, encoded) == Some(bytes)
    ensures Base64.Decode(Base64.Standard, encoded).None? <==> forall bytes :: !Encodes(bytes, encoded)
  {
    forall bytes ensures Encodes(bytes, encoded) <==> Base64.Decode(Base64.Standard, encoded) == Some(bytes) {
      Base64.RoundTrip(Base64.Standard, bytes);
      if Base64.Decode(Base64.Standard, encoded) == Some(bytes) {
        Base64.DecodeIsStrict(Base64.Standard, encoded, bytes);
      }
    }
    if Base64.Decode(Base64.Standard, encoded).Some? {
      assert Encodes(Base64.Decode(Base64.Standard, encoded).value, encoded);
    }
  }

  /** The bytes are no string's UTF-8. */
  ghost predicate IsNoString(bytes: seq<Utf8.Byte>) {
    forall s: string :: bytes != Utf8.Encode(s)
  }

  lemma Utf8DecodesIff(bytes: seq<Utf8.Byte>)
    ensures Utf8.Decode(bytes).None? <==> IsNoString(bytes)
  {
    forall s: string | bytes == Utf8.Encode(s) ensures Utf8.Decode(bytes).Some? { Utf8.RoundTrip(s); }
    if Utf8.Decode(bytes).Some? { Utf8.DecodeIsStrict(bytes, Utf8.Decode(bytes).value); }
  }

  /** Whether the text encodes more bytes than allowed, or bytes that are no string's. */
  ghost predicate EncodesTooMuch(encoded: string) {
    exists bytes :: Encodes(bytes, encoded) && |bytes| > 4096
  }

  ghost predicate EncodesNoString(encoded: string) {
    exists bytes :: Encodes(bytes, encoded) && IsNoString(bytes)
  }

  ghost predicate EncodesNothing(encoded: string) {
    forall bytes :: !Encodes(bytes, encoded)
  }

  lemma EncodesOne(encoded: string, bytes: seq<Utf8.Byte>)
    requires forall b :: Encodes(b, encoded) <==> b == bytes
    ensures !EncodesNothing(encoded)
    ensures EncodesTooMuch(encoded) <==> |bytes| > 4096
    ensures EncodesNoString(encoded) <==> IsNoString(bytes)
  {
    assert Encodes(bytes, encoded);
  }

  lemma DecodedErrors(encoded: string)
    requires encoded != "" && Utf8.Length(encoded) <= 8192
    ensures Decoded(encoded) == Err(EmptyOrOversized) <==> EncodesTooMuch(encoded)
    ensures Decoded(encoded) == Err(NotBase64) <==> EncodesNothing(encoded)
    ensures Decoded(encoded) == Err(NotUtf8) <==> EncodesNoString(encoded) && !EncodesTooMuch(encoded)
  {
    DecodesIff(encoded);
    match Base64.Decode(Base64.Standard, encoded) {
      case None =>
      case Some(bytes) =>
        EncodesOne(encoded, bytes);
        Utf8DecodesIff(bytes);
        Base64.DecodeIsStrict(Base64.Standard, encoded, bytes);
    }
  }

  /**
   Which error a filter qualifier gets, in terms of the encodings alone: empty or oversized
   text, or more than 4096 bytes in it; text that encodes no bytes; bytes that encode no string.
   */
  lemma SourceErrors(encoded: string, params: string)
    requires (forall i | 0 <= i < |encoded| :: encoded[i] != '?') && IsSuffix(params)
    ensures
      var r, sized := SourceFromQualifier("filter=" + encoded + params), 0 < |encoded| && Utf8.Length(encoded) <= 8192;
      && (r == Err(EmptyOrOversized) <==> !sized || EncodesTooMuch(encoded))
      && (r == Err(NotBase64) <==> sized && EncodesNothing(encoded))
      && (r == Err(NotUtf8) <==> sized && EncodesNoString(encoded) && !EncodesTooMuch(encoded))
  {
    var q := "filter=" + encoded + params;
    assert q[|PREFIX|..] == encoded + params;
    BeforeParamsSplits(encoded, params);
    if encoded != "" && Utf8.Length(encoded) <= 8192 { DecodedErrors(encoded); }
  }

  /** Without the prefix there is no filter. */
  lemma NoPrefixNoFilter(q: string)
    ensures SourceFromQualifier(q) == Ok(None) <==> !("filter=" <= q)
  {}

  /** Only an expression's own encoding decodes to it. */
  lemma DecodedIsEncoded(encoded: string, expression: string)
    requires Decoded(encoded) == Ok(Some(expression))
    ensures encoded == Encoded(expression) && 0 < Utf8.Length(expression) <= MAX_EXPRESSION_BYTES
  {
    var bytes := Base64.Decode(Base64.Standard, encoded).value;
    Base64.DecodeIsStrict(Base64.Standard, encoded, bytes);
    Utf8.DecodeIsStrict(bytes, expression);
  }

  lemma SourceOfEncoded(expression: string, params: string)
    requires 0 < Utf8.Length(expression) <= MAX_EXPRESSION_BYTES && IsSuffix(params)
    ensures SourceFromQualifier(PREFIX + Encoded(expression) + params) == Ok(Some(expression))
  {
    var q := PREFIX + Encoded(expression) + params;
    assert q[|PREFIX|..] == Encoded(expression) + params;
    EncodedIsPlain(expression);
    BeforeParamsSplits(Encoded(expression), params);
    DecodedRoundTrip(expression);
  }

  /**
   A derived channel built from an expression, a base name and balanced printable parameters
   parses, keeps its base, and gives back exactly the expression.
   */
  lemma ChannelRoundTrip(expression: string, params: string, base: string)
    requires 0 < Utf8.Length(expression) <= MAX_EXPRESSION_BYTES
    requires IsSuffix(params) && Balanced(params) && Printable(params)
    requires Parse(base) == Ok(ChannelName(base, 0))
    requires Utf8.Length("[" + (PREFIX + Encoded(expression) + params) + "]" + base) <= MAX_NAME_BYTES
    ensures
      var parsed := Parse("[" + (PREFIX + Encoded(expression) + params) + "]" + base);
      parsed.Ok? && parsed.value.Base() == base && SourceFromChannel(parsed.value) == Ok(Some(expression))
  {
    var q := PREFIX + Encoded(expression) + params;
    var raw := "[" + q + "]" + base;
    QualifierText(expression, params);
    PrintableConcat("[" + q + "]", base);
    assert Splits(raw, q, base);
    ParseQualified(raw, q, base);
    SourceMeaning(q, expression);
  }

  lemma QualifierText(expression: string, params: string)
    requires Balanced(params) && Printable(params)
    ensures
      var q := PREFIX + Encoded(expression) + params;
      Balanced(q) && !Blank(q) && Printable("[" + q + "]")
  {
    var text := PREFIX + Encoded(expression);
    EncodedIsPlain(expression);
    PlainIsBalanced(text);
    BalancedConcat(text, params);
    PrintableConcat(text, params);
    PrintableConcat("[", text + params);
    PrintableConcat("[" + (text + params), "]");
    assert (text + params)[0] == 'f' && !IsWhitespace('f');
  }

  lemma PrintableConcat(a: string, b: string)
    requires Printable(a) && Printable(b)
    ensures Printable(a + b)
  {}
}
