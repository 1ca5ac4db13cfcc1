/** The hand-written JSON text that the extension emits for stack details:
    the five-character string escape shared by `escapeJsonString`
    (SpanCodeEnhancer) and `escapeJson` (ExceptionStackDetailsInstrumentation),
    a decoder that undoes it, and the layout of arrays of flat objects. */
module JsonText {
  import opened Wrappers
  import opened Text

  /** The values a stack-detail record holds: strings, boxed integers,
      booleans, and null. */
  datatype JsonValue = JStr(text: string) | JInt(number: int) | JBool(flag: bool) | JNull

  /** One map entry of a record. A record lists its entries in the order the
      map iterates them. */
  datatype Field = Field(key: string, value: JsonValue)

  type Record = seq<Field>

  // ---------------------------------------------------------------------
  // escaping

  /** The per-character effect of the five replacements. */
  function EscapeChar(c: char): string {
    if c == '\\' then "\\\\"
    else if c == '"' then "\\\""
    else if c == '\n' then "\\n"
    else if c == '\r' then "\\r"
    else if c == '\t' then "\\t"
    else [c]
  }

  function Escape(s: string): string {
    if |s| == 0 then "" else EscapeChar(s[0]) + Escape(s[1..])
  }

  /** `String.replace` with a one-character target. */
  function Replace(s: string, target: char, replacement: string): string {
    if |s| == 0 then ""
    else (if s[0] == target then replacement else [s[0]]) + Replace(s[1..], target, replacement)
  }

  /** `escapeJsonString` / `escapeJson`: null becomes the empty text;
      otherwise backslash is replaced first, then quote, line feed,
      carriage return and tab. */
  function EscapeJson(s: Option<string>): (r: string)
    ensures s.None? ==> r == ""
    ensures s.Some? ==> r == Escape(s.value)
  {
    match s
    case None => ""
    case Some(t) =>
      ReplaceChainIsEscape(t);
      ReplaceChain(t)
  }

  function ReplaceChain(t: string): string {
    Replace(Replace(Replace(Replace(Replace(t, '\\', "\\\\"), '"', "\\\""), '\n', "\\n"), '\r', "\\r"), '\t', "\\t")
  }

  lemma {:induction false} ReplaceAppend(a: string, b: string, target: char, replacement: string)
    ensures Replace(a + b, target, replacement) == Replace(a, target, replacement) + Replace(b, target, replacement)
  {
    if |a| > 0 {
      assert (a + b)[1..] == a[1..] + b;
      ReplaceAppend(a[1..], b, target, replacement);
    } else {
      assert a + b == b;
    }
  }

  lemma ReplaceChainAppend(a: string, b: string)
    ensures ReplaceChain(a + b) == ReplaceChain(a) + ReplaceChain(b)
  {
    var r1a, r1b := Replace(a, '\\', "\\\\"), Replace(b, '\\', "\\\\");
    ReplaceAppend(a, b, '\\', "\\\\");
    var r2a, r2b := Replace(r1a, '"', "\\\""), Replace(r1b, '"', "\\\"");
    ReplaceAppend(r1a, r1b, '"', "\\\"");
    var r3a, r3b := Replace(r2a, '\n', "\\n"), Replace(r2b, '\n', "\\n");
    ReplaceAppend(r2a, r2b, '\n', "\\n");
    var r4a, r4b := Replace(r3a, '\r', "\\r"), Replace(r3b, '\r', "\\r");
    ReplaceAppend(r3a, r3b, '\r', "\\r");
    ReplaceAppend(r4a, r4b, '\t', "\\t");
  }

  lemma {:induction false} ReplaceAbsent(s: string, target: char, replacement: string)
    requires target !in s
    ensures Replace(s, target, replacement) == s
  {
    if |s| > 0 {
      ReplaceAbsent(s[1..], target, replacement);
      assert s == [s[0]] + s[1..];
    }
  }

  lemma ReplaceSingle(c: char, target: char, replacement: string)
    ensures Replace([c], target, replacement) == if c == target then replacement else [c]
  {
    assert [c][1..] == [];
  }

  /** A replacement introduces no character that a later one targets. */
  lemma ReplaceChainOneChar(c: char)
    ensures ReplaceChain([c]) == EscapeChar(c)
  {
    ReplaceSingle(c, '\\', "\\\\");
    var r1 := Replace([c], '\\', "\\\\");
    if c == '\\' {
      ReplaceAbsent(r1, '"', "\\\"");
      ReplaceAbsent(r1, '\n', "\\n");
      ReplaceAbsent(r1, '\r', "\\r");
      ReplaceAbsent(r1, '\t', "\\t");
    } else {
      ReplaceSingle(c, '"', "\\\"");
      var r2 := Replace([c], '"', "\\\"");
      if c == '"' {
        ReplaceAbsent(r2, '\n', "\\n");
        ReplaceAbsent(r2, '\r', "\\r");
        ReplaceAbsent(r2, '\t', "\\t");
      } else {
        ReplaceSingle(c, '\n', "\\n");
        var r3 := Replace([c], '\n', "\\n");
        if c == '\n' {
          ReplaceAbsent(r3, '\r', "\\r");
          ReplaceAbsent(r3, '\t', "\\t");
        } else {
          ReplaceSingle(c, '\r', "\\r");
          var r4 := Replace([c], '\r', "\\r");
          if c == '\r' {
            ReplaceAbsent(r4, '\t', "\\t");
          } else {
            ReplaceSingle(c, '\t', "\\t");
          }
        }
      }
    }
  }

  /** Chaining the five replacements escapes each character on its own. */
  lemma {:induction false} ReplaceChainIsEscape(s: string)
    ensures ReplaceChain(s) == Escape(s)
  {
    if |s| > 0 {
      assert s == [s[0]] + s[1..];
      ReplaceChainAppend([s[0]], s[1..]);
      ReplaceChainOneChar(s[0]);
      ReplaceChainIsEscape(s[1..]);
    } else {
      assert ReplaceChain(s) == "";
    }
  }

  /** Escaped text holds no raw line feed, carriage return or tab. */
  lemma {:induction false} EscapeHasNoControl(s: string)
    ensures '\n' !in Escape(s) && '\r' !in Escape(s) && '\t' !in Escape(s)
  {
    if |s| > 0 {
      EscapeHasNoControl(s[1..]);
    }
  }

  // ---------------------------------------------------------------------
  // undoing the escape

  function UnescapeChar(c: char): Option<char> {
    if c == '\\' then Some('\\')
    else if c == '"' then Some('"')
    else if c == 'n' then Some('\n')
    else if c == 'r' then Some('\r')
    else if c == 't' then Some('\t')
    else None
  }

  /** Reads the body of a JSON string literal up to its closing quote,
      undoing the five escapes; gives the text and what follows the quote. */
  function DecodeString(t: string): Option<(string, string)>
    decreases |t|
  {
    if |t| == 0 then None
    else if t[0] == '"' then Some(("", t[1..]))
    else if t[0] == '\\' then
      if |t| < 2 || UnescapeChar(t[1]).None? then None
      else
        match DecodeString(t[2..])
        case None => None
        case Some(p) => Some(([UnescapeChar(t[1]).value] + p.0, p.1))
    else
      match DecodeString(t[1..])
      case None => None
      case Some(p) => Some(([t[0]] + p.0, p.1))
  }

  /** Decoding an escaped text followed by a quote gives back exactly the
      text and the rest: the first unescaped quote is the one the encoder
      wrote. */
  lemma {:induction false} DecodeEscape(s: string, rest: string)
    ensures DecodeString(Escape(s) + "\"" + rest) == Some((s, rest))
  {
    var t := Escape(s) + "\"" + rest;
    if |s| == 0 {
      assert t == "\"" + rest;
    } else {
      var tail := Escape(s[1..]) + "\"" + rest;
      DecodeEscape(s[1..], rest);
      assert t == EscapeChar(s[0]) + tail;
      var c := s[0];
      if c == '\\' || c == '"' || c == '\n' || c == '\r' || c == '\t' {
        assert t[2..] == tail;
      } else {
        assert t[1..] == tail;
      }
      assert [s[0]] + s[1..] == s;
    }
  }

  /** Different texts never escape to the same text. */
  lemma EscapeInjective(a: string, b: string)
    requires Escape(a) == Escape(b)
    ensures a == b
  {
    DecodeEscape(a, "");
    DecodeEscape(b, "");
  }

  // ---------------------------------------------------------------------
  // layout

  /** A string value as `"` + escaped text + `"`. */
  function Quoted(s: string): string {
    "\"" + Escape(s) + "\""
  }

  /** How both builders append a value: a string quoted and escaped, a
      number or boolean by `toString`; null bare (`quoteNull` false, as
      SpanCodeEnhancer does) or as the quoted text `"null"`
      (ExceptionStackDetailsInstrumentation). */
  function Render(v: JsonValue, quoteNull: bool): string {
    match v
    case JStr(s) => Quoted(s)
    case JInt(n) => IntToString(n)
    case JBool(b) => if b then "true" else "false"
    case JNull => if quoteNull then "\"null\"" else "null"
  }

  /** `"key":value`; the key is written as is, without escaping. */
  function FieldText(f: Field, quoteNull: bool): string {
    "\"" + f.key + "\":" + Render(f.value, quoteNull)
  }

  function FieldTexts(rec: Record, quoteNull: bool): (r: seq<string>)
    ensures |r| == |rec|
  {
    if |rec| == 0 then [] else FieldTexts(rec[..|rec| - 1], quoteNull) + [FieldText(rec[|rec| - 1], quoteNull)]
  }

  /** `{` + fields joined by `,` + `}`. */
  function ObjectText(rec: Record, quoteNull: bool): string {
    "{" + Join(FieldTexts(rec, quoteNull), ",") + "}"
  }

  function ObjectTexts(recs: seq<Record>, quoteNull: bool): (r: seq<string>)
    ensures |r| == |recs|
  {
    if |recs| == 0 then [] else ObjectTexts(recs[..|recs| - 1], quoteNull) + [ObjectText(recs[|recs| - 1], quoteNull)]
  }

  /** `[` + objects joined by `,` + `]`. */
  function ArrayText(recs: seq<Record>, quoteNull: bool): string {
    "[" + Join(ObjectTexts(recs, quoteNull), ",") + "]"
  }

  /** A rendered string reads back as the string it came from. */
  lemma RenderedStringDecodes(s: string, quoteNull: bool, rest: string)
    ensures Render(JStr(s), quoteNull)[0] == '"'
    ensures DecodeString(Render(JStr(s), quoteNull)[1..] + rest) == Some((s, rest))
  {
    DecodeEscape(s, rest);
    assert Render(JStr(s), quoteNull)[1..] + rest == Escape(s) + "\"" + rest;
  }

  /** One more field text joined onto the fields before it. */
  lemma FieldStep(detail: Record, j: nat, quoteNull: bool)
    requires j < |detail|
    ensures Join(FieldTexts(detail[..j + 1], quoteNull), ",")
         == Join(FieldTexts(detail[..j], quoteNull), ",") + (if j == 0 then "" else ",") + FieldText(detail[j], quoteNull)
  {
    var before := FieldTexts(detail[..j], quoteNull);
    assert detail[..j + 1][..j] == detail[..j];
    assert FieldTexts(detail[..j + 1], quoteNull) == before + [FieldText(detail[j], quoteNull)];
    JoinSnoc(before, FieldText(detail[j], quoteNull), ",");
  }

  /** One more object text joined onto the objects before it. */
  lemma ObjectStep(details: seq<Record>, i: nat, quoteNull: bool)
    requires i < |details|
    ensures Join(ObjectTexts(details[..i + 1], quoteNull), ",")
         == Join(ObjectTexts(details[..i], quoteNull), ",") + (if i == 0 then "" else ",") + ObjectText(details[i], quoteNull)
  {
    var before := ObjectTexts(details[..i], quoteNull);
    assert details[..i + 1][..i] == details[..i];
    assert ObjectTexts(details[..i + 1], quoteNull) == before + [ObjectText(details[i], quoteNull)];
    JoinSnoc(before, ObjectText(details[i], quoteNull), ",");
  }

  // ---------------------------------------------------------------------
  // the builder loops

  /** Appending a separator and a piece to a builder that holds a prefix
      and the joined text so far. */
  lemma AppendRegroup(prefix: string, joined: string, sep: string, piece: string)
    ensures prefix + joined + sep + piece == prefix + (joined + sep + piece)
  {
  }

  /** One entry of the inner loop: the separator unless it is the first,
      then `"key":` and the value. */
  method AppendField(sb: string, f: Field, first: bool, quoteNull: bool) returns (out: string)
    ensures out == sb + (if first then "" else ",") + FieldText(f, quoteNull)
  {
    var sep := if first then "" else ",";
    var value;
    match f.value {
      case JStr(s) =>
        value := "\"" + EscapeJson(Some(s)) + "\"";
      case JInt(n) =>
        value := IntToString(n);
      case JBool(b) =>
        value := if b then "true" else "false";
      case JNull =>
        value := if quoteNull then "\"null\"" else "null";
    }
    out := sb + sep + ("\"" + f.key + "\":" + value);
  }

  /** The inner loop: one record as `{"key":value,...}`. */
  method AppendObject(sb: string, detail: Record, quoteNull: bool) returns (out: string)
    ensures out == sb + ObjectText(detail, quoteNull)
  {
    out := sb + "{";
    var first := true;
    var j := 0;
    while j < |detail|
      invariant 0 <= j <= |detail|
      invariant first <==> j == 0
      invariant out == sb + "{" + Join(FieldTexts(detail[..j], quoteNull), ",")
    {
      FieldStep(detail, j, quoteNull);
      AppendRegroup(sb + "{", Join(FieldTexts(detail[..j], quoteNull), ","), if j == 0 then "" else ",",
        FieldText(detail[j], quoteNull));
      out := AppendField(out, detail[j], first, quoteNull);
      first := false;
      j := j + 1;
    }
    assert detail[..|detail|] == detail;
    out := out + "}";
  }

  /** The outer loop: the records as one array, objects separated by
      commas. */
  method BuildArray(records: seq<Record>, quoteNull: bool) returns (json: string)
    ensures json == ArrayText(records, quoteNull)
  {
    json := "[";
    var i := 0;
    while i < |records|
      invariant 0 <= i <= |records|
      invariant json == "[" + Join(ObjectTexts(records[..i], quoteNull), ",")
    {
      ObjectStep(records, i, quoteNull);
      AppendRegroup("[", Join(ObjectTexts(records[..i], quoteNull), ","), if i == 0 then "" else ",",
        ObjectText(records[i], quoteNull));
      json := AppendObject(json + (if i == 0 then "" else ","), records[i], quoteNull);
      i := i + 1;
    }
    assert records[..|records|] == records;
    json := json + "]";
  }
}
