/** `gpt_oracle.rs` and the payload half of `callback_from_gpt.rs`: reading an option index out of a model's reply. */
module GptOracle {
  import opened Numbers
  import opened Outcomes
  import opened Decimals

  predicate IsWhitespace(c: char) {
    c == ' ' || c == '\t' || c == '\n' || c == '\r' || c == 12 as char
  }

  predicate IsFieldGap(c: char) {
    c == ' ' || c == '\t' || c == '"'
  }

  // ---- specification ----

  /** The number a digit run spells, if it fits a byte. */
  function ParsedU8(s: string): Option<U8> {
    var run := DigitRun(s);
    if run == "" || Value(run) > U8_MAX then None else Some(Value(run))
  }

  function Skip(s: string, i: nat, p: char -> bool): (k: nat)
    requires i <= |s|
    ensures i <= k <= |s| && (forall n :: i <= n < k ==> p(s[n])) && (k < |s| ==> !p(s[k]))
    decreases |s| - i
  {
    if i < |s| && p(s[i]) then Skip(s, i + 1, p) else i
  }

  /** `key` stands at i and, past gaps, a colon follows. */
  predicate FieldAt(s: string, key: string, i: nat) {
    && i + |key| < |s|
    && s[i..i + |key|] == key
    && var k := Skip(s, i + |key|, IsFieldGap);
       k < |s| && s[k] == ':'
  }

  /** Where the value of a field at i starts. */
  function ValueStart(s: string, key: string, i: nat): (k: nat)
    requires FieldAt(s, key, i)
    ensures k <= |s|
  {
    Skip(s, Skip(s, i + |key|, IsFieldGap) + 1, IsWhitespace)
  }

  function FieldValue(s: string, key: string, i: nat): Option<U8>
    requires FieldAt(s, key, i)
  {
    ParsedU8(s[ValueStart(s, key, i)..])
  }

  /** The value of the first field at or after i. */
  function FirstField(s: string, key: string, i: nat): Option<U8>
    decreases |s| - i
  {
    if i + |key| >= |s| then None
    else if FieldAt(s, key, i) then FieldValue(s, key, i)
    else FirstField(s, key, i + 1)
  }

  function BareU8(s: string): Option<U8> {
    ParsedU8(s[Skip(s, 0, IsWhitespace)..])
  }

  function CheckOption(v: U8, optionsCount: U8): Result<U8> {
    if v >= optionsCount then Err(InvalidAiResponse) else Ok(v)
  }

  function LlmOption(response: string, optionsCount: U8): Result<U8> {
    if optionsCount == 0 then Err(InvalidAiResponse)
    else
      var a := FirstField(response, "option_index", 0);
      if a.Some? then CheckOption(a.value, optionsCount) else
      var b := FirstField(response, "option", 0);
      if b.Some? then CheckOption(b.value, optionsCount) else
      var c := BareU8(response);
      if c.Some? then CheckOption(c.value, optionsCount) else Err(InvalidAiResponse)
  }

  function LittleEndian(bytes: seq<U8>): nat {
    if |bytes| == 0 then 0 else bytes[0] as int + 256 * LittleEndian(bytes[1..])
  }

  /** A Borsh string: a little-endian u32 length, then exactly that many bytes. */
  function BorshString(payload: seq<U8>): Result<seq<U8>> {
    if |payload| < 4 then Err(InvalidAiResponse) else
    :- Need(|payload| == 4 + LittleEndian(payload[..4]), InvalidAiResponse);
    Ok(payload[4..])
  }

  function Chars(bytes: seq<U8>): (s: string)
    ensures |s| == |bytes|
  {
    seq(|bytes|, i requires 0 <= i < |bytes| => bytes[i] as char)
  }

  // ---- the loops ----

  method ParseU8At(bytes: string) returns (r: Option<U8>)
    ensures r == ParsedU8(bytes)
  {
    if |bytes| == 0 || !IsDigit(bytes[0]) {
      return None;
    }
    var run := DigitRun(bytes);
    var n: U16 := 0;
    var i := 0;
    while i < |bytes|
      invariant i <= |run|
      invariant n == Value(run[..i]) <= U8_MAX
    {
      if !IsDigit(bytes[i]) {
        break;
      }
      assert i < |run| && run[i] == bytes[i];
      assert run[..i + 1][..i] == run[..i];
      n := Min(n * 10, U16_MAX);
      n := Min(n + DigitValue(bytes[i]), U16_MAX);
      i := i + 1;
      if n > 255 {
        ValueOfPrefix(run, i);
        return None;
      }
    }
    assert run[..i] == run;
    return Some(n);
  }

  method SkipGaps(s: string, from: nat) returns (j: nat)
    requires from <= |s|
    ensures j == Skip(s, from, IsFieldGap)
  {
    j := from;
    while j < |s| && (s[j] == ' ' || s[j] == '\t' || s[j] == '"')
      invariant from <= j <= |s|
      invariant Skip(s, from, IsFieldGap) == Skip(s, j, IsFieldGap)
    {
      j := j + 1;
    }
  }

  method SkipWhitespace(s: string, from: nat) returns (j: nat)
    requires from <= |s|
    ensures j == Skip(s, from, IsWhitespace)
  {
    j := from;
    while j < |s| && IsWhitespace(s[j])
      invariant from <= j <= |s|
      invariant Skip(s, from, IsWhitespace) == Skip(s, j, IsWhitespace)
    {
      j := j + 1;
    }
  }

  /** The inner scan: past the key and its gaps to a colon, then past white space. */
  method MatchField(haystack: string, key: string, i: nat) returns (at: Option<nat>)
    requires i + |key| < |haystack|
    ensures at == if FieldAt(haystack, key, i) then Some(ValueStart(haystack, key, i)) else None
  {
    if haystack[i..i + |key|] == key {
      var j := SkipGaps(haystack, i + |key|);
      if j < |haystack| && haystack[j] == ':' {
        j := SkipWhitespace(haystack, j + 1);
        return Some(j);
      }
    }
    return None;
  }

  method ParseJsonU8Field(haystack: string, key: string) returns (r: Option<U8>)
    ensures r == FirstField(haystack, key, 0)
  {
    var i := 0;
    while i + |key| < |haystack|
      invariant FirstField(haystack, key, 0) == FirstField(haystack, key, i)
    {
      var at := MatchField(haystack, key, i);
      if at.Some? {
        r := ParseU8At(haystack[at.value..]);
        return;
      }
      i := i + 1;
    }
    return None;
  }

  method ParseBareU8(bytes: string) returns (r: Option<U8>)
    ensures r == BareU8(bytes)
  {
    var i := SkipWhitespace(bytes, 0);
    r := ParseU8At(bytes[i..]);
  }

  method ParseLlmOption(response: string, optionsCount: U8) returns (r: Result<U8>)
    ensures r == LlmOption(response, optionsCount)
  {
    if optionsCount == 0 {
      return Err(InvalidAiResponse);
    }
    var v := ParseJsonU8Field(response, "option_index");
    if v.Some? {
      return CheckOption(v.value, optionsCount);
    }
    v := ParseJsonU8Field(response, "option");
    if v.Some? {
      return CheckOption(v.value, optionsCount);
    }
    v := ParseBareU8(response);
    if v.Some? {
      return CheckOption(v.value, optionsCount);
    }
    return Err(InvalidAiResponse);
  }

  // ---- what the reader guarantees ----

  /** Whatever bytes arrive, an accepted option indexes a real outcome and is never the pending marker. */
  lemma OptionInRange(response: string, optionsCount: U8)
    requires LlmOption(response, optionsCount).Ok?
    ensures LlmOption(response, optionsCount).value < optionsCount
    ensures LlmOption(response, optionsCount).value != 0xff
  {
  }

  /** The number printed is the number read back. */
  lemma PrintedIsRead(v: U8, rest: string)
    requires rest == "" || !IsDigit(rest[0])
    ensures ParsedU8(Text(v) + rest) == Some(v)
  {
    DigitRunOf(Text(v), rest);
    TextValue(v);
  }

  const JSON_PREFIX: string := "{\"option_index\": "

  lemma PrefixField(tail: string)
    requires tail != "" && !IsWhitespace(tail[0])
    ensures FieldAt(JSON_PREFIX + tail, "option_index", 2)
    ensures FieldValue(JSON_PREFIX + tail, "option_index", 2) == ParsedU8(tail)
    ensures !FieldAt(JSON_PREFIX + tail, "option_index", 0) && !FieldAt(JSON_PREFIX + tail, "option_index", 1)
  {
    var s := JSON_PREFIX + tail;
    assert s[0] == '{' && s[1] == '"' && s[14] == '"' && s[15] == ':' && s[16] == ' ' && s[17] == tail[0];
    assert s[2..14] == JSON_PREFIX[2..14] == "option_index";
    assert s[0..12][0] == '{' && s[1..13][0] == '"';
    assert Skip(s, 15, IsFieldGap) == 15;
    assert Skip(s, 14, IsFieldGap) == 15;
    assert Skip(s, 17, IsWhitespace) == 17;
    assert Skip(s, 16, IsWhitespace) == 17;
    assert s[17..] == tail;
  }

  /** A well-formed JSON reply is taken exactly when its number is below the option count. */
  lemma JsonReplyRead(v: U8, rest: string, optionsCount: U8)
    requires optionsCount > 0 && (rest == "" || !IsDigit(rest[0]))
    ensures LlmOption(JSON_PREFIX + Text(v) + rest, optionsCount) == CheckOption(v, optionsCount)
  {
    var tail := Text(v) + rest;
    var s := JSON_PREFIX + tail;
    assert JSON_PREFIX + Text(v) + rest == s;
    assert IsDigit(tail[0]) && !IsWhitespace(tail[0]);
    PrefixField(tail);
    PrintedIsRead(v, rest);
    assert FirstField(s, "option_index", 0) == FirstField(s, "option_index", 1) == FirstField(s, "option_index", 2);
  }

  function LengthBytes(n: nat, width: nat): (bytes: seq<U8>)
    ensures |bytes| == width
  {
    if width == 0 then [] else [n % 256] + LengthBytes(n / 256, width - 1)
  }

  lemma {:induction false} LengthRead(n: nat, width: nat)
    requires n < Pow256(width)
    ensures LittleEndian(LengthBytes(n, width)) == n
  {
    if width > 0 {
      LengthRead(n / 256, width - 1);
      assert LengthBytes(n, width)[1..] == LengthBytes(n / 256, width - 1);
    }
  }

  function Pow256(width: nat): nat {
    if width == 0 then 1 else 256 * Pow256(width - 1)
  }

  /** Every Borsh-encoded reply is unwrapped to exactly its bytes. */
  lemma BorshRoundTrip(text: seq<U8>)
    requires |text| <= U32_MAX
    ensures BorshString(LengthBytes(|text|, 4) + text) == Ok(text)
  {
    assert Pow256(4) == 256 * (256 * (256 * (256 * Pow256(0))));
    LengthRead(|text|, 4);
    var payload := LengthBytes(|text|, 4) + text;
    assert payload[..4] == LengthBytes(|text|, 4) && payload[4..] == text;
  }
}
