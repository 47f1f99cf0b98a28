/** What the oracle's reply does to a Subject: which number a reply names, said by positions in the text alone; that a
    callback stores exactly that number; and that every winner over a run was named by a signed reply. */
module Resolution {
  import opened Numbers
  import opened Outcomes
  import opened State
  import opened Decimals
  import opened GptOracle
  import opened World
  import opened WorldInvariant
  import opened RegistryGuarantees

  // ---- the number a reply names ----

  predicate EndsNumber(rest: string) {
    rest == "" || !IsDigit(rest[0])
  }

  /** s begins with a decimal number of value v that ends where its digits end. */
  ghost predicate Leads(s: string, v: U8) {
    exists k :: 1 <= k <= |s| && AllDigits(s[..k]) && EndsNumber(s[k..]) && Value(s[..k]) == v
  }

  ghost predicate FirstAt(s: string, key: string, i: nat) {
    FieldAt(s, key, i) && forall k: nat :: k < i ==> !FieldAt(s, key, k)
  }

  /** The first place where the key and a colon stand is followed by the number v. */
  ghost predicate Says(s: string, key: string, v: U8) {
    exists i: nat :: FirstAt(s, key, i) && Leads(s[ValueStart(s, key, i)..], v)
  }

  ghost predicate Silent(s: string, key: string) {
    forall v: U8 :: !Says(s, key, v)
  }

  /** The reply's answer: the field "option_index", failing that the field "option", failing that a bare number. */
  ghost predicate Names(s: string, v: U8) {
    || Says(s, "option_index", v)
    || (Silent(s, "option_index") && Says(s, "option", v))
    || (Silent(s, "option_index") && Silent(s, "option") && Leads(s[Skip(s, 0, IsWhitespace)..], v))
  }

  lemma LeadsIff(s: string, v: U8)
    ensures ParsedU8(s) == Some(v) <==> Leads(s, v)
  {
    var run := DigitRun(s);
    if ParsedU8(s) == Some(v) {
      assert s[..|run|] == run;
    }
    forall k | 1 <= k <= |s| && AllDigits(s[..k]) && EndsNumber(s[k..])
      ensures run == s[..k]
    {
      assert s == s[..k] + s[k..];
      DigitRunOf(s[..k], s[k..]);
    }
  }

  lemma {:induction false} FirstFieldIs(s: string, key: string, from: nat, i: nat)
    requires from <= i && FirstAt(s, key, i)
    ensures FirstField(s, key, from) == FieldValue(s, key, i)
    decreases i - from
  {
    if from < i {
      FirstFieldIs(s, key, from + 1, i);
    }
  }

  lemma {:induction false} NoField(s: string, key: string, from: nat)
    requires forall k: nat :: from <= k ==> !FieldAt(s, key, k)
    ensures FirstField(s, key, from) == None
    decreases |s| - from
  {
    if from + |key| < |s| {
      NoField(s, key, from + 1);
    }
  }

  lemma {:induction false} LeastField(s: string, key: string, k: nat) returns (i: nat)
    requires FieldAt(s, key, k)
    ensures i <= k && FirstAt(s, key, i)
  {
    i := k;
    if j: nat :| j < k && FieldAt(s, key, j) {
      i := LeastField(s, key, j);
    }
  }

  lemma SaysIff(s: string, key: string, v: U8)
    ensures FirstField(s, key, 0) == Some(v) <==> Says(s, key, v)
  {
    if k: nat :| FieldAt(s, key, k) {
      var i := LeastField(s, key, k);
      FirstFieldIs(s, key, 0, i);
      LeadsIff(s[ValueStart(s, key, i)..], v);
      assert forall n: nat :: FirstAt(s, key, n) ==> n == i;
    } else {
      NoField(s, key, 0);
    }
  }

  lemma SilentIff(s: string, key: string)
    ensures FirstField(s, key, 0) == None <==> Silent(s, key)
  {
    forall v: U8 ensures FirstField(s, key, 0) == Some(v) <==> Says(s, key, v) {
      SaysIff(s, key, v);
    }
    if FirstField(s, key, 0).Some? {
      assert Says(s, key, FirstField(s, key, 0).value);
    }
  }

  lemma NamesInOrder(s: string, v: U8)
    ensures var a, b, c := FirstField(s, "option_index", 0), FirstField(s, "option", 0), BareU8(s);
            Names(s, v) <==> a == Some(v) || (a == None && (b == Some(v) || (b == None && c == Some(v))))
  {
    SaysIff(s, "option_index", v);
    SaysIff(s, "option", v);
    SilentIff(s, "option_index");
    SilentIff(s, "option");
    LeadsIff(s[Skip(s, 0, IsWhitespace)..], v);
  }

  /** Whatever bytes arrive, a reply is read as v exactly when it names v and v is one of the options. */
  lemma NamesIff(s: string, optionsCount: U8, v: U8)
    ensures LlmOption(s, optionsCount) == Ok(v) <==> v < optionsCount && Names(s, v)
  {
    NamesInOrder(s, v);
  }

  // ---- the payload ----

  /** A Borsh string: how the oracle encodes a reply. */
  function Encoded(reply: seq<U8>): seq<U8> {
    LengthBytes(|reply|, 4) + reply
  }

  lemma LowByte(low: U8, high: nat, n: nat)
    requires n == low + 256 * high
    ensures n % 256 == low && n / 256 == high
  {
  }

  lemma {:induction false} LengthWritten(bytes: seq<U8>)
    ensures LengthBytes(LittleEndian(bytes), |bytes|) == bytes
  {
    if |bytes| > 0 {
      LengthWritten(bytes[1..]);
      LowByte(bytes[0], LittleEndian(bytes[1..]), LittleEndian(bytes));
      assert bytes == [bytes[0]] + bytes[1..];
    }
  }

  lemma {:induction false} LengthBelow(bytes: seq<U8>)
    ensures LittleEndian(bytes) < Pow256(|bytes|)
  {
    if |bytes| > 0 {
      LengthBelow(bytes[1..]);
    }
  }

  lemma FourBytes()
    ensures Pow256(4) == U32_MAX + 1
  {
    assert Pow256(4) == 256 * (256 * (256 * (256 * Pow256(0))));
  }

  lemma EncodedIff(payload: seq<U8>, reply: seq<U8>)
    ensures BorshString(payload) == Ok(reply) <==> |reply| <= U32_MAX && payload == Encoded(reply)
  {
    FourBytes();
    if |reply| <= U32_MAX && payload == Encoded(reply) {
      BorshRoundTrip(reply);
    }
    if BorshString(payload) == Ok(reply) {
      LengthWritten(payload[..4]);
      LengthBelow(payload[..4]);
      assert payload == payload[..4] + payload[4..];
    }
  }

  // ---- what a callback does ----

  /** A signed, well-encoded reply to an open Subject names v, one of its options. */
  ghost predicate Answers(w: Ledger, nonce: U64, identitySigned: bool, payload: seq<U8>, v: U8) {
    && identitySigned && nonce in w.subjects
    && w.subjects[nonce].status == Open && v < w.subjects[nonce].optionsCount
    && exists reply: seq<U8> :: |reply| <= U32_MAX && payload == Encoded(reply) && Names(Chars(reply), v)
  }

  function Answered(w: Ledger, nonce: U64, v: U8): Ledger
    requires nonce in w.subjects
  {
    w.(subjects := w.subjects[nonce := Subject(w.subjects[nonce].optionsCount, SubjectResolved, v)])
  }

  lemma AnswersIff(w: Ledger, nonce: U64, identitySigned: bool, payload: seq<U8>, v: U8)
    ensures Answers(w, nonce, identitySigned, payload, v) <==>
              && identitySigned && nonce in w.subjects && w.subjects[nonce].status == Open
              && BorshString(payload).Ok?
              && LlmOption(Chars(BorshString(payload).value), w.subjects[nonce].optionsCount) == Ok(v)
  {
    if nonce in w.subjects {
      forall reply: seq<U8>
        ensures BorshString(payload) == Ok(reply) <==> |reply| <= U32_MAX && payload == Encoded(reply)
      {
        EncodedIff(payload, reply);
      }
      if BorshString(payload).Ok? {
        NamesIff(Chars(BorshString(payload).value), w.subjects[nonce].optionsCount, v);
      }
    }
  }

  lemma CallbackEffect(w: Ledger, nonce: U64, identitySigned: bool, payload: seq<U8>)
    requires nonce in w.subjects ==> GoodSubject(w.subjects[nonce])
    ensures var r := DoCallback(w, nonce, identitySigned, payload);
            && (r.Ok? ==>
                  && identitySigned && nonce in w.subjects && w.subjects[nonce].status == Open
                  && BorshString(payload).Ok?
                  && var v := LlmOption(Chars(BorshString(payload).value), w.subjects[nonce].optionsCount);
                     v.Ok? && r.value == (Answered(w, nonce, v.value), Quiet))
            && (r.Err? ==> !identitySigned || nonce !in w.subjects || w.subjects[nonce].status != Open
                           || BorshString(payload).Err?
                           || LlmOption(Chars(BorshString(payload).value), w.subjects[nonce].optionsCount).Err?)
  {
  }

  /** In every reachable state a callback resolves its Subject to v if and only if a signed, well-encoded reply names v
      and the Subject is open with that option; it then changes nothing else, and any other callback fails. */
  lemma {:induction false} ResolvesIff(ixs: seq<Instruction>, nonce: U64, identitySigned: bool, payload: seq<U8>)
    ensures var w, r := Run(ixs).ledger, Execute(Run(ixs).ledger, Callback(nonce, identitySigned, payload));
            && (forall v: U8 :: Answers(w, nonce, identitySigned, payload, v) ==>
                                  r == Ok((Answered(w, nonce, v), Quiet)))
            && (r.Ok? ==> exists v: U8 :: Answers(w, nonce, identitySigned, payload, v))
  {
    RunValid(ixs);
    var w := Run(ixs).ledger;
    CallbackEffect(w, nonce, identitySigned, payload);
    forall v: U8
      ensures Answers(w, nonce, identitySigned, payload, v) <==>
                && identitySigned && nonce in w.subjects && w.subjects[nonce].status == Open
                && BorshString(payload).Ok?
                && LlmOption(Chars(BorshString(payload).value), w.subjects[nonce].optionsCount) == Ok(v)
    {
      AnswersIff(w, nonce, identitySigned, payload, v);
    }
    if DoCallback(w, nonce, identitySigned, payload).Ok? {
      var v := LlmOption(Chars(BorshString(payload).value), w.subjects[nonce].optionsCount);
      assert Answers(w, nonce, identitySigned, payload, v.value);
    }
  }

  // ---- replies by their shape ----

  /** ASCII white space: tab, line feed, form feed, carriage return and space. */
  predicate AllAsciiBlank(s: string) {
    forall i :: 0 <= i < |s| ==> s[i] as int in {9, 10, 12, 13, 32}
  }

  /** What may stand between a key and its colon: tab, space and quote. */
  predicate AllKeyGap(s: string) {
    forall i :: 0 <= i < |s| ==> s[i] as int in {9, 32, 34}
  }

  /** A reply with the long key, with the short key, or with just a number. */
  datatype Shape = Indexed(before: string, gap: string) | Plain(before: string, gap: string) | Bare

  /** The key does not start anywhere before the place it is written at. */
  predicate StartsOnlyAfter(before: string, key: string) {
    forall i :: 0 <= i < |before| ==> !(key <= (before + key)[i..])
  }

  predicate Fits(shape: Shape, blanks: string, rest: string) {
    && AllAsciiBlank(blanks) && EndsNumber(rest)
    && match shape
       case Indexed(before, gap) => AllKeyGap(gap) && StartsOnlyAfter(before, "option_index")
       case Plain(before, gap) => AllKeyGap(gap) && StartsOnlyAfter(before, "option") && ':' !in rest
       case Bare => ':' !in rest
  }

  function Field(before: string, key: string, gap: string, tail: string): string {
    before + key + gap + ":" + tail
  }

  function Written(shape: Shape, blanks: string, v: U8, rest: string): string {
    match shape
    case Indexed(before, gap) => Field(before, "option_index", gap, blanks + (Text(v) + rest))
    case Plain(before, gap) => Field(before, "option", gap, blanks + (Text(v) + rest))
    case Bare => blanks + (Text(v) + rest)
  }

  lemma PrintedLeads(v: U8, rest: string)
    requires EndsNumber(rest)
    ensures Leads(Text(v) + rest, v)
  {
    PrintedIsRead(v, rest);
    LeadsIff(Text(v) + rest, v);
  }

  lemma SkipTo(s: string, i: nat, k: nat, p: char -> bool)
    requires i <= k <= |s| && (forall n :: i <= n < k ==> p(s[n])) && (k < |s| ==> !p(s[k]))
    ensures Skip(s, i, p) == k
  {
  }

  lemma NoColonAfter(s: string, key: string, from: nat)
    requires forall k :: from <= k < |s| ==> s[k] != ':'
    ensures forall i: nat :: from <= i + |key| ==> !FieldAt(s, key, i)
  {
  }

  lemma FieldParts(before: string, key: string, gap: string, tail: string)
    ensures var s, c := Field(before, key, gap, tail), |before| + |key| + |gap|;
            && c < |s| && s[c] == ':' && s[c + 1..] == tail
            && s[..|before| + |key|] == before + key
            && s[|before| + |key|..c] == gap
  {
  }

  /** A key with its gap and colon at i, from k to c: the value starts where the blanks end. */
  lemma ValueFound(s: string, key: string, i: nat, c: nat, blanks: string, number: string)
    requires i + |key| <= c < |s| && s[i..i + |key|] == key && AllKeyGap(s[i + |key|..c]) && s[c] == ':'
    requires s[c + 1..] == blanks + number && AllAsciiBlank(blanks) && number != "" && IsDigit(number[0])
    ensures FieldAt(s, key, i) && ValueStart(s, key, i) == c + 1 + |blanks|
  {
    var k, v := i + |key|, c + 1 + |blanks|;
    assert forall n :: k <= n < c ==> s[n] == s[k..c][n - k];
    SkipTo(s, k, c, IsFieldGap);
    assert forall n :: c < n <= v ==> s[n] == (blanks + number)[n - c - 1];
    SkipTo(s, c + 1, v, IsWhitespace);
  }

  lemma KeyNotBefore(s: string, before: string, key: string, i: nat)
    requires |before| + |key| <= |s| && s[..|before| + |key|] == before + key
    requires StartsOnlyAfter(before, key) && i < |before|
    ensures s[i..i + |key|] != key
  {
    assert s[i..i + |key|] == (before + key)[i..][..|key|];
  }

  lemma SliceWithin(s: string, a: string, b: string)
    requires |a| + |b| <= |s| && s[..|a| + |b|] == a + b
    ensures s[|a|..|a| + |b|] == b
  {
    assert s[|a|..|a| + |b|] == s[..|a| + |b|][|a|..];
  }

  lemma DropPrefix(s: string, c: nat, a: string, b: string)
    requires c <= |s| && s[c..] == a + b
    ensures c + |a| <= |s| && s[c + |a|..] == b
  {
    assert s[c + |a|..] == s[c..][|a|..];
  }

  /** A field so written is the first of its key, and its value starts where the blanks end. */
  lemma FieldFirst(before: string, key: string, gap: string, blanks: string, number: string)
    requires AllKeyGap(gap) && AllAsciiBlank(blanks) && StartsOnlyAfter(before, key)
    requires number != "" && IsDigit(number[0])
    ensures var s := Field(before, key, gap, blanks + number);
            FirstAt(s, key, |before|) && s[ValueStart(s, key, |before|)..] == number
  {
    var s, c := Field(before, key, gap, blanks + number), |before| + |key| + |gap|;
    FieldParts(before, key, gap, blanks + number);
    SliceWithin(s, before, key);
    ValueFound(s, key, |before|, c, blanks, number);
    DropPrefix(s, c + 1, blanks, number);
    forall i: nat | i < |before| ensures !FieldAt(s, key, i) {
      KeyNotBefore(s, before, key, i);
    }
  }

  lemma IndexedNames(before: string, gap: string, blanks: string, v: U8, rest: string)
    requires Fits(Indexed(before, gap), blanks, rest)
    ensures Names(Written(Indexed(before, gap), blanks, v, rest), v)
  {
    FieldFirst(before, "option_index", gap, blanks, Text(v) + rest);
    PrintedLeads(v, rest);
  }

  lemma NoColons(blanks: string, v: U8, rest: string)
    requires AllAsciiBlank(blanks) && ':' !in rest
    ensures ':' !in blanks + (Text(v) + rest)
  {
  }

  lemma KeysShareStart()
    ensures "option_index"[..6] == "option" && "option_index"[6] == '_'
  {
    var short, rest := "option", "_index";
    assert "option_index" == short + rest;
  }

  lemma LongStartsShort(s: string, i: nat)
    requires i + 12 <= |s|
    ensures s[i..i + 12] == "option_index" ==> s[i..i + 6] == "option" && s[i + 6] == '_'
  {
    var t := s[i..i + 12];
    assert t[..6] == s[i..i + 6] && t[6] == s[i + 6];
    KeysShareStart();
  }

  /** The long key cannot stand where only the short one was written. */
  lemma ShortKeyIsShort(before: string, gap: string, tail: string)
    requires AllKeyGap(gap) && StartsOnlyAfter(before, "option") && ':' !in tail
    ensures forall i: nat :: !FieldAt(Field(before, "option", gap, tail), "option_index", i)
  {
    var s, k, c := Field(before, "option", gap, tail), |before| + 6, |before| + 6 + |gap|;
    FieldParts(before, "option", gap, tail);
    assert forall n :: c < n < |s| ==> s[n] == tail[n - c - 1];
    NoColonAfter(s, "option_index", c + 1);
    forall i: nat | i + 12 <= c ensures !FieldAt(s, "option_index", i) {
      LongStartsShort(s, i);
      if i < |before| {
        KeyNotBefore(s, before, "option", i);
      } else {
        assert s[i + 6] == s[k..c][i - |before|];
      }
    }
  }

  lemma PlainNames(before: string, gap: string, blanks: string, v: U8, rest: string)
    requires Fits(Plain(before, gap), blanks, rest)
    ensures Names(Written(Plain(before, gap), blanks, v, rest), v)
  {
    FieldFirst(before, "option", gap, blanks, Text(v) + rest);
    PrintedLeads(v, rest);
    NoColons(blanks, v, rest);
    ShortKeyIsShort(before, gap, blanks + (Text(v) + rest));
  }

  lemma BareNames(blanks: string, v: U8, rest: string)
    requires Fits(Bare, blanks, rest)
    ensures Names(Written(Bare, blanks, v, rest), v)
  {
    var s := Written(Bare, blanks, v, rest);
    assert IsDigit(s[|blanks|]) && s[|blanks|..] == Text(v) + rest;
    SkipTo(s, 0, |blanks|, IsWhitespace);
    PrintedLeads(v, rest);
    NoColons(blanks, v, rest);
    NoColonAfter(s, "option_index", 0);
    NoColonAfter(s, "option", 0);
  }

  lemma ShapeNames(shape: Shape, blanks: string, v: U8, rest: string)
    requires Fits(shape, blanks, rest)
    ensures Names(Written(shape, blanks, v, rest), v)
  {
    match shape
    case Indexed(before, gap) => IndexedNames(before, gap, blanks, v, rest);
    case Plain(before, gap) => PlainNames(before, gap, blanks, v, rest);
    case Bare => BareNames(blanks, v, rest);
  }

  /** For every option of an open Subject, a signed reply of any of the shapes that prints it stores exactly it; the
      same reply unsigned changes nothing. */
  lemma {:induction false} AnswerStored(ixs: seq<Instruction>, nonce: U64, reply: seq<U8>, shape: Shape, blanks: string,
                                        v: U8, rest: string)
    requires var w := Run(ixs).ledger;
             nonce in w.subjects && w.subjects[nonce].status == Open && v < w.subjects[nonce].optionsCount
    requires |reply| <= U32_MAX && Fits(shape, blanks, rest) && Chars(reply) == Written(shape, blanks, v, rest)
    ensures var w, count := Run(ixs).ledger, Run(ixs).ledger.subjects[nonce].optionsCount;
            && Execute(w, Callback(nonce, true, Encoded(reply)))
               == Ok((w.(subjects := w.subjects[nonce := Subject(count, SubjectResolved, v)]), Quiet))
            && Next(Run(ixs), Callback(nonce, false, Encoded(reply))) == Run(ixs)
  {
    ShapeNames(shape, blanks, v, rest);
    var w := Run(ixs).ledger;
    ResolvesIff(ixs, nonce, true, Encoded(reply));
    assert Answers(w, nonce, true, Encoded(reply), v);
    ResolvesIff(ixs, nonce, false, Encoded(reply));
    RefusedNext(Run(ixs), Callback(nonce, false, Encoded(reply)));
  }

  // ---- over runs ----

  /** The k-th step of a run was a signed callback for a Subject whose reply names v. */
  ghost predicate NamedAt(ixs: seq<Instruction>, nonce: U64, v: U8, k: nat) {
    && k < |ixs| && ixs[k].Callback? && ixs[k].nonce == nonce && ixs[k].identitySigned
    && exists reply: seq<U8> :: |reply| <= U32_MAX && ixs[k].payload == Encoded(reply) && Names(Chars(reply), v)
  }

  ghost predicate ResolvedTo(w: Ledger, nonce: U64, v: U8) {
    nonce in w.subjects && w.subjects[nonce].status == SubjectResolved && w.subjects[nonce].resolvedOption == v
  }

  /** Only a callback resolves a Subject. */
  lemma OthersResolveNothing(t: Trace, ix: Instruction, nonce: U64, v: U8)
    requires !ix.Callback? && ResolvedTo(Next(t, ix).ledger, nonce, v)
    ensures ResolvedTo(t.ledger, nonce, v)
  {
  }

  lemma NewlyResolved(ixs: seq<Instruction>, ix: Instruction, nonce: U64, v: U8)
    requires ix.Callback? && ResolvedTo(Next(Run(ixs), ix).ledger, nonce, v) && !ResolvedTo(Run(ixs).ledger, nonce, v)
    ensures NamedAt(ixs + [ix], nonce, v, |ixs|)
  {
    var w := Run(ixs).ledger;
    ResolvesIff(ixs, ix.nonce, ix.identitySigned, ix.payload);
    assert Execute(w, ix).Ok?;
    var u: U8 :| Answers(w, ix.nonce, ix.identitySigned, ix.payload, u);
    assert Next(Run(ixs), ix).ledger == Answered(w, ix.nonce, u);
  }

  /** Over every run a resolved Subject was resolved by a signed reply that names the option it holds. */
  lemma {:induction false} ResolvedByReply(ixs: seq<Instruction>, nonce: U64, v: U8)
    requires ResolvedTo(Run(ixs).ledger, nonce, v)
    ensures exists k: nat :: NamedAt(ixs, nonce, v, k)
  {
    if |ixs| > 0 {
      var before, ix := ixs[..|ixs| - 1], ixs[|ixs| - 1];
      assert ixs == before + [ix];
      if ResolvedTo(Run(before).ledger, nonce, v) {
        ResolvedByReply(before, nonce, v);
        var k: nat :| NamedAt(before, nonce, v, k);
        assert NamedAt(ixs, nonce, v, k);
      } else if ix.Callback? {
        NewlyResolved(before, ix, nonce, v);
        assert NamedAt(ixs, nonce, v, |before|);
      } else {
        OthersResolveNothing(Run(before), ix, nonce, v);
      }
    }
  }

  /** From the oracle to the payout: a market that ever paid YES is the one whose outcome a signed reply named. */
  lemma {:induction false} WinnerWasNamed(ixs: seq<Instruction>, key: MarketKey)
    requires YES_PAYS in JournalOf(Run(ixs).log, key).settlements
    ensures exists k: nat :: NamedAt(ixs, key.subject, key.outcome, k)
  {
    SettlesOnVerdict(ixs, key);
    ResolvedByReply(ixs, key.subject, key.outcome);
  }
}
