/** What the two Vegas-score fetchers share: decoded JSON replies, the
    Python conversions they apply to them (`float()`, `int()`, `str()`,
    truthiness, `dict.get`), the `fetch_all` loop that records every
    source's value or error, its one-line summaries, and the "try each
    endpoint in turn" fallback. A reply from the network is a parameter:
    `Ok(json)` for a decoded body, `Err(message)` for a request that
    raised. */
module SourceFetch {
  import opened Common

  /** A decoded JSON value as Python's `json` module returns it. */
  datatype Json =
    | JNull
    | JBool(b: bool)
    | JInt(i: int)
    | JReal(r: real)
    | JStr(s: string)
    | JArr(items: seq<Json>)
    | JObj(fields: map<string, Json>)

  /** A request's outcome: the decoded body, or the text of the exception
      it raised (HTTP error status, connection failure, invalid JSON). */
  type Reply = Result<Json, string>

  /** The text that stands for Python's own KeyError, TypeError,
      AttributeError and ValueError messages when a reply does not have
      the shape a fetcher expects. */
  const Malformed: string := "malformed response"

  /** Python truthiness of a decoded value. */
  predicate IsTruthy(j: Json) {
    match j
    case JNull => false
    case JBool(b) => b
    case JInt(i) => i != 0
    case JReal(r) => r != 0.0
    case JStr(s) => s != []
    case JArr(items) => items != []
    case JObj(fields) => fields != map[]
  }

  /** `d.get(key, default)`: the default when the key is absent; a value
      that is not a dict has no `get` (AttributeError). */
  function GetOr(j: Json, key: string, default: Json): (r: Result<Json, string>)
    ensures r.Ok? <==> j.JObj?
    ensures j.JObj? && key in j.fields ==> r.value == j.fields[key]
    ensures j.JObj? && key !in j.fields ==> r.value == default
  {
    match j
    case JObj(fields) => Ok(if key in fields then fields[key] else default)
    case _ => Err(Malformed)
  }

  /** `d[key]` on a dict: KeyError when absent, TypeError when `d` is not a
      dict (JSON object keys are strings, so a list index is `At`). */
  function Field(j: Json, key: string): (r: Result<Json, string>)
    ensures r.Ok? <==> j.JObj? && key in j.fields
    ensures r.Ok? ==> r.value == j.fields[key]
  {
    if j.JObj? && key in j.fields then Ok(j.fields[key]) else Err(Malformed)
  }

  /** `xs[k]` on a list: IndexError or TypeError otherwise. */
  function At(j: Json, k: nat): (r: Result<Json, string>)
    ensures r.Ok? <==> j.JArr? && k < |j.items|
    ensures r.Ok? ==> r.value == j.items[k]
  {
    if j.JArr? && k < |j.items| then Ok(j.items[k]) else Err(Malformed)
  }

  // ---------------------------------------------------------------------
  // Numbers in text

  predicate IsDigit(c: char) {
    '0' <= c <= '9'
  }

  predicate AllDigits(s: string) {
    forall i :: 0 <= i < |s| ==> IsDigit(s[i])
  }

  function DigitValue(c: char): nat
    requires IsDigit(c)
  {
    c as int - '0' as int
  }

  /** The number a run of decimal digits spells, most significant first. */
  function DigitsValue(s: string): nat
    requires AllDigits(s)
  {
    if s == [] then 0 else DigitsValue(s[..|s| - 1]) * 10 + DigitValue(s[|s| - 1])
  }

  /** The value of the digits after a decimal point. */
  function FractionValue(s: string): (r: real)
    requires AllDigits(s)
    ensures 0.0 <= r <= 1.0
  {
    if s == [] then 0.0 else (DigitValue(s[0]) as real + FractionValue(s[1..])) / 10.0
  }

  /** The position of the first '.', or `|s|` when there is none. */
  function DotIndex(s: string): (k: nat)
    ensures k <= |s|
    ensures k < |s| ==> s[k] == '.'
    ensures forall i :: 0 <= i < k ==> s[i] != '.'
  {
    if s == [] then 0 else if s[0] == '.' then 0 else 1 + DotIndex(s[1..])
  }

  /** Unsigned `digits[.digits]` with at least one digit; "1." and ".5"
      are numbers, "." is not. */
  function UnsignedDecimal(s: string): (r: Option<real>)
    ensures r.Some? ==> r.value >= 0.0
  {
    var k := DotIndex(s);
    var whole := s[..k];
    var frac := if k < |s| then s[k + 1..] else [];
    if AllDigits(whole) && AllDigits(frac) && |whole| + |frac| > 0 then
      Some(DigitsValue(whole) as real + FractionValue(frac))
    else None
  }

  /** An optional sign, then an unsigned decimal numeral. */
  function SignedDecimal(s: string): Option<real> {
    if s != [] && s[0] == '-' then
      match UnsignedDecimal(s[1..])
      case Some(v) => Some(-v)
      case None => None
    else if s != [] && s[0] == '+' then UnsignedDecimal(s[1..])
    else UnsignedDecimal(s)
  }

  /** Python `float(text)`: surrounding whitespace is ignored, then an
      optional sign and a decimal numeral; anything else raises. */
  function ParseDecimal(text: string): Option<real> {
    SignedDecimal(Strip(text))
  }

  /** An optional sign, then at least one digit. */
  function SignedInt(s: string): (r: Option<int>)
    ensures r.Some? ==> s != []
  {
    var sign := if s != [] && s[0] == '-' then -1 else 1;
    var digits := if s != [] && (s[0] == '-' || s[0] == '+') then s[1..] else s;
    if digits != [] && AllDigits(digits) then Some(sign * DigitsValue(digits)) else None
  }

  /** Python `int(text)`: surrounding whitespace is ignored, then an
      optional sign and at least one digit. */
  function ParseInt(text: string): Option<int> {
    SignedInt(Strip(text))
  }

  /** A numeral that starts with a digit or a sign and ends with a digit
      is its own strip. */
  lemma DigitsAreTrimmed(s: string)
    requires s != [] && (IsDigit(s[0]) || s[0] == '-' || s[0] == '.') && IsDigit(s[|s| - 1])
    ensures Strip(s) == s
  {
    assert !IsSpace(s[0]) && !IsSpace(s[|s| - 1]);
  }

  lemma {:induction false} DigitsOfNat(n: nat)
    ensures AllDigits(NatToString(n)) && DigitsValue(NatToString(n)) == n
  {
    if n >= 10 {
      DigitsOfNat(n / 10);
      var s := NatToString(n);
      assert s[..|s| - 1] == NatToString(n / 10);
    }
  }

  lemma SignedIntOfDigits(d: string)
    requires d != [] && AllDigits(d)
    ensures SignedInt(d) == Some(DigitsValue(d))
    ensures SignedInt("-" + d) == Some(-(DigitsValue(d) as int))
  {
    assert ("-" + d)[1..] == d;
  }

  /** `int(str(i)) == i`. */
  lemma IntRoundTrip(i: int)
    ensures ParseInt(IntToString(i)) == Some(i)
  {
    var m: nat := if i < 0 then -i else i;
    DigitsOfNat(m);
    var d := NatToString(m);
    SignedIntOfDigits(d);
    DigitsAreTrimmed(IntToString(i));
  }

  /** `float(str(n)) == n` for a natural number. */
  lemma NatParsesAsDecimal(n: nat)
    ensures ParseDecimal(NatToString(n)) == Some(n as real)
  {
    DigitsOfNat(n);
    var s := NatToString(n);
    assert IsDigit(s[0]);
    DigitsAreTrimmed(s);
    UnsignedOfDigits(s);
    assert SignedDecimal(s) == UnsignedDecimal(s);
  }

  /** A run of digits without a point reads as the whole number it spells. */
  lemma UnsignedOfDigits(s: string)
    requires s != [] && AllDigits(s)
    ensures UnsignedDecimal(s) == Some(DigitsValue(s) as real)
  {
    DotIndexAbsent(s);
    assert s[..DotIndex(s)] == s;
  }

  lemma {:induction false} DotIndexAbsent(s: string)
    requires forall i :: 0 <= i < |s| ==> s[i] != '.'
    ensures DotIndex(s) == |s|
  {
    if s != [] {
      DotIndexAbsent(s[1..]);
    }
  }

  /** A numeral with one decimal, such as `f"{x:.1f}"` writes, reads back
      as its whole part plus its tenths, with or without a minus sign. */
  lemma OneDecimalParses(whole: nat, tenth: nat)
    requires tenth < 10
    ensures ParseDecimal(NatToString(whole) + "." + NatToString(tenth)) == Some(whole as real + tenth as real / 10.0)
    ensures ParseDecimal("-" + (NatToString(whole) + "." + NatToString(tenth))) == Some(-(whole as real + tenth as real / 10.0))
  {
    var w := NatToString(whole);
    var f := NatToString(tenth);
    OneDecimalDigits(whole, tenth);
    OneDecimalText(w, f, whole, tenth);
    MinusOneDecimalText(w, f, whole, tenth);
    OneDecimalTrimmed(w, f);
  }

  /** The two numerals: digits spelling `whole`, and one digit spelling
      `tenth`. */
  lemma OneDecimalDigits(whole: nat, tenth: nat)
    requires tenth < 10
    ensures var w := NatToString(whole); w != [] && AllDigits(w) && DigitsValue(w) == whole
    ensures var f := NatToString(tenth); |f| == 1 && AllDigits(f) && DigitValue(f[0]) == tenth
  {
    var f := NatToString(tenth);
    DigitsOfNat(whole);
    DigitsOfNat(tenth);
    assert DigitsValue(f) == DigitValue(f[0]) by {
      assert f[..|f| - 1] == [];
    }
  }

  /** A one-decimal numeral, signed or not, has no surrounding space. */
  lemma OneDecimalTrimmed(w: string, f: string)
    requires w != [] && AllDigits(w) && |f| == 1 && AllDigits(f)
    ensures Strip(w + "." + f) == w + "." + f
    ensures Strip("-" + (w + "." + f)) == "-" + (w + "." + f)
  {
    var y := w + "." + f;
    var neg := "-" + y;
    assert y[0] == w[0] && y[|y| - 1] == f[0];
    assert neg[0] == '-' && neg[|neg| - 1] == f[0];
    DigitsAreTrimmed(y);
    DigitsAreTrimmed(neg);
  }

  /** The same on the text: digits, a point, one digit. */
  lemma OneDecimalText(w: string, f: string, whole: nat, tenth: nat)
    requires w != [] && AllDigits(w) && |f| == 1 && AllDigits(f)
    requires DigitsValue(w) == whole && DigitValue(f[0]) == tenth
    ensures SignedDecimal(w + "." + f) == Some(whole as real + tenth as real / 10.0)
  {
    var y := w + "." + f;
    UnsignedOneDecimal(w, f, whole, tenth);
    assert y[0] == w[0];
  }

  /** And after a minus sign, its negation. */
  lemma MinusOneDecimalText(w: string, f: string, whole: nat, tenth: nat)
    requires w != [] && AllDigits(w) && |f| == 1 && AllDigits(f)
    requires DigitsValue(w) == whole && DigitValue(f[0]) == tenth
    ensures SignedDecimal("-" + (w + "." + f)) == Some(-(whole as real + tenth as real / 10.0))
  {
    UnsignedOneDecimal(w, f, whole, tenth);
    NegatedDecimal(w + "." + f, whole, tenth);
  }

  /** A minus sign in front of an unsigned numeral negates its value. */
  lemma NegatedDecimal(y: string, whole: nat, tenth: nat)
    requires UnsignedDecimal(y) == Some(whole as real + tenth as real / 10.0)
    ensures SignedDecimal("-" + y) == Some(-(whole as real + tenth as real / 10.0))
  {
    var neg := "-" + y;
    assert neg[0] == '-' && neg[1..] == y;
  }

  /** Digits, a point and one more digit: the whole part plus a tenth. */
  lemma UnsignedOneDecimal(w: string, f: string, whole: nat, tenth: nat)
    requires w != [] && AllDigits(w) && |f| == 1 && AllDigits(f)
    requires DigitsValue(w) == whole && DigitValue(f[0]) == tenth
    ensures UnsignedDecimal(w + "." + f) == Some(whole as real + tenth as real / 10.0)
  {
    var y := w + "." + f;
    var k := DotIndex(y);
    assert k == |w| by {
      assert y[|w|] == '.';
    }
    assert y[..k] == w && y[k + 1..] == f;
    assert FractionValue(f) == DigitValue(f[0]) as real / 10.0 by {
      assert f[1..] == [];
    }
  }

  /** A point without digits is not a number. */
  lemma LoneDotIsNotDecimal()
    ensures ParseDecimal(".") == None
  {
    assert Strip(".") == "." by {
      assert !IsSpace('.');
    }
  }

  /** "2.5" reads as the number it spells. */
  lemma PositiveDecimalExample()
    ensures ParseDecimal("2.5") == Some(2.5)
  {
    DigitsAreTrimmed("2.5");
    var pos := "2.5";
    assert DotIndex(pos) == 1;
    assert pos[..1] == "2" && pos[2..] == "5";
  }

  /** "-0.75" reads as the number it spells. */
  lemma NegativeDecimalExample()
    ensures ParseDecimal("-0.75") == Some(-0.75)
  {
    DigitsAreTrimmed("-0.75");
    var neg := "0.75";
    assert DotIndex(neg) == 1;
    assert neg[..1] == "0" && neg[2..] == "75";
    assert FractionValue("75") == 0.75;
    assert ("-0.75")[1..] == neg;
  }

  /** Python `float(value)` on a decoded value: numbers and booleans
      convert, strings are parsed, anything else raises. */
  function ToFloat(j: Json): (r: Option<real>)
    ensures j.JReal? ==> r == Some(j.r)
    ensures j.JInt? ==> r == Some(j.i as real)
    ensures j.JStr? ==> r == ParseDecimal(j.s)
    ensures j.JNull? || j.JArr? || j.JObj? ==> r == None
  {
    match j
    case JBool(b) => Some(if b then 1.0 else 0.0)
    case JInt(i) => Some(i as real)
    case JReal(r) => Some(r)
    case JStr(s) => ParseDecimal(s)
    case _ => None
  }

  /** Python `int(value)` on a decoded value; a float truncates toward
      zero. */
  function ToInt(j: Json): (r: Option<int>)
    ensures j.JInt? ==> r == Some(j.i)
    ensures j.JStr? ==> r == ParseInt(j.s)
    ensures j.JReal? ==> r.Some? && (j.r >= 0.0 ==> r.value as real <= j.r < r.value as real + 1.0)
    ensures j.JNull? || j.JArr? || j.JObj? ==> r == None
  {
    match j
    case JBool(b) => Some(if b then 1 else 0)
    case JInt(i) => Some(i)
    case JReal(r) => Some(if r >= 0.0 then r.Floor else -((-r).Floor))
    case JStr(s) => ParseInt(s)
    case _ => None
  }

  /** Python `str(value)` for the kinds the fetchers print: strings as
      they are, `None`, booleans and integers; floats, lists and dicts
      render as a fixed placeholder. */
  function StrOf(j: Json): (s: string)
    ensures j.JStr? ==> s == j.s
  {
    match j
    case JStr(s) => s
    case JNull => "None"
    case JBool(b) => if b then "True" else "False"
    case JInt(i) => IntToString(i)
    case _ => "..."
  }

  // ---------------------------------------------------------------------
  // fetch_all

  /** What `fetch_all` stores for a source: its value, or the stand-in
      for `{"error": str(e)}`. */
  datatype Entry<T> = Fetched(value: T) | ErrorEntry(error: string)

  function EntryOf<T>(outcome: Result<T, string>): (e: Entry<T>)
    ensures outcome.Ok? <==> e.Fetched?
    ensures outcome.Ok? ==> e.value == outcome.value
    ensures outcome.Err? ==> e.error == outcome.error
  {
    match outcome
    case Ok(v) => Fetched(v)
    case Err(message) => ErrorEntry(message)
  }

  /** The dict after the loop: one entry per key, a later key overwriting
      an earlier equal one. */
  function Collected<T>(keys: seq<string>, outcomes: seq<Result<T, string>>): map<string, Entry<T>>
    requires |keys| == |outcomes|
  {
    if keys == [] then map[]
    else
      var n := |keys| - 1;
      Collected(keys[..n], outcomes[..n])[keys[n] := EntryOf(outcomes[n])]
  }

  /** Every key gets an entry; with distinct keys, each entry is that
      source's own value or error, whatever the other sources did. */
  lemma {:induction false} CollectedEntries<T>(keys: seq<string>, outcomes: seq<Result<T, string>>)
    requires |keys| == |outcomes|
    ensures Collected(keys, outcomes).Keys == set k | k in keys
    ensures (forall i, j :: 0 <= i < j < |keys| ==> keys[i] != keys[j]) ==>
      forall i :: 0 <= i < |keys| ==> Collected(keys, outcomes)[keys[i]] == EntryOf(outcomes[i])
  {
    CollectedKeys(keys, outcomes);
    if forall i, j :: 0 <= i < j < |keys| ==> keys[i] != keys[j] {
      CollectedValues(keys, outcomes);
    }
  }

  lemma {:induction false} CollectedKeys<T>(keys: seq<string>, outcomes: seq<Result<T, string>>)
    requires |keys| == |outcomes|
    ensures Collected(keys, outcomes).Keys == set k | k in keys
  {
    if keys != [] {
      var n := |keys| - 1;
      CollectedKeys(keys[..n], outcomes[..n]);
      assert keys == keys[..n] + [keys[n]];
      assert forall k :: k in keys <==> k in keys[..n] || k == keys[n];
    }
  }

  lemma {:induction false} CollectedValues<T>(keys: seq<string>, outcomes: seq<Result<T, string>>)
    requires |keys| == |outcomes|
    requires forall i, j :: 0 <= i < j < |keys| ==> keys[i] != keys[j]
    ensures forall i :: 0 <= i < |keys| ==>
      keys[i] in Collected(keys, outcomes) && Collected(keys, outcomes)[keys[i]] == EntryOf(outcomes[i])
  {
    if keys != [] {
      var n := |keys| - 1;
      CollectedValues(keys[..n], outcomes[..n]);
      forall i | 0 <= i < |keys|
        ensures keys[i] in Collected(keys, outcomes) && Collected(keys, outcomes)[keys[i]] == EntryOf(outcomes[i])
      {
        if i < n {
          assert keys[..n][i] == keys[i] && outcomes[..n][i] == outcomes[i];
          assert keys[i] != keys[n];
        }
      }
    }
  }

  const OkStatus: string := "\U{2705}"
  const WarnStatus: string := "\U{26A0}\U{FE0F} "

  /** The printed label: the key, title-cased with spaces, then padded with
      '.' to 30 characters (`{label:.<30s}`), never cut. */
  function Label(key: string): (r: string)
    ensures |r| == if |key| < 30 then 30 else |key|
    ensures r[..|key|] == TitleCase(ReplaceUnderscores(key), false)
    ensures forall i :: |key| <= i < |r| ==> r[i] == '.'
  {
    var t := TitleCase(ReplaceUnderscores(key), false);
    t + Repeat('.', 30 - |t|)
  }

  /** `_summary` of an error entry: the first 40 characters of the
      message in "unavailable (...)". */
  function ErrorSummary(message: string): (r: string)
    ensures r == "unavailable (" + Take(message, 40) + ")"
    ensures |r| <= 14 + 40
  {
    "unavailable (" + Take(message, 40) + ")"
  }

  /** The printed line for one source. How a fetched value is summarised
      depends on the source, so it is the `summarize` parameter. */
  function StatusLine<T>(key: string, e: Entry<T>, summarize: (string, T) -> string): (line: string)
    ensures e.ErrorEntry? ==> line == "  " + WarnStatus + " " + Label(key) + " " + ErrorSummary(e.error)
    ensures e.Fetched? ==> line == "  " + OkStatus + " " + Label(key) + " " + summarize(key, e.value)
  {
    var status := if e.Fetched? then OkStatus else WarnStatus;
    var val := if e.ErrorEntry? then ErrorSummary(e.error) else summarize(key, e.value);
    "  " + status + " " + Label(key) + " " + val
  }

  function StatusLines<T>(keys: seq<string>, outcomes: seq<Result<T, string>>, summarize: (string, T) -> string)
    : (lines: seq<string>)
    requires |keys| == |outcomes|
    ensures |lines| == |keys|
    decreases |keys|
  {
    if keys == [] then []
    else
      var n := |keys| - 1;
      StatusLines(keys[..n], outcomes[..n], summarize) + [StatusLine(keys[n], EntryOf(outcomes[n]), summarize)]
  }

  /** One status line per source, in source order, each for its own entry. */
  lemma {:induction false} StatusLinesEach<T>(keys: seq<string>, outcomes: seq<Result<T, string>>,
                                              summarize: (string, T) -> string)
    requires |keys| == |outcomes|
    ensures forall i :: 0 <= i < |keys| ==>
      StatusLines(keys, outcomes, summarize)[i] == StatusLine(keys[i], EntryOf(outcomes[i]), summarize)
    decreases |keys|
  {
    if keys != [] {
      var n := |keys| - 1;
      var init := StatusLines(keys[..n], outcomes[..n], summarize);
      var last := StatusLine(keys[n], EntryOf(outcomes[n]), summarize);
      assert StatusLines(keys, outcomes, summarize) == init + [last];
      StatusLinesEach(keys[..n], outcomes[..n], summarize);
      forall i | 0 <= i < n
        ensures StatusLines(keys, outcomes, summarize)[i] == StatusLine(keys[i], EntryOf(outcomes[i]), summarize)
      {
        assert keys[..n][i] == keys[i] && outcomes[..n][i] == outcomes[i];
        assert (init + [last])[i] == init[i];
      }
    }
  }

  /** One more source adds its line after those of the earlier ones. */
  lemma StatusLinesSnoc<T>(keys: seq<string>, outcomes: seq<Result<T, string>>, summarize: (string, T) -> string, i: nat)
    requires |keys| == |outcomes| && i < |keys|
    ensures StatusLines(keys[..i + 1], outcomes[..i + 1], summarize) ==
      StatusLines(keys[..i], outcomes[..i], summarize) + [StatusLine(keys[i], EntryOf(outcomes[i]), summarize)]
  {
    assert keys[..i + 1][..i] == keys[..i];
    assert outcomes[..i + 1][..i] == outcomes[..i];
  }

  /** `fetch_all`: each source in turn; a source that raises is recorded
      as an error entry and the loop goes on; one status line per source
      unless quiet. Each source's outcome is a parameter. */
  method FetchAll<T>(keys: seq<string>, outcomes: seq<Result<T, string>>, quiet: bool,
                     summarize: (string, T) -> string)
    returns (data: map<string, Entry<T>>, lines: seq<string>)
    requires |keys| == |outcomes|
    ensures data == Collected(keys, outcomes)
    ensures lines == if quiet then [] else StatusLines(keys, outcomes, summarize)
  {
    data := map[];
    lines := [];
    var i := 0;
    while i < |keys|
      invariant 0 <= i <= |keys|
      invariant data == Collected(keys[..i], outcomes[..i])
      invariant lines == if quiet then [] else StatusLines(keys[..i], outcomes[..i], summarize)
      decreases |keys| - i
    {
      var entry := EntryOf(outcomes[i]);
      data := data[keys[i] := entry];
      if !quiet {
        lines := lines + [StatusLine(keys[i], entry, summarize)];
      }
      CollectedSnoc(keys, outcomes, i);
      StatusLinesSnoc(keys, outcomes, summarize, i);
      i := i + 1;
    }
    assert keys[..i] == keys && outcomes[..i] == outcomes;
  }

  /** One more source adds its entry to the dict of the earlier ones. */
  lemma CollectedSnoc<T>(keys: seq<string>, outcomes: seq<Result<T, string>>, i: nat)
    requires |keys| == |outcomes| && i < |keys|
    ensures Collected(keys[..i + 1], outcomes[..i + 1]) == Collected(keys[..i], outcomes[..i])[keys[i] := EntryOf(outcomes[i])]
  {
    assert keys[..i + 1][..i] == keys[..i];
    assert outcomes[..i + 1][..i] == outcomes[..i];
  }

  // ---------------------------------------------------------------------
  // Endpoint fallback

  /** A reply that failed, or whose body `parse` does not accept. */
  predicate Unusable<T>(reply: Reply, parse: Json -> Option<T>) {
    reply.Err? || parse(reply.value).None?
  }

  /** Reply `k` is usable and every earlier one is not. */
  predicate FirstUsable<T>(replies: seq<Reply>, parse: Json -> Option<T>, k: int) {
    0 <= k < |replies| && !Unusable(replies[k], parse) &&
    forall i :: 0 <= i < k ==> Unusable(replies[i], parse)
  }

  /** The position of the first reply that arrived and that `parse`
      accepts. */
  function FirstParsedAt<T>(replies: seq<Reply>, parse: Json -> Option<T>): (k: Option<nat>)
    ensures k.Some? ==> k.value < |replies| && !Unusable(replies[k.value], parse)
    ensures k.Some? ==> forall i :: 0 <= i < k.value ==> Unusable(replies[i], parse)
    ensures k.None? <==> forall i :: 0 <= i < |replies| ==> Unusable(replies[i], parse)
  {
    if replies == [] then None
    else if !Unusable(replies[0], parse) then Some(0)
    else
      match FirstParsedAt(replies[1..], parse)
      case Some(k) => Some(k + 1)
      case None => None
  }

  /** The outcome of trying each endpoint in listed order: the first
      usable reply's reading, or `failure` once every endpoint failed. */
  function Fallback<T>(replies: seq<Reply>, parse: Json -> Option<T>, failure: string): Result<T, string> {
    match FirstParsedAt(replies, parse)
    case Some(k) => Ok(parse(replies[k].value).value)
    case None => Err(failure)
  }

  /** The fallback fails exactly when every endpoint failed, and otherwise
      returns what the earliest usable endpoint gave, later ones unused. */
  lemma FallbackOrder<T>(replies: seq<Reply>, parse: Json -> Option<T>, failure: string)
    ensures Fallback(replies, parse, failure) == Err(failure) <==>
      forall i :: 0 <= i < |replies| ==> Unusable(replies[i], parse)
    ensures forall k :: FirstUsable(replies, parse, k) ==>
      Fallback(replies, parse, failure) == Ok(parse(replies[k].value).value)
  {
    forall k | FirstUsable(replies, parse, k)
      ensures FirstParsedAt(replies, parse) == Some(k)
    {
      FirstParsedAtIs(replies, parse, k);
    }
  }

  lemma {:induction false} FirstParsedAtIs<T>(replies: seq<Reply>, parse: Json -> Option<T>, k: nat)
    requires FirstUsable(replies, parse, k)
    ensures FirstParsedAt(replies, parse) == Some(k)
  {
    if k > 0 {
      FirstParsedAtIs(replies[1..], parse, k - 1);
    }
  }

  /** The endpoint loop of `_fetch_uv` and `_fetch_drought`: a request
      that raises, or a body the parser does not accept, moves on to the
      next URL. */
  method TryEndpoints<T>(replies: seq<Reply>, parse: Json -> Option<T>, failure: string)
    returns (r: Result<T, string>)
    ensures r == Fallback(replies, parse, failure)
  {
    var i := 0;
    while i < |replies|
      invariant 0 <= i <= |replies|
      invariant forall j :: 0 <= j < i ==> Unusable(replies[j], parse)
      decreases |replies| - i
    {
      if replies[i].Ok? {
        var reading := parse(replies[i].value);
        if reading.Some? {
          FallbackOrder(replies, parse, failure);
          return Ok(reading.value);
        }
      }
      i := i + 1;
    }
    FallbackOrder(replies, parse, failure);
    r := Err(failure);
  }
}
