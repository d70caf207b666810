/** Custom vote scales and vote values (internal/services/vote_validator.go):
    a room's scale is typed as a comma-separated list, parsed into distinct,
    trimmed, individually validated values; a cast vote must then be one of
    the scale's values or one of the two special cards. */
module VoteValidator {
  import opened GoStrings
  import opened Results

  const MaxCustomValues: nat := 20
  const MaxValueLength: nat := 10

  const TemplateModifiedFibonacci: string := "modified-fibonacci"
  const TemplateFibonacci: string := "fibonacci"
  const TemplateTShirt: string := "t-shirt"

  const TemplateModifiedFibonacciValues: string := "0.5, 1, 2, 3, 5, 8, 13, 20, 40, 100"
  const TemplateFibonacciValues: string := "1, 2, 3, 5, 8, 13, 21"
  const TemplateTShirtValues: string := "XXS, XS, S, M, L, XL, XXL"

  /** Why a single value was refused, in the order the checks run. */
  datatype ValueError = EmptyValue | ValueTooLong | InvalidCharacters | ControlCharacters

  /** Why a comma-separated scale was refused. */
  datatype ParseError =
    | EmptyInput
    | InvalidValue(value: string, reason: ValueError)
    | DuplicateValue(value: string)
    | NoValidValues
    | TooFewValues(count: nat)
    | TooManyValues(count: nat)

  /** The character class `[a-zA-Z0-9.\-_ ]` of the value pattern. */
  predicate ValueChar(c: char) {
    ('a' <= c <= 'z') || ('A' <= c <= 'Z') || ('0' <= c <= '9') || c == '.' || c == '-' || c == '_' || c == ' '
  }

  predicate AllValueChars(v: string) {
    forall i :: 0 <= i < |v| ==> ValueChar(v[i])
  }

  /** `ValidateValue`: non-empty, at most ten bytes, and matching the value
      pattern; the trailing control-character test can never fire, because
      the pattern admits no control character. */
  function ValidateValue(v: string): (r: Outcome<ValueError>)
    ensures r == Pass <==> v != [] && Utf8Len(v) <= MaxValueLength && AllValueChars(v)
    ensures r == Fail(EmptyValue) <==> v == []
    ensures r == Fail(ValueTooLong) <==> v != [] && Utf8Len(v) > MaxValueLength
    ensures r != Fail(ControlCharacters)
  {
    if v == [] then Fail(EmptyValue)
    else if Utf8Len(v) > MaxValueLength then Fail(ValueTooLong)
    else if !AllValueChars(v) then Fail(InvalidCharacters)
    else if exists i :: 0 <= i < |v| && IsControl(v[i]) then Fail(ControlCharacters)
    else Pass
  }

  /** The values a list of comma-separated pieces offers, before any check:
      each piece trimmed, empty pieces dropped, order kept. */
  function Candidates(parts: seq<string>): (vs: seq<string>)
    ensures |vs| <= |parts|
  {
    if parts == [] then []
    else
      var v := TrimSpace(parts[0]);
      if v == [] then Candidates(parts[1..]) else [v] + Candidates(parts[1..])
  }

  /** Every candidate is non-empty and already trimmed. */
  lemma {:induction false} CandidatesTrimmed(parts: seq<string>)
    ensures forall i :: 0 <= i < |Candidates(parts)| ==>
      Candidates(parts)[i] != [] && TrimSpace(Candidates(parts)[i]) == Candidates(parts)[i]
  {
    if parts != [] {
      CandidatesTrimmed(parts[1..]);
      var v := TrimSpace(parts[0]);
      if v != [] {
        TrimSpaceIdempotent(parts[0]);
        var vs := Candidates(parts);
        assert vs == [v] + Candidates(parts[1..]);
        forall i | 0 <= i < |vs| ensures vs[i] != [] && TrimSpace(vs[i]) == vs[i] {
          if i > 0 {
            assert vs[i] == Candidates(parts[1..])[i - 1];
          }
        }
      }
    }
  }

  /** When no piece is blank, the candidates are the trimmed pieces. */
  lemma {:induction false} CandidatesNoBlank(parts: seq<string>)
    requires forall i :: 0 <= i < |parts| ==> TrimSpace(parts[i]) != []
    ensures |Candidates(parts)| == |parts|
    ensures forall i :: 0 <= i < |parts| ==> Candidates(parts)[i] == TrimSpace(parts[i])
  {
    if parts != [] {
      CandidatesNoBlank(parts[1..]);
      var c := Candidates(parts);
      assert c == [TrimSpace(parts[0])] + Candidates(parts[1..]);
      forall i | 0 <= i < |parts| ensures c[i] == TrimSpace(parts[i]) {
        if i > 0 {
          assert c[i] == Candidates(parts[1..])[i - 1];
          assert parts[1..][i - 1] == parts[i];
        }
      }
    }
  }

  /** No value occurs twice. */
  predicate Distinct(s: seq<string>) {
    forall i, j :: 0 <= i < j < |s| ==> s[i] != s[j]
  }

  /** The loop of `ParseCustomValues` over the pieces, as a function of the
      pieces still to visit and the values accepted so far. */
  function Scan(parts: seq<string>, acc: seq<string>): Result<seq<string>, ParseError>
  {
    if parts == [] then Ok(acc)
    else
      var value := TrimSpace(parts[0]);
      if value == [] then Scan(parts[1..], acc)
      else match ValidateValue(value)
        case Fail(e) => Err(InvalidValue(value, e))
        case Pass =>
          if value in acc then Err(DuplicateValue(value)) else Scan(parts[1..], acc + [value])
  }

  /** The count checks after the loop. */
  function CheckCount(values: seq<string>): Result<seq<string>, ParseError> {
    if |values| == 0 then Err(NoValidValues)
    else if |values| < 2 then Err(TooFewValues(|values|))
    else if |values| > MaxCustomValues then Err(TooManyValues(|values|))
    else Ok(values)
  }

  /** The pieces `ParseCustomValues` visits. */
  function Pieces(input: string): seq<string> {
    Split(TrimSpace(input), ',')
  }

  /** `ParseCustomValues` as a function of its input. */
  function Parse(input: string): Result<seq<string>, ParseError> {
    if input == [] then Err(EmptyInput)
    else match Scan(Pieces(input), [])
      case Err(e) => Err(e)
      case Ok(values) => CheckCount(values)
  }

  /** Every value passes `ValidateValue`. */
  predicate AllValid(vs: seq<string>) {
    forall i :: 0 <= i < |vs| ==> ValidateValue(vs[i]) == Pass
  }

  /** The scan succeeds exactly when every candidate is a valid value and no
      candidate repeats an earlier one, and it then yields the candidates
      appended to what was accepted before, in order. */
  lemma {:induction false} ScanSpec(parts: seq<string>, acc: seq<string>)
    requires Distinct(acc)
    ensures Scan(parts, acc).Ok? <==> AllValid(Candidates(parts)) && Distinct(acc + Candidates(parts))
    ensures Scan(parts, acc).Ok? ==> Scan(parts, acc).value == acc + Candidates(parts)
  {
    if parts == [] {
      assert acc + [] == acc;
    } else {
      var value := TrimSpace(parts[0]);
      var rest := Candidates(parts[1..]);
      if value == [] {
        ScanSpec(parts[1..], acc);
      } else {
        var c := Candidates(parts);
        assert c == [value] + rest;
        if ValidateValue(value) == Pass {
          AllValidCons(value, rest);
          DistinctCons(acc, value, rest);
          if value in acc {
            assert Scan(parts, acc) == Err(DuplicateValue(value));
          } else {
            assert Scan(parts, acc) == Scan(parts[1..], acc + [value]);
            ScanSpec(parts[1..], acc + [value]);
          }
        } else {
          assert c[0] == value;
        }
      }
    }
  }

  lemma AllValidCons(v: string, rest: seq<string>)
    requires ValidateValue(v) == Pass
    ensures AllValid([v] + rest) <==> AllValid(rest)
  {
    var c := [v] + rest;
    if AllValid(c) {
      forall i | 0 <= i < |rest| ensures ValidateValue(rest[i]) == Pass {
        assert rest[i] == c[i + 1];
      }
    }
  }

  lemma DistinctCons(acc: seq<string>, v: string, rest: seq<string>)
    requires Distinct(acc)
    ensures acc + ([v] + rest) == (acc + [v]) + rest
    ensures Distinct(acc + ([v] + rest)) <==> v !in acc && Distinct((acc + [v]) + rest)
    ensures v !in acc ==> Distinct(acc + [v])
  {
    var s := acc + ([v] + rest);
    assert s == (acc + [v]) + rest;
    if v in acc {
      var k :| 0 <= k < |acc| && acc[k] == v;
      assert s[k] == s[|acc|];
    }
  }

  /** What `ParseCustomValues` promises: it succeeds exactly when the input is
      non-empty, every trimmed non-empty piece is a valid value, no value is
      repeated and there are between 2 and 20 of them; it then returns those
      values in input order. Empty pieces are skipped. */
  lemma ParseSpec(input: string)
    ensures Parse(input).Ok? <==>
      input != []
      && AllValid(Candidates(Pieces(input)))
      && Distinct(Candidates(Pieces(input)))
      && 2 <= |Candidates(Pieces(input))| <= MaxCustomValues
    ensures Parse(input).Ok? ==> Parse(input).value == Candidates(Pieces(input))
  {
    if input != [] {
      ScanSpec(Pieces(input), []);
      assert [] + Candidates(Pieces(input)) == Candidates(Pieces(input));
    }
  }

  /** Every value `ParseCustomValues` returns is trimmed, non-empty, passes
      `ValidateValue`, and occurs once; there are 2 to 20 of them. */
  lemma ParsedValuesValid(input: string)
    requires Parse(input).Ok?
    ensures var vs := Parse(input).value;
      2 <= |vs| <= MaxCustomValues && Distinct(vs)
      && forall i :: 0 <= i < |vs| ==>
        vs[i] != [] && TrimSpace(vs[i]) == vs[i] && ValidateValue(vs[i]) == Pass
  {
    ParseSpec(input);
    CandidatesTrimmed(Pieces(input));
  }

  /** A repeated value is an error, whatever else the input holds. */
  lemma DuplicateRejected(input: string, i: nat, j: nat)
    requires i < j < |Candidates(Pieces(input))|
    requires Candidates(Pieces(input))[i] == Candidates(Pieces(input))[j]
    ensures Parse(input).Err?
  {
    ParseSpec(input);
  }

  /** `ParseCustomValues`: a loop over the pieces that accepts each trimmed,
      non-empty, valid, unseen value, then checks the count. */
  method ParseCustomValues(input: string) returns (r: Result<seq<string>, ParseError>)
    ensures r == Parse(input)
  {
    if input == [] {
      return Err(EmptyInput);
    }
    var parts := Split(TrimSpace(input), ',');
    assert parts == Pieces(input);
    var values: seq<string> := [];
    var seen: set<string> := {};
    var i := 0;
    while i < |parts|
      invariant 0 <= i <= |parts|
      invariant forall x :: x in seen <==> x in values
      invariant Scan(parts, []) == Scan(parts[i..], values)
    {
      var value := TrimSpace(parts[i]);
      assert parts[i..][1..] == parts[i + 1..];
      if value == [] {
        i := i + 1;
        continue;
      }
      var check := ValidateValue(value);
      if check.Fail? {
        assert Scan(parts[i..], values) == Err(InvalidValue(value, check.error));
        return Err(InvalidValue(value, check.error));
      }
      if value in seen {
        assert Scan(parts[i..], values) == Err(DuplicateValue(value));
        return Err(DuplicateValue(value));
      }
      seen := seen + {value};
      values := values + [value];
      i := i + 1;
    }
    assert Scan(parts, []) == Ok(values);
    r := CheckCount(values);
  }

  /** A scale written out as the template strings are: values from index
      `i` on, separated by a comma and a space. */
  function FormatFrom(vs: seq<string>, i: nat): string
    requires i < |vs|
    decreases |vs| - i
  {
    if i == |vs| - 1 then vs[i] else vs[i] + ", " + FormatFrom(vs, i + 1)
  }

  /** A value with white space at neither end. */
  predicate Trimmed(v: string) {
    v != [] && !IsSpace(v[0]) && !IsSpace(v[|v| - 1])
  }

  /** A valid value never holds the separator. */
  lemma ValidHasNoComma(v: string)
    requires ValidateValue(v) == Pass
    ensures ',' !in v
  {
  }

  /** A trimmed piece is its own candidate. */
  lemma CandidatesTrimmedHead(v: string, rest: seq<string>)
    requires Trimmed(v)
    ensures Candidates([v] + rest) == [v] + Candidates(rest)
  {
    TrimSpaceNoop(v);
    assert ([v] + rest)[1..] == rest;
  }

  /** A space in front of the text changes only the first piece, and not its
      trimming, so the candidates stay the same. */
  lemma CandidatesLeadingSpace(t: string)
    ensures Candidates(Split([' '] + t, ',')) == Candidates(Split(t, ','))
  {
    var rest := Split(t, ',');
    assert Split([' '] + t, ',') == [[' '] + rest[0]] + rest[1..] by {
      SplitLeading(' ', t, ',');
    }
    assert Candidates([[' '] + rest[0]] + rest[1..]) == Candidates([rest[0]] + rest[1..]) by {
      TrimSpaceSkipsSpace(' ', rest[0]);
      CandidatesHead([' '] + rest[0], rest[0], rest[1..]);
    }
    assert [rest[0]] + rest[1..] == rest;
  }

  /** Pieces with the same trimming have the same candidates. */
  lemma CandidatesHead(p: string, q: string, rest: seq<string>)
    requires TrimSpace(p) == TrimSpace(q)
    ensures Candidates([p] + rest) == Candidates([q] + rest)
  {
    assert ([p] + rest)[1..] == rest;
    assert ([q] + rest)[1..] == rest;
  }

  lemma FormatFromStep(vs: seq<string>, i: nat)
    requires i < |vs| - 1
    ensures FormatFrom(vs, i) == vs[i] + [','] + ([' '] + FormatFrom(vs, i + 1))
  {
  }

  /** Splitting the written-out scale and trimming the pieces gives the
      values back. */
  lemma {:induction false} CandidatesFormat(vs: seq<string>, i: nat)
    requires i < |vs|
    requires forall k :: 0 <= k < |vs| ==> Trimmed(vs[k]) && ',' !in vs[k]
    ensures Candidates(Split(FormatFrom(vs, i), ',')) == vs[i..]
    decreases |vs| - i
  {
    if i == |vs| - 1 {
      assert Split(FormatFrom(vs, i), ',') == [vs[i]] by {
        SplitNoSep(vs[i], ',');
      }
      assert Candidates([vs[i]] + []) == [vs[i]] + Candidates([]) by {
        CandidatesTrimmedHead(vs[i], []);
      }
      assert vs[i..] == [vs[i]];
    } else {
      var tail := FormatFrom(vs, i + 1);
      var pieces := Split([' '] + tail, ',');
      assert Split(FormatFrom(vs, i), ',') == [vs[i]] + pieces by {
        FormatFromStep(vs, i);
        SplitCons(vs[i], [' '] + tail, ',');
      }
      assert Candidates([vs[i]] + pieces) == [vs[i]] + Candidates(pieces) by {
        CandidatesTrimmedHead(vs[i], pieces);
      }
      assert Candidates(pieces) == vs[i + 1..] by {
        CandidatesLeadingSpace(tail);
        CandidatesFormat(vs, i + 1);
      }
      assert [vs[i]] + vs[i + 1..] == vs[i..];
    }
  }

  /** The written-out form of the values from `i` on starts with the first
      character of `vs[i]` and ends with the last character of the last value. */
  lemma {:induction false} FormatEnds(vs: seq<string>, i: nat)
    requires i < |vs| && forall k :: 0 <= k < |vs| ==> vs[k] != []
    ensures |FormatFrom(vs, i)| > 0
    ensures FormatFrom(vs, i)[0] == vs[i][0]
    ensures FormatFrom(vs, i)[|FormatFrom(vs, i)| - 1] == vs[|vs| - 1][|vs[|vs| - 1]| - 1]
    decreases |vs| - i
  {
    if i < |vs| - 1 {
      FormatEnds(vs, i + 1);
    }
  }

  /** Round trip: any scale of 2 to 20 distinct valid values, written out as
      the templates are, parses back to exactly that scale. */
  lemma ParseFormat(vs: seq<string>)
    requires 2 <= |vs| <= MaxCustomValues
    requires AllValid(vs) && Distinct(vs)
    requires forall i :: 0 <= i < |vs| ==> Trimmed(vs[i])
    ensures Parse(FormatFrom(vs, 0)) == Ok(vs)
  {
    var f := FormatFrom(vs, 0);
    assert f != [] && TrimSpace(f) == f by {
      FormatEnds(vs, 0);
      TrimSpaceNoop(f);
    }
    assert Candidates(Pieces(f)) == vs by {
      forall i | 0 <= i < |vs| ensures ',' !in vs[i] {
        ValidHasNoComma(vs[i]);
      }
      CandidatesFormat(vs, 0);
      assert vs[0..] == vs;
    }
    ParseSpec(f);
  }

  /** The value lists the three templates stand for. */
  const FibonacciScale: seq<string> := ["1", "2", "3", "5", "8", "13", "21"]
  const ModifiedFibonacciScale: seq<string> := ["0.5", "1", "2", "3", "5", "8", "13", "20", "40", "100"]
  const TShirtScale: seq<string> := ["XXS", "XS", "S", "M", "L", "XL", "XXL"]

  /** A short value of digits, capitals and dots, as every template value is. */
  predicate PlainValue(v: string) {
    1 <= |v| <= MaxValueLength
    && forall i :: 0 <= i < |v| ==> ('0' <= v[i] <= '9') || ('A' <= v[i] <= 'Z') || v[i] == '.'
  }

  /** A plain value is valid and trimmed. */
  lemma PlainValueOk(v: string)
    requires PlainValue(v)
    ensures ValidateValue(v) == Pass && Trimmed(v)
  {
    assert Utf8Len(v) == |v| by {
      Utf8LenAscii(v);
    }
  }

  /** A list of distinct plain values meets the requirements of the round
      trip `ParseFormat`. */
  lemma PlainScale(vs: seq<string>)
    requires forall i :: 0 <= i < |vs| ==> PlainValue(vs[i])
    ensures AllValid(vs) && forall i :: 0 <= i < |vs| ==> Trimmed(vs[i])
  {
    forall i | 0 <= i < |vs| ensures ValidateValue(vs[i]) == Pass && Trimmed(vs[i]) {
      PlainValueOk(vs[i]);
    }
  }

  lemma FibonacciWrittenOut()
    ensures TemplateFibonacciValues == FormatFrom(FibonacciScale, 0)
  {
  }

  lemma FibonacciParses()
    ensures Parse(TemplateFibonacciValues) == Ok(FibonacciScale)
  {
    FibonacciWrittenOut();
    assert Distinct(FibonacciScale);
    assert forall i :: 0 <= i < |FibonacciScale| ==> PlainValue(FibonacciScale[i]);
    PlainScale(FibonacciScale);
    ParseFormat(FibonacciScale);
  }

  /** The last five values of the modified Fibonacci scale, written out. */
  lemma ModifiedFibonacciTail()
    ensures FormatFrom(ModifiedFibonacciScale, 5) == "8, 13, 20, 40, 100"
  {
  }

  /** The first five values of the modified Fibonacci scale, written out. */
  lemma ModifiedFibonacciHead()
    ensures FormatFrom(ModifiedFibonacciScale, 0) == "0.5, 1, 2, 3, 5, " + FormatFrom(ModifiedFibonacciScale, 5)
  {
  }

  lemma ModifiedFibonacciWrittenOut()
    ensures TemplateModifiedFibonacciValues == FormatFrom(ModifiedFibonacciScale, 0)
  {
    var head, tail := "0.5, 1, 2, 3, 5, ", "8, 13, 20, 40, 100";
    assert TemplateModifiedFibonacciValues == head + tail;
    ModifiedFibonacciHead();
    ModifiedFibonacciTail();
  }

  lemma ModifiedFibonacciParses()
    ensures Parse(TemplateModifiedFibonacciValues) == Ok(ModifiedFibonacciScale)
  {
    ModifiedFibonacciWrittenOut();
    assert Distinct(ModifiedFibonacciScale);
    assert forall i :: 0 <= i < |ModifiedFibonacciScale| ==> PlainValue(ModifiedFibonacciScale[i]);
    PlainScale(ModifiedFibonacciScale);
    ParseFormat(ModifiedFibonacciScale);
  }

  lemma TShirtWrittenOut()
    ensures TemplateTShirtValues == FormatFrom(TShirtScale, 0)
  {
  }

  lemma TShirtParses()
    ensures Parse(TemplateTShirtValues) == Ok(TShirtScale)
  {
    TShirtWrittenOut();
    assert Distinct(TShirtScale);
    assert forall i :: 0 <= i < |TShirtScale| ==> PlainValue(TShirtScale[i]);
    PlainScale(TShirtScale);
    ParseFormat(TShirtScale);
  }

  /** The getters' `values, _ := ParseCustomValues(...)`: the parsed list, or
      nil (the empty list) when parsing fails. */
  function ParsedOrEmpty(input: string): seq<string> {
    match Parse(input)
    case Ok(vs) => vs
    case Err(_) => []
  }

  function GetFibonacciValues(): (vs: seq<string>)
    ensures vs == FibonacciScale
  {
    FibonacciParses();
    ParsedOrEmpty(TemplateFibonacciValues)
  }

  function GetModifiedFibonacciValues(): (vs: seq<string>)
    ensures vs == ModifiedFibonacciScale
  {
    ModifiedFibonacciParses();
    ParsedOrEmpty(TemplateModifiedFibonacciValues)
  }

  function GetTShirtValues(): (vs: seq<string>)
    ensures vs == TShirtScale
  {
    TShirtParses();
    ParsedOrEmpty(TemplateTShirtValues)
  }

  predicate IsTemplate(name: string) {
    name == TemplateFibonacci || name == TemplateModifiedFibonacci || name == TemplateTShirt
  }

  /** The form string of a template; `""` for an unknown name. */
  function GetTemplateValuesString(name: string): (s: string)
    ensures s == [] <==> !IsTemplate(name)
    ensures name == TemplateFibonacci ==> s == TemplateFibonacciValues
    ensures name == TemplateModifiedFibonacci ==> s == TemplateModifiedFibonacciValues
    ensures name == TemplateTShirt ==> s == TemplateTShirtValues
  {
    if name == TemplateFibonacci then TemplateFibonacciValues
    else if name == TemplateModifiedFibonacci then TemplateModifiedFibonacciValues
    else if name == TemplateTShirt then TemplateTShirtValues
    else ""
  }

  datatype TemplateError = UnknownTemplate(name: string)

  /** The value list of a template: exactly what its form string parses to,
      a valid scale; an unknown name is an error. */
  function GetPresetTemplate(name: string): (r: Result<seq<string>, TemplateError>)
    ensures r.Err? <==> !IsTemplate(name)
    ensures r.Err? ==> r.error == UnknownTemplate(name)
    ensures r.Ok? ==> Parse(GetTemplateValuesString(name)) == Ok(r.value)
  {
    FibonacciParses();
    ModifiedFibonacciParses();
    TShirtParses();
    if name == TemplateFibonacci then Ok(GetFibonacciValues())
    else if name == TemplateModifiedFibonacci then Ok(GetModifiedFibonacciValues())
    else if name == TemplateTShirt then Ok(GetTShirtValues())
    else Err(UnknownTemplate(name))
  }

  datatype TemplateInfo = TemplateInfo(id: string, name: string, description: string, values: string)

  /** A template's description: its display name with its values in brackets. */
  function Describe(name: string, values: string): string {
    name + " (" + values + ")"
  }

  /** The three templates offered to the room form: distinct known ids, each
      with its form string and a description of the form "Name (values)". */
  function GetAvailableTemplates(): (ts: seq<TemplateInfo>)
    ensures |ts| == 3
    ensures forall i, j :: 0 <= i < j < |ts| ==> ts[i].id != ts[j].id
    ensures forall i :: 0 <= i < |ts| ==>
      IsTemplate(ts[i].id)
      && ts[i].values == GetTemplateValuesString(ts[i].id)
      && ts[i].description == Describe(ts[i].name, ts[i].values)
  {
    [
      TemplateInfo(TemplateModifiedFibonacci, "Modified Fibonacci",
        Describe("Modified Fibonacci", TemplateModifiedFibonacciValues), TemplateModifiedFibonacciValues),
      TemplateInfo(TemplateFibonacci, "Fibonacci",
        Describe("Fibonacci", TemplateFibonacciValues), TemplateFibonacciValues),
      TemplateInfo(TemplateTShirt, "T-Shirt Sizes",
        Describe("T-Shirt Sizes", TemplateTShirtValues), TemplateTShirtValues)
    ]
  }

  /** The two cards every pointing method accepts. */
  predicate IsSpecialCard(value: string) {
    value == "?" || value == "\U{2615}"
  }

  /** The special cards get through `ValidateVoteValue` although neither is a
      value a custom scale could hold. */
  lemma SpecialCardsAreNotScaleValues()
    ensures ValidateValue("?") == Fail(InvalidCharacters)
    ensures ValidateValue("\U{2615}") == Fail(InvalidCharacters)
  {
  }

  datatype VoteError =
    | EmptyVote
    | InvalidFibonacciValue(value: string)
    | NoCustomValues
    | InvalidCustomValue(value: string)
    | UnknownPointingMethod(pointingMethod: string)

  /** The `for ... range` search of `ValidateVoteValue`: whether `value`
      is one of `values`. */
  method Find(values: seq<string>, value: string) returns (found: bool)
    ensures found <==> value in values
  {
    var k := 0;
    while k < |values|
      invariant 0 <= k <= |values|
      invariant value !in values[..k]
    {
      if value == values[k] {
        return true;
      }
      assert values[..k + 1] == values[..k] + [values[k]];
      k := k + 1;
    }
    assert values[..k] == values;
    return false;
  }

  /** `ValidateVoteValue`: the empty vote is refused and a special card is
      accepted whatever the method; otherwise "fibonacci" accepts exactly
      its seven values, "custom" exactly the room's values (none configured
      is an error) and any other method is an error. */
  method ValidateVoteValue(value: string, pointingMethod: string, customValues: seq<string>)
    returns (r: Outcome<VoteError>)
    ensures value == [] ==> r == Fail(EmptyVote)
    ensures value != [] && IsSpecialCard(value) ==> r == Pass
    ensures value != [] && !IsSpecialCard(value) && pointingMethod == "fibonacci" ==>
      r == if value in GetFibonacciValues() then Pass else Fail(InvalidFibonacciValue(value))
    ensures value != [] && !IsSpecialCard(value) && pointingMethod == "custom" ==>
      r == if customValues == [] then Fail(NoCustomValues)
           else if value in customValues then Pass
           else Fail(InvalidCustomValue(value))
    ensures value != [] && !IsSpecialCard(value) && pointingMethod != "fibonacci" && pointingMethod != "custom" ==>
      r == Fail(UnknownPointingMethod(pointingMethod))
  {
    if value == [] {
      return Fail(EmptyVote);
    }
    if IsSpecialCard(value) {
      return Pass;
    }
    if pointingMethod == "fibonacci" {
      var found := Find(GetFibonacciValues(), value);
      return if found then Pass else Fail(InvalidFibonacciValue(value));
    } else if pointingMethod == "custom" {
      if |customValues| == 0 {
        return Fail(NoCustomValues);
      }
      var found := Find(customValues, value);
      return if found then Pass else Fail(InvalidCustomValue(value));
    } else {
      return Fail(UnknownPointingMethod(pointingMethod));
    }
  }
}
