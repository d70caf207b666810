/** Input checks of internal/security/validators.go: names (trimmed, bounded
    in bytes, restricted to letters, digits and a few punctuation marks),
    record ids (PocketBase ids or UUIDs) and the sanitising of error
    messages before they reach a client. */
module Validators {
  import opened GoStrings
  import opened Results

  const MaxRoomNameLength: int := 100
  const MaxParticipantNameLength: int := 50
  const MinNameLength: int := 1

  /** The Unicode classes `\p{L}` (letters) and `\p{N}` (numbers) of the
      name pattern. The Unicode tables are not part of this model, so the
      two classes are parameters and every property below holds whatever
      they contain. */
  datatype UnicodeClasses = UnicodeClasses(isLetter: char -> bool, isNumber: char -> bool)

  /** `\s` inside a Go (RE2) character class: the ASCII white space
      `[\t\n\f\r ]`, without the vertical tab. */
  predicate PerlSpace(c: char) {
    c == '\t' || c == '\n' || c == '\U{000C}' || c == '\r' || c == ' '
  }

  /** The class `[\p{L}\p{N}\s'\-_.]` of the name pattern. */
  predicate NameChar(u: UnicodeClasses, c: char) {
    u.isLetter(c) || u.isNumber(c) || PerlSpace(c) || c == '\'' || c == '-' || c == '_' || c == '.'
  }

  /** The class of the injection pattern: ``< > { } [ ] \ ; | & $ ( ) ` ``. */
  predicate Dangerous(c: char) {
    c == '<' || c == '>' || c == '{' || c == '}' || c == '[' || c == ']' || c == '\\'
    || c == ';' || c == '|' || c == '&' || c == '$' || c == '(' || c == ')' || c == '`'
  }

  /** Why a name was refused, in the order the checks run. */
  datatype NameError =
    | EmptyName
    | NameTooShort
    | NameTooLong
    | InvalidNameCharacters
    | DangerousCharacters
    | ControlCharacters

  /** What an accepted name is: between 1 and `maxLen` bytes, of name
      characters only, with no dangerous and no control character. */
  predicate AcceptableName(u: UnicodeClasses, t: string, maxLen: int) {
    t != [] && Utf8Len(t) <= maxLen
    && (forall i :: 0 <= i < |t| ==> NameChar(u, t[i]))
    && (forall i :: 0 <= i < |t| ==> !Dangerous(t[i]) && !IsControl(t[i]))
  }

  /** `ValidateName`: the trimmed name when it is acceptable, otherwise the
      first check that refused it. */
  function ValidateName(u: UnicodeClasses, name: string, maxLen: int): (r: Result<string, NameError>)
    ensures r.Ok? <==> AcceptableName(u, TrimSpace(name), maxLen)
    ensures r.Ok? ==> r.value == TrimSpace(name) && MinNameLength <= Utf8Len(r.value) <= maxLen
    ensures r == Err(EmptyName) <==> forall i :: 0 <= i < |name| ==> IsSpace(name[i])
    ensures r == Err(NameTooLong) <==> TrimSpace(name) != [] && Utf8Len(TrimSpace(name)) > maxLen
    ensures r != Err(NameTooShort)
  {
    TrimSpaceInfix(name);
    var t := TrimSpace(name);
    if t == [] then Err(EmptyName)
    else if Utf8Len(t) < MinNameLength then Err(NameTooShort)
    else if Utf8Len(t) > maxLen then Err(NameTooLong)
    else if !(forall i :: 0 <= i < |t| ==> NameChar(u, t[i])) then Err(InvalidNameCharacters)
    else if exists i :: 0 <= i < |t| && Dangerous(t[i]) then Err(DangerousCharacters)
    else if exists i :: 0 <= i < |t| && IsControl(t[i]) then Err(ControlCharacters)
    else Ok(t)
  }

  /** A valid name validates to itself: validation is idempotent. */
  lemma ValidateNameIdempotent(u: UnicodeClasses, name: string, maxLen: int)
    requires ValidateName(u, name, maxLen).Ok?
    ensures ValidateName(u, ValidateName(u, name, maxLen).value, maxLen) == ValidateName(u, name, maxLen)
  {
    TrimSpaceIdempotent(name);
  }

  /** White space around a name never changes the verdict. */
  lemma ValidateNameIgnoresPadding(u: UnicodeClasses, name: string, maxLen: int)
    ensures ValidateName(u, TrimSpace(name), maxLen) == ValidateName(u, name, maxLen)
  {
    TrimSpaceIdempotent(name);
  }

  /** A line break inside a name gets past the character class (it is white
      space) but is refused as a control character. */
  lemma InnerLineBreakRejected(u: UnicodeClasses, a: char, b: char, maxLen: int)
    requires NameChar(u, a) && NameChar(u, b) && !IsSpace(a) && !IsSpace(b)
    requires !Dangerous(a) && !Dangerous(b) && !IsControl(a) && !IsControl(b)
    requires maxLen >= 12
    ensures ValidateName(u, [a, '\n', b], maxLen) == Err(ControlCharacters)
  {
    assert TrimSpace([a, '\n', b]) == [a, '\n', b] by {
      TrimSpaceNoop([a, '\n', b]);
    }
    assert Utf8Len([a, '\n', b]) <= 12;
    assert IsControl([a, '\n', b][1]);
  }

  /** `ValidateRoomName`: a name of at most 100 bytes. */
  function ValidateRoomName(u: UnicodeClasses, name: string): (r: Result<string, NameError>)
    ensures r.Ok? <==> AcceptableName(u, TrimSpace(name), MaxRoomNameLength)
    ensures r.Ok? ==> r.value == TrimSpace(name) && 1 <= Utf8Len(r.value) <= 100
  {
    ValidateName(u, name, MaxRoomNameLength)
  }

  /** `ValidateParticipantName`: a name of at most 50 bytes. */
  function ValidateParticipantName(u: UnicodeClasses, name: string): (r: Result<string, NameError>)
    ensures r.Ok? <==> AcceptableName(u, TrimSpace(name), MaxParticipantNameLength)
    ensures r.Ok? ==> r.value == TrimSpace(name) && 1 <= Utf8Len(r.value) <= 50
  {
    ValidateName(u, name, MaxParticipantNameLength)
  }

  /** A participant name is also a valid room name. */
  lemma ParticipantNameIsRoomName(u: UnicodeClasses, name: string)
    requires ValidateParticipantName(u, name).Ok?
    ensures ValidateRoomName(u, name) == ValidateParticipantName(u, name)
  {
  }

  predicate AsciiAlnum(c: char) {
    ('a' <= c <= 'z') || ('A' <= c <= 'Z') || ('0' <= c <= '9')
  }

  predicate LowerHex(c: char) {
    ('0' <= c <= '9') || ('a' <= c <= 'f')
  }

  predicate Hex(c: char) {
    LowerHex(c) || ('A' <= c <= 'F')
  }

  /** The dash positions of the 8-4-4-4-12 form. */
  predicate DashAt(i: int) {
    i == 8 || i == 13 || i == 18 || i == 23
  }

  /** `^[a-zA-Z0-9]{15}$`: a PocketBase record id. */
  predicate PocketBaseId(id: string) {
    |id| == 15 && forall i :: 0 <= i < |id| ==> AsciiAlnum(id[i])
  }

  /** `^[0-9a-f]{8}-[0-9a-f]{4}-[0-9a-f]{4}-[0-9a-f]{4}-[0-9a-f]{12}$`. */
  predicate LowerUuid(s: string) {
    |s| == 36 && forall i :: 0 <= i < 36 ==> if DashAt(i) then s[i] == '-' else LowerHex(s[i])
  }

  /** The 36-character form that `uuid.Parse` of github.com/google/uuid
      accepts: dashes in place and hex digits of either case elsewhere. */
  predicate CanonicalUuid(s: string) {
    |s| == 36 && forall i :: 0 <= i < 36 ==> if DashAt(i) then s[i] == '-' else Hex(s[i])
  }

  /** Matching the lower-case pattern after `strings.ToLower` is the same as
      having the UUID form in either case. */
  lemma UuidCaseInsensitive(id: string)
    ensures LowerUuid(ToLower(id)) <==> CanonicalUuid(id)
  {
    if |id| == 36 {
      forall i | 0 <= i < 36
        ensures (if DashAt(i) then ToLower(id)[i] == '-' else LowerHex(ToLower(id)[i]))
            <==> (if DashAt(i) then id[i] == '-' else Hex(id[i]))
      {
        assert ToLower(id)[i] == LowerRune(id[i]);
      }
    }
  }

  datatype IdError = EmptyId | MalformedUuid | InvalidIdFormat

  /** `ValidateUUID`: an id is accepted exactly when it is a PocketBase id or
      a UUID in either case. The malformed-UUID branch is kept but cannot be
      taken, because `uuid.Parse` accepts every string the pattern let
      through. */
  function ValidateUUID(id: string): (r: Outcome<IdError>)
    ensures r == Pass <==> PocketBaseId(id) || CanonicalUuid(id)
    ensures r == Fail(EmptyId) <==> id == []
    ensures r != Fail(MalformedUuid)
    ensures r == Pass ==> Utf8Len(id) == |id| && (|id| == 15 || |id| == 36)
  {
    UuidCaseInsensitive(id);
    assert PocketBaseId(id) || CanonicalUuid(id) ==> Utf8Len(id) == |id| by {
      Utf8LenAscii(id);
    }
    if id == [] then Fail(EmptyId)
    else if PocketBaseId(id) then Pass
    else if LowerUuid(ToLower(id)) then
      if !CanonicalUuid(id) then Fail(MalformedUuid) else Pass
    else Fail(InvalidIdFormat)
  }

  /** The substrings that mark an error text as internal. */
  const SensitivePatterns: seq<string> := [
    "sql", "database", "record", "collection", "pocketbase",
    "constraint", "foreign key", "unique", "duplicate key", "no rows"
  ]

  const GenericErrorMessage: string := "An error occurred while processing your request"

  /** A message is sensitive when, lower-cased, it contains one of the
      patterns. */
  predicate Sensitive(msg: string) {
    exists k :: 0 <= k < |SensitivePatterns| && Contains(ToLower(msg), SensitivePatterns[k])
  }

  /** The `for ... range sensitivePatterns` scan from index `k` on. */
  function MatchesFrom(s: string, k: nat): (b: bool)
    requires k <= |SensitivePatterns|
    ensures b <==> exists j :: k <= j < |SensitivePatterns| && Contains(s, SensitivePatterns[j])
    decreases |SensitivePatterns| - k
  {
    if k == |SensitivePatterns| then false
    else Contains(s, SensitivePatterns[k]) || MatchesFrom(s, k + 1)
  }

  /** `SanitizeErrorMessage`: no error gives the empty text, a sensitive
      message the generic text, any other message itself. */
  function SanitizeErrorMessage(err: Option<string>): (r: string)
    ensures err.None? ==> r == []
    ensures err.Some? && Sensitive(err.value) ==> r == GenericErrorMessage
    ensures err.Some? && !Sensitive(err.value) ==> r == err.value
  {
    match err
    case None => ""
    case Some(msg) => if MatchesFrom(ToLower(msg), 0) then GenericErrorMessage else msg
  }

  /** Case never matters: a message and its lower-case form are sanitised
      alike. */
  lemma SanitizeCaseInsensitive(msg: string)
    ensures Sensitive(ToLower(msg)) <==> Sensitive(msg)
  {
    ToLowerIdempotent(msg);
  }
}
