/** Room permissions and settings (internal/models/room_config.go), and how
    a stored configuration is read back: the record's JSON `config` field is
    decoded as Go's encoding/json decodes it into a `RoomConfig`, and a
    missing or undecodable configuration falls back to the defaults. */
module RoomConfigs {
  import opened Results

  datatype RoomPermissions = RoomPermissions(
    allowAllNewRound: bool,
    allowAllReset: bool,
    allowAllReveal: bool,
    allowChangeVoteAfterReveal: bool,
    autoReveal: bool)

  datatype RoomConfig = RoomConfig(permissions: RoomPermissions)

  /** `DefaultRoomConfig`: everybody may start a new round, reset and reveal;
      votes lock at reveal; no automatic reveal. */
  function DefaultRoomConfig(): (c: RoomConfig)
    ensures c.permissions.allowAllNewRound && c.permissions.allowAllReset && c.permissions.allowAllReveal
    ensures !c.permissions.allowChangeVoteAfterReveal && !c.permissions.autoReveal
  {
    RoomConfig(RoomPermissions(true, true, true, false, false))
  }

  /** The zero value of the struct: every flag false. */
  const ZeroConfig: RoomConfig := RoomConfig(RoomPermissions(false, false, false, false, false))

  /** A decoded JSON document: booleans, strings, null, objects as their
      member list in document order, and any other value (number, array). */
  datatype Json = JBool(b: bool) | JString(s: string) | JNull | JObject(members: seq<(string, Json)>) | JOther

  /** The configuration as the room record holds it: absent (the field reads
      as ""), text that is not JSON, or a JSON document. */
  datatype StoredConfig = NoConfig | Malformed | Document(doc: Json)

  /** The case folding of encoding/json's key matching, for the runes that
      fold onto the lower-case ASCII letters and `_` of the field names. */
  function FoldRune(c: char): char {
    if 'A' <= c <= 'Z' then (c as int + 32) as char
    else if c == '\U{017F}' then 's'
    else if c == '\U{212A}' then 'k'
    else c
  }

  /** A JSON key selects the field tagged `name` (lower-case ASCII and `_`)
      when it is that name exactly or equal to it up to case folding. */
  predicate KeyMatches(key: string, name: string) {
    key == name || (|key| == |name| && forall i :: 0 <= i < |key| ==> FoldRune(key[i]) == name[i])
  }

  const KeyPermissions: string := "permissions"
  const KeyNewRound: string := "allow_all_new_round"
  const KeyReset: string := "allow_all_reset"
  const KeyReveal: string := "allow_all_reveal"
  const KeyChangeVote: string := "allow_change_vote_after_reveal"
  const KeyAutoReveal: string := "auto_reveal"

  /** One boolean field: `null` leaves it as it is, a boolean sets it, any
      other value is a type error. */
  function DecodeFlag(current: bool, v: Json): Option<bool> {
    match v
    case JBool(b) => Some(b)
    case JNull => Some(current)
    case _ => None
  }

  /** One member of a `permissions` object applied onto `p`: the field its
      key selects is decoded, an unknown key is ignored. `None` is a type
      error. */
  function ApplyPermission(p: RoomPermissions, key: string, v: Json): Option<RoomPermissions> {
    if KeyMatches(key, KeyNewRound) then
      (match DecodeFlag(p.allowAllNewRound, v) case Some(b) => Some(p.(allowAllNewRound := b)) case None => None)
    else if KeyMatches(key, KeyReset) then
      (match DecodeFlag(p.allowAllReset, v) case Some(b) => Some(p.(allowAllReset := b)) case None => None)
    else if KeyMatches(key, KeyReveal) then
      (match DecodeFlag(p.allowAllReveal, v) case Some(b) => Some(p.(allowAllReveal := b)) case None => None)
    else if KeyMatches(key, KeyChangeVote) then
      (match DecodeFlag(p.allowChangeVoteAfterReveal, v) case Some(b) => Some(p.(allowChangeVoteAfterReveal := b)) case None => None)
    else if KeyMatches(key, KeyAutoReveal) then
      (match DecodeFlag(p.autoReveal, v) case Some(b) => Some(p.(autoReveal := b)) case None => None)
    else Some(p)
  }

  /** The members of a `permissions` object applied in order onto `p`. */
  function DecodePermissions(p: RoomPermissions, members: seq<(string, Json)>): Option<RoomPermissions>
    decreases members
  {
    if members == [] then Some(p)
    else match ApplyPermission(p, members[0].0, members[0].1)
      case None => None
      case Some(p') => DecodePermissions(p', members[1..])
  }

  /** The members of the top-level object applied in order onto `c`; a
      `permissions` object is merged into the permissions decoded so far. */
  function DecodeMembers(c: RoomConfig, members: seq<(string, Json)>): Option<RoomConfig>
    decreases members
  {
    if members == [] then Some(c)
    else
      var (key, v) := members[0];
      var next :=
        if !KeyMatches(key, KeyPermissions) then Some(c)
        else match v
          case JNull => Some(c)
          case JObject(m) =>
            (match DecodePermissions(c.permissions, m) case Some(p) => Some(RoomConfig(p)) case None => None)
          case _ => None;
      match next
      case None => None
      case Some(c') => DecodeMembers(c', members[1..])
  }

  /** `json.Unmarshal` into a fresh `RoomConfig`: `null` leaves the zero
      value, an object is decoded member by member, anything else is a type
      error. */
  function Decode(doc: Json): Option<RoomConfig> {
    match doc
    case JNull => Some(ZeroConfig)
    case JObject(m) => DecodeMembers(ZeroConfig, m)
    case _ => None
  }

  /** `json.Marshal` of a `RoomConfig`: both objects with their tagged
      fields in declaration order. */
  function Encode(c: RoomConfig): Json {
    var p := c.permissions;
    JObject([(KeyPermissions, JObject([
      (KeyNewRound, JBool(p.allowAllNewRound)),
      (KeyReset, JBool(p.allowAllReset)),
      (KeyReveal, JBool(p.allowAllReveal)),
      (KeyChangeVote, JBool(p.allowChangeVoteAfterReveal)),
      (KeyAutoReveal, JBool(p.autoReveal))]))])
  }

  /** The configuration a room works with (`GetRoomConfig` and
      `recordToRoom`): the decoded document, or the defaults when nothing is
      stored or decoding fails. */
  function EffectiveConfig(stored: StoredConfig): (c: RoomConfig)
    ensures stored.NoConfig? || stored.Malformed? ==> c == DefaultRoomConfig()
    ensures stored.Document? && Decode(stored.doc).Some? ==> c == Decode(stored.doc).value
    ensures stored.Document? && Decode(stored.doc).None? ==> c == DefaultRoomConfig()
  {
    match stored
    case Document(doc) => (match Decode(doc) case Some(c) => c case None => DefaultRoomConfig())
    case _ => DefaultRoomConfig()
  }

  /** The members `Encode` writes for the permissions `p`. */
  function PermissionMembers(p: RoomPermissions): seq<(string, Json)> {
    [ (KeyNewRound, JBool(p.allowAllNewRound)),
      (KeyReset, JBool(p.allowAllReset)),
      (KeyReveal, JBool(p.allowAllReveal)),
      (KeyChangeVote, JBool(p.allowChangeVoteAfterReveal)),
      (KeyAutoReveal, JBool(p.autoReveal)) ]
  }

  /** Each written member sets its own flag. */
  lemma ApplyOwnMember(q: RoomPermissions, b: bool)
    ensures ApplyPermission(q, KeyNewRound, JBool(b)) == Some(q.(allowAllNewRound := b))
    ensures ApplyPermission(q, KeyReset, JBool(b)) == Some(q.(allowAllReset := b))
    ensures ApplyPermission(q, KeyReveal, JBool(b)) == Some(q.(allowAllReveal := b))
    ensures ApplyPermission(q, KeyChangeVote, JBool(b)) == Some(q.(allowChangeVoteAfterReveal := b))
    ensures ApplyPermission(q, KeyAutoReveal, JBool(b)) == Some(q.(autoReveal := b))
  {
    assert !KeyMatches(KeyReset, KeyNewRound);
    assert !KeyMatches(KeyReveal, KeyNewRound) && !KeyMatches(KeyReveal, KeyReset);
    assert !KeyMatches(KeyChangeVote, KeyNewRound) && !KeyMatches(KeyChangeVote, KeyReset);
    assert !KeyMatches(KeyChangeVote, KeyReveal);
    assert !KeyMatches(KeyAutoReveal, KeyNewRound) && !KeyMatches(KeyAutoReveal, KeyReset);
    assert !KeyMatches(KeyAutoReveal, KeyReveal) && !KeyMatches(KeyAutoReveal, KeyChangeVote);
  }

  /** Decoding a non-empty member list is applying its first member and
      decoding the rest. */
  lemma DecodePermissionsCons(q: RoomPermissions, m: seq<(string, Json)>, q': RoomPermissions)
    requires m != [] && ApplyPermission(q, m[0].0, m[0].1) == Some(q')
    ensures DecodePermissions(q, m) == DecodePermissions(q', m[1..])
  {
  }

  /** The five written members set the five flags, whatever they were. */
  lemma DecodePermissionMembers(q: RoomPermissions, p: RoomPermissions)
    ensures DecodePermissions(q, PermissionMembers(p)) == Some(p)
  {
    var m := PermissionMembers(p);
    var q1 := q.(allowAllNewRound := p.allowAllNewRound);
    var q2 := q1.(allowAllReset := p.allowAllReset);
    var q3 := q2.(allowAllReveal := p.allowAllReveal);
    var q4 := q3.(allowChangeVoteAfterReveal := p.allowChangeVoteAfterReveal);
    assert DecodePermissions(q4, m[4..]) == Some(p) by {
      ApplyOwnMember(q4, p.autoReveal);
      DecodePermissionsCons(q4, m[4..], p);
      assert m[4..][1..] == [];
    }
    assert DecodePermissions(q3, m[3..]) == Some(p) by {
      ApplyOwnMember(q3, p.allowChangeVoteAfterReveal);
      DecodePermissionsCons(q3, m[3..], q4);
      assert m[3..][1..] == m[4..];
    }
    assert DecodePermissions(q2, m[2..]) == Some(p) by {
      ApplyOwnMember(q2, p.allowAllReveal);
      DecodePermissionsCons(q2, m[2..], q3);
      assert m[2..][1..] == m[3..];
    }
    assert DecodePermissions(q1, m[1..]) == Some(p) by {
      ApplyOwnMember(q1, p.allowAllReset);
      DecodePermissionsCons(q1, m[1..], q2);
      assert m[1..][1..] == m[2..];
    }
    assert DecodePermissions(q, m) == Some(p) by {
      ApplyOwnMember(q, p.allowAllNewRound);
      DecodePermissionsCons(q, m, q1);
    }
  }

  /** Round trip: a configuration written by `json.Marshal` reads back as
      itself, so saving a configuration and reading it gives it back. */
  lemma DecodeEncode(c: RoomConfig)
    ensures Decode(Encode(c)) == Some(c)
    ensures EffectiveConfig(Document(Encode(c))) == c
  {
    var top := [(KeyPermissions, JObject(PermissionMembers(c.permissions)))];
    assert Encode(c) == JObject(top);
    assert DecodePermissions(ZeroConfig.permissions, PermissionMembers(c.permissions)) == Some(c.permissions) by {
      DecodePermissionMembers(ZeroConfig.permissions, c.permissions);
    }
    assert DecodeMembers(ZeroConfig, top) == DecodeMembers(c, top[1..]);
    assert top[1..] == [];
  }

  /** An empty object or `null` is not a missing configuration: it reads as
      the zero value, with every permission withheld from non-creators. */
  lemma EmptyDocumentIsNotDefault()
    ensures EffectiveConfig(Document(JObject([]))) == ZeroConfig
    ensures EffectiveConfig(Document(JNull)) == ZeroConfig
    ensures ZeroConfig != DefaultRoomConfig()
  {
  }
}
