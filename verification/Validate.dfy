/** Room state schema (src/realtime/validate.rs). Lengths are byte lengths of the UTF-8 text. */
module Validate {
  import opened Common

  const MAX_OBJECTS := 200
  const MAX_ID_LEN := 64
  const MAX_LABEL_LEN := 64
  const MAX_COLOR_LEN := 16
  const MAX_URL_LEN := 512
  const MAX_FILE_NAME_LEN := 128
  const MAX_ENV_LEN := 64
  const MAX_COORD := 10000.0
  const ALLOWED_KINDS := ["sphere", "cube", "torus", "cone", "link", "model"]

  datatype RoomObject = RoomObject(
    id: string, kind: string, caption: string,
    position: seq<F32>, rotation: seq<F32>, scale: seq<F32>,
    color: string,
    linkUrl: Option<string>, openInNewTab: Option<bool>,
    modelDataUrl: Option<string>, modelFileName: Option<string>)

  datatype RoomState = RoomState(version: nat, environmentId: string, objects: seq<RoomObject>, updatedAt: nat)

  function EmptyState(now: nat): RoomState {
    RoomState(1, "cosmic-grass", [], now)
  }

  datatype ValidationError =
    | Version(version: nat)
    | Environment
    | TooManyObjects(count: nat)
    | Object(index: nat, reason: string)

  /** `str::len`. */
  function ByteLen(s: string): nat {
    if s == [] then 0
    else
      var c := s[|s| - 1] as int;
      ByteLen(s[..|s| - 1]) + if c < 0x80 then 1 else if c < 0x800 then 2 else if c < 0x10000 then 3 else 4
  }

  predicate HasControl(s: string) {
    exists i :: 0 <= i < |s| && (s[i] as int < 0x20 || 0x7f <= s[i] as int <= 0x9f)
  }

  predicate CheckVec3(v: seq<F32>) {
    |v| == 3 && forall i :: 0 <= i < 3 ==> v[i].Fin? && Abs(v[i].v) <= MAX_COORD
  }

  predicate AllowedLink(url: string) {
    ByteLen(url) <= MAX_URL_LEN && ("https://" <= url || "http://" <= url) && !HasControl(url)
  }

  predicate AllowedModel(url: string) {
    ByteLen(url) <= MAX_URL_LEN && ("https://" <= url || "ipfs://" <= url) && !HasControl(url)
  }

  /** The schema of one object, as a conjunction. */
  predicate ValidObject(o: RoomObject) {
    && 1 <= ByteLen(o.id) <= MAX_ID_LEN
    && o.kind in ALLOWED_KINDS
    && ByteLen(o.caption) <= MAX_LABEL_LEN
    && ByteLen(o.color) <= MAX_COLOR_LEN
    && CheckVec3(o.position) && CheckVec3(o.rotation) && CheckVec3(o.scale)
    && (o.linkUrl.Some? && o.linkUrl.value != "" ==> AllowedLink(o.linkUrl.value))
    && (o.modelDataUrl.Some? ==> AllowedModel(o.modelDataUrl.value))
    && (o.modelFileName.Some? ==> ByteLen(o.modelFileName.value) <= MAX_FILE_NAME_LEN)
  }

  predicate ValidState(s: RoomState) {
    && s.version == 1
    && ByteLen(s.environmentId) <= MAX_ENV_LEN
    && |s.objects| <= MAX_OBJECTS
    && forall i :: 0 <= i < |s.objects| ==> ValidObject(s.objects[i])
  }

  /** The rejection of one object, by the first check it fails. */
  function ObjectFault(o: RoomObject): Option<string> {
    if o.id == "" || ByteLen(o.id) > MAX_ID_LEN then Some("bad id")
    else if o.kind !in ALLOWED_KINDS then Some("unknown kind")
    else if ByteLen(o.caption) > MAX_LABEL_LEN then Some("label too long")
    else if ByteLen(o.color) > MAX_COLOR_LEN then Some("color too long")
    else if !CheckVec3(o.position) || !CheckVec3(o.rotation) || !CheckVec3(o.scale) then Some("bad transform")
    else if o.linkUrl.Some? && o.linkUrl.value != "" && !AllowedLink(o.linkUrl.value) then
      Some("link must be http(s) and <= 512 chars")
    else if o.modelDataUrl.Some? && !AllowedModel(o.modelDataUrl.value) then
      Some("model must be https:// or ipfs:// (no inline data)")
    else if o.modelFileName.Some? && ByteLen(o.modelFileName.value) > MAX_FILE_NAME_LEN then
      Some("model file name too long")
    else None
  }

  /** The loop over the objects, from object `i` on. */
  function ObjectsFault(objects: seq<RoomObject>, i: nat): Result<(), ValidationError>
    requires i <= |objects|
    decreases |objects| - i
  {
    if i == |objects| then Ok(())
    else
      match ObjectFault(objects[i])
      case Some(reason) => Err(Object(i, reason))
      case None => ObjectsFault(objects, i + 1)
  }

  function ValidateRoomState(s: RoomState): Result<(), ValidationError> {
    if s.version != 1 then Err(Version(s.version))
    else if ByteLen(s.environmentId) > MAX_ENV_LEN then Err(Environment)
    else if |s.objects| > MAX_OBJECTS then Err(TooManyObjects(|s.objects|))
    else ObjectsFault(s.objects, 0)
  }

  lemma EmptyIsZeroBytes(s: string)
    ensures ByteLen(s) == 0 <==> s == ""
  {
  }

  lemma FaultIffInvalid(o: RoomObject)
    ensures ObjectFault(o).None? <==> ValidObject(o)
  {
    hide CheckVec3, AllowedLink, AllowedModel, ByteLen;
    EmptyIsZeroBytes(o.id);
  }

  lemma {:induction false} FirstInvalidObject(objects: seq<RoomObject>, i: nat)
    requires i <= |objects|
    ensures var r := ObjectsFault(objects, i);
            && (r.Ok? <==> forall k :: i <= k < |objects| ==> ValidObject(objects[k]))
            && (r.Err? ==>
                  && r.error.Object? && i <= r.error.index < |objects|
                  && (forall k :: i <= k < r.error.index ==> ValidObject(objects[k]))
                  && !ValidObject(objects[r.error.index])
                  && ObjectFault(objects[r.error.index]) == Some(r.error.reason))
    decreases |objects| - i
  {
    hide ObjectFault, ValidObject;
    if i < |objects| {
      FaultIffInvalid(objects[i]);
      FirstInvalidObject(objects, i + 1);
    }
  }

  /** Validation accepts exactly the schema, and otherwise names what is wrong: the header fields in
      order, then the first object that breaks the schema, with the first check that object fails. */
  lemma ValidatesExactly(s: RoomState)
    ensures ValidateRoomState(s).Ok? <==> ValidState(s)
    ensures ValidateRoomState(s).Err? ==>
              match ValidateRoomState(s).error
              case Version(v) => s.version == v != 1
              case Environment => s.version == 1 && ByteLen(s.environmentId) > MAX_ENV_LEN
              case TooManyObjects(n) =>
                s.version == 1 && ByteLen(s.environmentId) <= MAX_ENV_LEN && |s.objects| == n > MAX_OBJECTS
              case Object(i, reason) =>
                && s.version == 1 && ByteLen(s.environmentId) <= MAX_ENV_LEN && i < |s.objects| <= MAX_OBJECTS
                && (forall k :: 0 <= k < i ==> ValidObject(s.objects[k]))
                && !ValidObject(s.objects[i]) && ObjectFault(s.objects[i]) == Some(reason)
  {
    hide ObjectFault, ValidObject, ByteLen;
    FirstInvalidObject(s.objects, 0);
  }

  /** What `apply_room_update` stores is as valid as what it was given; an empty room is valid. */
  lemma StampKeepsValid(s: RoomState, now: nat)
    ensures ValidState(s.(updatedAt := now)) <==> ValidState(s)
    ensures ValidState(EmptyState(now))
  {
    assert ByteLen("cosmic-grass") <= MAX_ENV_LEN by {
      ShortText("cosmic-grass");
    }
  }

  lemma {:induction false} ShortText(s: string)
    ensures |s| <= ByteLen(s) <= 4 * |s|
  {
    if s != "" {
      ShortText(s[..|s| - 1]);
    }
  }
}
