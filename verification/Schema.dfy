/** The room state schema, written out: what the checks of `Validate` come to. Lengths are those of the UTF-8
    encoding. */
module Schema {
  import opened Common
  import opened Utf8
  import opened Validate

  lemma {:induction false} ByteLenIsEncoded(s: string)
    ensures ByteLen(s) == |EncodeText(s)|
  {
    if s != "" {
      var n := |s| - 1;
      ByteLenIsEncoded(s[..n]);
      EncodeSnoc(s[..n], s[n]);
      assert s[..n] + [s[n]] == s;
    }
  }

  lemma {:induction false} EncodeSnoc(s: string, c: char)
    ensures EncodeText(s + [c]) == EncodeText(s) + EncodeChar(c)
  {
    hide EncodeChar;
    if s == "" {
      assert s + [c] == [c] && [c][1..] == "";
      assert EncodeText([c]) == EncodeChar(c) + EncodeText("");
    } else {
      EncodeSnoc(s[1..], c);
      assert (s + [c])[0] == s[0] && (s + [c])[1..] == s[1..] + [c];
      assert EncodeChar(s[0]) + EncodeText(s[1..]) + EncodeChar(c) == EncodeChar(s[0]) + (EncodeText(s[1..]) + EncodeChar(c));
    }
  }

  /** At most `max` bytes. */
  ghost predicate Fits(s: string, max: nat) {
    |EncodeText(s)| <= max
  }

  /** Three finite coordinates of at most 10000 either way. */
  ghost predicate Triple(v: seq<F32>) {
    exists x, y, z :: IsTriple(v, x, y, z)
  }

  ghost predicate IsTriple(v: seq<F32>, x: real, y: real, z: real) {
    && v == [Fin(x), Fin(y), Fin(z)]
    && -10000.0 <= x <= 10000.0 && -10000.0 <= y <= 10000.0 && -10000.0 <= z <= 10000.0
  }

  /** No control characters: none of the first 32 code points and none from 127 to 159. */
  ghost predicate Printable(s: string) {
    forall i :: 0 <= i < |s| ==> s[i] as int >= 32 && (s[i] as int < 127 || s[i] as int > 159)
  }

  ghost predicate StartsWith(s: string, start: string) {
    |start| <= |s| && s[..|start|] == start
  }

  ghost predicate KnownKind(k: string) {
    k == "sphere" || k == "cube" || k == "torus" || k == "cone" || k == "link" || k == "model"
  }

  ghost predicate GoodId(o: RoomObject) {
    o.id != "" && Fits(o.id, 64)
  }

  ghost predicate GoodTransform(o: RoomObject) {
    Triple(o.position) && Triple(o.rotation) && Triple(o.scale)
  }

  /** No link, an empty one, or a web address. */
  ghost predicate GoodLink(o: RoomObject) {
    o.linkUrl.Some? && o.linkUrl.value != "" ==>
      var url := o.linkUrl.value;
      Fits(url, 512) && (StartsWith(url, "https://") || StartsWith(url, "http://")) && Printable(url)
  }

  /** No model, or one at an `https` or `ipfs` address. */
  ghost predicate GoodModel(o: RoomObject) {
    o.modelDataUrl.Some? ==>
      var url := o.modelDataUrl.value;
      Fits(url, 512) && (StartsWith(url, "https://") || StartsWith(url, "ipfs://")) && Printable(url)
  }

  ghost predicate GoodFileName(o: RoomObject) {
    o.modelFileName.Some? ==> Fits(o.modelFileName.value, 128)
  }

  ghost predicate GoodObject(o: RoomObject) {
    && GoodId(o) && KnownKind(o.kind) && Fits(o.caption, 64) && Fits(o.color, 16)
    && GoodTransform(o) && GoodLink(o) && GoodModel(o) && GoodFileName(o)
  }

  ghost predicate GoodState(s: RoomState) {
    && s.version == 1 && Fits(s.environmentId, 64) && |s.objects| <= 200
    && forall i :: 0 <= i < |s.objects| ==> GoodObject(s.objects[i])
  }

  // ------------------------------------------------------- the checks, one by one

  lemma LengthsAre(s: string, max: nat)
    ensures ByteLen(s) <= max <==> Fits(s, max)
  {
    ByteLenIsEncoded(s);
  }

  lemma TriplesAre(v: seq<F32>)
    ensures CheckVec3(v) <==> Triple(v)
  {
    if CheckVec3(v) {
      assert v == [Fin(v[0].v), Fin(v[1].v), Fin(v[2].v)];
      assert IsTriple(v, v[0].v, v[1].v, v[2].v);
    }
  }

  lemma KindsAre(k: string)
    ensures k in ALLOWED_KINDS <==> KnownKind(k)
  {
    if KnownKind(k) {
      assert k == ALLOWED_KINDS[0] || k == ALLOWED_KINDS[1] || k == ALLOWED_KINDS[2] || k == ALLOWED_KINDS[3]
          || k == ALLOWED_KINDS[4] || k == ALLOWED_KINDS[5];
    }
  }

  lemma ControlIs(s: string)
    ensures HasControl(s) <==> !Printable(s)
  {
  }

  lemma StartsAre(s: string, start: string)
    ensures start <= s <==> StartsWith(s, start)
  {
  }

  lemma LinksAre(url: string)
    ensures AllowedLink(url) <==> Fits(url, 512) && (StartsWith(url, "https://") || StartsWith(url, "http://")) && Printable(url)
    ensures AllowedModel(url) <==> Fits(url, 512) && (StartsWith(url, "https://") || StartsWith(url, "ipfs://")) && Printable(url)
  {
    hide ByteLen, Fits, HasControl, Printable, StartsWith;
    LengthsAre(url, 512);
    ControlIs(url);
    StartsAre(url, "https://");
    StartsAre(url, "http://");
    StartsAre(url, "ipfs://");
  }

  /** The first fault of an object and what is said of it. */
  ghost predicate FaultIs(o: RoomObject, fault: Option<string>) {
    fault
    == if !GoodId(o) then Some("bad id")
       else if !KnownKind(o.kind) then Some("unknown kind")
       else if !Fits(o.caption, 64) then Some("label too long")
       else if !Fits(o.color, 16) then Some("color too long")
       else if !GoodTransform(o) then Some("bad transform")
       else if !GoodLink(o) then Some("link must be http(s) and <= 512 chars")
       else if !GoodModel(o) then Some("model must be https:// or ipfs:// (no inline data)")
       else if !GoodFileName(o) then Some("model file name too long")
       else None
  }

  lemma FaultsAre(o: RoomObject)
    ensures FaultIs(o, ObjectFault(o))
  {
    hide ByteLen, Fits, HasControl, Printable, StartsWith, CheckVec3, Triple, KnownKind, AllowedLink, AllowedModel;
    LengthsAre(o.id, 64);
    KindsAre(o.kind);
    LengthsAre(o.caption, 64);
    LengthsAre(o.color, 16);
    TriplesAre(o.position);
    TriplesAre(o.rotation);
    TriplesAre(o.scale);
    if o.linkUrl.Some? {
      LinksAre(o.linkUrl.value);
    }
    if o.modelDataUrl.Some? {
      LinksAre(o.modelDataUrl.value);
    }
    if o.modelFileName.Some? {
      LengthsAre(o.modelFileName.value, 128);
    }
  }

  lemma ObjectsAre(o: RoomObject)
    ensures ValidObject(o) <==> GoodObject(o)
  {
    hide ObjectFault, ValidObject, GoodId, Fits, GoodTransform, GoodLink, GoodModel, GoodFileName, KnownKind;
    FaultIffInvalid(o);
    FaultsAre(o);
  }

  /** Validation accepts a room state exactly when it keeps the schema; otherwise it reports the version, or
      else the environment, or else the number of objects, or else the first object with a fault and the first
      fault it has. */
  lemma AcceptsSchema(s: RoomState)
    ensures ValidateRoomState(s).Ok? <==> GoodState(s)
    ensures ValidateRoomState(s).Err? ==>
              var e := ValidateRoomState(s).error;
              if s.version != 1 then e == Version(s.version)
              else if !Fits(s.environmentId, 64) then e == Environment
              else if |s.objects| > 200 then e == TooManyObjects(|s.objects|)
              else
                && e.Object? && e.index < |s.objects| && FaultIs(s.objects[e.index], Some(e.reason))
                && forall k :: 0 <= k < e.index ==> GoodObject(s.objects[k])
  {
    hide ObjectFault, ValidObject, GoodObject, ByteLen, Fits, FaultIs;
    ValidatesExactly(s);
    LengthsAre(s.environmentId, 64);
    forall k | 0 <= k < |s.objects|
      ensures (ValidObject(s.objects[k]) <==> GoodObject(s.objects[k])) && FaultIs(s.objects[k], ObjectFault(s.objects[k]))
    {
      ObjectsAre(s.objects[k]);
      FaultsAre(s.objects[k]);
    }
  }

  /** The states that the store holds are those of this schema. */
  lemma ValidIsGood(s: RoomState)
    ensures ValidState(s) <==> GoodState(s)
  {
    hide ValidState, GoodState;
    ValidatesExactly(s);
    AcceptsSchema(s);
  }
}
