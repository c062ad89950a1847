/** Account decoding (src/chain.rs): a cursor over the bytes, length-prefixed fields, a bounded list. */
module Chain {
  import opened Common
  import opened Utf8

  datatype ChainError = Malformed

  const KEY_LEN := 32
  const DISC_LEN := 8
  const MAX_EDITORS := 64
  const U32_LIMIT := 0x1_0000_0000

  /** What a `Space` account holds up to its editor list. */
  datatype Space = Space(
    disc: Bytes, spaceId: nat, mint: Bytes, owner: Bytes, name: Bytes, uri: Bytes, open: Byte, editors: seq<Bytes>)

  /** The decoded access record; the holder is filled in later. */
  datatype SpaceAccess = SpaceAccess(spaceId: nat, mint: Bytes, recordedOwner: Bytes, editors: seq<Bytes>, isOpen: bool)

  function AccessOf(s: Space): SpaceAccess {
    SpaceAccess(s.spaceId, s.mint, s.owner, s.editors, s.open == 1)
  }

  // ---------------------------------------------------------------- encoding

  function EncodeU32(n: nat): Bytes
    requires n < U32_LIMIT
  {
    [n % 256, n / 256 % 256, n / 256 / 256 % 256, n / 256 / 256 / 256]
  }

  function DecodeU32(b: Bytes): nat
    requires |b| == 4
  {
    b[0] as int + 256 * (b[1] as int + 256 * (b[2] as int + 256 * (b[3] as int)))
  }

  ghost predicate WellFormed(s: Space) {
    && |s.disc| == DISC_LEN && s.spaceId < U32_LIMIT && |s.mint| == KEY_LEN && |s.owner| == KEY_LEN
    && |s.name| < U32_LIMIT && ValidUtf8(s.name) && |s.uri| < U32_LIMIT && ValidUtf8(s.uri)
    && |s.editors| <= MAX_EDITORS && forall i :: 0 <= i < |s.editors| ==> |s.editors[i]| == KEY_LEN
  }

  function EncodeString(text: Bytes, rest: Bytes): Bytes
    requires |text| < U32_LIMIT
  {
    EncodeU32(|text|) + (text + rest)
  }

  function EncodeKeys(keys: seq<Bytes>, rest: Bytes): Bytes {
    if keys == [] then rest else keys[0] + EncodeKeys(keys[1..], rest)
  }

  /** The account's bytes, followed by `rest`: in a real account the bump byte and reserved space. */
  ghost function Encode(s: Space, rest: Bytes): Bytes
    requires WellFormed(s)
  {
    s.disc + (EncodeU32(s.spaceId) + (s.mint + (s.owner + EncodeString(s.name, EncodeString(s.uri,
      [s.open] + (EncodeU32(|s.editors|) + EncodeKeys(s.editors, rest)))))))
  }

  // ----------------------------------------------------------------- parsing

  function TakeFrom(data: Bytes, n: nat): Result<(Bytes, Bytes), ChainError> {
    if n <= |data| then Ok((data[..n], data[n..])) else Err(Malformed)
  }

  function U32From(data: Bytes): Result<(nat, Bytes), ChainError> {
    var (b, rest) :- TakeFrom(data, 4);
    Ok((DecodeU32(b), rest))
  }

  function StringFrom(data: Bytes): Result<(Bytes, Bytes), ChainError> {
    var (n, rest) :- U32From(data);
    var (text, rest') :- TakeFrom(rest, n);
    if ValidUtf8(text) then Ok((text, rest')) else Err(Malformed)
  }

  function KeysFrom(data: Bytes, n: nat): Result<(seq<Bytes>, Bytes), ChainError> {
    if n == 0 then Ok(([], data))
    else
      var (key, rest) :- TakeFrom(data, KEY_LEN);
      var (keys, rest') :- KeysFrom(rest, n - 1);
      Ok(([key] + keys, rest'))
  }

  function EditorsFrom(data: Bytes): Result<(seq<Bytes>, Bytes), ChainError> {
    var (n, rest) :- U32From(data);
    if n > MAX_EDITORS then Err(Malformed) else KeysFrom(rest, n)
  }

  function SpaceFrom(data: Bytes): Result<(Space, Bytes), ChainError> {
    var (disc, d1) :- TakeFrom(data, DISC_LEN);
    var (spaceId, d2) :- U32From(d1);
    var (mint, d3) :- TakeFrom(d2, KEY_LEN);
    var (owner, d4) :- TakeFrom(d3, KEY_LEN);
    var (name, d5) :- StringFrom(d4);
    var (uri, d6) :- StringFrom(d5);
    var (open, d7) :- TakeFrom(d6, 1);
    var (editors, d8) :- EditorsFrom(d7);
    Ok((Space(disc, spaceId, mint, owner, name, uri, open[0], editors), d8))
  }

  // ------------------------------------------------------------- the cursor

  class Reader {
    const data: Bytes
    var pos: nat

    /** The cursor never leaves the data. */
    ghost predicate Valid()
      reads this
    {
      pos <= |data|
    }

    ghost function Rest(): Bytes
      requires Valid()
      reads this
    {
      data[pos..]
    }

    constructor (data: Bytes)
      ensures Valid() && this.data == data && Rest() == data
    {
      this.data := data;
      pos := 0;
    }

    method Take(n: nat) returns (r: Result<Bytes, ChainError>)
      requires Valid()
      modifies this
      ensures Valid()
      ensures match TakeFrom(old(Rest()), n)
              case Ok((slice, rest)) => r == Ok(slice) && Rest() == rest
              case Err(e) => r == Err(e) && Rest() == old(Rest())
    {
      var end := pos + n;
      if end > |data| {
        return Err(Malformed);
      }
      r := Ok(data[pos..end]);
      assert data[pos..][..n] == data[pos..end] && data[pos..][n..] == data[end..];
      pos := end;
    }

    method U8() returns (r: Result<Byte, ChainError>)
      requires Valid()
      modifies this
      ensures Valid()
      ensures match TakeFrom(old(Rest()), 1)
              case Ok((slice, rest)) => r == Ok(slice[0]) && Rest() == rest
              case Err(e) => r == Err(e)
    {
      var slice :- Take(1);
      return Ok(slice[0]);
    }

    method U32() returns (r: Result<nat, ChainError>)
      requires Valid()
      modifies this
      ensures Valid()
      ensures match U32From(old(Rest()))
              case Ok((n, rest)) => r == Ok(n) && Rest() == rest
              case Err(e) => r == Err(e)
    {
      var slice :- Take(4);
      return Ok(DecodeU32(slice));
    }

    method String() returns (r: Result<Bytes, ChainError>)
      requires Valid()
      modifies this
      ensures Valid()
      ensures match StringFrom(old(Rest()))
              case Ok((text, rest)) => r == Ok(text) && Rest() == rest
              case Err(e) => r == Err(e)
    {
      var n :- U32();
      var text :- Take(n);
      if !ValidUtf8(text) {
        return Err(Malformed);
      }
      return Ok(text);
    }

    /** The editor list: a bounded count, then that many keys. */
    method Editors() returns (r: Result<seq<Bytes>, ChainError>)
      requires Valid()
      modifies this
      ensures Valid()
      ensures match EditorsFrom(old(Rest()))
              case Ok((keys, rest)) => r == Ok(keys) && Rest() == rest
              case Err(e) => r == Err(e)
    {
      var n :- U32();
      if n > MAX_EDITORS {
        return Err(Malformed);
      }
      var editors: seq<Bytes> := [];
      ghost var all := KeysFrom(Rest(), n);
      assert all.Ok? ==> editors + all.value.0 == all.value.0;
      for i := 0 to n
        invariant Valid()
        invariant all == match KeysFrom(Rest(), n - i)
                         case Ok((keys, rest)) => Ok((editors + keys, rest))
                         case Err(e) => Err(e)
      {
        ghost var later := KeysFrom(Rest(), n - i);
        var key :- Take(KEY_LEN);
        assert later.Ok? ==> editors + later.value.0 == (editors + [key]) + later.value.0[1..];
        editors := editors + [key];
      }
      assert editors + [] == editors;
      return Ok(editors);
    }
  }

  method DecodeSpace(data: Bytes) returns (r: Result<SpaceAccess, ChainError>)
    ensures r == match SpaceFrom(data) case Ok((s, _)) => Ok(AccessOf(s)) case Err(e) => Err(e)
  {
    var reader := new Reader(data);
    var _ :- reader.Take(DISC_LEN);
    var spaceId :- reader.U32();
    var mint :- reader.Take(KEY_LEN);
    var owner :- reader.Take(KEY_LEN);
    var _ :- reader.String();
    var _ :- reader.String();
    var open :- reader.U8();
    var editors :- reader.Editors();
    return Ok(SpaceAccess(spaceId, mint, owner, editors, open == 1));
  }

  /** `Config` up to the two counters: discriminator, four keys, total, minted. */
  function ConfigFrom(data: Bytes): Result<(nat, nat), ChainError> {
    var (_, d1) :- TakeFrom(data, DISC_LEN);
    var (_, d2) :- TakeFrom(d1, 4 * KEY_LEN);
    var (total, d3) :- U32From(d2);
    var (minted, _) :- U32From(d3);
    Ok((total, minted))
  }

  method DecodeConfig(data: Bytes) returns (r: Result<(nat, nat), ChainError>)
    ensures r == ConfigFrom(data)
  {
    hide TakeFrom, U32From;
    var reader := new Reader(data);
    var _ :- reader.Take(DISC_LEN);
    var _ :- reader.Take(4 * KEY_LEN);
    var total :- reader.U32();
    var minted :- reader.U32();
    return Ok((total, minted));
  }

  /** The counters are read from their fixed offsets, and only a shorter account is rejected. */
  lemma ConfigOffsets(data: Bytes)
    ensures ConfigFrom(data).Ok? <==> |data| >= 144
    ensures ConfigFrom(data).Ok? ==> ConfigFrom(data).value == (DecodeU32(data[136..140]), DecodeU32(data[140..144]))
  {
    hide DecodeU32;
    if |data| >= 144 {
      assert data[8..][128..] == data[136..];
      assert data[136..][..4] == data[136..140] && data[136..][4..] == data[140..];
      assert data[140..][..4] == data[140..144];
    }
  }

  // ------------------------------------------------- decoding inverts encoding

  lemma U32RoundTrip(n: nat)
    requires n < U32_LIMIT
    ensures DecodeU32(EncodeU32(n)) == n
  {
    var q1, q2, q3 := n / 256, n / 256 / 256, n / 256 / 256 / 256;
    assert n == 256 * q1 + n % 256;
    assert q1 == 256 * q2 + q1 % 256;
    assert q2 == 256 * q3 + q2 % 256;
  }

  lemma U32Unique(b: Bytes)
    requires |b| == 4
    ensures DecodeU32(b) < U32_LIMIT && EncodeU32(DecodeU32(b)) == b
  {
    var n := DecodeU32(b);
    assert n / 256 == b[1] as int + 256 * (b[2] as int + 256 * (b[3] as int));
    assert n / 256 / 256 == b[2] as int + 256 * (b[3] as int);
    assert n / 256 / 256 / 256 == b[3] as int;
  }

  lemma TakeInverts(head: Bytes, rest: Bytes)
    ensures TakeFrom(head + rest, |head|) == Ok((head, rest))
  {
    assert (head + rest)[..|head|] == head && (head + rest)[|head|..] == rest;
  }

  lemma U32Inverts(n: nat, rest: Bytes)
    requires n < U32_LIMIT
    ensures U32From(EncodeU32(n) + rest) == Ok((n, rest))
  {
    TakeInverts(EncodeU32(n), rest);
    U32RoundTrip(n);
  }

  lemma StringInverts(text: Bytes, rest: Bytes)
    requires |text| < U32_LIMIT && ValidUtf8(text)
    ensures StringFrom(EncodeString(text, rest)) == Ok((text, rest))
  {
    hide ValidUtf8, EncodeU32, DecodeU32, U32From, TakeFrom;
    U32Inverts(|text|, text + rest);
    TakeInverts(text, rest);
  }

  lemma {:induction false} KeysInvert(keys: seq<Bytes>, rest: Bytes)
    requires forall i :: 0 <= i < |keys| ==> |keys[i]| == KEY_LEN
    ensures KeysFrom(EncodeKeys(keys, rest), |keys|) == Ok((keys, rest))
  {
    if keys != [] {
      TakeInverts(keys[0], EncodeKeys(keys[1..], rest));
      KeysInvert(keys[1..], rest);
      assert [keys[0]] + keys[1..] == keys;
    }
  }

  /** Decoding inverts encoding: whatever follows the account, the space is returned and the rest left. */
  lemma SpaceInverts(s: Space, rest: Bytes)
    requires WellFormed(s)
    ensures SpaceFrom(Encode(s, rest)) == Ok((s, rest))
  {
    hide TakeFrom, U32From, StringFrom, KeysFrom, EncodeU32, EncodeString, EncodeKeys, ValidUtf8;
    var e8 := EncodeKeys(s.editors, rest);
    var e7 := EncodeU32(|s.editors|) + e8;
    var e6 := [s.open] + e7;
    var e5 := EncodeString(s.uri, e6);
    var e4 := EncodeString(s.name, e5);
    var e3 := s.owner + e4;
    var e2 := s.mint + e3;
    var e1 := EncodeU32(s.spaceId) + e2;
    TakeInverts(s.disc, e1);
    U32Inverts(s.spaceId, e2);
    TakeInverts(s.mint, e3);
    TakeInverts(s.owner, e4);
    StringInverts(s.name, e5);
    StringInverts(s.uri, e6);
    TakeInverts([s.open], e7);
    U32Inverts(|s.editors|, e8);
    KeysInvert(s.editors, rest);
  }

  lemma TakeIsSound(data: Bytes, n: nat)
    ensures match TakeFrom(data, n)
            case Ok((head, rest)) => |head| == n && data == head + rest
            case Err(_) => |data| < n
  {
  }

  lemma U32IsSound(data: Bytes)
    ensures U32From(data).Ok? ==>
              U32From(data).value.0 < U32_LIMIT
              && data == EncodeU32(U32From(data).value.0) + U32From(data).value.1
  {
    if |data| >= 4 {
      U32Unique(data[..4]);
    }
  }

  lemma StringIsSound(data: Bytes)
    ensures StringFrom(data).Ok? ==>
              var (text, rest) := StringFrom(data).value;
              |text| < U32_LIMIT && ValidUtf8(text) && data == EncodeString(text, rest)
  {
    hide ValidUtf8, EncodeU32, U32From;
    U32IsSound(data);
    if U32From(data).Ok? {
      var (n, rest) := U32From(data).value;
      TakeIsSound(rest, n);
    }
  }

  lemma {:induction false} KeysAreSound(data: Bytes, n: nat)
    ensures KeysFrom(data, n).Ok? ==>
              var (keys, rest) := KeysFrom(data, n).value;
              |keys| == n && (forall i :: 0 <= i < n ==> |keys[i]| == KEY_LEN) && data == EncodeKeys(keys, rest)
  {
    if n > 0 && |data| >= KEY_LEN {
      TakeIsSound(data, KEY_LEN);
      KeysAreSound(data[KEY_LEN..], n - 1);
    }
  }

  /** Conversely, decoding succeeds on nothing but encodings: the input is the encoding of a well-formed
      space followed by the rest. */
  lemma SpaceIsSound(data: Bytes)
    ensures SpaceFrom(data).Ok? ==>
              var (s, rest) := SpaceFrom(data).value;
              WellFormed(s) && data == Encode(s, rest)
  {
    hide TakeFrom, U32From, StringFrom, KeysFrom, EncodeU32, EncodeString, EncodeKeys, ValidUtf8;
    if SpaceFrom(data).Ok? {
      TakeIsSound(data, DISC_LEN);
      var (disc, d1) := TakeFrom(data, DISC_LEN).value;
      U32IsSound(d1);
      var (spaceId, d2) := U32From(d1).value;
      TakeIsSound(d2, KEY_LEN);
      var (mint, d3) := TakeFrom(d2, KEY_LEN).value;
      TakeIsSound(d3, KEY_LEN);
      var (owner, d4) := TakeFrom(d3, KEY_LEN).value;
      StringIsSound(d4);
      var (name, d5) := StringFrom(d4).value;
      StringIsSound(d5);
      var (uri, d6) := StringFrom(d5).value;
      TakeIsSound(d6, 1);
      var (open, d7) := TakeFrom(d6, 1).value;
      assert open == [open[0]];
      U32IsSound(d7);
      var (n, d8) := U32From(d7).value;
      KeysAreSound(d8, n);
    }
  }

  lemma {:induction false} KeysOntoLonger(keys: seq<Bytes>, rest: Bytes, more: Bytes)
    ensures EncodeKeys(keys, rest) + more == EncodeKeys(keys, rest + more)
  {
    if keys != [] {
      KeysOntoLonger(keys[1..], rest, more);
      assert keys[0] + EncodeKeys(keys[1..], rest) + more == keys[0] + (EncodeKeys(keys[1..], rest) + more);
    }
  }

  lemma StringOntoLonger(text: Bytes, rest: Bytes, more: Bytes)
    requires |text| < U32_LIMIT
    ensures EncodeString(text, rest) + more == EncodeString(text, rest + more)
  {
    hide EncodeU32;
    assert EncodeU32(|text|) + (text + rest) + more == EncodeU32(|text|) + (text + (rest + more));
  }

  lemma Reassociate(head: Bytes, rest: Bytes, more: Bytes)
    ensures head + rest + more == head + (rest + more)
  {
  }

  lemma EncodeOntoLonger(s: Space, rest: Bytes, more: Bytes)
    requires WellFormed(s)
    ensures Encode(s, rest) + more == Encode(s, rest + more)
  {
    hide EncodeU32, EncodeString, EncodeKeys, ValidUtf8;
    var e8 := EncodeKeys(s.editors, rest);
    var e7 := EncodeU32(|s.editors|) + e8;
    var e6 := [s.open] + e7;
    var e5 := EncodeString(s.uri, e6);
    var e4 := EncodeString(s.name, e5);
    var e3 := s.owner + e4;
    var e2 := s.mint + e3;
    var e1 := EncodeU32(s.spaceId) + e2;
    KeysOntoLonger(s.editors, rest, more);
    Reassociate(EncodeU32(|s.editors|), e8, more);
    Reassociate([s.open], e7, more);
    StringOntoLonger(s.uri, e6, more);
    StringOntoLonger(s.name, e5, more);
    Reassociate(s.owner, e4, more);
    Reassociate(s.mint, e3, more);
    Reassociate(EncodeU32(s.spaceId), e2, more);
    Reassociate(s.disc, e1, more);
  }

  /** Truncation: every proper prefix of an encoded account is rejected. */
  lemma PrefixIsRejected(s: Space, k: nat)
    requires WellFormed(s) && k < |Encode(s, [])|
    ensures SpaceFrom(Encode(s, [])[..k]).Err?
  {
    hide SpaceFrom, WellFormed, Encode;
    var full := Encode(s, []);
    var cut, lost := full[..k], full[k..];
    SpaceIsSound(cut);
    if SpaceFrom(cut).Ok? {
      var (other, rest) := SpaceFrom(cut).value;
      EncodeOntoLonger(other, rest, lost);
      assert cut + lost == full;
      SpaceInverts(other, rest + lost);
      SpaceInverts(s, []);
    }
  }

  /** The decoder as a whole: it returns an access record exactly for the accounts that encode one. */
  lemma DecodesExactlyEncodings(data: Bytes, access: SpaceAccess)
    ensures (SpaceFrom(data).Ok? && AccessOf(SpaceFrom(data).value.0) == access)
            <==> exists s, rest :: WellFormed(s) && data == Encode(s, rest) && AccessOf(s) == access
  {
    hide SpaceFrom, WellFormed, Encode;
    SpaceIsSound(data);
    if s, rest :| WellFormed(s) && data == Encode(s, rest) && AccessOf(s) == access {
      SpaceInverts(s, rest);
    }
  }
}
