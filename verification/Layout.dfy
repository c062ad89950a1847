/** The layout of the chain accounts, by byte offsets: what the cursor-based decoder of `Chain` comes to. */
module Layout {
  import opened Common
  import opened Utf8
  import opened Chain

  /** The little-endian number in the four bytes from `at` on. */
  function Word(data: Bytes, at: nat): nat
    requires at + 4 <= |data|
  {
    data[at] as int + 0x100 * data[at + 1] as int + 0x1_0000 * data[at + 2] as int + 0x100_0000 * data[at + 3] as int
  }

  lemma TakeAt(data: Bytes, at: nat, n: nat)
    requires at <= |data|
    ensures TakeFrom(data[at..], n)
            == if at + n <= |data| then Ok((data[at..at + n], data[at + n..])) else Err(Malformed)
  {
    if at + n <= |data| {
      assert data[at..][..n] == data[at..at + n] && data[at..][n..] == data[at + n..];
    }
  }

  lemma WordAt(data: Bytes, at: nat)
    requires at <= |data|
    ensures U32From(data[at..]) == if at + 4 <= |data| then Ok((Word(data, at), data[at + 4..])) else Err(Malformed)
  {
    TakeAt(data, at, 4);
    if at + 4 <= |data| {
      WordOfFour(data[at..at + 4]);
      assert Word(data[at..at + 4], 0) == Word(data, at);
    }
  }

  lemma WordOfFour(b: Bytes)
    requires |b| == 4
    ensures DecodeU32(b) == Word(b, 0)
  {
  }

  /** A text of `n` bytes after its length. */
  ghost predicate TextAt(data: Bytes, at: nat, n: nat) {
    && at + 4 + n <= |data| && Word(data, at) == n
    && IsText(data[at + 4..at + 4 + n])
  }

  lemma StringAt(data: Bytes, at: nat)
    requires at <= |data|
    ensures StringFrom(data[at..]).Ok? <==> at + 4 <= |data| && TextAt(data, at, Word(data, at))
    ensures StringFrom(data[at..]).Ok? ==> StringFrom(data[at..]).value.1 == data[at + 4 + Word(data, at)..]
  {
    hide ValidUtf8, U32From, TakeFrom, Word, IsText;
    WordAt(data, at);
    if at + 4 <= |data| {
      var n := Word(data, at);
      TakeAt(data, at + 4, n);
      if at + 4 + n <= |data| {
        ValidExactlyEncodings(data[at + 4..at + 4 + n]);
      }
    }
  }

  lemma {:induction false} KeysAt(data: Bytes, at: nat, n: nat)
    requires at <= |data|
    ensures KeysFrom(data[at..], n).Ok? <==> at + 32 * n <= |data|
    ensures KeysFrom(data[at..], n).Ok? ==>
              var keys := KeysFrom(data[at..], n).value.0;
              |keys| == n && forall i :: 0 <= i < n ==> keys[i] == data[at + 32 * i..at + 32 * i + 32]
    decreases n
  {
    hide TakeFrom;
    if n > 0 {
      TakeAt(data, at, KEY_LEN);
      if at + 32 <= |data| {
        KeysAt(data, at + 32, n - 1);
        if at + 32 * n <= |data| {
          var keys, rest := KeysFrom(data[at..], n).value.0, KeysFrom(data[at + 32..], n - 1).value.0;
          forall i | 0 <= i < n ensures keys[i] == data[at + 32 * i..at + 32 * i + 32] {
            if i > 0 {
              assert keys[i] == rest[i - 1];
            }
          }
        }
      }
    }
  }

  /** Where the fields of a `Space` account lie: its id at byte 8, its mint and owner from 12 and 44 on, two
      texts with their lengths from 76 on, a byte that is 1 when the space is open, the number of editors, at
      most 64, and their keys. */
  ghost predicate LaidOut(data: Bytes, access: SpaceAccess) {
    80 <= |data| &&
    var name := Word(data, 76);
    TextAt(data, 76, name) && 84 + name <= |data| &&
    var uri := Word(data, 80 + name);
    TextAt(data, 80 + name, uri) &&
    var open := 84 + name + uri;
    && open + 5 <= |data|
    && access.spaceId == Word(data, 8) && access.mint == data[12..44] && access.recordedOwner == data[44..76]
    && (access.isOpen <==> data[open] == 1)
    && |access.editors| == Word(data, open + 1) <= 64 && open + 5 + 32 * |access.editors| <= |data|
    && forall i :: 0 <= i < |access.editors| ==> access.editors[i] == data[open + 5 + 32 * i..open + 37 + 32 * i]
  }

  /** What follows the two texts. */
  lemma TailAt(data: Bytes, open: nat)
    requires open <= |data|
    ensures var d1 := TakeFrom(data[open..], 1);
            && (d1.Ok? <==> open + 1 <= |data|)
            && (d1.Ok? ==>
                  && d1.value.0 == [data[open]] && d1.value.1 == data[open + 1..]
                  && (EditorsFrom(d1.value.1).Ok?
                      <==> open + 5 <= |data| && Word(data, open + 1) <= 64
                           && open + 5 + 32 * Word(data, open + 1) <= |data|)
                  && (EditorsFrom(d1.value.1).Ok? ==>
                        var keys := EditorsFrom(d1.value.1).value.0;
                        && |keys| == Word(data, open + 1)
                        && forall i :: 0 <= i < |keys| ==> keys[i] == data[open + 5 + 32 * i..open + 37 + 32 * i]))
  {
    hide TakeFrom, U32From, Word, KeysFrom;
    TakeAt(data, open, 1);
    if open + 1 <= |data| {
      assert data[open..open + 1] == [data[open]];
      WordAt(data, open + 1);
      if open + 5 <= |data| {
        KeysAt(data, open + 5, Word(data, open + 1));
      }
    }
  }

  /** What comes before them. */
  lemma HeadAt(data: Bytes)
    requires |data| >= 76
    ensures var d1 := TakeFrom(data, 8).value.1;
            var d2 := U32From(d1).value.1;
            var d3 := TakeFrom(d2, 32).value.1;
            && TakeFrom(data, 8).Ok? && U32From(d1).Ok? && TakeFrom(d2, 32).Ok? && TakeFrom(d3, 32).Ok?
            && U32From(d1).value.0 == Word(data, 8) && TakeFrom(d2, 32).value.0 == data[12..44]
            && TakeFrom(d3, 32).value == (data[44..76], data[76..])
  {
    hide TakeFrom, U32From, Word;
    assert data[0..] == data;
    TakeAt(data, 0, 8);
    WordAt(data, 8);
    TakeAt(data, 12, 32);
    TakeAt(data, 44, 32);
  }

  lemma ShortHead(data: Bytes)
    requires |data| < 76
    ensures SpaceFrom(data).Err?
  {
    hide StringFrom, EditorsFrom, DecodeU32;
  }

  /** The decoder reads exactly this layout: it returns `access` if and only if the account is laid out as
      `access` says. */
  lemma DecodesLayout(data: Bytes, access: SpaceAccess)
    ensures SpaceFrom(data).Ok? && AccessOf(SpaceFrom(data).value.0) == access <==> LaidOut(data, access)
  {
    hide TakeFrom, U32From, Word, StringFrom, EditorsFrom, TextAt;
    if |data| < 76 {
      ShortHead(data);
    } else {
      HeadAt(data);
      StringAt(data, 76);
      if 80 <= |data| {
        var name := Word(data, 76);
        TextNeedsRoom(data, 76);
        if TextAt(data, 76, name) {
          StringAt(data, 80 + name);
          if 84 + name <= |data| {
            TextNeedsRoom(data, 80 + name);
            if TextAt(data, 80 + name, Word(data, 80 + name)) {
              SpaceByLayout(data, access, name, Word(data, 80 + name));
            }
          }
        }
      }
    }
  }

  lemma TextNeedsRoom(data: Bytes, at: nat)
    ensures forall n: nat :: TextAt(data, at, n) ==> at + 4 + n <= |data| && Word(data, at) == n
  {
    hide Word, IsText;
  }

  lemma SpaceByLayout(data: Bytes, access: SpaceAccess, name: nat, uri: nat)
    requires |data| >= 76 && TextAt(data, 76, name) && TextAt(data, 80 + name, uri)
    requires var d := TakeFrom(data, 8);
             d.Ok? && U32From(d.value.1).Ok? && TakeFrom(U32From(d.value.1).value.1, 32).Ok?
    requires StringFrom(data[76..]).Ok? && StringFrom(data[76..]).value.1 == data[80 + name..]
    requires StringFrom(data[80 + name..]).Ok? && StringFrom(data[80 + name..]).value.1 == data[84 + name + uri..]
    ensures SpaceFrom(data).Ok? && AccessOf(SpaceFrom(data).value.0) == access <==> LaidOut(data, access)
  {
    hide TakeFrom, U32From, Word, StringFrom, EditorsFrom, IsText;
    HeadAt(data);
    TailAt(data, 84 + name + uri);
    TextNeedsRoom(data, 76);
    TextNeedsRoom(data, 80 + name);
  }

  /** The counters of a `Config` account: the total in bytes 136 to 139, the number minted in the next four; an
      account is rejected exactly when it is too short for them. */
  lemma ConfigLayout(data: Bytes)
    ensures ConfigFrom(data) == if |data| >= 144 then Ok((Word(data, 136), Word(data, 140))) else Err(Malformed)
  {
    hide DecodeU32;
    ConfigOffsets(data);
    if |data| >= 144 {
      WordOfFour(data[136..140]);
      WordOfFour(data[140..144]);
    }
  }
}
