/** What becomes of the texts and numbers that a client sends, said without the functions that clean them. */
module Payloads {
  import opened Common
  import opened Motion
  import opened Presence

  /** The 25 code points with the Unicode property White_Space. */
  predicate BlankChar(c: char) {
    c as int in {9, 10, 11, 12, 13, 0x20, 0x85, 0xA0, 0x1680, 0x2000, 0x2001, 0x2002, 0x2003, 0x2004, 0x2005, 0x2006,
                 0x2007, 0x2008, 0x2009, 0x200A, 0x2028, 0x2029, 0x202F, 0x205F, 0x3000}
  }

  ghost predicate Blank(s: string) {
    forall i :: 0 <= i < |s| ==> BlankChar(s[i])
  }

  /** No white space at either end. */
  ghost predicate Bare(s: string) {
    s != "" ==> !BlankChar(s[0]) && !BlankChar(s[|s| - 1])
  }

  /** `sent` is `text` with white space around it. */
  ghost predicate Wraps(sent: string, text: string) {
    exists l, r :: Blank(l) && Blank(r) && sent == l + text + r
  }

  lemma WhitespaceIsBlank(c: char)
    ensures IsWhitespace(c) <==> BlankChar(c)
  {
  }

  lemma {:induction false} TrimStartDrops(l: string, t: string)
    requires Blank(l) && (t != "" ==> !BlankChar(t[0]))
    ensures TrimStart(l + t) == t
  {
    hide BlankChar, IsWhitespace;
    if l == "" {
      assert l + t == t;
      if t != "" {
        WhitespaceIsBlank(t[0]);
      }
    } else {
      WhitespaceIsBlank(l[0]);
      assert (l + t)[0] == l[0] && (l + t)[1..] == l[1..] + t;
      TrimStartDrops(l[1..], t);
    }
  }

  lemma {:induction false} TrimEndDrops(t: string, r: string)
    requires Blank(r) && (t != "" ==> !BlankChar(t[|t| - 1]))
    ensures TrimEnd(t + r) == t
    decreases |r|
  {
    hide BlankChar, IsWhitespace;
    if r == "" {
      assert t + r == t;
      if t != "" {
        WhitespaceIsBlank(t[|t| - 1]);
      }
    } else {
      var n := |r| - 1;
      WhitespaceIsBlank(r[n]);
      assert (t + r)[|t + r| - 1] == r[n] && (t + r)[..|t + r| - 1] == t + r[..n];
      TrimEndDrops(t, r[..n]);
    }
  }

  /** Trimming removes the white space around a text. */
  lemma TrimDrops(l: string, t: string, r: string)
    requires Blank(l) && Blank(r) && Bare(t)
    ensures Trim(l + t + r) == t
  {
    hide BlankChar;
    assert l + t + r == l + (t + r);
    if t == "" {
      assert Blank(l + (t + r));
      assert l + (t + r) == l + (t + r) + "";
      TrimStartDrops(l + (t + r), "");
    } else {
      TrimStartDrops(l, t + r);
      TrimEndDrops(t, r);
    }
  }

  lemma {:induction false} TrimStartShape(s: string) returns (l: string)
    ensures Blank(l) && s == l + TrimStart(s) && (TrimStart(s) != "" ==> !BlankChar(TrimStart(s)[0]))
  {
    hide BlankChar, IsWhitespace;
    l := "";
    if s != "" {
      WhitespaceIsBlank(s[0]);
      if IsWhitespace(s[0]) {
        var l' := TrimStartShape(s[1..]);
        l := [s[0]] + l';
      }
    }
  }

  lemma {:induction false} TrimEndShape(s: string) returns (r: string)
    ensures Blank(r) && s == TrimEnd(s) + r && (TrimEnd(s) != "" ==> !BlankChar(TrimEnd(s)[|TrimEnd(s)| - 1]))
    decreases |s|
  {
    hide BlankChar, IsWhitespace;
    r := "";
    if s != "" {
      var n := |s| - 1;
      WhitespaceIsBlank(s[n]);
      if IsWhitespace(s[n]) {
        var r' := TrimEndShape(s[..n]);
        r := r' + [s[n]];
        assert s == s[..n] + [s[n]];
      }
    }
  }

  /** Every text is its trimmed text with white space around it. */
  lemma TrimShape(s: string)
    ensures Bare(Trim(s)) && Wraps(s, Trim(s))
  {
    hide BlankChar;
    var l := TrimStartShape(s);
    var r := TrimEndShape(TrimStart(s));
    assert s == l + Trim(s) + r;
    if Trim(s) != "" {
      assert Trim(s)[0] == TrimStart(s)[0];
    }
  }

  lemma TrimIsUnique(sent: string, text: string)
    requires Wraps(sent, text) && Bare(text)
    ensures Trim(sent) == text
  {
    var l, r :| Blank(l) && Blank(r) && sent == l + text + r;
    TrimDrops(l, text, r);
  }

  // ------------------------------------------------------------------- tokens

  /** 16 to 128 letters, digits, hyphens and underscores. */
  ghost predicate TokenText(t: string) {
    16 <= |t| <= 128 && forall i :: 0 <= i < |t| ==> TokenCode(t[i] as int)
  }

  predicate TokenCode(n: int) {
    48 <= n <= 57 || 65 <= n <= 90 || 97 <= n <= 122 || n == 45 || n == 95
  }

  lemma TokenCharIsCode(c: char)
    ensures IsTokenChar(c) <==> TokenCode(c as int)
    ensures TokenCode(c as int) ==> !BlankChar(c)
  {
  }

  /** What a client's token is after a payload with `sent`: the one it had if nothing was sent, the text sent
      if that is a token, white space aside, and otherwise none. */
  ghost predicate TokenAfter(held: Option<Token>, sent: Option<string>, token: Option<Token>) {
    match sent
    case None => token == held
    case Some(raw) =>
      && (forall t :: TokenText(t) && Wraps(raw, t) ==> token == Some(t))
      && ((forall t :: TokenText(t) ==> !Wraps(raw, t)) ==> token == None)
  }

  /** That settles it. */
  lemma TokenIsSettled(held: Option<Token>, sent: Option<string>, a: Option<Token>, b: Option<Token>)
    requires TokenAfter(held, sent, a) && TokenAfter(held, sent, b)
    ensures a == b
  {
    hide TokenText, Wraps;
  }

  lemma TokenIsBare(t: string)
    requires TokenText(t)
    ensures Bare(t)
  {
    hide BlankChar, TokenCode;
    TokenCharIsCode(t[0]);
    TokenCharIsCode(t[|t| - 1]);
  }

  lemma SanitizesTokenText(t: string)
    ensures (MIN_PRESENCE_TOKEN_LEN <= |t| <= MAX_PRESENCE_TOKEN_LEN && forall i :: 0 <= i < |t| ==> IsTokenChar(t[i]))
            <==> TokenText(t)
  {
    hide TokenCode, IsTokenChar;
    forall i | 0 <= i < |t| ensures IsTokenChar(t[i]) <==> TokenCode(t[i] as int) {
      TokenCharIsCode(t[i]);
    }
  }

  lemma TokensApply(held: Option<Token>, sent: Option<string>)
    ensures TokenAfter(held, sent, ApplyToken(held, sent))
  {
    hide TokenText, Wraps, Bare, Trim, TokenCode, IsTokenChar;
    if sent.Some? {
      var raw := sent.value;
      TrimShape(raw);
      SanitizesTokenText(Trim(raw));
      forall t | TokenText(t) && Wraps(raw, t) ensures ApplyToken(held, sent) == Some(t) {
        TokenIsBare(t);
        TrimIsUnique(raw, t);
      }
    }
  }

  // ------------------------------------------------------------------ profiles

  /** `kept` is `text`, or its first `max` characters when it is longer. */
  ghost predicate Clipped(text: string, max: nat, kept: string) {
    if |text| <= max then kept == text else kept == text[..max]
  }

  /** The name kept from what was sent: without the white space around it, at most 32 characters. */
  ghost predicate NameAfter(sent: Option<string>, name: string) {
    match sent
    case None => name == ""
    case Some(raw) => forall n :: Bare(n) && Wraps(raw, n) ==> Clipped(n, 32, name)
  }

  /** The avatar is kept as it was sent, up to 512 characters. */
  ghost predicate AvatarAfter(sent: Option<string>, avatar: string) {
    match sent
    case None => avatar == ""
    case Some(raw) => Clipped(raw, 512, avatar)
  }

  /** A finite height scale is moved into `[0.5, 2]`, anything else is dropped. */
  ghost predicate ScaleAfter(sent: Option<F32>, scale: Option<real>) {
    match sent
    case Some(Fin(v)) =>
      if 0.5 <= v <= 2.0 then scale == Some(v) else if v < 0.5 then scale == Some(0.5) else scale == Some(2.0)
    case _ => scale == None
  }

  lemma NamesApply(sent: Option<string>)
    ensures NameAfter(sent, Truncate(Trim(OrEmpty(sent)), MAX_NICKNAME_LEN))
    ensures sent.Some? ==> Bare(Trim(sent.value)) && Wraps(sent.value, Trim(sent.value))
  {
    hide Wraps, Bare;
    if sent.Some? {
      hide Trim;
      TrimShape(sent.value);
      forall n | Bare(n) && Wraps(sent.value, n) ensures Trim(sent.value) == n {
        TrimIsUnique(sent.value, n);
      }
    }
  }

  /** The profile a payload leaves in a record; nothing else of the record changes but the token. */
  ghost predicate ProfileAfter(rec: ClientRecord, data: UserData, rec': ClientRecord) {
    && NameAfter(data.nickname, rec'.info.nickname)
    && AvatarAfter(data.avatar, rec'.info.avatar)
    && ScaleAfter(data.heightScale, rec'.info.heightScale)
    && TokenAfter(rec.token, data.token, rec'.token)
    && rec'.info.position == rec.info.position && rec'.info.rotation == rec.info.rotation
    && rec'.info.wallet == rec.info.wallet && rec'.motion == rec.motion && rec'.room == rec.room
    && rec'.latestClaim == rec.latestClaim && rec'.lastClientSeq == rec.lastClientSeq
    && rec'.serverSeq == rec.serverSeq && rec'.wallet == rec.wallet
  }

  lemma ProfilesApply(rec: ClientRecord, data: UserData)
    ensures ProfileAfter(rec, data, WithProfile(rec, data))
  {
    hide NameAfter, TokenAfter, ApplyToken, Trim;
    NamesApply(data.nickname);
    TokensApply(rec.token, data.token);
  }

  // -------------------------------------------------------------------- speeds

  /** The speed of a motion: 3 when none was sent, otherwise what was sent, moved into `[0.1, 50]`. */
  ghost predicate SpeedAfter(sent: Option<F32>, speed: real) {
    match sent
    case None => speed == 3.0
    case Some(Fin(v)) =>
      if 0.1 <= v <= 50.0 then speed == v else if v < 0.1 then speed == 0.1 else speed == 50.0
    case Some(PosInf) => speed == 50.0
    case Some(NegInf) => speed == 0.1
    case Some(NaN) => speed == 0.0
  }

  lemma SpeedsApply(sent: Option<F32>)
    ensures SpeedAfter(sent, ClampSpeed(sent))
  {
  }

  // ------------------------------------------------------------------ messages

  /** The message sent on: without the white space around it, at most 500 characters. */
  ghost predicate MessageAfter(sent: string, message: string) {
    forall m :: Bare(m) && Wraps(sent, m) ==> Clipped(m, 500, message)
  }

  lemma MessagesApply(sent: string)
    ensures MessageAfter(sent, CleanMessage(sent))
    ensures CleanMessage(sent) == "" <==> Blank(sent)
  {
    hide Wraps, Bare, Trim, BlankChar;
    TrimShape(sent);
    forall m | Bare(m) && Wraps(sent, m) ensures Trim(sent) == m {
      TrimIsUnique(sent, m);
    }
    BlankTrims(sent);
  }

  lemma BlankTrims(sent: string)
    ensures Trim(sent) == "" <==> Blank(sent)
  {
    hide BlankChar, Trim;
    TrimShape(sent);
    if Blank(sent) {
      assert sent == sent + "" + "";
      TrimDrops(sent, "", "");
    }
    if Trim(sent) == "" {
      var l, r :| Blank(l) && Blank(r) && sent == l + Trim(sent) + r;
      assert sent == l + r;
    }
  }
}
