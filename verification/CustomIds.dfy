/** Signed custom identifiers of Discord controls. The message authentication code and the digest
    behind the default source identity are functions nothing is assumed about except the shape of
    their results. */
module CustomIds {
  import opened Wrappers
  import opened Encodings

  const MAX_LENGTH: nat := 100
  const MAX_SAFE_INTEGER: int := 9_007_199_254_740_991

  /** Takes the signed body and the secret. */
  type Mac = (string, string) -> string

  ghost predicate MacShape(mac: Mac) {
    forall body, secret :: |mac(body, secret)| == 22 && IsBase64Url(mac(body, secret))
  }

  lemma SymbolsAreDotless(t: string)
    requires IsBase64Url(t)
    ensures Dotless(t)
  {
    assert SymbolValue('.').None?;
  }

  lemma Base36IsDotless(t: string)
    requires IsBase36(t)
    ensures Dotless(t)
  {
    assert !IsDigit36('.');
  }

  predicate IsSafeNat(n: int) { 0 <= n <= MAX_SAFE_INTEGER }

  // ---------------------------------------------------------------- reservation controls

  datatype Action = Accept | Reject | AdminCancel | NoShow

  datatype Control = Control(action: Action, renderedEpoch: int, reservationId: string, sourceIdentity: string)

  function ActionCode(a: Action): string {
    match a
    case Accept => "a"
    case Reject => "r"
    case AdminCancel => "c"
    case NoShow => "n"
  }

  function ActionOf(code: string): Option<Action> {
    if code == "a" then Some(Accept)
    else if code == "r" then Some(Reject)
    else if code == "c" then Some(AdminCancel)
    else if code == "n" then Some(NoShow)
    else None
  }

  predicate IsIdChar(c: char) {
    'A' <= c <= 'Z' || 'a' <= c <= 'z' || '0' <= c <= '9' || c == '_' || c == '-'
  }

  predicate IsReservationId(t: string) {
    1 <= |t| <= 191 && forall i :: 0 <= i < |t| ==> IsIdChar(t[i])
  }

  function Identity(t: string): string
    requires IsReservationId(t)
  {
    EncodeBase64Url(t)
  }

  function DefaultSourceIdentity(digest: string -> string, reservationId: string): string {
    "reservation-" + digest(reservationId)
  }

  function ReservationBody(actionCode: string, epochText: string, identity: string, source: string): string {
    Join(["dr2", actionCode, epochText, identity, source])
  }

  /** None stands for the thrown error. */
  function BuildReservationId(mac: Mac, digest: string -> string, action: Action, renderedEpoch: int, reservationId: string,
                              secret: string, givenSource: Option<string>): Option<string>
  {
    if !IsReservationId(reservationId) || !IsSafeNat(renderedEpoch) || secret == "" then None
    else
      var source := match givenSource case Some(t) => t case None => DefaultSourceIdentity(digest, reservationId);
      if !IsReservationId(source) then None
      else
        var body := ReservationBody(ActionCode(action), ToBase36(renderedEpoch), Identity(reservationId), Identity(source));
        var customId := Join([body, mac(body, secret)]);
        if |customId| > MAX_LENGTH then None else Some(customId)
  }

  function ParseReservationId(mac: Mac, customId: string, secret: string): Option<Control> {
    if secret == "" || |customId| > MAX_LENGTH then None
    else
      var f := Split(customId);
      if |f| != 6 || f[0] != "dr2" || !IsBase36(f[2]) then None
      else
        var action := ActionOf(f[1]);
        var epoch := FromBase36(f[2]);
        var reservationId, source := DecodeBase64Url(f[3]), DecodeBase64Url(f[4]);
        var body := ReservationBody(f[1], f[2], f[3], f[4]);
        if
          || action.None? || !IsSafeNat(epoch)
          || !IsReservationId(reservationId) || !IsReservationId(source)
          || Identity(reservationId) != f[3] || Identity(source) != f[4]
          || f[5] != mac(body, secret)
        then None
        else Some(Control(action.value, epoch, reservationId, source))
  }

  lemma ActionCodesRoundTrip(a: Action)
    ensures ActionOf(ActionCode(a)) == Some(a) && Dotless(ActionCode(a))
  {
  }

  lemma SplitOfReservationId(mac: Mac, code: string, epochText: string, identity: string, source: string, secret: string)
    requires MacShape(mac)
    requires Dotless(code) && Dotless(epochText) && Dotless(identity) && Dotless(source)
    ensures var body := ReservationBody(code, epochText, identity, source);
            Split(Join([body, mac(body, secret)])) == ["dr2", code, epochText, identity, source, mac(body, secret)]
  {
    var body := ReservationBody(code, epochText, identity, source);
    var m := mac(body, secret);
    SymbolsAreDotless(m);
    var f := ["dr2", code, epochText, identity, source];
    JoinOfJoined(f, m);
    assert f + [m] == ["dr2", code, epochText, identity, source, m];
    SplitJoin(f + [m]);
  }

  lemma {:induction false} JoinOfJoined(parts: seq<string>, last: string)
    requires |parts| > 0
    ensures Join([Join(parts), last]) == Join(parts + [last])
  {
    assert [Join(parts), last][1..] == [last];
    if |parts| == 1 {
      assert (parts + [last])[1..] == [last];
    } else {
      JoinOfJoined(parts[1..], last);
      assert [Join(parts[1..]), last][1..] == [last];
      assert (parts + [last])[1..] == parts[1..] + [last];
    }
  }

  lemma {:induction false} PackedLength(b: seq<Byte>)
    ensures |Symbols(Pack(b))| == (4 * |b| + 2) / 3
  {
    SymbolsLength(Pack(b));
    if |b| >= 3 {
      PackedLength(b[3..]);
      SymbolsLength(Pack(b[3..]));
    }
  }

  lemma {:induction false} SymbolsLength(s: seq<Sextet>)
    ensures |Symbols(s)| == |s|
  {
    if s != [] { SymbolsLength(s[1..]); }
  }

  lemma {:induction false} BytesLength(t: string)
    requires OneByteEach(t)
    ensures |Bytes(t)| == |t|
  {
    if t != "" { BytesLength(t[1..]); }
  }

  /** A third more characters, rounded up. */
  function EncodedLength(n: nat): nat { (4 * n + 2) / 3 }

  lemma IdentityLength(t: string)
    requires IsReservationId(t)
    ensures |Identity(t)| == EncodedLength(|t|)
  {
    BytesLength(t);
    PackedLength(Bytes(t));
  }

  lemma ReservationLength(mac: Mac, action: Action, epochText: string, identity: string, source: string, secret: string)
    requires MacShape(mac)
    ensures var body := ReservationBody(ActionCode(action), epochText, identity, source);
            |Join([body, mac(body, secret)])| == 31 + |epochText| + |identity| + |source|
  {
    var code, body := ActionCode(action), ReservationBody(ActionCode(action), epochText, identity, source);
    JoinedLength(["dr2"], code);
    assert ["dr2"] + [code] == ["dr2", code];
    JoinedLength(["dr2", code], epochText);
    assert ["dr2", code] + [epochText] == ["dr2", code, epochText];
    JoinedLength(["dr2", code, epochText], identity);
    assert ["dr2", code, epochText] + [identity] == ["dr2", code, epochText, identity];
    JoinedLength(["dr2", code, epochText, identity], source);
    assert ["dr2", code, epochText, identity] + [source] == ["dr2", code, epochText, identity, source];
    JoinedLength([body], mac(body, secret));
  }

  /** Letters, digits, '_' and '-'. */
  predicate Plain(t: string) {
    forall c :: c in t ==> 'A' <= c <= 'Z' || 'a' <= c <= 'z' || '0' <= c <= '9' || c in "_-"
  }

  lemma PlainIsReservationId(t: string)
    ensures IsReservationId(t) <==> 1 <= |t| <= 191 && Plain(t)
  {
    assert forall i :: 0 <= i < |t| ==> t[i] in t;
    if 1 <= |t| <= 191 && Plain(t) {
      forall i | 0 <= i < |t| ensures IsIdChar(t[i]) { assert t[i] in t; }
    }
  }

  /** Which inputs the builder accepts: identifiers of up to 191 letters, digits, '_' and '-', a safe epoch,
      a secret, and not too much of everything for a hundred characters. */
  lemma AcceptedInputs(mac: Mac, digest: string -> string, action: Action, epoch: int, reservationId: string,
                       secret: string, source: string)
    requires MacShape(mac)
    ensures BuildReservationId(mac, digest, action, epoch, reservationId, secret, Some(source)).Some? <==>
            && 1 <= |reservationId| <= 191 && Plain(reservationId) && 1 <= |source| <= 191 && Plain(source)
            && 0 <= epoch <= 9_007_199_254_740_991 && secret != ""
            && EncodedLength(|reservationId|) + EncodedLength(|source|) + |ToBase36(epoch)| <= 69
  {
    PlainIsReservationId(reservationId);
    PlainIsReservationId(source);
    if IsReservationId(reservationId) && IsReservationId(source) && IsSafeNat(epoch) {
      IdentityLength(reservationId);
      IdentityLength(source);
      ReservationLength(mac, action, ToBase36(epoch), Identity(reservationId), Identity(source), secret);
    }
  }

  lemma IdentityIsDotless(t: string)
    requires IsReservationId(t)
    ensures Dotless(Identity(t))
  {
    Base64UrlRoundTrip(t);
    SymbolsAreDotless(Identity(t));
  }

  lemma ReservationFieldsParse(mac: Mac, customId: string, action: Action, epoch: nat, reservationId: string, source: string,
                               secret: string)
    requires IsReservationId(reservationId) && IsReservationId(source) && IsSafeNat(epoch)
    requires secret != "" && |customId| <= MAX_LENGTH
    requires var body := ReservationBody(ActionCode(action), ToBase36(epoch), Identity(reservationId), Identity(source));
             Split(customId) == ["dr2", ActionCode(action), ToBase36(epoch), Identity(reservationId), Identity(source), mac(body, secret)]
    ensures ParseReservationId(mac, customId, secret) == Some(Control(action, epoch, reservationId, source))
  {
    ActionCodesRoundTrip(action);
    Base36RoundTrip(epoch);
    Base64UrlRoundTrip(reservationId);
    Base64UrlRoundTrip(source);
  }

  /** Printing then parsing gives back the action, the epoch, the reservation and the source, for
      every input the builder accepts. */
  lemma ReservationIdRoundTrip(mac: Mac, digest: string -> string, action: Action, epoch: int, reservationId: string,
                               secret: string, givenSource: Option<string>)
    requires MacShape(mac)
    ensures var id := BuildReservationId(mac, digest, action, epoch, reservationId, secret, givenSource);
            var source := match givenSource case Some(t) => t case None => DefaultSourceIdentity(digest, reservationId);
            id.Some? ==> ParseReservationId(mac, id.value, secret) == Some(Control(action, epoch, reservationId, source))
  {
    var id := BuildReservationId(mac, digest, action, epoch, reservationId, secret, givenSource);
    if id.Some? {
      var source := match givenSource case Some(t) => t case None => DefaultSourceIdentity(digest, reservationId);
      ActionCodesRoundTrip(action);
      Base36IsDotless(ToBase36(epoch));
      IdentityIsDotless(reservationId);
      IdentityIsDotless(source);
      SplitOfReservationId(mac, ActionCode(action), ToBase36(epoch), Identity(reservationId), Identity(source), secret);
      ReservationFieldsParse(mac, id.value, action, epoch, reservationId, source, secret);
    }
  }

  /** Different controls never print the same identifier. */
  lemma ReservationIdsAreDistinct(mac: Mac, digest: string -> string, secret: string, a: Control, b: Control)
    requires MacShape(mac)
    requires var x := BuildReservationId(mac, digest, a.action, a.renderedEpoch, a.reservationId, secret, Some(a.sourceIdentity));
             x.Some? && x == BuildReservationId(mac, digest, b.action, b.renderedEpoch, b.reservationId, secret, Some(b.sourceIdentity))
    ensures a == b
  {
    ReservationIdRoundTrip(mac, digest, a.action, a.renderedEpoch, a.reservationId, secret, Some(a.sourceIdentity));
    ReservationIdRoundTrip(mac, digest, b.action, b.renderedEpoch, b.reservationId, secret, Some(b.sourceIdentity));
  }

  lemma {:induction false} FromBase36Shrinks(t: string)
    requires IsBase36(t)
    ensures |ToBase36(FromBase36(t))| <= |t|
  {
    var init, last := t[..|t| - 1], t[|t| - 1];
    if |t| > 1 {
      FromBase36Shrinks(init);
      assert (FromBase36(init) * 36 + Digit36Value(last)) / 36 == FromBase36(init);
    }
  }

  lemma {:induction false} JoinLength(parts: seq<string>, shorter: seq<string>)
    requires |parts| == |shorter| > 0 && forall i :: 0 <= i < |parts| ==> |shorter[i]| <= |parts[i]|
    ensures |Join(shorter)| <= |Join(parts)|
  {
    if |parts| > 1 { JoinLength(parts[1..], shorter[1..]); }
  }

  /** The identifier the builder prints again for the fields of an accepted one. */
  function Reprinted(mac: Mac, f: seq<string>, secret: string): string
    requires |f| == 6 && IsBase36(f[2])
  {
    var body := ReservationBody(f[1], ToBase36(FromBase36(f[2])), f[3], f[4]);
    Join([body, mac(body, secret)])
  }

  lemma ReprintedIsNoLonger(mac: Mac, f: seq<string>, secret: string)
    requires MacShape(mac) && |f| == 6 && f[0] == "dr2" && IsBase36(f[2]) && |f[5]| == 22
    ensures |Reprinted(mac, f, secret)| <= |Join(f)|
  {
    var text := ToBase36(FromBase36(f[2]));
    var body := ReservationBody(f[1], text, f[3], f[4]);
    FromBase36Shrinks(f[2]);
    JoinOfJoined(["dr2", f[1], text, f[3], f[4]], mac(body, secret));
    JoinLength(f, ["dr2", f[1], text, f[3], f[4]] + [mac(body, secret)]);
  }

  lemma ReprintedIffCanonical(mac: Mac, customId: string, f: seq<string>, secret: string)
    requires MacShape(mac) && f == Split(customId) && |f| == 6 && f[0] == "dr2" && IsBase36(f[2])
    requires f[5] == mac(ReservationBody(f[1], f[2], f[3], f[4]), secret)
    ensures Reprinted(mac, f, secret) == customId <==> IsCanonicalBase36(f[2])
  {
    var text := ToBase36(FromBase36(f[2]));
    OnlyCanonicalBase36Reprints(f[2]);
    Base36IsDotless(text);
    SplitIsDotless(customId);
    SplitOfReservationId(mac, f[1], text, f[3], f[4], secret);
    JoinSplit(customId);
    JoinOfJoined(["dr2", f[1], f[2], f[3], f[4]], f[5]);
    assert ["dr2", f[1], f[2], f[3], f[4]] + [f[5]] == f;
  }

  /** An accepted identifier is what the builder prints for what was read out of it, exactly when
      its epoch has no leading zero. */
  lemma AcceptedReservationIdIsPrinted(mac: Mac, digest: string -> string, customId: string, secret: string)
    requires MacShape(mac)
    ensures var c := ParseReservationId(mac, customId, secret);
            c.Some? ==>
              && |Split(customId)| == 6
              && (BuildReservationId(mac, digest, c.value.action, c.value.renderedEpoch, c.value.reservationId, secret, Some(c.value.sourceIdentity))
                    == Some(customId)
                  <==> IsCanonicalBase36(Split(customId)[2]))
  {
    var parsed := ParseReservationId(mac, customId, secret);
    if parsed.Some? {
      var c := parsed.value;
      var f := Split(customId);
      JoinSplit(customId);
      assert ActionCode(c.action) == f[1];
      ReprintedIsNoLonger(mac, f, secret);
      ReprintedIffCanonical(mac, customId, f, secret);
      assert BuildReservationId(mac, digest, c.action, c.renderedEpoch, c.reservationId, secret, Some(c.sourceIdentity))
        == Some(Reprinted(mac, f, secret));
    }
  }

  // ---------------------------------------------------------------- operations board

  datatype BoardAction = Backlog | Refresh | RosterEighth | RosterFirst

  function BoardCode(a: BoardAction): string {
    match a
    case Refresh => "r"
    case RosterEighth => "8"
    case RosterFirst => "1"
    case Backlog => "b"
  }

  function BoardActionOf(code: string): Option<BoardAction> {
    if code == "r" then Some(Refresh)
    else if code == "8" then Some(RosterEighth)
    else if code == "1" then Some(RosterFirst)
    else if code == "b" then Some(Backlog)
    else None
  }

  function BuildBoardId(mac: Mac, action: BoardAction, revision: int, secret: string): Option<string> {
    if !IsSafeNat(revision) || secret == "" then None
    else
      var body := Join(["db1", BoardCode(action), ToBase36(revision)]);
      var customId := Join([body, mac(body, secret)]);
      if |customId| > MAX_LENGTH then None else Some(customId)
  }

  function ParseBoardId(mac: Mac, customId: string, secret: string): Option<(BoardAction, nat)> {
    var f := Split(customId);
    if |f| != 4 || f[0] != "db1" || !IsBase36(f[2]) then None
    else
      var action := BoardActionOf(f[1]);
      var revision := FromBase36(f[2]);
      if action.None? || !IsSafeNat(revision) || f[3] != mac(Join([f[0], f[1], f[2]]), secret) then None
      else Some((action.value, revision))
  }

  lemma SplitOfBoardId(mac: Mac, code: string, text: string, secret: string)
    requires MacShape(mac) && Dotless(code) && Dotless(text)
    ensures var body := Join(["db1", code, text]);
            Split(Join([body, mac(body, secret)])) == ["db1", code, text, mac(body, secret)]
  {
    var f := ["db1", code, text];
    var m := mac(Join(f), secret);
    SymbolsAreDotless(m);
    JoinOfJoined(f, m);
    assert f + [m] == ["db1", code, text, m];
    SplitJoin(f + [m]);
  }

  lemma BoardIdRoundTrip(mac: Mac, action: BoardAction, revision: int, secret: string)
    requires MacShape(mac)
    ensures var id := BuildBoardId(mac, action, revision, secret);
            id.Some? ==> ParseBoardId(mac, id.value, secret) == Some((action, revision))
    ensures BuildBoardId(mac, action, revision, secret).None? <==> !IsSafeNat(revision) || secret == ""
  {
    if IsSafeNat(revision) && secret != "" {
      Base36RoundTrip(revision);
      Base36IsDotless(ToBase36(revision));
      assert Dotless(BoardCode(action)) && BoardActionOf(BoardCode(action)) == Some(action);
      SplitOfBoardId(mac, BoardCode(action), ToBase36(revision), secret);
      BoardIdFits(mac, action, revision, secret);
    }
  }

  lemma BoardIdFits(mac: Mac, action: BoardAction, revision: nat, secret: string)
    requires MacShape(mac) && IsSafeNat(revision)
    ensures var body := Join(["db1", BoardCode(action), ToBase36(revision)]);
            |Join([body, mac(body, secret)])| <= MAX_LENGTH
  {
    ShortBase36(revision, 11);
    var body := Join(["db1", BoardCode(action), ToBase36(revision)]);
    JoinedLength(["db1", BoardCode(action)], ToBase36(revision));
    JoinedLength(["db1"], BoardCode(action));
    JoinedLength([body], mac(body, secret));
  }

  lemma JoinedLength(parts: seq<string>, last: string)
    requires |parts| > 0
    ensures |Join(parts + [last])| == |Join(parts)| + 1 + |last|
  {
    JoinOfJoined(parts, last);
    assert [Join(parts), last][1..] == [last];
  }

  function Power36(n: nat): nat {
    if n == 0 then 1 else 36 * Power36(n - 1)
  }

  lemma {:induction false} ShortBase36(n: nat, digits: nat)
    requires digits > 0 && n < Power36(digits)
    ensures |ToBase36(n)| <= digits
  {
    if n >= 36 { ShortBase36(n / 36, digits - 1); }
  }

  /** As for reservation controls: an accepted identifier is reprinted exactly when its revision has
      no leading zero (and is no longer than an identifier may be, which the parser does not check). */
  lemma AcceptedBoardIdIsPrinted(mac: Mac, customId: string, secret: string)
    requires MacShape(mac) && secret != ""
    ensures var parsed := ParseBoardId(mac, customId, secret);
            parsed.Some? ==>
              && |Split(customId)| == 4
              && (BuildBoardId(mac, parsed.value.0, parsed.value.1, secret) == Some(customId) <==> IsCanonicalBase36(Split(customId)[2]))
  {
    var parsed := ParseBoardId(mac, customId, secret);
    if parsed.Some? {
      var f := Split(customId);
      JoinSplit(customId);
      OnlyCanonicalBase36Reprints(f[2]);
      assert BoardCode(parsed.value.0) == f[1];
      var text := ToBase36(parsed.value.1);
      Base36IsDotless(text);
      BoardIdRoundTrip(mac, parsed.value.0, parsed.value.1, secret);
      SplitOfBoardId(mac, f[1], text, secret);
      JoinOfJoined([f[0], f[1], f[2]], f[3]);
      assert [f[0], f[1], f[2]] + [f[3]] == f;
    }
  }

  // ---------------------------------------------------------------- reason dialogs

  predicate IsSnowflake(t: string) {
    17 <= |t| <= 20 && forall i :: 0 <= i < |t| ==> '0' <= t[i] <= '9'
  }

  function BuildReasonId(mac: Mac, interactionId: string, secret: string): Option<string> {
    if !IsSnowflake(interactionId) || secret == "" then None
    else
      var body := Join(["da1", interactionId]);
      Some(Join([body, mac(body, secret)]))
  }

  /** A reason dialog can be made for every interaction identifier of 17 to 20 digits. */
  lemma AcceptedInteractions(mac: Mac, interactionId: string, secret: string)
    ensures BuildReasonId(mac, interactionId, secret).Some? <==>
            17 <= |interactionId| <= 20 && (forall c :: c in interactionId ==> '0' <= c <= '9') && secret != ""
  {
    assert forall i :: 0 <= i < |interactionId| ==> interactionId[i] in interactionId;
  }

  function ParseReasonId(mac: Mac, customId: string, secret: string): Option<string> {
    var f := Split(customId);
    if |f| == 3 && f[0] == "da1" && IsSnowflake(f[1]) && f[2] == mac(Join([f[0], f[1]]), secret) then Some(f[1]) else None
  }

  /** For reason dialogs the parser accepts exactly what the builder prints. */
  lemma ReasonIdsAreExactlyThePrinted(mac: Mac, customId: string, interactionId: string, secret: string)
    requires MacShape(mac) && secret != ""
    ensures ParseReasonId(mac, customId, secret) == Some(interactionId) <==> BuildReasonId(mac, interactionId, secret) == Some(customId)
  {
    if IsSnowflake(interactionId) {
      var f := ["da1", interactionId];
      var m := mac(Join(f), secret);
      SymbolsAreDotless(m);
      JoinOfJoined(f, m);
      assert f + [m] == ["da1", interactionId, m];
      assert forall p :: p in f + [m] ==> Dotless(p);
      SplitJoin(f + [m]);
    }
    JoinSplit(customId);
    var g := Split(customId);
    if |g| == 3 {
      JoinOfJoined([g[0], g[1]], g[2]);
      assert [g[0], g[1]] + [g[2]] == g;
    }
  }
}
